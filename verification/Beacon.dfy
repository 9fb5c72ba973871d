/**
 * The epoch randomness: commitment and reveal handlers (internal/network/node.go:325-439, 465-497) and the
 * checks of a reveal (internal/consensus/drg.go:47-80).
 */
module Beacon {
  import opened Basics

  type Octets = seq<bv8>
  /** The hexadecimal public key in a message, as it was sent. */
  type Sender = string

  const SECRET_BYTES: int := 32

  /** A nil commitment is None. */
  datatype Msg =
    | Commitment(epoch: i64, sender: Sender, commitment: Option<Octets>, signature: Octets)
    | Reveal(epoch: i64, sender: Sender, u: Octets, r: Octets, signature: Octets)

  datatype RevealData = RevealData(u: Octets, r: Octets)

  /** Hexadecimal decoding, ECDSA on the message's payload, and SHA-256. */
  datatype Crypto = Crypto(decode: Sender -> Option<Octets>, signed: Msg -> bool, sha: Octets -> Octets)

  /** One validator in one epoch. */
  datatype Slot = Slot(epoch: i64, sender: Sender)

  /** `commit:<epoch>:<sender>` or `reveal:<epoch>:<sender>`. */
  datatype MsgKey = MsgKey(opening: bool, slot: Slot)

  /** The four maps, the nested ones keyed by epoch and sender together. */
  datatype State = State(
    seen: map<MsgKey, u64>,
    commitments: map<Slot, Option<Octets>>,
    pending: map<Slot, RevealData>,
    randoms: map<Slot, Octets>)

  function SlotOf(m: Msg): Slot {
    Slot(m.epoch, m.sender)
  }

  function KeyOf(m: Msg): MsgKey {
    MsgKey(m.Reveal?, SlotOf(m))
  }

  /** `uint64(epoch)`. */
  function EpochNumber(e: i64): u64 {
    if e >= 0 then e else e + TWO64
  }

  predicate Valid(c: Crypto, m: Msg) {
    c.decode(m.sender).Some? && c.signed(m)
  }

  /** What a commitment is the digest of. */
  function Secret(key: Octets, d: RevealData): Octets {
    key + d.r + d.u
  }

  predicate VerifyCommitment(c: Crypto, key: Octets, d: RevealData, commitment: Octets) {
    |d.r| == SECRET_BYTES && |d.u| == SECRET_BYTES && c.sha(Secret(key, d)) == commitment
  }

  /** Where the digest separates two secrets, a commitment opens for one key and to one secret at most. */
  lemma CommitmentBinds(c: Crypto, key: Octets, d: RevealData, key': Octets, d': RevealData, commitment: Octets)
    requires |key| == |key'|
    requires Secret(key, d) != Secret(key', d') ==> c.sha(Secret(key, d)) != c.sha(Secret(key', d'))
    requires VerifyCommitment(c, key, d, commitment) && VerifyCommitment(c, key', d', commitment)
    ensures key == key' && d == d'
  {
    var x, y, n := Secret(key, d), Secret(key', d'), |key|;
    assert key == x[..n] && key' == y[..n];
    assert d.r == x[n..n + 32] && d'.r == y[n..n + 32];
    assert d.u == x[n + 32..] && d'.u == y[n + 32..];
  }

  // ----- Handling one message -----

  predicate HasSeen(s: State, m: Msg) {
    KeyOf(m) in s.seen && s.seen[KeyOf(m)] == EpochNumber(m.epoch)
  }

  function MarkSeen(s: State, m: Msg): State {
    s.(seen := s.seen[KeyOf(m) := EpochNumber(m.epoch)])
  }

  /** Stores the commitment, and opens it with a reveal that came before it. */
  function StoreCommitment(c: Crypto, s: State, m: Msg): State
    requires m.Commitment? && c.decode(m.sender).Some?
  {
    var k := SlotOf(m);
    var t := s.(commitments := s.commitments[k := m.commitment]);
    if k in s.pending && s.pending[k].u != [] && m.commitment.Some?
       && VerifyCommitment(c, c.decode(m.sender).value, s.pending[k], m.commitment.value)
    then t.(randoms := t.randoms[k := s.pending[k].u], pending := t.pending - {k})
    else t
  }

  /** Opens the commitment, or keeps the reveal until the commitment arrives. */
  function StoreReveal(c: Crypto, s: State, m: Msg): State
    requires m.Reveal? && c.decode(m.sender).Some?
  {
    var k := SlotOf(m);
    if k !in s.commitments || s.commitments[k].None? then s.(pending := s.pending[k := RevealData(m.u, m.r)])
    else if VerifyCommitment(c, c.decode(m.sender).value, RevealData(m.u, m.r), s.commitments[k].value)
    then s.(randoms := s.randoms[k := m.u])
    else s
  }

  function Handle(c: Crypto, s: State, m: Msg): State {
    if HasSeen(s, m) || !Valid(c, m) then s
    else if m.Commitment? then StoreCommitment(c, MarkSeen(s, m), m)
    else StoreReveal(c, MarkSeen(s, m), m)
  }

  /** Deletes what belongs to epochs more than two behind. */
  function Prune(s: State, current: i64): State {
    var oldest := ToI64(current - 2);
    State(
      map k | k in s.seen && ToI64(s.seen[k]) >= oldest :: s.seen[k],
      map k | k in s.commitments && k.epoch >= oldest :: s.commitments[k],
      map k | k in s.pending && k.epoch >= oldest :: s.pending[k],
      map k | k in s.randoms && k.epoch >= oldest :: s.randoms[k])
  }

  // ----- Runs -----

  datatype Event = Deliver(msg: Msg) | Cleanup(current: i64)

  function Step(c: Crypto, s: State, e: Event): State {
    match e
    case Deliver(m) => Handle(c, s, m)
    case Cleanup(n) => Prune(s, n)
  }

  function Run(c: Crypto, es: seq<Event>): State {
    if es == [] then State(map[], map[], map[], map[]) else Step(c, Run(c, es[..|es| - 1]), es[|es| - 1])
  }

  /** No clean-up of the run reaches the epoch. */
  predicate Keeps(es: seq<Event>, epoch: i64) {
    forall i :: 0 <= i < |es| && es[i].Cleanup? ==> epoch >= ToI64(es[i].current - 2)
  }

  /** The first valid message of a kind for a slot. */
  function First(c: Crypto, es: seq<Event>, k: Slot, opening: bool): Option<Msg> {
    if es == [] then None
    else
      var p, e := First(c, es[..|es| - 1], k, opening), es[|es| - 1];
      if p.None? && e.Deliver? && Valid(c, e.msg) && KeyOf(e.msg) == MsgKey(opening, k) then Some(e.msg) else p
  }

  lemma {:induction false} FirstIs(c: Crypto, es: seq<Event>, k: Slot, opening: bool)
    ensures First(c, es, k, opening).Some? <==>
              exists m :: Deliver(m) in es && Valid(c, m) && KeyOf(m) == MsgKey(opening, k)
    ensures First(c, es, k, opening).Some? ==>
              var m := First(c, es, k, opening).value;
              Deliver(m) in es && Valid(c, m) && KeyOf(m) == MsgKey(opening, k)
  {
    if es == [] {
    } else {
      var p, e := es[..|es| - 1], es[|es| - 1];
      FirstIs(c, p, k, opening);
      assert es == p + [e];
    }
  }

  /** What a commitment and a reveal amount to. */
  function Outcome(c: Crypto, commitment: Option<Msg>, opening: Option<Msg>): Option<Octets>
    requires commitment.Some? ==> commitment.value.Commitment?
    requires opening.Some? ==> opening.value.Reveal?
  {
    if commitment.Some? && opening.Some? && commitment.value.commitment.Some?
       && c.decode(opening.value.sender).Some?
       && VerifyCommitment(c, c.decode(opening.value.sender).value, RevealData(opening.value.u, opening.value.r),
                           commitment.value.commitment.value)
    then Some(opening.value.u)
    else None
  }

  function Look<K, V>(m: map<K, V>, k: K): Option<V> {
    if k in m then Some(m[k]) else None
  }

  function RandomAt(s: State, k: Slot): Option<Octets> {
    Look(s.randoms, k)
  }

  /** What a state holds for one slot, once `commitment` and `reveal` are the first valid messages. */
  ghost predicate Holds(c: Crypto, s: State, k: Slot, commitment: Option<Msg>, opening: Option<Msg>) {
    && (commitment.Some? ==>
          commitment.value.Commitment? && SlotOf(commitment.value) == k && Valid(c, commitment.value))
    && (opening.Some? ==> opening.value.Reveal? && SlotOf(opening.value) == k && Valid(c, opening.value))
    && (MsgKey(false, k) in s.seen <==> commitment.Some?)
    && (MsgKey(true, k) in s.seen <==> opening.Some?)
    && (MsgKey(false, k) in s.seen ==> s.seen[MsgKey(false, k)] == EpochNumber(k.epoch))
    && (MsgKey(true, k) in s.seen ==> s.seen[MsgKey(true, k)] == EpochNumber(k.epoch))
    && (k in s.commitments <==> commitment.Some?)
    && (k in s.commitments ==> s.commitments[k] == commitment.value.commitment)
    && (k in s.pending ==> opening.Some? && s.pending[k] == RevealData(opening.value.u, opening.value.r))
    && (opening.Some? && commitment.None? ==> k in s.pending)
    && RandomAt(s, k) == Outcome(c, commitment, opening)
  }

  /** Two states hold the same for a slot. */
  ghost predicate SameAt(s: State, s': State, k: Slot) {
    && Look(s.seen, MsgKey(false, k)) == Look(s'.seen, MsgKey(false, k))
    && Look(s.seen, MsgKey(true, k)) == Look(s'.seen, MsgKey(true, k))
    && Look(s.commitments, k) == Look(s'.commitments, k)
    && Look(s.pending, k) == Look(s'.pending, k)
    && Look(s.randoms, k) == Look(s'.randoms, k)
  }

  lemma OtherSlot(c: Crypto, s: State, k: Slot, m: Msg)
    requires SlotOf(m) != k
    ensures SameAt(s, Handle(c, s, m), k)
  {
    var t := MarkSeen(s, m);
    assert SameAt(s, t, k);
    if Valid(c, m) {
      if m.Commitment? { OtherCommitment(c, t, k, m); } else { OtherReveal(c, t, k, m); }
    }
    hide StoreCommitment;
    hide StoreReveal;
  }

  lemma OtherCommitment(c: Crypto, s: State, k: Slot, m: Msg)
    requires m.Commitment? && c.decode(m.sender).Some? && SlotOf(m) != k
    ensures SameAt(s, StoreCommitment(c, s, m), k)
  {
    hide VerifyCommitment;
  }

  lemma OtherReveal(c: Crypto, s: State, k: Slot, m: Msg)
    requires m.Reveal? && c.decode(m.sender).Some? && SlotOf(m) != k
    ensures SameAt(s, StoreReveal(c, s, m), k)
  {
    hide VerifyCommitment;
  }

  lemma SameHolds(c: Crypto, s: State, s': State, k: Slot, commitment: Option<Msg>, opening: Option<Msg>)
    requires Holds(c, s, k, commitment, opening) && SameAt(s, s', k)
    ensures Holds(c, s', k, commitment, opening)
  {
    hide Outcome;
  }

  lemma CommitmentHolds(c: Crypto, s: State, k: Slot, opening: Option<Msg>, m: Msg)
    requires Holds(c, s, k, None, opening) && m.Commitment? && SlotOf(m) == k && Valid(c, m)
    ensures Holds(c, StoreCommitment(c, MarkSeen(s, m), m), k, Some(m), opening)
  {
    hide VerifyCommitment;
    if opening.Some? && opening.value.u == [] { EmptyNeverVerifies(c, c.decode(m.sender).value, s.pending[k]); }
  }

  lemma EmptyNeverVerifies(c: Crypto, key: Octets, d: RevealData)
    requires d.u == []
    ensures forall x :: !VerifyCommitment(c, key, d, x)
  {
  }

  lemma RevealHolds(c: Crypto, s: State, k: Slot, commitment: Option<Msg>, m: Msg)
    requires Holds(c, s, k, commitment, None) && m.Reveal? && SlotOf(m) == k && Valid(c, m)
    ensures Holds(c, StoreReveal(c, MarkSeen(s, m), m), k, commitment, Some(m))
  {
    hide VerifyCommitment;
  }

  lemma HandleHolds(c: Crypto, s: State, k: Slot, commitment: Option<Msg>, opening: Option<Msg>, m: Msg)
    requires Holds(c, s, k, commitment, opening)
    ensures var counts := Valid(c, m) && SlotOf(m) == k;
            Holds(c, Handle(c, s, m), k,
                  if counts && m.Commitment? && commitment.None? then Some(m) else commitment,
                  if counts && m.Reveal? && opening.None? then Some(m) else opening)
  {
    hide StoreCommitment;
    hide StoreReveal;
    hide Outcome;
    if SlotOf(m) != k {
      OtherSlot(c, s, k, m);
      SameHolds(c, s, Handle(c, s, m), k, commitment, opening);
    } else if Valid(c, m) && !HasSeen(s, m) {
      if m.Commitment? {
        CommitmentHolds(c, s, k, opening, m);
      } else {
        RevealHolds(c, s, k, commitment, m);
      }
    }
  }

  lemma PruneHolds(c: Crypto, s: State, k: Slot, commitment: Option<Msg>, opening: Option<Msg>, current: i64)
    requires Holds(c, s, k, commitment, opening) && k.epoch >= ToI64(current - 2)
    ensures Holds(c, Prune(s, current), k, commitment, opening)
  {
    EpochRoundTrip(k.epoch);
  }

  lemma EpochRoundTrip(e: i64)
    ensures ToI64(EpochNumber(e)) == e
  {
  }

  /** A run holds what the first valid commitment and the first valid reveal of a slot determine, in either order. */
  lemma {:induction false} RunHolds(c: Crypto, es: seq<Event>, k: Slot)
    requires Keeps(es, k.epoch)
    ensures Holds(c, Run(c, es), k, First(c, es, k, false), First(c, es, k, true))
  {
    hide Holds;
    hide Handle;
    hide Prune;
    if es == [] {
      EmptyHolds(c, k);
    } else {
      var p, e := es[..|es| - 1], es[|es| - 1];
      assert forall i :: 0 <= i < |p| ==> p[i] == es[i];
      RunHolds(c, p, k);
      match e {
        case Deliver(m) => HandleHolds(c, Run(c, p), k, First(c, p, k, false), First(c, p, k, true), m);
        case Cleanup(n) => PruneHolds(c, Run(c, p), k, First(c, p, k, false), First(c, p, k, true), n);
      }
    }
  }

  lemma EmptyHolds(c: Crypto, k: Slot)
    ensures Holds(c, Run(c, []), k, None, None)
  {
  }

  // ----- Convergence -----

  /** The same messages, in any order and with any repeats. */
  ghost predicate SameMessages(es: seq<Event>, es': seq<Event>) {
    forall m :: Deliver(m) in es <==> Deliver(m) in es'
  }

  ghost predicate Sent(c: Crypto, es: seq<Event>, k: Slot, opening: bool, m: Msg) {
    Deliver(m) in es && Valid(c, m) && KeyOf(m) == MsgKey(opening, k)
  }

  ghost predicate SentPair(c: Crypto, es: seq<Event>, k: Slot, a: Msg, r: Msg) {
    Sent(c, es, k, false, a) && Sent(c, es, k, true, r)
  }

  /** All pairs of a valid commitment and a valid reveal of the slot amount to the same. */
  ghost predicate PairsAgree(c: Crypto, es: seq<Event>, k: Slot) {
    forall a, r, a', r' | SentPair(c, es, k, a, r) && SentPair(c, es, k, a', r') ::
      Outcome(c, Some(a), Some(r)) == Outcome(c, Some(a'), Some(r'))
  }

  lemma RunOutcome(c: Crypto, es: seq<Event>, k: Slot)
    requires Keeps(es, k.epoch)
    ensures var a, r := First(c, es, k, false), First(c, es, k, true);
            && (a.Some? ==> Sent(c, es, k, false, a.value))
            && (r.Some? ==> Sent(c, es, k, true, r.value))
            && (a.None? ==> forall m :: !Sent(c, es, k, false, m))
            && (r.None? ==> forall m :: !Sent(c, es, k, true, m))
            && RandomAt(Run(c, es), k) == Outcome(c, a, r)
  {
    FirstIs(c, es, k, false);
    FirstIs(c, es, k, true);
    RunHolds(c, es, k);
  }

  lemma Converges(c: Crypto, es: seq<Event>, es': seq<Event>, k: Slot)
    requires Keeps(es, k.epoch) && Keeps(es', k.epoch) && SameMessages(es, es') && PairsAgree(c, es, k)
    ensures RandomAt(Run(c, es), k) == RandomAt(Run(c, es'), k)
  {
    hide Run;
    hide First;
    hide VerifyCommitment;
    RunOutcome(c, es, k);
    RunOutcome(c, es', k);
    var a, r, a', r' := First(c, es, k, false), First(c, es, k, true), First(c, es', k, false), First(c, es', k, true);
    assert a.Some? ==> Sent(c, es', k, false, a.value);
    assert r.Some? ==> Sent(c, es', k, true, r.value);
    assert a'.Some? ==> Sent(c, es, k, false, a'.value);
    assert r'.Some? ==> Sent(c, es, k, true, r'.value);
  }

  /** Delivering a pair ahead of everything else makes it the one that counts. */
  lemma {:induction false} AheadWins(c: Crypto, m: Msg, es: seq<Event>, k: Slot, opening: bool)
    requires Valid(c, m) && KeyOf(m) == MsgKey(opening, k)
    ensures First(c, [Deliver(m)] + es, k, opening) == Some(m)
  {
    var all := [Deliver(m)] + es;
    if es == [] {
      assert all == [Deliver(m)] && all[..0] == [];
    } else {
      assert all[..|all| - 1] == [Deliver(m)] + es[..|es| - 1];
      AheadWins(c, m, es[..|es| - 1], k, opening);
    }
  }

  lemma {:induction false} AheadSkips(c: Crypto, m: Msg, es: seq<Event>, k: Slot, opening: bool)
    requires KeyOf(m) != MsgKey(opening, k)
    ensures First(c, [Deliver(m)] + es, k, opening) == First(c, es, k, opening)
  {
    var all := [Deliver(m)] + es;
    if es == [] {
      assert all == [Deliver(m)] && all[..0] == [];
    } else {
      assert all[..|all| - 1] == [Deliver(m)] + es[..|es| - 1];
      AheadSkips(c, m, es[..|es| - 1], k, opening);
    }
  }

  lemma PairAhead(c: Crypto, a: Msg, r: Msg, es: seq<Event>, k: Slot)
    requires Keeps(es, k.epoch) && Sent(c, es, k, false, a) && Sent(c, es, k, true, r)
    ensures var es' := [Deliver(a)] + ([Deliver(r)] + es);
            && Keeps(es', k.epoch) && SameMessages(es, es')
            && RandomAt(Run(c, es'), k) == Outcome(c, Some(a), Some(r))
  {
    hide Run;
    var es' := [Deliver(a)] + ([Deliver(r)] + es);
    AheadWins(c, a, [Deliver(r)] + es, k, false);
    AheadSkips(c, a, [Deliver(r)] + es, k, true);
    AheadWins(c, r, es, k, true);
    hide First;
    forall i | 0 <= i < |es'| && es'[i].Cleanup? ensures k.epoch >= ToI64(es'[i].current - 2) {
      assert es'[i] == es[i - 2];
    }
    RunOutcome(c, es', k);
  }

  /** Every order and every repetition of the same messages. */
  ghost predicate AlwaysConverges(c: Crypto, es: seq<Event>, k: Slot) {
    forall es' :: Keeps(es', k.epoch) && SameMessages(es, es') ==> RandomAt(Run(c, es'), k) == RandomAt(Run(c, es), k)
  }

  /** The random value of a slot is independent of order and repetition exactly when all its pairs agree. */
  lemma ConvergesIff(c: Crypto, es: seq<Event>, k: Slot)
    requires Keeps(es, k.epoch)
    ensures AlwaysConverges(c, es, k) <==> PairsAgree(c, es, k)
  {
    hide Run;
    hide Outcome;
    hide Sent;
    hide Keeps;
    hide SameMessages;
    if PairsAgree(c, es, k) {
      forall es' | Keeps(es', k.epoch) && SameMessages(es, es')
        ensures RandomAt(Run(c, es'), k) == RandomAt(Run(c, es), k)
      {
        Converges(c, es, es', k);
      }
    }
    if AlwaysConverges(c, es, k) {
      PairsAre(c, es, k);
    }
  }

  lemma PairsAre(c: Crypto, es: seq<Event>, k: Slot)
    requires Keeps(es, k.epoch) && AlwaysConverges(c, es, k)
    ensures PairsAgree(c, es, k)
  {
    hide AlwaysConverges;
    hide Keeps;
    forall a, r, a', r' | SentPair(c, es, k, a, r) && SentPair(c, es, k, a', r')
      ensures Outcome(c, Some(a), Some(r)) == Outcome(c, Some(a'), Some(r'))
    {
      PairIs(c, es, k, a, r);
      PairIs(c, es, k, a', r');
    }
  }

  lemma PairIs(c: Crypto, es: seq<Event>, k: Slot, a: Msg, r: Msg)
    requires Keeps(es, k.epoch) && AlwaysConverges(c, es, k) && Sent(c, es, k, false, a) && Sent(c, es, k, true, r)
    ensures Outcome(c, Some(a), Some(r)) == RandomAt(Run(c, es), k)
  {
    hide Run;
    hide Keeps;
    hide SameMessages;
    hide RandomAt;
    PairAhead(c, a, r, es, k);
  }

  /** Each sender signs one commitment and one reveal for the epoch. */
  ghost predicate OneEach(c: Crypto, es: seq<Event>, epoch: i64) {
    forall m, m' | Sent(c, es, SlotOf(m), m.Reveal?, m) && Sent(c, es, SlotOf(m), m.Reveal?, m') && m.epoch == epoch ::
      && (m.Commitment? ==> m'.Commitment? && m.commitment == m'.commitment)
      && (m.Reveal? ==> m'.Reveal? && (m.u, m.r) == (m'.u, m'.r))
  }

  /** What a node holds for an epoch. */
  ghost function EpochRandoms(s: State, epoch: i64): map<Sender, Octets> {
    map k | k in s.randoms && k.epoch == epoch :: k.sender := s.randoms[k]
  }

  /** Two nodes that get the same messages hold the same randoms for the epoch. */
  lemma NodesConverge(c: Crypto, es: seq<Event>, es': seq<Event>, epoch: i64)
    requires Keeps(es, epoch) && Keeps(es', epoch) && SameMessages(es, es') && OneEach(c, es, epoch)
    ensures EpochRandoms(Run(c, es), epoch) == EpochRandoms(Run(c, es'), epoch)
  {
    hide Run;
    hide Outcome;
    hide SameMessages;
    hide Keeps;
    forall s: Sender ensures RandomAt(Run(c, es), Slot(epoch, s)) == RandomAt(Run(c, es'), Slot(epoch, s)) {
      OneEachAgree(c, es, Slot(epoch, s));
      Converges(c, es, es', Slot(epoch, s));
    }
    SameEpoch(Run(c, es), Run(c, es'), epoch);
  }

  lemma OneEachAgree(c: Crypto, es: seq<Event>, k: Slot)
    requires OneEach(c, es, k.epoch)
    ensures PairsAgree(c, es, k)
  {
    hide VerifyCommitment;
  }

  lemma SameEpoch(s: State, s': State, epoch: i64)
    requires forall x: Sender :: RandomAt(s, Slot(epoch, x)) == RandomAt(s', Slot(epoch, x))
    ensures EpochRandoms(s, epoch) == EpochRandoms(s', epoch)
  {
    forall x: Sender ensures x in EpochRandoms(s, epoch) <==> Slot(epoch, x) in s.randoms {}
    forall x: Sender ensures x in EpochRandoms(s', epoch) <==> Slot(epoch, x) in s'.randoms {}
    forall x: Sender | x in EpochRandoms(s, epoch) ensures EpochRandoms(s, epoch)[x] == EpochRandoms(s', epoch)[x] {
      assert RandomAt(s, Slot(epoch, x)) == RandomAt(s', Slot(epoch, x));
    }
  }
}
