/** The randomness state that the handlers change in place, and the seed drawn from it. */
module BeaconObjects {
  import opened Basics
  import opened Beacon

  /** The reveal does not open the commitment that is already there. */
  predicate Mismatch(c: Crypto, s: State, m: Msg)
    requires m.Reveal?
  {
    && SlotOf(m) in s.commitments && s.commitments[SlotOf(m)].Some? && c.decode(m.sender).Some?
    && !VerifyCommitment(c, c.decode(m.sender).value, RevealData(m.u, m.r), s.commitments[SlotOf(m)].value)
  }

  class DrgState {
    var seen: map<MsgKey, u64>
    var commitments: map<Slot, Option<Octets>>
    var pending: map<Slot, RevealData>
    var randoms: map<Slot, Octets>
    /** The node's own secrets, by epoch; the handlers do not touch them. */
    var mySecrets: map<i64, RevealData>

    constructor ()
      ensures View() == State(map[], map[], map[], map[]) && mySecrets == map[]
    {
      seen, commitments, pending, randoms, mySecrets := map[], map[], map[], map[], map[];
    }

    ghost function View(): State
      reads this
    {
      State(seen, commitments, pending, randoms)
    }

    method HasSeenDRGMessage(key: MsgKey, epoch: u64) returns (r: bool)
      ensures r == (key in seen && seen[key] == epoch)
    {
      r := key in seen && seen[key] == epoch;
    }

    method MarkDRGMessageSeen(key: MsgKey, epoch: u64)
      modifies this`seen
      ensures seen == old(seen)[key := epoch]
    {
      seen := seen[key := epoch];
    }

    /** `ok` is false where the handler returns an error. */
    method CommitmentHandler(c: Crypto, m: Msg) returns (ok: bool)
      requires m.Commitment?
      modifies this
      ensures View() == Handle(c, old(View()), m) && mySecrets == old(mySecrets)
      ensures ok == (HasSeen(old(View()), m) || Valid(c, m))
    {
      var duplicate := HasSeenDRGMessage(KeyOf(m), EpochNumber(m.epoch));
      if duplicate {
        return true;
      }
      var key := c.decode(m.sender);
      if key.None? || !c.signed(m) {
        return false;
      }
      MarkDRGMessageSeen(KeyOf(m), EpochNumber(m.epoch));
      var k := SlotOf(m);
      commitments := commitments[k := m.commitment];
      if k in pending && pending[k].u != [] {
        if m.commitment.Some? && VerifyCommitment(c, key.value, pending[k], m.commitment.value) {
          randoms := randoms[k := pending[k].u];
          pending := pending - {k};
        }
      }
      ok := true;
    }

    method RevealHandler(c: Crypto, m: Msg) returns (ok: bool)
      requires m.Reveal?
      modifies this
      ensures View() == Handle(c, old(View()), m) && mySecrets == old(mySecrets)
      ensures ok == (HasSeen(old(View()), m) || (Valid(c, m) && !Mismatch(c, old(View()), m)))
    {
      var duplicate := HasSeenDRGMessage(KeyOf(m), EpochNumber(m.epoch));
      if duplicate {
        return true;
      }
      var key := c.decode(m.sender);
      if key.None? || !c.signed(m) {
        return false;
      }
      MarkDRGMessageSeen(KeyOf(m), EpochNumber(m.epoch));
      var k, d := SlotOf(m), RevealData(m.u, m.r);
      if k !in commitments || commitments[k].None? {
        pending := pending[k := d];
        return true;
      }
      if !VerifyCommitment(c, key.value, d, commitments[k].value) {
        return false;
      }
      randoms := randoms[k := m.u];
      ok := true;
    }

    method PruneDRGEpochState(current: i64)
      modifies this
      ensures View() == Prune(old(View()), current)
      ensures mySecrets == map e | e in old(mySecrets) && e >= ToI64(current - 2) :: old(mySecrets)[e]
    {
      var oldest := ToI64(current - 2);
      commitments := PruneSlots(commitments, oldest);
      mySecrets := PruneSecrets(mySecrets, oldest);
      pending := PruneSlots(pending, oldest);
      randoms := PruneSlots(randoms, oldest);
      seen := PruneSeen(seen, oldest);
    }
  }

  /** Deletes old entries one by one while ranging over the map. */
  method PruneSlots<V>(m: map<Slot, V>, oldest: i64) returns (r: map<Slot, V>)
    ensures r == map k | k in m && k.epoch >= oldest :: m[k]
  {
    r := m;
    var todo := m.Keys;
    while todo != {}
      invariant todo <= m.Keys
      invariant r == map k | k in m && (k in todo || k.epoch >= oldest) :: m[k]
      decreases todo
    {
      var k :| k in todo;
      todo := todo - {k};
      if k.epoch < oldest {
        r := r - {k};
      }
    }
  }

  method PruneSecrets(m: map<i64, RevealData>, oldest: i64) returns (r: map<i64, RevealData>)
    ensures r == map e | e in m && e >= oldest :: m[e]
  {
    r := m;
    var todo := m.Keys;
    while todo != {}
      invariant todo <= m.Keys
      invariant r == map e | e in m && (e in todo || e >= oldest) :: m[e]
      decreases todo
    {
      var e :| e in todo;
      todo := todo - {e};
      if e < oldest {
        r := r - {e};
      }
    }
  }

  method PruneSeen(m: map<MsgKey, u64>, oldest: i64) returns (r: map<MsgKey, u64>)
    ensures r == map k | k in m && ToI64(m[k]) >= oldest :: m[k]
  {
    r := m;
    var todo := m.Keys;
    while todo != {}
      invariant todo <= m.Keys
      invariant r == map k | k in m && (k in todo || ToI64(m[k]) >= oldest) :: m[k]
      decreases todo
    {
      var k :| k in todo;
      todo := todo - {k};
      if ToI64(m[k]) < oldest {
        r := r - {k};
      }
    }
  }

  // ----- The seed: the XOR of all revealed values, in map order -----

  type Seed = s: Octets | |s| == 32 witness seq(32, i => 0)

  function Zero(): Seed {
    seq(32, i => 0)
  }

  /** A value of any other length is skipped. */
  function XorInto(acc: Seed, u: Octets): Seed {
    if |u| == 32 then seq(32, i requires 0 <= i < 32 => acc[i] ^ u[i]) else acc
  }

  lemma XorCommutes(acc: Seed, u: Octets, v: Octets)
    ensures XorInto(XorInto(acc, u), v) == XorInto(XorInto(acc, v), u)
  {
    if |u| == 32 && |v| == 32 {
      forall i | 0 <= i < 32 ensures XorInto(XorInto(acc, u), v)[i] == XorInto(XorInto(acc, v), u)[i] {
        XorBytes(acc[i], u[i], v[i]);
      }
    }
  }

  lemma XorBytes(a: bv8, b: bv8, c: bv8)
    ensures a ^ b ^ c == a ^ c ^ b
  {
  }

  /** The XOR of the values of a map, taken in an arbitrary order. */
  ghost function SeedOf(m: map<Sender, Octets>): Seed
    decreases |m|
  {
    if m == map[] then Zero()
    else
      var k: Sender :| k in m;
      XorInto(SeedOf(m - {k}), m[k])
  }

  /** The order does not matter: any sender may come last. */
  lemma {:induction false} SeedRemove(m: map<Sender, Octets>, k: Sender)
    requires k in m
    ensures SeedOf(m) == XorInto(SeedOf(m - {k}), m[k])
    decreases |m|
  {
    var j: Sender :| j in m && SeedOf(m) == XorInto(SeedOf(m - {j}), m[j]);
    if j != k {
      SeedRemove(m - {j}, k);
      SeedRemove(m - {k}, j);
      assert m - {j} - {k} == m - {k} - {j};
      XorCommutes(SeedOf(m - {j} - {k}), m[k], m[j]);
    }
  }

  /** The masks of the eight bits of a byte. */
  predicate IsMask(m: bv8) {
    m == 1 || m == 2 || m == 4 || m == 8 || m == 16 || m == 32 || m == 64 || m == 128
  }

  /** The value is 32 bytes long and has the masked bit of byte i set. */
  predicate BitSet(u: Octets, i: nat, mask: bv8)
    requires i < 32
  {
    |u| == 32 && u[i] & mask != 0
  }

  /** The senders of such values. */
  ghost function Holders(randoms: map<Sender, Octets>, i: nat, mask: bv8): set<Sender>
    requires i < 32
  {
    set s | s in randoms && BitSet(randoms[s], i, mask)
  }

  ghost predicate OddlyHeld(randoms: map<Sender, Octets>, i: nat, mask: bv8)
    requires i < 32
  {
    |Holders(randoms, i, mask)| % 2 == 1
  }

  lemma FlippedBit(a: bv8, b: bv8, mask: bv8)
    requires IsMask(mask)
    ensures (a ^ b) & mask != 0 <==> (a & mask != 0) != (b & mask != 0)
  {
  }

  lemma HoldersWithout(m: map<Sender, Octets>, k: Sender, i: nat, mask: bv8)
    requires k in m && i < 32
    ensures Holders(m, i, mask) ==
            Holders(m - {k}, i, mask) + (if BitSet(m[k], i, mask) then {k} else {})
    ensures k !in Holders(m - {k}, i, mask)
  {
    hide BitSet;
  }

  lemma OddlyHeldNext(m: map<Sender, Octets>, k: Sender, i: nat, mask: bv8)
    requires k in m && i < 32
    ensures OddlyHeld(m, i, mask) <==> (OddlyHeld(m - {k}, i, mask) != BitSet(m[k], i, mask))
  {
    hide BitSet;
    HoldersWithout(m, k, i, mask);
    hide Holders;
  }

  /** A bit of the seed is set exactly when an odd number of senders hold a 32-byte value in which it is set. */
  lemma {:induction false} SeedBits(m: map<Sender, Octets>, i: nat, mask: bv8)
    requires i < 32 && IsMask(mask)
    ensures BitSet(SeedOf(m), i, mask) <==> OddlyHeld(m, i, mask)
    decreases |m|
  {
    hide IsMask;
    hide XorInto;
    if m == map[] {
      NobodyHolds(m, i, mask);
    } else {
      hide BitSet;
      hide OddlyHeld;
      hide SeedOf;
      var k: Sender :| k in m;
      SeedRemove(m, k);
      SeedBits(m - {k}, i, mask);
      OddlyHeldNext(m, k, i, mask);
      XorBit(SeedOf(m - {k}), m[k], i, mask);
    }
  }

  lemma NobodyHolds(m: map<Sender, Octets>, i: nat, mask: bv8)
    requires m == map[] && i < 32
    ensures !BitSet(SeedOf(m), i, mask) && !OddlyHeld(m, i, mask)
  {
    assert Holders(m, i, mask) == {};
    assert SeedOf(m)[i] == 0;
  }

  lemma XorBit(acc: Seed, u: Octets, i: nat, mask: bv8)
    requires i < 32 && IsMask(mask)
    ensures BitSet(XorInto(acc, u), i, mask) <==> (BitSet(acc, i, mask) != BitSet(u, i, mask))
  {
    hide IsMask;
    if |u| == 32 { FlippedBit(acc[i], u[i], mask); }
  }

  lemma SeedIsParity(m: map<Sender, Octets>)
    ensures forall i: nat, mask: bv8 :: i < 32 && IsMask(mask) ==>
              (BitSet(SeedOf(m), i, mask) <==> OddlyHeld(m, i, mask))
  {
    hide SeedOf;
    hide BitSet;
    hide IsMask;
    hide OddlyHeld;
    forall i: nat, mask: bv8 | i < 32 && IsMask(mask) ensures BitSet(SeedOf(m), i, mask) <==> OddlyHeld(m, i, mask) {
      SeedBits(m, i, mask);
    }
  }

  lemma DifferentBit(a: bv8, b: bv8) returns (mask: bv8)
    requires a != b
    ensures IsMask(mask) && (a & mask != 0) != (b & mask != 0)
  {
    mask := LowestBit(a ^ b);
    FlippedBit(a, b, mask);
  }

  lemma LowestBit(x: bv8) returns (mask: bv8)
    requires x != 0
    ensures IsMask(mask) && x & mask != 0
  {
    mask := if x & 1 != 0 then 1 else if x & 2 != 0 then 2 else if x & 4 != 0 then 4 else if x & 8 != 0 then 8
            else if x & 16 != 0 then 16 else if x & 32 != 0 then 32 else if x & 64 != 0 then 64 else 128;
  }

  lemma DifferentByte(u: Octets, v: Octets) returns (i: nat)
    requires |u| == |v| && u != v
    ensures i < |u| && u[i] != v[i]
  {
    i :| 0 <= i < |u| && u[i] != v[i];
  }

  /** No sender's value is without influence: another 32-byte value in its place gives another seed. */
  lemma SeedDependsOnEverySender(m: map<Sender, Octets>, k: Sender, v: Octets)
    requires k in m && |m[k]| == 32 && |v| == 32 && v != m[k]
    ensures SeedOf(m[k := v]) != SeedOf(m)
  {
    hide SeedOf;
    hide OddlyHeld;
    hide IsMask;
    var i := DifferentByte(m[k], v);
    var mask := DifferentBit(m[k][i], v[i]);
    assert m[k := v] - {k} == m - {k};
    OddlyHeldNext(m, k, i, mask);
    OddlyHeldNext(m[k := v], k, i, mask);
    SeedBits(m, i, mask);
    SeedBits(m[k := v], i, mask);
  }

  method XorBuffer(xored: array<bv8>, u: Octets)
    requires xored.Length == 32
    modifies xored
    ensures xored[..] == XorInto(old(xored[..]), u)
  {
    if |u| == 32 {
      for i := 0 to 32
        invariant forall j :: 0 <= j < i ==> xored[j] == old(xored[j]) ^ u[j]
        invariant forall j :: i <= j < 32 ==> xored[j] == old(xored[j])
      {
        xored[i] := xored[i] ^ u[i];
      }
    }
  }

  /** Whatever order the map is ranged over in, the seed is the same. */
  method XorRandoms(randoms: map<Sender, Octets>) returns (seed: Seed)
    ensures seed == SeedOf(randoms)
    ensures forall i: nat, mask: bv8 :: i < 32 && IsMask(mask) ==>
              (BitSet(seed, i, mask) <==> OddlyHeld(randoms, i, mask))
  {
    hide BitSet;
    hide IsMask;
    hide OddlyHeld;
    var xored := new bv8[32](_ => 0);
    var todo := randoms.Keys;
    assert xored[..] == Zero() && randoms - todo == map[];
    while todo != {}
      invariant todo <= randoms.Keys && xored[..] == SeedOf(randoms - todo)
      decreases todo
    {
      var k :| k in todo;
      var rest := todo - {k};
      SeedRemove(randoms - rest, k);
      assert (randoms - rest) - {k} == randoms - todo;
      XorBuffer(xored, randoms[k]);
      todo := rest;
    }
    assert randoms - todo == randoms;
    seed := xored[..];
    SeedIsParity(randoms);
  }

  // ----- Batch collection -----

  function Collected(c: Crypto, openings: map<Sender, RevealData>, commitments: map<Sender, Octets>, keys: map<Sender,
                     Octets>)
    : map<Sender, Octets>
  {
    map s | s in openings && s in commitments && s in keys
            && VerifyCommitment(c, keys[s], openings[s], commitments[s]) :: openings[s].u
  }

  lemma CollectedNext(c: Crypto, openings: map<Sender, RevealData>, s: Sender, commitments: map<Sender, Octets>,
                      keys: map<Sender, Octets>)
    requires s in openings
    ensures var before := Collected(c, openings - {s}, commitments, keys);
            Collected(c, openings, commitments, keys) ==
              if s in commitments && s in keys && VerifyCommitment(c, keys[s], openings[s], commitments[s])
              then before[s := openings[s].u] else before
  {
    hide VerifyCommitment;
  }

  method VerifyAndCollectReveals(c: Crypto, openings: map<Sender, RevealData>, commitments: map<Sender, Octets>,
                                 keys: map<Sender, Octets>)
    returns (validated: map<Sender, Octets>, some: bool)
    ensures validated == Collected(c, openings, commitments, keys)
    ensures some <==> validated != map[]
  {
    hide VerifyCommitment;
    hide Collected;
    validated := map[];
    var todo := openings.Keys;
    NothingCollected(c, openings - todo, commitments, keys);
    while todo != {}
      invariant todo <= openings.Keys
      invariant validated == Collected(c, openings - todo, commitments, keys)
      decreases todo
    {
      var s :| s in todo;
      CollectedNext(c, openings - (todo - {s}), s, commitments, keys);
      assert (openings - (todo - {s})) - {s} == openings - todo;
      todo := todo - {s};
      if s in commitments && s in keys && VerifyCommitment(c, keys[s], openings[s], commitments[s]) {
        validated := validated[s := openings[s].u];
      }
    }
    assert openings - todo == openings;
    some := |validated| > 0;
  }

  lemma NothingCollected(c: Crypto, openings: map<Sender, RevealData>, commitments: map<Sender, Octets>,
                         keys: map<Sender, Octets>)
    requires forall s :: s !in openings
    ensures Collected(c, openings, commitments, keys) == map[]
  {
  }

  /** What the handlers keep for an epoch is what collecting the first messages in one batch would give. */
  lemma BatchMatchesHandlers(c: Crypto, es: seq<Event>, epoch: i64, openings: map<Sender, RevealData>,
                             commitments: map<Sender, Octets>, keys: map<Sender, Octets>)
    requires Keeps(es, epoch)
    requires forall s: Sender :: Look(openings, s) == FirstOpening(c, es, Slot(epoch, s))
    requires forall s: Sender :: Look(commitments, s) == FirstCommitment(c, es, Slot(epoch, s))
    requires forall s :: s in openings ==> Look(keys, s) == c.decode(s)
    ensures EpochRandoms(Run(c, es), epoch) == Collected(c, openings, commitments, keys)
  {
    hide Run;
    hide First;
    hide VerifyCommitment;
    var st := Run(c, es);
    forall s: Sender ensures RandomAt(st, Slot(epoch, s)) == Look(Collected(c, openings, commitments, keys), s) {
      RunOutcome(c, es, Slot(epoch, s));
      assert Look(openings, s) == FirstOpening(c, es, Slot(epoch, s));
      assert Look(commitments, s) == FirstCommitment(c, es, Slot(epoch, s));
      assert s in openings ==> Look(keys, s) == c.decode(s);
    }
    var m := Collected(c, openings, commitments, keys);
    forall s: Sender ensures s in EpochRandoms(st, epoch) <==> s in m {
      assert s in EpochRandoms(st, epoch) <==> Slot(epoch, s) in st.randoms;
    }
    forall s: Sender | s in m ensures EpochRandoms(st, epoch)[s] == m[s] {
      assert RandomAt(st, Slot(epoch, s)) == Look(m, s);
    }
  }

  function FirstOpening(c: Crypto, es: seq<Event>, k: Slot): Option<RevealData> {
    var m := First(c, es, k, true);
    if m.Some? && m.value.Reveal? then Some(RevealData(m.value.u, m.value.r)) else None
  }

  function FirstCommitment(c: Crypto, es: seq<Event>, k: Slot): Option<Octets> {
    var m := First(c, es, k, false);
    if m.Some? && m.value.Commitment? then m.value.commitment else None
  }
}
