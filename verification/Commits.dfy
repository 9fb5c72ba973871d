/** Pending commitments: the store and its per-block overlay (internal/blockchain/commit.go). */
module Commits {
  import opened Basics

  datatype CommitRecord = CommitRecord(hash: Bytes, committer: Key, block: int, slot: i64, tid: i64, expiryBlock: int)

  type Store = map<Bytes, CommitRecord>

  function Get(s: Store, h: Bytes): Option<CommitRecord> {
    if h in s then Some(s[h]) else None
  }

  predicate Expired(s: Store, h: Bytes, index: int) {
    h in s && index > s[h].expiryBlock
  }

  function WithoutExpired(s: Store, index: int): Store {
    map h | h in s && !Expired(s, h, index) :: s[h]
  }

  // ----- The overlay, as a value -----

  datatype Overlay = Overlay(base: Store, added: Store, consumed: set<Bytes>, purged: set<Bytes>, index: int)

  function NewOverlay(base: Store, index: int): Overlay {
    Overlay(base, map[], {}, {}, index)
  }

  function OvAdd(o: Overlay, rec: CommitRecord): Overlay {
    o.(added := o.added[rec.hash := rec])
  }

  function OvGet(o: Overlay, h: Bytes): Option<CommitRecord> {
    if h in o.consumed || h in o.purged then None
    else if h in o.added then Some(o.added[h])
    else if Expired(o.base, h, o.index) then None
    else Get(o.base, h)
  }

  function OvConsume(o: Overlay, h: Bytes): Overlay {
    o.(consumed := o.consumed + {h}, added := o.added - {h})
  }

  /** The hashes of the base that a purge at this height marks. */
  function PurgedNow(o: Overlay, index: int): set<Bytes> {
    set h | h in o.base && h !in o.consumed && Expired(o.base, h, index)
  }

  function OvPurge(o: Overlay, index: int): Overlay {
    o.(purged := o.purged + PurgedNow(o, index),
       added := WithoutExpired(o.added, index))
  }

  /** The records that the overlay's hash is taken over. */
  function Merged(o: Overlay): Store {
    (o.base - (o.consumed + o.purged)) + o.added
  }

  /** The store after the overlay has been flushed into it. */
  function Flushed(o: Overlay, target: Store): Store {
    (target + o.added) - o.consumed - o.purged
  }

  // ----- Refinement: the overlay behaves like the store updated directly -----

  datatype Op = Add(rec: CommitRecord) | Consume(h: Bytes)

  /** The overlay of a block that starts by purging and then performs ops. */
  function OverlayRun(s: Store, index: int, ops: seq<Op>): Overlay {
    if ops == [] then OvPurge(NewOverlay(s, index), index)
    else
      var o := OverlayRun(s, index, ops[..|ops| - 1]);
      match ops[|ops| - 1]
      case Add(rec) => OvAdd(o, rec)
      case Consume(h) => OvConsume(o, h)
  }

  /** The same block performed directly on the store. */
  function StoreRun(s: Store, index: int, ops: seq<Op>): Store {
    if ops == [] then WithoutExpired(s, index)
    else
      var t := StoreRun(s, index, ops[..|ops| - 1]);
      match ops[|ops| - 1]
      case Add(rec) => t[rec.hash := rec]
      case Consume(h) => t - {h}
  }

  ghost predicate SameReads(o: Overlay, t: Store) {
    forall h :: OvGet(o, h) == Get(t, h)
  }

  /** Operation n puts back a hash that the block purged or had already consumed. */
  ghost predicate Readds(s: Store, index: int, ops: seq<Op>, n: nat)
    requires n < |ops|
  {
    && ops[n].Add?
    && (Expired(s, ops[n].rec.hash, index) || exists m :: 0 <= m < n && ops[m] == Consume(ops[n].rec.hash))
  }

  ghost predicate NeverReadds(s: Store, index: int, ops: seq<Op>) {
    forall n :: 0 <= n < |ops| ==> !Readds(s, index, ops, n)
  }

  /** What the overlay remembers of its base and of the operations. */
  lemma {:induction false} OverlayShape(s: Store, index: int, ops: seq<Op>)
    ensures var o := OverlayRun(s, index, ops);
            && o.base == s && o.index == index
            && (forall h :: h in o.purged <==> Expired(s, h, index))
            && (forall h :: h in o.consumed <==> exists m :: 0 <= m < |ops| && ops[m] == Consume(h))
  {
    if ops == [] {
    } else {
      var p := ops[..|ops| - 1];
      OverlayShape(s, index, p);
      assert forall m :: 0 <= m < |p| ==> p[m] == ops[m];
    }
  }

  lemma NeverReaddsPrefix(s: Store, index: int, ops: seq<Op>)
    requires ops != [] && NeverReadds(s, index, ops)
    ensures NeverReadds(s, index, ops[..|ops| - 1])
    ensures !Readds(s, index, ops, |ops| - 1)
  {
    var p := ops[..|ops| - 1];
    forall n | 0 <= n < |p| ensures !Readds(s, index, p, n) {
      if Readds(s, index, p, n) {
        assert Readds(s, index, ops, n);
      }
    }
  }

  /** Nothing live is both added and gone. */
  ghost predicate Tidy(o: Overlay) {
    o.added.Keys !! o.consumed && o.added.Keys !! o.purged
  }

  lemma {:induction false} OverlayTracksStore(s: Store, index: int, ops: seq<Op>)
    requires NeverReadds(s, index, ops)
    ensures Tidy(OverlayRun(s, index, ops))
    ensures SameReads(OverlayRun(s, index, ops), StoreRun(s, index, ops))
  {
    if ops == [] {
    } else {
      NeverReaddsPrefix(s, index, ops);
      OverlayTracksStore(s, index, ops[..|ops| - 1]);
      OverlayShape(s, index, ops[..|ops| - 1]);
      assert forall m :: 0 <= m < |ops| - 1 ==> ops[..|ops| - 1][m] == ops[m];
      var o, t := OverlayRun(s, index, ops[..|ops| - 1]), StoreRun(s, index, ops[..|ops| - 1]);
      forall h ensures OvGet(OverlayRun(s, index, ops), h) == Get(StoreRun(s, index, ops), h) {
        assert OvGet(o, h) == Get(t, h);
      }
    }
  }

  /** Re-adding a hash that is gone makes the very next read wrong. */
  lemma ReaddIsLost(s: Store, index: int, ops: seq<Op>, n: nat)
    requires n < |ops| && Readds(s, index, ops, n)
    ensures !SameReads(OverlayRun(s, index, ops[..n + 1]), StoreRun(s, index, ops[..n + 1]))
  {
    var h := ops[n].rec.hash;
    assert ops[..n + 1][..n] == ops[..n];
    OverlayShape(s, index, ops[..n + 1]);
    if !Expired(s, h, index) {
      var m :| 0 <= m < n && ops[m] == Consume(h);
      assert ops[..n + 1][m] == Consume(h);
    }
    assert OvGet(OverlayRun(s, index, ops[..n + 1]), h) == None;
    assert Get(StoreRun(s, index, ops[..n + 1]), h) == Some(ops[n].rec);
  }

  /**
   * Overlay reads equal direct reads after every operation of the block
   * exactly when the block never puts back a hash it purged or consumed.
   */
  lemma OverlayRefinesStore(s: Store, index: int, ops: seq<Op>)
    ensures (forall n :: 0 <= n <= |ops| ==> SameReads(OverlayRun(s, index, ops[..n]), StoreRun(s, index, ops[..n])))
            <==> NeverReadds(s, index, ops)
  {
    if NeverReadds(s, index, ops) {
      forall n | 0 <= n <= |ops|
        ensures SameReads(OverlayRun(s, index, ops[..n]), StoreRun(s, index, ops[..n]))
      {
        NeverReaddsPrefixes(s, index, ops, n);
        OverlayTracksStore(s, index, ops[..n]);
      }
    } else {
      var n :| 0 <= n < |ops| && Readds(s, index, ops, n);
      ReaddIsLost(s, index, ops, n);
    }
  }

  lemma NeverReaddsPrefixes(s: Store, index: int, ops: seq<Op>, n: nat)
    requires n <= |ops| && NeverReadds(s, index, ops)
    ensures NeverReadds(s, index, ops[..n])
  {
    forall i | 0 <= i < n ensures !Readds(s, index, ops[..n], i) {
      if Readds(s, index, ops[..n], i) {
        assert Readds(s, index, ops, i);
      }
    }
  }

  /** Then the flushed store is the directly updated one, and so is what the overlay hashes. */
  lemma FlushIsDirect(s: Store, index: int, ops: seq<Op>)
    requires NeverReadds(s, index, ops)
    ensures Flushed(OverlayRun(s, index, ops), s) == StoreRun(s, index, ops)
    ensures Merged(OverlayRun(s, index, ops)) == StoreRun(s, index, ops)
  {
    OverlayTracksStore(s, index, ops);
    OverlayShape(s, index, ops);
    var o, t := OverlayRun(s, index, ops), StoreRun(s, index, ops);
    forall h
      ensures Get(Flushed(o, s), h) == OvGet(o, h) == Get(Merged(o), h)
    {
      assert !(h in o.added && (h in o.consumed || h in o.purged));
    }
    SameGets(Flushed(o, s), t);
    SameGets(Merged(o), t);
  }

  lemma SameGets(s: Store, t: Store)
    requires forall h :: Get(s, h) == Get(t, h)
    ensures s == t
  {
    forall h ensures h in s <==> h in t {
      assert Get(s, h) == Get(t, h);
    }
    forall h | h in s ensures s[h] == t[h] {
      assert Get(s, h) == Get(t, h);
    }
  }

  // ----- The objects -----

  class CommitStore {
    var pending: Store

    constructor ()
      ensures pending == map[]
    {
      pending := map[];
    }

    method AddCommit(rec: CommitRecord)
      modifies this
      ensures pending == old(pending)[rec.hash := rec]
    {
      pending := pending[rec.hash := rec];
    }

    method GetCommit(h: Bytes) returns (r: Option<CommitRecord>)
      ensures r == Get(pending, h)
    {
      r := if h in pending then Some(pending[h]) else None;
    }

    method ConsumeCommit(h: Bytes)
      modifies this
      ensures pending == old(pending) - {h}
    {
      pending := pending - {h};
    }

    method PurgeExpired(index: int) returns (count: nat)
      modifies this
      ensures pending == WithoutExpired(old(pending), index)
      ensures count == |old(pending)| - |pending|
    {
      count := 0;
      var todo := pending.Keys;
      while todo != {}
        invariant todo <= pending.Keys <= old(pending.Keys)
        invariant forall h :: h in pending ==> pending[h] == old(pending)[h]
        invariant forall h :: h in old(pending) && h !in todo ==> (h in pending <==> !Expired(old(pending), h, index))
        invariant forall h :: h in todo ==> h in pending
        invariant count == |old(pending.Keys)| - |pending.Keys|
        decreases todo
      {
        var h :| h in todo;
        todo := todo - {h};
        if index > pending[h].expiryBlock {
          assert (pending - {h}).Keys == pending.Keys - {h};
          pending := pending - {h};
          count := count + 1;
        }
      }
    }
  }

  class CommitOverlay {
    const base: Store
    const index: int
    var added: Store
    var consumed: set<Bytes>
    var purged: set<Bytes>

    ghost function View(): Overlay
      reads this
    {
      Overlay(base, added, consumed, purged, index)
    }

    constructor (base: Store, index: int)
      ensures View() == NewOverlay(base, index)
    {
      this.base, this.index := base, index;
      added, consumed, purged := map[], {}, {};
    }

    method AddCommit(rec: CommitRecord)
      modifies this
      ensures View() == OvAdd(old(View()), rec)
    {
      added := added[rec.hash := rec];
    }

    method GetCommit(h: Bytes) returns (r: Option<CommitRecord>)
      ensures r == OvGet(View(), h)
    {
      if h in consumed || h in purged {
        return None;
      }
      if h in added {
        return Some(added[h]);
      }
      if h in base && index > base[h].expiryBlock {
        return None;
      }
      r := if h in base then Some(base[h]) else None;
    }

    method ConsumeCommit(h: Bytes)
      modifies this
      ensures View() == OvConsume(old(View()), h)
    {
      consumed := consumed + {h};
      added := added - {h};
    }

    /** Returns how many records it purged. */
    method PurgeExpired(now: int) returns (count: nat)
      modifies this
      ensures View() == OvPurge(old(View()), now)
      ensures count == |PurgedNow(old(View()), now)| + |old(added).Keys| - |added.Keys|
    {
      var fromBase := PurgeBase(now);
      var fromAdded := PurgeAdded(now);
      count := fromBase + fromAdded;
    }

    method PurgeBase(now: int) returns (count: nat)
      modifies this`purged
      ensures purged == old(purged) + PurgedNow(old(View()), now)
      ensures count == |PurgedNow(old(View()), now)|
    {
      count := 0;
      var todo := base.Keys;
      ghost var gone: set<Bytes> := {};
      while todo != {}
        invariant todo <= base.Keys && purged == old(purged) + gone && count == |gone|
        invariant gone == set h | h in base && h !in todo && h !in consumed && Expired(base, h, now)
        decreases todo
      {
        var h :| h in todo;
        todo := todo - {h};
        if h !in consumed && now > base[h].expiryBlock {
          purged := purged + {h};
          count := count + 1;
          gone := gone + {h};
        }
      }
      assert gone == PurgedNow(old(View()), now);
    }

    method PurgeAdded(now: int) returns (count: nat)
      modifies this`added
      ensures added == WithoutExpired(old(added), now)
      ensures count == |old(added).Keys| - |added.Keys|
    {
      count := 0;
      var todo := added.Keys;
      while todo != {}
        invariant todo <= added.Keys <= old(added.Keys) && count == |old(added).Keys| - |added.Keys|
        invariant forall h :: h in added ==> added[h] == old(added)[h]
        invariant forall h :: h in old(added) && h !in todo ==> (h in added <==> !Expired(old(added), h, now))
        decreases todo
      {
        var h :| h in todo;
        todo := todo - {h};
        if now > added[h].expiryBlock {
          assert added.Keys - {h} == (added - {h}).Keys;
          added := added - {h};
          count := count + 1;
        }
      }
    }

    /** The records that the digest of the overlay is taken over. */
    method MergedRecords() returns (merged: Store)
      ensures merged == Merged(View())
    {
      merged := map[];
      var todo := base.Keys;
      while todo != {}
        invariant todo <= base.Keys && merged == (base - todo) - (consumed + purged)
        decreases todo
      {
        var k :| k in todo;
        todo := todo - {k};
        if k !in consumed && k !in purged {
          merged := merged[k := base[k]];
        }
      }
      assert base - todo == base;
      merged := merged + added;
    }

    /** Flushes the overlay, whatever the iteration order of its maps. */
    method Commit(target: CommitStore)
      modifies target
      ensures target.pending == Flushed(View(), old(target.pending))
    {
      var todo := added.Keys;
      ghost var start := target.pending;
      while todo != {}
        invariant todo <= added.Keys
        invariant target.pending == start + (added - todo)
        decreases todo
      {
        var h :| h in todo;
        todo := todo - {h};
        target.pending := target.pending[h := added[h]];
      }
      assert added - todo == added;
      var gone := consumed;
      while gone != {}
        invariant gone <= consumed
        invariant target.pending == (start + added) - (consumed - gone)
        decreases gone
      {
        var h :| h in gone;
        gone := gone - {h};
        target.pending := target.pending - {h};
      }
      gone := purged;
      while gone != {}
        invariant gone <= purged
        invariant target.pending == (start + added) - consumed - (purged - gone)
        decreases gone
      {
        var h :| h in gone;
        gone := gone - {h};
        target.pending := target.pending - {h};
      }
      assert consumed - gone == consumed && purged - gone == purged;
    }
  }
}
