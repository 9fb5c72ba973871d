/** Staked balances and the unbonding queue (internal/blockchain/stake.go). */
module Staking {
  import opened Basics
  import opened Sums

  // ----- Staked balances -----

  type Stakes = map<Key, u64>

  function StakeAdded(m: Stakes, k: Key, x: u64): Stakes {
    m[k := Add64(At(m, k), x)]
  }

  /** Reducing by the whole balance or more deletes the entry. */
  function StakeReduced(m: Stakes, k: Key, x: u64): Stakes {
    if k !in m then m
    else if x >= m[k] then m - {k}
    else m[k := m[k] - x]
  }

  lemma TotalStakeReduced(m: Stakes, k: Key, x: u64)
    ensures Total(StakeReduced(m, k, x)) == Total(m) - (if x <= At(m, k) then x else At(m, k))
    ensures forall j ::
              At(StakeReduced(m, k, x), j) == if j != k then At(m, j) else if x <= At(m, k) then At(m, k) - x else 0
  {
    TotalDrop(m, k);
    if k in m && x < m[k] {
      TotalUpdate(m, k, m[k] - x);
    }
  }

  class StakeMap {
    var entries: Stakes

    constructor ()
      ensures entries == map[]
    {
      entries := map[];
    }

    method GetStake(k: Key) returns (s: u64)
      ensures s == At(entries, k)
    {
      s := if k in entries then entries[k] else 0;
    }

    method AddStake(k: Key, x: u64)
      modifies this
      ensures entries == StakeAdded(old(entries), k, x)
    {
      var r := GetStake(k);
      entries := entries[k := Add64(r, x)];
    }

    method ReduceStake(k: Key, x: u64)
      modifies this
      ensures entries == StakeReduced(old(entries), k, x)
    {
      if k !in entries {
        return;
      }
      if x >= entries[k] {
        entries := entries - {k};
        return;
      }
      entries := entries[k := entries[k] - x];
    }

    method Clone() returns (c: StakeMap)
      ensures fresh(c) && c.entries == entries
    {
      c := new StakeMap();
      c.entries := entries;
    }
  }

  // ----- The unbonding queue -----

  datatype Pending = Pending(validator: Key, amount: u64, matureSlot: u64)

  type Queue = seq<Pending>

  ghost function QueueTotal(q: Queue): nat {
    if q == [] then 0 else QueueTotal(q[..|q| - 1]) + q[|q| - 1].amount
  }

  /** What v has queued, as a number. */
  ghost function Queued(q: Queue, v: Key): nat {
    if q == [] then 0
    else Queued(q[..|q| - 1], v) + (if q[|q| - 1].validator == v then q[|q| - 1].amount else 0)
  }

  /** What v has queued, as the uint64 that the running total computes. */
  function PendingStake(q: Queue, v: Key): u64 {
    if q == [] then 0
    else
      var rest := PendingStake(q[..|q| - 1], v);
      if q[|q| - 1].validator == v then Add64(rest, q[|q| - 1].amount) else rest
  }

  /** The entries that are mature at slot, or the ones that are not, in queue order. */
  function Select(q: Queue, slot: u64, mature: bool): Queue {
    if q == [] then []
    else
      var rest := Select(q[..|q| - 1], slot, mature);
      if (q[|q| - 1].matureSlot <= slot) == mature then rest + [q[|q| - 1]] else rest
  }

  /** The entries that still hold coins, in queue order. */
  function Compact(q: Queue): Queue {
    if q == [] then []
    else
      var rest := Compact(q[..|q| - 1]);
      if q[|q| - 1].amount > 0 then rest + [q[|q| - 1]] else rest
  }

  function Min(a: int, b: int): int { if a <= b then a else b }

  /** What still has to be burned once the entries q have been drawn down. */
  ghost function Need(q: Queue, v: Key, amount: u64): u64 {
    amount - Min(amount, Queued(q, v))
  }

  function Drawn(e: Pending, v: Key, need: u64): Pending {
    if e.validator != v then e
    else if e.amount <= need then e.(amount := 0)
    else e.(amount := e.amount - need)
  }

  ghost function Burned(q: Queue, v: Key, amount: u64): (r: Queue)
    ensures |r| == |q|
  {
    if q == [] then []
    else
      var p := q[..|q| - 1];
      Burned(p, v, amount) + [Drawn(q[|q| - 1], v, Need(p, v, amount))]
  }

  ghost function BurnedAndCompacted(q: Queue, v: Key, amount: u64): Queue {
    Compact(Burned(q, v, amount))
  }

  /**
   * First in, first out, in closed form: an entry of v keeps whatever the coins up to and
   * including it exceed the amount to burn, but no more than it had.
   */
  ghost function Left(q: Queue, v: Key, amount: nat, i: nat): u64
    requires i < |q|
  {
    var upTo := Queued(q[..i + 1], v);
    if q[i].validator != v then q[i].amount
    else if upTo <= amount then 0
    else Min(q[i].amount, upTo - amount)
  }

  lemma {:induction false} BurnedIsFifo(q: Queue, v: Key, amount: u64, i: nat)
    requires i < |q|
    ensures Burned(q, v, amount)[i] == q[i].(amount := Left(q, v, amount, i))
  {
    var p := q[..|q| - 1];
    if i < |p| {
      BurnedIsFifo(p, v, amount, i);
      assert p[..i + 1] == q[..i + 1];
    } else {
      assert q[..i + 1] == q;
    }
  }

  lemma DrawnNext(q: Queue, v: Key, amount: u64, i: nat)
    requires i < |q|
    ensures Burned(q[..i + 1], v, amount) == Burned(q[..i], v, amount) + [Drawn(q[i], v, Need(q[..i], v, amount))]
    ensures Queued(q[..i + 1], v) == Queued(q[..i], v) + (if q[i].validator == v then q[i].amount else 0)
  {
    assert q[..i + 1][..i] == q[..i];
  }

  /** The backing array, tail included, when the first i entries have been drawn down. */
  ghost function Midway(q: Queue, tail: Queue, v: Key, amount: u64, i: nat): (r: Queue)
    requires i <= |q|
    ensures |r| == |q| + |tail|
  {
    Burned(q[..i], v, amount) + q[i..] + tail
  }

  lemma MidwayNext(q: Queue, tail: Queue, v: Key, amount: u64, i: nat)
    requires i < |q|
    ensures Midway(q, tail, v, amount, i)[i] == q[i]
    ensures Midway(q, tail, v, amount, i)[i := Drawn(q[i], v, Need(q[..i], v, amount))] ==
            Midway(q, tail, v, amount, i + 1)
  {
    DrawnNext(q, v, amount, i);
    assert q[i..] == [q[i]] + q[i + 1..];
  }

  /** Once the amount is met, or at the end of the queue, the remaining entries are left alone. */
  lemma {:induction false} BurnedRest(q: Queue, v: Key, amount: u64, i: nat)
    requires i <= |q| && (i == |q| || Queued(q[..i], v) >= amount)
    ensures Burned(q, v, amount) == Burned(q[..i], v, amount) + q[i..]
    ensures Min(amount, Queued(q, v)) == Min(amount, Queued(q[..i], v))
    decreases |q| - i
  {
    if i == |q| {
      assert q[..i] == q;
    } else {
      DrawnNext(q, v, amount, i);
      BurnedRest(q, v, amount, i + 1);
      assert q[i..] == [q[i]] + q[i + 1..];
    }
  }

  lemma QueuedSnoc(q: Queue, e: Pending, v: Key)
    ensures Queued(q + [e], v) == Queued(q, v) + (if e.validator == v then e.amount else 0)
    ensures QueueTotal(q + [e]) == QueueTotal(q) + e.amount
  {
    assert (q + [e])[..|q|] == q;
  }

  lemma {:induction false} QueuedBelowTotal(q: Queue, v: Key)
    ensures Queued(q, v) <= QueueTotal(q)
  {
    if q == [] {
    } else {
      QueuedBelowTotal(q[..|q| - 1], v);
    }
  }

  /** The uint64 running total is exact as long as the whole queue is below 2^64. */
  lemma {:induction false} PendingStakeExact(q: Queue, v: Key)
    requires QueueTotal(q) < TWO64
    ensures PendingStake(q, v) == Queued(q, v)
  {
    if q == [] {
    } else {
      PendingStakeExact(q[..|q| - 1], v);
      QueuedBelowTotal(q, v);
    }
  }

  lemma SelectSnoc(q: Queue, e: Pending, slot: u64, mature: bool)
    ensures Select(q + [e], slot, mature) ==
            Select(q, slot, mature) + (if (e.matureSlot <= slot) == mature then [e] else [])
  {
    assert (q + [e])[..|q|] == q;
  }

  /** Sweeping splits the queue in two: nothing is lost, nothing is duplicated. */
  lemma {:induction false} SweepSplits(q: Queue, slot: u64)
    ensures multiset(q) == multiset(Select(q, slot, true)) + multiset(Select(q, slot, false))
  {
    if q == [] {
    } else {
      var p, e := q[..|q| - 1], q[|q| - 1];
      SweepSplits(p, slot);
      assert q == p + [e];
      SelectSnoc(p, e, slot, true);
      SelectSnoc(p, e, slot, false);
      assert multiset(q) == multiset(p) + multiset{e};
    }
  }

  lemma {:induction false} SweepTotals(q: Queue, slot: u64)
    ensures QueueTotal(q) == QueueTotal(Select(q, slot, true)) + QueueTotal(Select(q, slot, false))
  {
    if q == [] {
    } else {
      var p, e := q[..|q| - 1], q[|q| - 1];
      SweepTotals(p, slot);
      QueuedSnoc(Select(p, slot, true), e, []);
      QueuedSnoc(Select(p, slot, false), e, []);
    }
  }

  /** Each half holds the entries on its side of the slot, and only those. */
  lemma {:induction false} SweepSides(q: Queue, slot: u64, mature: bool)
    ensures forall e :: e in Select(q, slot, mature) <==> e in q && (e.matureSlot <= slot) == mature
  {
    if q == [] {
    } else {
      SweepSides(q[..|q| - 1], slot, mature);
      assert q == q[..|q| - 1] + [q[|q| - 1]];
    }
  }

  /** Compaction drops only empty entries, so it keeps every total. */
  lemma {:induction false} CompactKeeps(q: Queue, v: Key)
    ensures QueueTotal(Compact(q)) == QueueTotal(q)
    ensures Queued(Compact(q), v) == Queued(q, v)
  {
    if q == [] {
    } else {
      CompactKeeps(q[..|q| - 1], v);
      QueuedSnoc(Compact(q[..|q| - 1]), q[|q| - 1], v);
    }
  }

  /** Exactly min(amount, queued) coins of v are burned, and none of anybody else's. */
  lemma {:induction false} BurnedExactly(q: Queue, v: Key, amount: u64)
    ensures QueueTotal(Burned(q, v, amount)) == QueueTotal(q) - Min(amount, Queued(q, v))
    ensures Queued(Burned(q, v, amount), v) == Queued(q, v) - Min(amount, Queued(q, v))
  {
    if q == [] {
    } else {
      var p := q[..|q| - 1];
      BurnedExactly(p, v, amount);
      QueuedSnoc(Burned(p, v, amount), Drawn(q[|q| - 1], v, Need(p, v, amount)), v);
    }
  }

  lemma {:induction false} BurnedKeepsOthers(q: Queue, v: Key, amount: u64, w: Key)
    requires w != v
    ensures Queued(Burned(q, v, amount), w) == Queued(q, w)
  {
    if q == [] {
    } else {
      var p := q[..|q| - 1];
      BurnedKeepsOthers(p, v, amount, w);
      QueuedSnoc(Burned(p, v, amount), Drawn(q[|q| - 1], v, Need(p, v, amount)), w);
    }
  }

  /** The entries of validators other than v. */
  ghost function Others(q: Queue, v: Key): Queue {
    if q == [] then []
    else
      var rest := Others(q[..|q| - 1], v);
      if q[|q| - 1].validator != v then rest + [q[|q| - 1]] else rest
  }

  lemma OthersSnoc(q: Queue, e: Pending, v: Key)
    ensures Others(q + [e], v) == Others(q, v) + (if e.validator != v then [e] else [])
  {
    assert (q + [e])[..|q|] == q;
  }

  lemma CompactSnoc(q: Queue, e: Pending)
    ensures Compact(q + [e]) == Compact(q) + (if e.amount > 0 then [e] else [])
  {
    assert (q + [e])[..|q|] == q;
  }

  /** Burning leaves every non-empty entry of the other validators, and their order, as they were. */
  lemma {:induction false} BurnKeepsOtherEntries(q: Queue, v: Key, amount: u64)
    ensures Others(BurnedAndCompacted(q, v, amount), v) == Compact(Others(q, v))
  {
    hide Need;
    if q == [] {
    } else {
      var p := q[..|q| - 1];
      BurnKeepsOtherEntries(p, v, amount);
      var last, e := q[|q| - 1], Drawn(q[|q| - 1], v, Need(p, v, amount));
      assert e.validator == last.validator && (last.validator != v ==> e == last);
      assert Burned(q, v, amount) == Burned(p, v, amount) + [e];
      assert Others(q, v) == Others(p, v) + (if last.validator != v then [last] else []);
      hide Burned;
      hide Others;
      hide Compact;
      hide Drawn;
      CompactSnoc(Burned(p, v, amount), e);
      OthersSnoc(Compact(Burned(p, v, amount)), e, v);
      CompactSnoc(Others(p, v), last);
    }
  }

  class UnstakeQueue {
    var buf: array<Pending>
    var len: nat

    ghost predicate Valid()
      reads this
    {
      len <= buf.Length
    }

    /** The slice `pending`. */
    ghost function Contents(): Queue
      reads this, buf
      requires Valid()
    {
      buf[..len]
    }

    constructor ()
      ensures Valid() && fresh(buf) && Contents() == []
    {
      buf := new Pending[0];
      len := 0;
    }

    /** `append`: in place when the backing array has room, into a larger array otherwise. */
    method Enqueue(v: Key, amount: u64, matureSlot: u64)
      requires Valid()
      modifies this, buf
      ensures Valid() && (buf == old(buf) || fresh(buf))
      ensures Contents() == old(Contents()) + [Pending(v, amount, matureSlot)]
    {
      var e := Pending(v, amount, matureSlot);
      if len == buf.Length {
        var grown := new Pending[2 * len + 1](_ => e);
        forall i | 0 <= i < len { grown[i] := buf[i]; }
        buf := grown;
      }
      buf[len] := e;
      len := len + 1;
    }

    method SweepMature(slot: u64) returns (matured: Queue)
      requires Valid()
      modifies this
      ensures Valid() && fresh(buf)
      ensures Contents() == Select(old(Contents()), slot, false)
      ensures matured == Select(old(Contents()), slot, true)
    {
      ghost var q := Contents();
      matured := [];
      var remaining := new Pending[len](_ => Pending([], 0, 0));
      var kept := 0;
      for i := 0 to len
        invariant 0 <= kept <= i
        invariant buf == old(buf) && len == old(len) && q == Contents()
        invariant remaining[..kept] == Select(q[..i], slot, false)
        invariant matured == Select(q[..i], slot, true)
      {
        assert q[..i + 1][..i] == q[..i];
        if buf[i].matureSlot <= slot {
          matured := matured + [buf[i]];
        } else {
          remaining[kept] := buf[i];
          kept := kept + 1;
        }
      }
      assert q[..len] == q;
      buf := remaining;
      len := kept;
    }

    method GetPendingStake(v: Key) returns (total: u64)
      requires Valid()
      ensures total == PendingStake(Contents(), v)
    {
      total := 0;
      for i := 0 to len
        invariant total == PendingStake(Contents()[..i], v)
      {
        assert Contents()[..i + 1][..i] == Contents()[..i];
        if buf[i].validator == v {
          total := Add64(total, buf[i].amount);
        }
      }
      assert Contents()[..len] == Contents();
    }

    /** One entry drawn down where it stands. */
    method DrawEntry(i: nat, v: Key, need: u64) returns (taken: u64)
      requires Valid() && i < len
      modifies buf
      ensures buf[..] == old(buf[..])[i := Drawn(old(buf[i]), v, need)]
      ensures taken == if old(buf[i]).validator == v then Min(need, old(buf[i]).amount) else 0
    {
      if buf[i].validator != v {
        return 0;
      }
      if buf[i].amount <= need {
        taken := buf[i].amount;
        buf[i] := buf[i].(amount := 0);
      } else {
        taken := need;
        buf[i] := buf[i].(amount := buf[i].amount - need);
      }
    }

    /** One round of the first loop of BurnPending. */
    method DrawNext(ghost q: Queue, ghost tail: Queue, i: nat, v: Key, amount: u64, burned: u64) returns (total: u64)
      requires Valid() && i < len == |q|
      requires burned == Min(amount, Queued(q[..i], v))
      requires buf[..] == Midway(q, tail, v, amount, i)
      modifies buf
      ensures total == Min(amount, Queued(q[..i + 1], v))
      ensures buf[..] == Midway(q, tail, v, amount, i + 1)
    {
      MidwayNext(q, tail, v, amount, i);
      DrawnNext(q, v, amount, i);
      assert buf[i] == buf[..][i];
      var taken := DrawEntry(i, v, amount - burned);
      total := burned + taken;
    }

    /** The first loop of BurnPending. */
    method DrawDown(v: Key, amount: u64) returns (burned: u64)
      requires Valid()
      modifies buf
      ensures Contents() == Burned(old(Contents()), v, amount)
      ensures burned == Min(amount, Queued(old(Contents()), v))
    {
      ghost var q, tail := buf[..len], buf[len..];
      burned := 0;
      var i := 0;
      while i < len && burned < amount
        invariant 0 <= i <= len == |q|
        invariant burned == Min(amount, Queued(q[..i], v))
        invariant buf[..] == Midway(q, tail, v, amount, i)
      {
        burned := DrawNext(q, tail, i, v, amount, burned);
        i := i + 1;
      }
      BurnedRest(q, v, amount, i);
      assert buf[..len] == buf[..][..len];
    }

    /** The second loop of BurnPending: non-empty entries are moved down in the same backing array. */
    method CompactInPlace()
      requires Valid()
      modifies this`len, buf
      ensures Valid() && buf == old(buf)
      ensures Contents() == Compact(old(Contents()))
    {
      ghost var q := Contents();
      var out := 0;
      for i := 0 to len
        invariant 0 <= out <= i <= len == old(len)
        invariant buf[i..len] == q[i..]
        invariant buf[..out] == Compact(q[..i])
      {
        assert q[..i + 1][..i] == q[..i];
        assert buf[i] == buf[i..len][0] == q[i..][0] == q[i];
        if buf[i].amount > 0 {
          buf[out] := buf[i];
          out := out + 1;
        }
      }
      assert q[..len] == q;
      len := out;
    }

    method BurnPending(v: Key, amount: u64) returns (burned: u64)
      requires Valid()
      modifies this`len, buf
      ensures Valid() && buf == old(buf)
      ensures Contents() == BurnedAndCompacted(old(Contents()), v, amount)
      ensures burned == Min(amount, Queued(old(Contents()), v))
    {
      burned := DrawDown(v, amount);
      CompactInPlace();
    }

    method Clone() returns (c: UnstakeQueue)
      requires Valid()
      ensures fresh(c) && fresh(c.buf) && c.Valid() && c.Contents() == Contents()
    {
      c := new UnstakeQueue();
      c.buf := new Pending[len](_ => Pending([], 0, 0));
      c.len := len;
      forall i | 0 <= i < len { c.buf[i] := buf[i]; }
    }
  }
}
