/**
 * The overlay against the index, over any sequence of operations
 * (internal/index/index_overlay.go:39-121, 185-200, internal/index/index_manager.go:43-104, 168-217).
 */
module IndexRefinement {
  import opened Basics
  import opened Transactions
  import opened DomainIndex

  datatype Op = AddOp(d: Name, tx: Tx) | OwnerOp(d: Name, k: Key) | PriceOp(d: Name, p: u64) | SpendOp(id: i64)

  function OnOverlay(o: Overlay, op: Op): Overlay {
    match op
    case AddOp(d, tx) => Added(o, d, tx)
    case OwnerOp(d, k) => OwnerSet(o, d, k)
    case PriceOp(d, p) => PriceSet(o, d, p)
    case SpendOp(id) => Marked(o, id)
  }

  function OnIndex(ix: Index, op: Op): Index {
    match op
    case AddOp(d, tx) => IxAdd(ix, d, tx)
    case OwnerOp(d, k) => IxSetOwner(ix, d, k)
    case PriceOp(d, p) => IxSetPrice(ix, d, p)
    case SpendOp(id) => IxMark(ix, id)
  }

  function OverlayRun(ix: Index, ops: seq<Op>): Overlay {
    if ops == [] then NewOverlay(ix) else OnOverlay(OverlayRun(ix, ops[..|ops| - 1]), ops[|ops| - 1])
  }

  /** The same operations performed on the index itself. */
  function IndexRun(ix: Index, ops: seq<Op>): Index {
    if ops == [] then ix else OnIndex(IndexRun(ix, ops[..|ops| - 1]), ops[|ops| - 1])
  }

  /** The operation sets an owner or a positive price on a name without a record. */
  predicate SetsStray(o: Overlay, op: Op) {
    match op
    case OwnerOp(d, _) => GetDomain(o, d).None?
    case PriceOp(d, p) => p > 0 && GetDomain(o, d).None?
    case _ => false
  }

  ghost predicate NeverStray(ix: Index, ops: seq<Op>) {
    forall n :: 0 <= n < |ops| ==> !SetsStray(OverlayRun(ix, ops[..n]), ops[n])
  }

  // ----- What every sequence keeps -----

  lemma StepRecords(o: Overlay, ix: Index, op: Op)
    requires WellFormed(o) && forall d :: GetDomain(o, d) == IxDomain(ix, d)
    ensures WellFormed(OnOverlay(o, op)) && OnOverlay(o, op).base == o.base
    ensures forall d :: GetDomain(OnOverlay(o, op), d) == IxDomain(OnIndex(ix, op), d)
  {
    forall d ensures GetDomain(OnOverlay(o, op), d) == IxDomain(OnIndex(ix, op), d) {
      assert GetDomain(o, d) == IxDomain(ix, d);
    }
  }

  /** Overlay and index always hold the same records. */
  lemma {:induction false} SameRecords(ix: Index, ops: seq<Op>)
    ensures WellFormed(OverlayRun(ix, ops)) && OverlayRun(ix, ops).base == ix
    ensures forall d :: GetDomain(OverlayRun(ix, ops), d) == IxDomain(IndexRun(ix, ops), d)
  {
    hide OnOverlay;
    hide OnIndex;
    hide GetDomain;
    hide WellFormed;
    if ops == [] {
      EmptyRecords(ix);
    } else {
      var p := ops[..|ops| - 1];
      SameRecords(ix, p);
      StepRecords(OverlayRun(ix, p), IndexRun(ix, p), ops[|ops| - 1]);
    }
  }

  lemma EmptyRecords(ix: Index)
    ensures WellFormed(NewOverlay(ix)) && forall d :: GetDomain(NewOverlay(ix), d) == IxDomain(ix, d)
  {
  }

  // ----- Without stray metadata -----

  lemma StepDirect(o: Overlay, op: Op)
    requires Sound(o) && !SetsStray(o, op)
    ensures Sound(OnOverlay(o, op)) && Committed(OnOverlay(o, op)) == OnIndex(Committed(o), op)
  {
    hide Committed;
    hide Sound;
    match op {
      case AddOp(d, tx) => AddedDirect(o, d, tx);
      case OwnerOp(d, k) => OwnerSetDirect(o, d, k);
      case PriceOp(d, p) => PriceSetDirect(o, d, p);
      case SpendOp(id) => MarkedDirect(o, id);
    }
  }

  /** Committing the overlay gives the index that was updated directly. */
  lemma {:induction false} CommitIsDirect(ix: Index, ops: seq<Op>)
    requires NeverStray(ix, ops)
    ensures Sound(OverlayRun(ix, ops)) && Committed(OverlayRun(ix, ops)) == IndexRun(ix, ops)
  {
    hide Committed;
    hide Sound;
    hide SetsStray;
    hide OnOverlay;
    hide OnIndex;
    if ops == [] {
      SoundNew(ix);
    } else {
      var n := |ops| - 1;
      var p := ops[..n];
      forall i | 0 <= i < n ensures !SetsStray(OverlayRun(ix, p[..i]), p[i]) {
        assert p[..i] == ops[..i];
        assert !SetsStray(OverlayRun(ix, ops[..i]), ops[i]);
      }
      CommitIsDirect(ix, p);
      assert !SetsStray(OverlayRun(ix, ops[..n]), ops[n]);
      StepDirect(OverlayRun(ix, p), ops[n]);
    }
  }

  // ----- Exactly when reads agree -----

  /** A stray operation makes the very next reads wrong, against the committed index and against the direct one. */
  lemma StrayIsSeen(o: Overlay, ix: Index, op: Op)
    requires WellFormed(o) && SetsStray(o, op) && forall d :: GetDomain(o, d) == IxDomain(ix, d)
    ensures !ReadsAgree(OnOverlay(o, op), Committed(OnOverlay(o, op))) && !ReadsAgree(OnOverlay(o, op), OnIndex(ix, op))
  {
    var d, o' := op.d, OnOverlay(o, op);
    assert IxDomain(ix, d).None?;
    CommittedLook(o', d);
    hide Committed;
    if op.OwnerOp? {
      assert GetOwner(o', d).Some? && IxOwner(Committed(o'), d).None? && IxOwner(OnIndex(ix, op), d).None?;
    } else {
      assert GetPrice(o', d) > 0 && IxPrice(Committed(o'), d) == 0 && IxPrice(OnIndex(ix, op), d) == 0;
    }
  }

  /** Reads of the overlay after the first n operations, against the direct index or against the committed one. */
  ghost predicate AgreesAfter(ix: Index, ops: seq<Op>, n: nat, direct: bool)
    requires n <= |ops|
  {
    var o := OverlayRun(ix, ops[..n]);
    ReadsAgree(o, if direct then IndexRun(ix, ops[..n]) else Committed(o))
  }

  lemma AgreesWithoutStray(ix: Index, ops: seq<Op>, n: nat, direct: bool)
    requires n <= |ops| && NeverStray(ix, ops)
    ensures AgreesAfter(ix, ops, n, direct)
  {
    hide ReadsAgree;
    hide Committed;
    hide SetsStray;
    forall i | 0 <= i < n ensures !SetsStray(OverlayRun(ix, ops[..n][..i]), ops[..n][i]) {
      assert ops[..n][..i] == ops[..i];
      assert !SetsStray(OverlayRun(ix, ops[..i]), ops[i]);
    }
    CommitIsDirect(ix, ops[..n]);
    ReadsAgreeIff(OverlayRun(ix, ops[..n]));
  }

  /**
   * GetDomain, GetOwner, GetListPrice, IsForSale and IsSpent on the overlay equal the same reads on the index that was
   * updated directly, or on the index after Commit, after every operation, exactly when no operation sets an owner or a
   * positive price on a name without a record.
   */
  lemma OverlayRefinesIndex(ix: Index, ops: seq<Op>, direct: bool)
    ensures (forall n :: 0 <= n <= |ops| ==> AgreesAfter(ix, ops, n, direct)) <==> NeverStray(ix, ops)
  {
    hide ReadsAgree;
    hide Committed;
    hide SetsStray;
    hide OnOverlay;
    hide OnIndex;
    if NeverStray(ix, ops) {
      forall n | 0 <= n <= |ops| ensures AgreesAfter(ix, ops, n, direct) {
        AgreesWithoutStray(ix, ops, n, direct);
      }
    } else {
      var n :| 0 <= n < |ops| && SetsStray(OverlayRun(ix, ops[..n]), ops[n]);
      SameRecords(ix, ops[..n]);
      StrayIsSeen(OverlayRun(ix, ops[..n]), IndexRun(ix, ops[..n]), ops[n]);
      assert ops[..n + 1][..n] == ops[..n];
      assert !AgreesAfter(ix, ops, n + 1, direct);
    }
  }
}
