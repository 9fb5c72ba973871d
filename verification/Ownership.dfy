/** Who can change the owner of a registered name, over whole runs. */
module Ownership {
  import opened Basics
  import opened Transactions
  import opened Ledger
  import Commits
  import opened DomainIndex
  import opened Validation
  import opened Application
  import opened Blocks
  import opened DomainSafety

  /** The owner gives the name away. */
  predicate GivenAway(tx: Tx, after: DomState, k: Key) {
    tx.typ.TRANSFER? && tx.owner == k && GetOwner(after.index, tx.domain) == Some(tx.recipient)
  }

  /** A buyer pays the owner exactly the current list price, which is within the buyer's maximum. */
  predicate Sold(before: DomState, tx: Tx, after: DomState, k: Key) {
    var p := GetPrice(before.index, tx.domain);
    && tx.typ.BUY? && tx.owner != k && GetOwner(after.index, tx.domain) == Some(tx.owner)
    && 0 < p <= tx.listPrice
    && CanDebit(before.ledger, tx.owner, p)
    && after.ledger == Credited(Debited(before.ledger, tx.owner, p), k, p)
    && GetPrice(after.index, tx.domain) == 0
  }

  /** The registration has lapsed and the name is registered anew. */
  predicate Reregistered(x: Place, before: DomState, tx: Tx, after: DomState) {
    && tx.typ.REVEAL? && GetOwner(after.index, tx.domain) == Some(tx.recipient)
    && GetDomain(before.index, tx.domain).Some?
    && PhaseAt(x, GetDomain(before.index, tx.domain).value).Purged?
  }

  /** A transaction that may take d away from its owner k. */
  predicate Authorised(x: Place, before: DomState, tx: Tx, after: DomState, d: Name, k: Key) {
    tx.domain == d && (GivenAway(tx, after, k) || Sold(before, tx, after, k) || Reregistered(x, before, tx, after))
  }

  lemma SaleTerms(x: Place, st: DomState, tx: Tx, k: Key)
    requires tx.typ.BUY? && ApplyMarket(x, st, tx).outcome.Done? && GetOwner(st.index, tx.domain) == Some(k)
    ensures Sold(st, tx, ApplyMarket(x, st, tx).state, k)
  {
    MarketEffect(x, st, tx, tx.domain);
    hide GetDomain;
    hide GetOwner;
    hide GetPrice;
  }

  lemma TransferTerms(x: Place, st: DomState, tx: Tx, k: Key)
    requires tx.typ.TRANSFER? && ApplyMarket(x, st, tx).outcome.Done? && GetOwner(st.index, tx.domain) == Some(k)
    ensures GivenAway(tx, ApplyMarket(x, st, tx).state, k)
  {
    MarketEffect(x, st, tx, tx.domain);
    hide GetDomain;
    hide GetOwner;
    hide GetPrice;
  }

  /** The owner of a registered name changes only by an authorised transaction. */
  lemma OwnerChange(x: Place, st: DomState, tx: Tx, found: Option<Tx>, d: Name, k: Key)
    requires !tx.typ.REGISTER?
    requires GetDomain(st.index, d).Some? && GetOwner(st.index, d) == Some(k)
    requires GetOwner(ApplyDomain(x, st, tx, found).state.index, d) != Some(k)
    ensures Authorised(x, st, tx, ApplyDomain(x, st, tx, found).state, d, k)
  {
    StepEffect(x, st, tx, found, d);
    hide GetDomain;
    hide GetOwner;
    hide GetPrice;
    if tx.typ.BUY? {
      SaleTerms(x, st, tx, k);
    } else if tx.typ.TRANSFER? {
      TransferTerms(x, st, tx, k);
    } else if tx.typ.REVEAL? {
      ApplyIsReveal(x, st, tx, found);
    }
  }

  // ----- One block -----

  lemma BlockMatches(w: World, s: State, st: Step, s': State)
    requires Transition(w, s, st, s')
    ensures Matches(ContextOf(w, s, st.block, st.lookup), PlaceOf(w, st.block), StartB(s, st.block))
    ensures Accepts(ContextOf(w, s, st.block, st.lookup), st.block.txs)
  {
    hide Accepts;
    hide HashesOk;
    hide NoCrash;
    hide PurgesPresent;
    hide NextState;
    SoundNew(s.index);
    assert Commits.WithoutExpired(map[], st.block.index) == map[];
  }

  /** Nothing in an accepted list crashes, whatever GetTxByID answers. */
  lemma AcceptedBlockNeverCrashes(w: World, s: State, st: Step)
    requires |st.founds| == |st.block.txs| && Accepts(ContextOf(w, s, st.block, st.lookup), st.block.txs)
    ensures NoCrash(w, s, st)
  {
    hide Accepts;
    hide ApplyDomain;
    SoundNew(s.index);
    assert Commits.WithoutExpired(map[], st.block.index) == map[];
    var c, x := ContextOf(w, s, st.block, st.lookup), PlaceOf(w, st.block);
    forall i | 0 <= i < |st.block.txs| ensures !OutcomeAt(x, StartB(s, st.block), st.block.txs, st.founds, i).Crashed? {
      AcceptedNeverCrashes(c, x, StartB(s, st.block), st.block.txs, st.founds, i);
    }
  }

  /** The state of phase B before the i-th transaction of a block. */
  function Before(w: World, s: State, st: Step, i: nat): DomState
    requires |st.founds| == |st.block.txs| && i <= |st.block.txs|
  {
    DomainRun(PlaceOf(w, st.block), StartB(s, st.block), st.block.txs[..i], st.founds[..i])
  }

  lemma BeforeStep(w: World, s: State, st: Step, i: nat)
    requires |st.founds| == |st.block.txs| && i < |st.block.txs|
    ensures Before(w, s, st, i + 1) ==
            ApplyDomain(PlaceOf(w, st.block), Before(w, s, st, i), st.block.txs[i], st.founds[i]).state
  {
    DomainStep(PlaceOf(w, st.block), StartB(s, st.block), st.block.txs, st.founds, i);
    hide ApplyDomain;
  }

  /** Reads before the first transaction are reads of the old index; after the last, of the new one. */
  lemma BlockReads(w: World, s: State, st: Step, s': State, d: Name)
    requires Transition(w, s, st, s')
    ensures var o := Before(w, s, st, 0).index;
            && GetDomain(o, d) == IxDomain(s.index, d) && GetOwner(o, d) == IxOwner(s.index, d)
            && GetPrice(o, d) == IxPrice(s.index, d)
    ensures var o := Before(w, s, st, |st.block.txs|).index;
            && GetDomain(o, d) == IxDomain(s'.index, d) && GetOwner(o, d) == IxOwner(s'.index, d)
            && GetPrice(o, d) == IxPrice(s'.index, d)
  {
    hide Accepts;
    hide HashesOk;
    hide NoCrash;
    hide PurgesPresent;
    hide ApplyDomain;
    var n := |st.block.txs|;
    assert st.block.txs[..n] == st.block.txs && st.founds[..n] == st.founds;
    SoundNew(s.index);
    RunSound(PlaceOf(w, st.block), StartB(s, st.block), st.block.txs, st.founds);
    SoundReads(PhaseB(w, s, st).index, d);
  }

  /** A name that changed hands between positions i and n did so first at some position j. */
  lemma {:induction false} FirstChange(w: World, s: State, st: Step, d: Name, k: Key, n: nat) returns (j: nat)
    requires |st.founds| == |st.block.txs| && n <= |st.block.txs|
    requires GetOwner(Before(w, s, st, 0).index, d) == Some(k) && GetOwner(Before(w, s, st, n).index, d) != Some(k)
    ensures j < n && GetOwner(Before(w, s, st, j).index, d) == Some(k)
    ensures GetOwner(Before(w, s, st, j + 1).index, d) != Some(k)
  {
    if GetOwner(Before(w, s, st, n - 1).index, d) == Some(k) {
      j := n - 1;
    } else {
      j := FirstChange(w, s, st, d, k, n - 1);
    }
  }

  /** Whoever loses a name in an accepted block loses it to one authorised transaction of that block. */
  lemma BlockOwnership(w: World, s: State, st: Step, s': State, d: Name, k: Key)
    requires Transition(w, s, st, s')
    requires IxDomain(s.index, d).Some? && IxOwner(s.index, d) == Some(k) && IxOwner(s'.index, d) != Some(k)
    ensures exists i :: 0 <= i < |st.block.txs| &&
              Authorised(PlaceOf(w, st.block), Before(w, s, st, i), st.block.txs[i], Before(w, s, st, i + 1), d, k)
  {
    BlockReads(w, s, st, s', d);
    BlockMatches(w, s, st, s');
    assert |st.founds| == |st.block.txs|;
    hide Transition;
    hide ApplyDomain;
    hide GetDomain;
    hide GetOwner;
    hide GetPrice;
    hide Accepts;
    hide Authorised;
    var x, c, txs := PlaceOf(w, st.block), ContextOf(w, s, st.block, st.lookup), st.block.txs;
    var i := FirstChange(w, s, st, d, k, |txs|);
    RunGrows(x, StartB(s, st.block), txs[..i], st.founds[..i], 0);
    assert txs[..i][..0] == txs[..0] && st.founds[..i][..0] == st.founds[..0];
    NotRegister(c, txs, i);
    BeforeStep(w, s, st, i);
    OwnerChange(x, Before(w, s, st, i), txs[i], st.founds[i], d, k);
  }

  lemma NotRegister(c: Ctx, txs: seq<Tx>, i: nat)
    requires Accepts(c, txs) && i < |txs|
    ensures !txs[i].typ.REGISTER?
  {
    AcceptsPrefix(c, txs, i);
    ExistenceGates(c, ShadowRun(c, txs[..i]), txs[i]);
    hide Gates;
  }

  // ----- Whole runs -----

  /** Every record has a real owner. */
  ghost predicate Owned(o: Overlay) {
    forall d :: GetDomain(o, d).Some? ==> GetOwner(o, d).Some? && GetOwner(o, d).value != []
  }

  lemma OwnedStep(x: Place, st: DomState, tx: Tx, found: Option<Tx>)
    requires Owned(st.index) && !tx.typ.REGISTER?
    requires tx.typ.REVEAL? || tx.typ.TRANSFER? ==> tx.recipient != []
    requires tx.typ.BUY? ==> tx.owner != []
    requires tx.typ.UPDATE? || tx.typ.RENEW? || tx.typ.REVOKE? ==>
               GetDomain(st.index, tx.domain).Some? || !ApplyDomain(x, st, tx, found).outcome.Done?
    ensures Owned(ApplyDomain(x, st, tx, found).state.index)
  {
    hide ApplyDomain;
    hide GetDomain;
    hide GetOwner;
    hide GetPrice;
    var o' := ApplyDomain(x, st, tx, found).state.index;
    forall d ensures GetDomain(o', d).Some? ==> GetOwner(o', d).Some? && GetOwner(o', d).value != [] {
      StepEffect(x, st, tx, found, d);
    }
  }

  lemma PartyGates(c: Ctx, sh: Shadow, tx: Tx)
    requires Gates(c, sh, tx)
    ensures !tx.typ.REGISTER?
    ensures tx.typ.REVEAL? || tx.typ.TRANSFER? ==> tx.recipient != []
    ensures tx.owner == [] ==> tx.typ.REVOKE?
  {
  }

  /** An auto-revocation of a name without a record is refused. */
  lemma AutoRevokeNeedsRecord(x: Place, st: DomState, tx: Tx, found: Option<Tx>)
    requires tx.owner == [] && tx.typ.REVOKE? && GetDomain(st.index, tx.domain).None?
    ensures !ApplyDomain(x, st, tx, found).outcome.Done?
  {
  }

  lemma {:induction false} OwnedRun(c: Ctx, x: Place, st: DomState, txs: seq<Tx>, founds: seq<Option<Tx>>)
    requires |founds| == |txs| && Accepts(c, txs) && Matches(c, x, st) && Owned(st.index)
    ensures Owned(DomainRun(x, st, txs, founds).index)
  {
    hide ApplyDomain;
    hide Gates;
    hide NextShadow;
    hide GetDomain;
    hide GetOwner;
    hide Owned;
    hide Sound;
    if txs == [] {
    } else {
      var n := |txs| - 1;
      var mid, tx := DomainRun(x, st, txs[..n], founds[..n]), txs[n];
      OwnedRun(c, x, st, txs[..n], founds[..n]);
      PartyGates(c, ShadowRun(c, txs[..n]), tx);
      if tx.owner == [] {
        if GetDomain(mid.index, tx.domain).None? { AutoRevokeNeedsRecord(x, mid, tx, founds[n]); }
      } else if tx.typ.UPDATE? || tx.typ.RENEW? || tx.typ.REVOKE? {
        TargetIsRecorded(c, x, st, txs, founds, n);
      }
      OwnedStep(x, mid, tx, founds[n]);
    }
  }

  /** In every reachable state every record has a non-empty owner, so BUY never pays the empty key. */
  lemma {:induction false} RunOwned(w: World, states: seq<State>, steps: seq<Step>, n: nat)
    requires ValidRun(w, states, steps) && n <= |steps| && Owned(NewOverlay(states[0].index))
    ensures Owned(NewOverlay(states[n].index))
  {
    hide Transition;
    hide Owned;
    if n == 0 {
    } else {
      RunOwned(w, states, steps, n - 1);
      assert Transition(w, states[n - 1], steps[n - 1], states[n]);
      BlockOwned(w, states[n - 1], steps[n - 1], states[n]);
    }
  }

  lemma BlockOwned(w: World, s: State, st: Step, s': State)
    requires Transition(w, s, st, s') && Owned(NewOverlay(s.index))
    ensures Owned(NewOverlay(s'.index))
  {
    BlockMatches(w, s, st, s');
    assert |st.founds| == |st.block.txs|;
    OwnedRun(ContextOf(w, s, st.block, st.lookup), PlaceOf(w, st.block), StartB(s, st.block), st.block.txs, st.founds);
    assert st.block.txs[..|st.block.txs|] == st.block.txs && st.founds[..|st.block.txs|] == st.founds;
    hide Transition;
    hide ApplyDomain;
    hide Accepts;
    var o := Before(w, s, st, |st.block.txs|).index;
    forall d | IxDomain(s'.index, d).Some? ensures IxOwner(s'.index, d).Some? && IxOwner(s'.index, d).value != [] {
      BlockReads(w, s, st, s', d);
      assert GetDomain(o, d).Some?;
    }
  }

  /**
   * Over any run: if k owns d before block n and not after it, some transaction of block n
   * was k's own TRANSFER, or a BUY that paid k the list price, or a REVEAL after d was purged.
   */
  lemma RunOwnership(w: World, states: seq<State>, steps: seq<Step>, n: nat, d: Name, k: Key)
    requires ValidRun(w, states, steps) && n < |steps|
    requires IxDomain(states[n].index, d).Some?
    requires IxOwner(states[n].index, d) == Some(k) && IxOwner(states[n + 1].index, d) != Some(k)
    ensures |steps[n].founds| == |steps[n].block.txs|
    ensures exists i :: 0 <= i < |steps[n].block.txs| &&
              Authorised(PlaceOf(w, steps[n].block), Before(w, states[n], steps[n], i), steps[n].block.txs[i],
                         Before(w, states[n], steps[n], i + 1), d, k)
  {
    assert Transition(w, states[n], steps[n], states[n + 1]);
    assert |steps[n].founds| == |steps[n].block.txs|;
    hide Authorised;
    BlockOwnership(w, states[n], steps[n], states[n + 1], d, k);
    hide Transition;
  }
}
