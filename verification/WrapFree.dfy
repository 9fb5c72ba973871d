/** No uint64 sum of an accepted block wraps around: balances, stakes, the queue and the fee total. */
module WrapFree {
  import opened Basics
  import opened Ledger
  import opened Staking
  import opened Validation
  import opened Application
  import opened Blocks
  import opened ShadowLedger
  import opened ShadowStake
  import opened StakeTotals
  import opened Supply

  /** The running total of the fees is their sum, and the leader's account can take it. */
  ghost predicate FeesFit(s: State, b: Block) {
    && TotalFees(b.txs) == FeesPaid(b.txs) + AutoFees(b.txs)
    && Liquid(LedgerRun(s.ledger, b.txs)) + TotalFees(b.txs) < TWO64
  }

  /** All balances together stay below 2^64 while phase A is applied. */
  ghost predicate BalancesFit(s: State, b: Block) {
    forall n :: 0 <= n <= |b.txs| ==> Liquid(LedgerRun(s.ledger, b.txs[..n])) < TWO64
  }

  /** And while phase B is applied. */
  ghost predicate TransfersFit(w: World, s: State, st: Step)
    requires |st.founds| == |st.block.txs|
  {
    forall n :: 0 <= n <= |st.block.txs| ==>
      Liquid(DomainRun(PlaceOf(w, st.block), StartB(s, st.block), st.block.txs[..n], st.founds[..n]).ledger) < TWO64
  }

  /** All staked and queued coins together, with the next STAKE, stay below 2^64. */
  ghost predicate BondsFit(w: World, s: State, b: Block) {
    forall n :: 0 <= n < |b.txs| ==>
      Bonded(StakeRun(w.env, StartStake(s, b), b.txs[..n], b.slot)) + StakedBy(b.txs[n]) < TWO64
  }

  ghost predicate NothingWraps(w: World, s: State, st: Step)
    requires |st.founds| == |st.block.txs|
  {
    FeesFit(s, st.block) && BalancesFit(s, st.block) && TransfersFit(w, s, st) && BondsFit(w, s, st.block)
  }

  // ----- The four parts -----

  lemma FeesFitIff(c: Ctx, s: State, b: Block)
    requires c.ledger == s.ledger && Accepts(c, b.txs) && Liquid(s.ledger) < TWO64 && AutoFees(b.txs) % TWO64 == 0
    ensures FeesFit(s, b) <==> AutoFees(b.txs) == 0
  {
    hide Accepts;
    hide LedgerRun;
    BalanceSimulation(c, b.txs);
    if AutoFees(b.txs) == 0 {
      TotalFeesExact(b.txs);
    } else {
      assert AutoFees(b.txs) >= TWO64 > TotalFees(b.txs);
    }
  }

  lemma PhaseAFits(c: Ctx, s: State, b: Block)
    requires c.ledger == s.ledger && Accepts(c, b.txs) && Liquid(s.ledger) < TWO64
    ensures BalancesFit(s, b)
  {
    hide Accepts;
    hide LedgerRun;
    forall n | 0 <= n <= |b.txs| ensures Liquid(LedgerRun(s.ledger, b.txs[..n])) < TWO64 {
      AcceptsPrefix(c, b.txs, n);
      BalanceSimulation(c, b.txs[..n]);
    }
  }

  lemma PhaseBFits(c: Ctx, w: World, s: State, st: Step)
    requires |st.founds| == |st.block.txs| && c.ledger == s.ledger && Accepts(c, st.block.txs)
    requires Liquid(s.ledger) < TWO64 && AutoFees(st.block.txs) % TWO64 == 0
    ensures TransfersFit(w, s, st)
  {
    hide Accepts;
    hide LedgerRun;
    hide DomainRun;
    hide AutoFees;
    var b := st.block;
    PhaseAFree(c, b.txs, b.leader);
    forall n | 0 <= n <= |b.txs|
      ensures Liquid(DomainRun(PlaceOf(w, b), StartB(s, b), b.txs[..n], st.founds[..n]).ledger) < TWO64
    {
      PhaseBConserves(PlaceOf(w, b), StartB(s, b), b.txs[..n], st.founds[..n]);
    }
  }

  lemma StakePhaseFits(c: Ctx, w: World, s: State, b: Block)
    requires c.ledger == s.ledger && Accepts(c, b.txs) && Coins(s) < TWO64 && Covered(w, s, b)
    ensures BondsFit(w, s, b)
  {
    hide Accepts;
    hide StakeRun;
    hide LedgerRun;
    CoveredInIff(w, s, b);
    hide Covered;
    hide UncoveredRun;
    BalanceSimulation(c, b.txs);
    SweepTotals(s.queue, SlotNumber(b.slot));
    forall n | 0 <= n < |b.txs|
      ensures Bonded(StakeRun(w.env, StartStake(s, b), b.txs[..n], b.slot)) + StakedBy(b.txs[n]) < TWO64
    {
      BondedPrefix(w.env, StartStake(s, b), b.txs, b.slot, n);
    }
  }

  // ----- Main results -----

  /** In an accepted block that conserves coins nothing wraps around exactly when its auto-revocations are free. */
  lemma NothingWrapsIff(w: World, s: State, st: Step, s': State)
    requires Transition(w, s, st, s') && Coins(s) < TWO64 && Conserving(w, s, st.block)
    ensures |st.founds| == |st.block.txs|
    ensures NothingWraps(w, s, st) <==> AutoFees(st.block.txs) == 0
  {
    hide Accepts;
    hide HashesOk;
    hide NoCrash;
    hide PurgesPresent;
    hide NextState;
    hide Covered;
    hide FeesFit;
    hide BalancesFit;
    hide TransfersFit;
    hide BondsFit;
    var c := ContextOf(w, s, st.block, st.lookup);
    FeesFitIff(c, s, st.block);
    PhaseAFits(c, s, st.block);
    PhaseBFits(c, w, s, st);
    StakePhaseFits(c, w, s, st.block);
  }

  /** Over a run of blocks with free auto-revocations and one proof per offender nothing ever wraps around. */
  lemma NothingWrapsInFairRun(w: World, states: seq<State>, steps: seq<Step>, n: nat)
    requires FairRun(w, states, steps) && n < |steps|
    ensures |steps[n].founds| == |steps[n].block.txs| && NothingWraps(w, states[n], steps[n])
  {
    hide Transition;
    hide Conserving;
    hide NothingWraps;
    hide Coins;
    hide OneProofPerOffender;
    FairSupply(w, states, steps, |steps|);
    FairSupply(w, states, steps, n);
    assert Transition(w, states[n], steps[n], states[n + 1]);
    NothingWrapsIff(w, states[n], steps[n], states[n + 1]);
    assert Fair(w, steps[n].block);
  }
}
