/** A block that proves two offenses of one validator, in which the running stake and the applied stake part. */
module TwoProofs {
  import opened Basics
  import opened Sums
  import opened Transactions
  import opened Ledger
  import opened Staking
  import opened Validation
  import opened Application
  import opened ShadowLedger
  import opened ShadowStake
  import opened DomainIndex
  import Commits
  import Blocks
  import opened ExampleChain
  import opened StakeTotals
  import Supply

  const VALIDATOR: Key := [7]

  /** Four evidence blocks: [1] and [2] conflict at height 1, [3] and [4] at height 2. */
  function Decode(b: Bytes): Option<Evidence> {
    if b == [1] || b == [2] then Some(Evidence(1, VALIDATOR, b))
    else if b == [3] || b == [4] then Some(Evidence(2, VALIDATOR, b))
    else None
  }

  function World(): Env {
    Env((k, tx) => true, b => b, Decode, b => true, [], 0)
  }

  function Context(): Ctx {
    Ctx(World(), map[VALIDATOR := Account(1000, 0)], NewOverlay(Index(map[], {})), NoLookup,
        Commits.NewOverlay(map[], 1),
        1, true, VALIDATOR, map[VALIDATOR := 100], [], {})
  }

  function Start(): StakeState {
    StakeState(map[VALIDATOR := 100], [], {})
  }

  function Transaction(nonce: u64, typ: TxType, amount: u64, a: Bytes, b: Bytes): Tx {
    Tx(0, typ, 0, [], [], 0, 0, 0, VALIDATOR, 1, nonce, 0, [], seq(64, i => 0), [], [], amount, a, b)
  }

  function Unstake(): Tx { Transaction(0, UNSTAKE, 100, [], []) }
  function FirstProof(): Tx { Transaction(1, EQUIVOCATION_PROOF, 0, [1], [2]) }
  function Restake(): Tx { Transaction(2, STAKE, 200, [], []) }
  function SecondProof(): Tx { Transaction(3, EQUIVOCATION_PROOF, 0, [3], [4]) }

  function Listed(): seq<Tx> {
    [Unstake(), FirstProof(), Restake(), SecondProof()]
  }

  /** The running state between the transactions. */
  function Running(nonce: u64, balance: u64, stake: u64, pending: map<Key, u64>, burned: map<Key, u64>,
                   slashed: set<Offense>): Shadow {
    Shadow(map[VALIDATOR := nonce], map[VALIDATOR := balance], {}, map[], {}, map[], map[],
           map[VALIDATOR := stake], pending, burned, slashed, {})
  }

  function Running1(): Shadow { Running(1, 999, 0, map[VALIDATOR := 100], map[], {}) }
  function Running2(): Shadow { Running(2, 998, 0, map[VALIDATOR := 0], map[VALIDATOR := 100],
                                        {Offense(1, VALIDATOR)}) }
  function Running3(): Shadow { Running(3, 797, 200, map[VALIDATOR := 0], map[VALIDATOR := 100],
                                        {Offense(1, VALIDATOR)}) }

  lemma Step1()
    ensures Gates(Context(), EmptyShadow(), Unstake()) && NextShadow(Context(), EmptyShadow(), Unstake()) == Running1()
  {
  }

  lemma Step2()
    ensures Gates(Context(), Running1(), FirstProof())
  {
    hide PendingStake;
    NoneQueued();
  }

  lemma NoneQueued()
    ensures PendingStake(Context().queue, VALIDATOR) == 0
  {
  }

  lemma Step2Effect()
    ensures NextShadow(Context(), Running1(), FirstProof()) == Running2()
  {
    hide PendingStake;
    NoneQueued();
    assert Excess(Context(), Running1(), VALIDATOR) == 100;
  }

  lemma Step3()
    ensures Gates(Context(), Running2(), Restake()) && NextShadow(Context(), Running2(), Restake()) == Running3()
  {
  }

  /** The queue of the validator has been counted as burned in two places, and the difference wraps around. */
  lemma Step4()
    ensures Gates(Context(), Running3(), SecondProof()) && !SlashFits(Context(), Running3(), SecondProof())
    ensures Stake(Context(), NextShadow(Context(), Running3(), SecondProof()), VALIDATOR) == 100
  {
  }

  /** The block passes every gate, and its running stakes are not the applied ones. */
  lemma SecondProofDiverges()
    ensures Accepts(Context(), Listed()) && Starts(Context(), Start())
    ensures Stake(Context(), ShadowRun(Context(), Listed()), VALIDATOR) == 100
    ensures !SlashesFit(Context(), Listed()) && !AlwaysAgree(Context(), Start(), Listed())
  {
    hide Gates;
    hide NextShadow;
    hide SlashFits;
    hide AlwaysAgree;
    Step1();
    Step2();
    Step2Effect();
    Step3();
    Step4();
    var t1, t2, t3 := [Unstake()], [Unstake(), FirstProof()], [Unstake(), FirstProof(), Restake()];
    assert t1[..0] == [] && t2[..1] == t1 && t3[..2] == t2 && Listed()[..3] == t3;
    assert ShadowRun(Context(), t1) == Running1() && Accepts(Context(), t1);
    assert ShadowRun(Context(), t2) == Running2() && Accepts(Context(), t2);
    assert ShadowRun(Context(), t3) == Running3() && Accepts(Context(), t3);
    Coins();
    StakesAgreeIff(Context(), Start(), Listed());
  }

  lemma Coins()
    ensures Starts(Context(), Start())
  {
    var b := Balances(Context().ledger);
    assert b == map[][VALIDATOR := 1000];
    TotalUpdate(map[], VALIDATOR, 1000);
    TotalUpdate(map[], VALIDATOR, 100);
    assert Context().stakes == map[][VALIDATOR := 100];
  }

  // ----- The same block as a whole, and two blocks that go on from it -----

  function Genesis(): Blocks.State {
    Blocks.State(Context().ledger, Index(map[], {}), map[], Context().stakes, [], {}, Blocks.Tip(0, 0, []))
  }

  function Proposal(txs: seq<Tx>): Blocks.Step {
    Proposed(1, 1, VALIDATOR, txs, NoLookup, seq(|txs|, i => None))
  }

  lemma SameContext(txs: seq<Tx>)
    ensures Blocks.ContextOf(Chain(World(), VALIDATOR), Genesis(), Proposal(txs).block, NoLookup) == Context()
  {
    assert Commits.OvPurge(Commits.NewOverlay(map[], 1), 1) == Commits.NewOverlay(map[], 1);
  }

  lemma ProposalIsAccepted(txs: seq<Tx>)
    requires txs != [] && Accepts(Context(), txs)
    ensures var w, st := Chain(World(), VALIDATOR), Proposal(txs);
            Blocks.Transition(w, Genesis(), st, Blocks.NextState(w, Genesis(), st))
  {
    hide Accepts;
    hide Context;
    hide Blocks.ContextOf;
    SameContext(txs);
    AcceptedBlock(World(), VALIDATOR, Genesis(), 1, 1, txs, NoLookup, seq(|txs|, i => None));
  }

  /** Every check of block validation lets the block with the two proofs through. */
  lemma BlockIsAccepted()
    ensures var w, st := Chain(World(), VALIDATOR), Proposal(Listed());
            Blocks.Transition(w, Genesis(), st, Blocks.NextState(w, Genesis(), st))
  {
    hide Accepts;
    hide AlwaysAgree;
    hide SlashesFit;
    hide Blocks.Transition;
    hide Blocks.NextState;
    SecondProofDiverges();
    ProposalIsAccepted(Listed());
  }

  /** UNSTAKE the 100 coins that the running stake still shows, or STAKE one coin on top of them. */
  function UnstakeAgain(): Tx { Transaction(4, UNSTAKE, 100, [], []) }
  function StakeOne(): Tx { Transaction(4, STAKE, 1, [], []) }

  function Running4(): Shadow {
    Running(4, 796, 100, map[VALIDATOR := 0], map[VALIDATOR := 100], {Offense(1, VALIDATOR), Offense(2, VALIDATOR)})
  }

  lemma Step4Effect()
    ensures NextShadow(Context(), Running3(), SecondProof()) == Running4()
  {
    hide PendingStake;
    NoneQueued();
    assert Excess(Context(), Running3(), VALIDATOR) == 0;
  }

  lemma UnstakePasses()
    ensures Gates(Context(), Running4(), UnstakeAgain())
  {
  }

  lemma StakePasses()
    ensures Gates(Context(), Running4(), StakeOne())
  {
  }

  lemma LongerIsAccepted(tx: Tx)
    requires Gates(Context(), Running4(), tx)
    ensures Accepts(Context(), Listed() + [tx])
  {
    hide Gates;
    hide NextShadow;
    hide SlashFits;
    hide AlwaysAgree;
    SecondProofDiverges();
    Step4Effect();
    ListedRun();
    assert (Listed() + [tx])[..4] == Listed();
  }

  lemma ListedRun()
    ensures ShadowRun(Context(), Listed()) == Running4()
  {
    hide Gates;
    hide NextShadow;
    Step1();
    Step2Effect();
    Step3();
    Step4Effect();
    var t1, t2, t3 := [Unstake()], [Unstake(), FirstProof()], [Unstake(), FirstProof(), Restake()];
    assert t1[..0] == [] && t2[..1] == t1 && t3[..2] == t2 && Listed()[..3] == t3;
    assert ShadowRun(Context(), t1) == Running1();
    assert ShadowRun(Context(), t2) == Running2();
    assert ShadowRun(Context(), t3) == Running3();
  }

  // ----- What is applied -----

  /** The list and its prefixes. */
  function T1(): seq<Tx> { [Unstake()] }
  function T2(): seq<Tx> { [Unstake(), FirstProof()] }
  function T3(): seq<Tx> { [Unstake(), FirstProof(), Restake()] }

  function At1(): StakeState { StakeState(map[], [Pending(VALIDATOR, 100, 1001)], {}) }
  function At2(): StakeState { StakeState(map[], [], {Offense(1, VALIDATOR)}) }
  function At3(): StakeState { StakeState(map[VALIDATOR := 200], [], {Offense(1, VALIDATOR)}) }
  function At4(): StakeState { StakeState(map[], [], {Offense(1, VALIDATOR), Offense(2, VALIDATOR)}) }

  lemma Apply1()
    ensures ApplyStake(World(), Start(), Unstake(), 1) == At1()
  {
  }

  lemma BurnOne()
    ensures PendingStake(At1().queue, VALIDATOR) == 100 && BurnedAndCompacted(At1().queue, VALIDATOR, 100) == []
  {
    var q := At1().queue;
    assert q[..0] == [];
    assert Queued(q[..0], VALIDATOR) == 0;
    assert Burned(q, VALIDATOR, 100) == [Pending(VALIDATOR, 0, 1001)];
    assert [Pending(VALIDATOR, 0, 1001)][..0] == [];
  }

  /** The first proof burns the queued coins. */
  lemma Apply2()
    ensures ApplyStake(World(), At1(), FirstProof(), 1) == At2()
  {
    hide PendingStake;
    hide BurnedAndCompacted;
    BurnOne();
  }

  lemma Apply3()
    ensures ApplyStake(World(), At2(), Restake(), 1) == At3()
  {
  }

  /** The second one takes the new stake. */
  lemma Apply4()
    ensures ApplyStake(World(), At3(), SecondProof(), 1) == At4()
  {
  }

  lemma ListedApplied()
    ensures StakeRun(World(), Start(), Listed(), 1) == At4()
    ensures CoinsStaked(Listed()) == 200 && UncoveredRun(World(), Start(), Listed(), 1) == 0
    ensures SlashedRun(World(), Start(), Listed(), 1) == 300
  {
    hide ApplyStake;
    Apply1();
    Apply2();
    Apply3();
    Apply4();
    assert T1()[..0] == [] && T2()[..1] == T1() && T3()[..2] == T2() && Listed()[..3] == T3();
    assert StakeRun(World(), Start(), T1(), 1) == At1() && StakeRun(World(), Start(), T2(), 1) == At2();
    assert StakeRun(World(), Start(), T3(), 1) == At3();
    assert CoinsStaked(T1()) == 0 && CoinsStaked(T2()) == 0 && CoinsStaked(T3()) == 200;
    assert UncoveredRun(World(), Start(), T1(), 1) == 0 && UncoveredRun(World(), Start(), T2(), 1) == 0;
    assert UncoveredRun(World(), Start(), T3(), 1) == 0;
    assert At1().queue[..0] == [];
    assert SlashedRun(World(), Start(), T1(), 1) == 0 && SlashedRun(World(), Start(), T2(), 1) == 100;
    assert SlashedRun(World(), Start(), T3(), 1) == 100;
  }

  lemma GenesisStart(txs: seq<Tx>)
    ensures Blocks.StartStake(Genesis(), Proposal(txs).block) == Start()
    ensures Supply.Matured(Genesis(), Proposal(txs).block) == 0
  {
  }

  lemma {:induction false} OwnedPayNoAutoFees(txs: seq<Tx>)
    requires forall i :: 0 <= i < |txs| ==> txs[i].owner != []
    ensures Supply.AutoFees(txs) == 0
  {
    if txs == [] {
    } else {
      OwnedPayNoAutoFees(txs[..|txs| - 1]);
    }
  }

  lemma GenesisCoins()
    ensures Supply.Coins(Genesis()) == 1100
  {
    assert Balances(Genesis().ledger) == map[][VALIDATOR := 1000];
    TotalUpdate(map[], VALIDATOR, 1000);
    TotalUpdate(map[], VALIDATOR, 100);
    assert Genesis().stakes == map[][VALIDATOR := 100];
  }

  /** What one more transaction leaves uncovered. */
  lemma LongerUncovered(tx: Tx)
    ensures var txs := Listed() + [tx];
            && UncoveredRun(World(), Start(), txs, 1) == Uncovered(At4(), tx)
            && StakeRun(World(), Start(), txs, 1) == ApplyStake(World(), At4(), tx, 1)
            && SlashedRun(World(), Start(), txs, 1) == 300 + SlashedBy(World(), At4(), tx)
  {
    hide ApplyStake;
    ListedApplied();
    assert (Listed() + [tx])[..4] == Listed();
  }

  function Minting(): (st: Blocks.Step)
    ensures |st.founds| == |st.block.txs|
  {
    Proposal(Listed() + [UnstakeAgain()])
  }

  lemma MintingAccepted()
    ensures var w := Chain(World(), VALIDATOR);
            Blocks.Transition(w, Genesis(), Minting(), Blocks.NextState(w, Genesis(), Minting()))
  {
    hide Accepts;
    hide Gates;
    hide Blocks.Transition;
    hide Blocks.NextState;
    UnstakePasses();
    LongerIsAccepted(UnstakeAgain());
    ProposalIsAccepted(Listed() + [UnstakeAgain()]);
  }

  lemma MintingTotals()
    ensures Supply.AutoFees(Minting().block.txs) == 0 && Supply.Matured(Genesis(), Minting().block) == 0
    ensures Supply.UncoveredIn(Chain(World(), VALIDATOR), Genesis(), Minting().block) == 100
    ensures Supply.SlashedIn(Chain(World(), VALIDATOR), Genesis(), Minting().block) == 300
  {
    hide UncoveredRun;
    hide SlashedRun;
    hide StakeRun;
    hide ApplyStake;
    hide Blocks.StartStake;
    hide Supply.Matured;
    OwnedPayNoAutoFees(Minting().block.txs);
    GenesisStart(Minting().block.txs);
    LongerUncovered(UnstakeAgain());
  }

  /**
   * The block is accepted, nobody's auto-revocation pays for anything, and 100 coins are in the queue that
   * nobody had staked: of 1100 coins 300 are slashed, and 900 remain.
   */
  lemma UnstakeMints()
    ensures var w := Chain(World(), VALIDATOR);
            var s' := Blocks.NextState(w, Genesis(), Minting());
            && Blocks.Transition(w, Genesis(), Minting(), s')
            && Supply.AutoFees(Minting().block.txs) == 0 && Supply.UncoveredIn(w, Genesis(), Minting().block) == 100
            && Supply.Matured(Genesis(), Minting().block) == 0 && Supply.SlashedIn(w, Genesis(), Minting().block) == 300
            && Supply.Coins(Genesis()) == 1100 && Supply.Coins(s') == 900
            && !Supply.Conserving(w, Genesis(), Minting().block)
  {
    hide Blocks.Transition;
    hide Blocks.NextState;
    hide Supply.Coins;
    hide Supply.Matured;
    hide Supply.SlashedIn;
    hide Supply.UncoveredIn;
    hide Supply.AutoFees;
    hide Supply.Conserving;
    hide Minting;
    var w := Chain(World(), VALIDATOR);
    MintingAccepted();
    MintingTotals();
    GenesisCoins();
    Supply.BlockAccounting(w, Genesis(), Minting(), Blocks.NextState(w, Genesis(), Minting()));
    Supply.ConservesIff(w, Genesis(), Minting(), Blocks.NextState(w, Genesis(), Minting()));
  }

  lemma StakesNext(w: Blocks.World, s: Blocks.State, st: Blocks.Step)
    requires |st.founds| == |st.block.txs|
    ensures Blocks.NextState(w, s, st).stakes ==
            StakeRun(w.env, Blocks.StartStake(s, st.block), st.block.txs, st.block.slot).stakes
  {
  }

  lemma OneCoin()
    ensures var txs := Listed() + [StakeOne()];
            && StakeRun(World(), Start(), txs, 1).stakes == map[VALIDATOR := 1]
            && !Floored(map[VALIDATOR := 1]) && Floored(Genesis().stakes)
            && !AllFloorMet(World(), Start(), txs, 1)
  {
    hide StakeRun;
    hide UncoveredRun;
    hide SlashedRun;
    var txs := Listed() + [StakeOne()];
    LongerUncovered(StakeOne());
    ListedApplied();
    assert txs[..4] == Listed() && txs[4] == StakeOne();
    assert !FloorMet(StakeRun(World(), Start(), txs[..4], 1), txs[4]);
    assert Sums.At(map[VALIDATOR := 1], VALIDATOR) == 1;
  }

  /** This block is accepted too, and leaves a stake of one coin. */
  lemma StakeBelowThreshold()
    ensures var w, st := Chain(World(), VALIDATOR), Proposal(Listed() + [StakeOne()]);
            var s' := Blocks.NextState(w, Genesis(), st);
            && Blocks.Transition(w, Genesis(), st, s')
            && Floored(Genesis().stakes) && s'.stakes == map[VALIDATOR := 1] && !Floored(s'.stakes)
            && !Supply.FloorMetIn(w, Genesis(), st.block)
  {
    hide Accepts;
    hide Blocks.Transition;
    hide Blocks.NextState;
    hide Blocks.StartStake;
    hide StakeRun;
    hide AllFloorMet;
    hide Floored;
    var txs := Listed() + [StakeOne()];
    StakePasses();
    LongerIsAccepted(StakeOne());
    ProposalIsAccepted(txs);
    GenesisStart(txs);
    OneCoin();
    StakesNext(Chain(World(), VALIDATOR), Genesis(), Proposal(txs));
  }
}
