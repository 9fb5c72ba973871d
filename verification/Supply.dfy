/** Coins are neither minted nor lost by accepted blocks, except for the ones the code drops. */
module Supply {
  import opened Basics
  import opened Sums
  import opened Transactions
  import opened Ledger
  import opened Staking
  import opened Validation
  import opened Application
  import opened Blocks
  import opened ShadowLedger
  import opened ShadowStake
  import opened StakeTotals

  /** All coins: liquid, staked and queued. */
  ghost function Coins(s: State): nat {
    Liquid(s.ledger) + Total(s.stakes) + QueueTotal(s.queue)
  }

  /** The first number is the second, short of a multiple of 2^64 that was lost by wrapping around. */
  predicate Short(a: nat, b: nat) {
    a <= b && (b - a) % TWO64 == 0
  }

  lemma ShortBelow(a: nat, b: nat)
    requires Short(a, b) && b < TWO64
    ensures a == b
  {
  }

  lemma ShortAdd(a: nat, b: nat, k: nat)
    requires Short(a, b)
    ensures Short(a + k, b + k)
  {
  }

  lemma ShortTrans(a: nat, b: nat, c: nat)
    requires Short(a, b) && Short(b, c)
    ensures Short(a, c)
  {
  }

  // ----- Fees -----

  /** The fees written on auto-revocations; nobody is debited for them. */
  function AutoFees(txs: seq<Tx>): nat {
    if txs == [] then 0
    else AutoFees(txs[..|txs| - 1]) + (if txs[|txs| - 1].owner == [] then txs[|txs| - 1].fee else 0)
  }

  /** The uint64 total that is credited to the leader is exact as long as it fits. */
  lemma {:induction false} TotalFeesExact(txs: seq<Tx>)
    requires FeesPaid(txs) + AutoFees(txs) < TWO64
    ensures TotalFees(txs) == FeesPaid(txs) + AutoFees(txs)
  {
    if txs == [] {
    } else {
      TotalFeesExact(txs[..|txs| - 1]);
    }
  }

  /** In general it is short of that sum. */
  lemma {:induction false} TotalFeesShort(txs: seq<Tx>)
    ensures Short(TotalFees(txs), FeesPaid(txs) + AutoFees(txs))
  {
    if txs == [] {
    } else {
      TotalFeesShort(txs[..|txs| - 1]);
    }
  }

  // ----- BUY transfers -----

  /** A credit that wraps around loses 2^64 coins. */
  lemma CreditShort(a: Accounts, k: Key, x: u64)
    ensures Short(Liquid(Credited(a, k, x)), Liquid(a) + x)
  {
    LiquidCovers(a, k);
    LiquidSet(a, k, Ensured(a, k).(balance := Add64(BalanceOf(a, k), x)));
  }

  lemma BuyShort(x: Place, st: DomState, tx: Tx, found: Option<Tx>)
    ensures Short(Liquid(ApplyDomain(x, st, tx, found).state.ledger), Liquid(st.ledger))
  {
    hide DomainIndex.GetPrice;
    hide DomainIndex.GetDomain;
    hide Seller;
    if tx.typ.BUY? {
      var price, seller := DomainIndex.GetPrice(st.index, tx.domain), Seller(st.index, tx.domain);
      if CanDebit(st.ledger, tx.owner, price) {
        LiquidDebited(st.ledger, tx.owner, price);
        CreditShort(Debited(st.ledger, tx.owner, price), seller, price);
      }
    }
  }

  /** Whatever the balances, phase B creates no coins. */
  lemma {:induction false} PhaseBShort(x: Place, st: DomState, txs: seq<Tx>, founds: seq<Option<Tx>>)
    requires |founds| == |txs|
    ensures Short(Liquid(DomainRun(x, st, txs, founds).ledger), Liquid(st.ledger))
  {
    hide ApplyDomain;
    if txs == [] {
    } else {
      var n := |txs| - 1;
      PhaseBShort(x, st, txs[..n], founds[..n]);
      BuyShort(x, DomainRun(x, st, txs[..n], founds[..n]), txs[n], founds[n]);
    }
  }

  /** Phase B moves coins between accounts and creates none. */
  lemma BuyConserves(x: Place, st: DomState, tx: Tx, found: Option<Tx>)
    requires Liquid(st.ledger) < TWO64
    ensures Liquid(ApplyDomain(x, st, tx, found).state.ledger) == Liquid(st.ledger)
  {
    if tx.typ.BUY? {
      var price, seller := DomainIndex.GetPrice(st.index, tx.domain), Seller(st.index, tx.domain);
      if CanDebit(st.ledger, tx.owner, price) {
        FundStep(st.ledger, tx.owner, seller, price, seller);
      }
    }
  }

  lemma {:induction false} PhaseBConserves(x: Place, st: DomState, txs: seq<Tx>, founds: seq<Option<Tx>>)
    requires |founds| == |txs| && Liquid(st.ledger) < TWO64
    ensures Liquid(DomainRun(x, st, txs, founds).ledger) == Liquid(st.ledger)
  {
    hide ApplyDomain;
    if txs == [] {
    } else {
      var n := |txs| - 1;
      PhaseBConserves(x, st, txs[..n], founds[..n]);
      BuyConserves(x, DomainRun(x, st, txs[..n], founds[..n]), txs[n], founds[n]);
    }
  }

  // ----- One block -----

  /** Coins whose unbonding delay is over; the sweep removes them and credits nobody. */
  ghost function Matured(s: State, b: Block): nat {
    QueueTotal(Select(s.queue, SlotNumber(b.slot), true))
  }

  ghost function SlashedIn(w: World, s: State, b: Block): nat {
    SlashedRun(w.env, StartStake(s, b), b.txs, b.slot)
  }

  /** What UNSTAKEs of the block ask beyond the stakes they are applied to. */
  ghost function UncoveredIn(w: World, s: State, b: Block): nat {
    UncoveredRun(w.env, StartStake(s, b), b.txs, b.slot)
  }

  /** Coins that the block creates: fees nobody pays, and queued coins that were not staked. */
  ghost function Minted(w: World, s: State, b: Block): nat {
    AutoFees(b.txs) + UncoveredIn(w, s, b)
  }

  /** Phase A: the fees and the staked coins leave their owners, and the leader gets all the fees. */
  lemma PhaseALiquid(c: Ctx, txs: seq<Tx>, leader: Key)
    requires Accepts(c, txs) && Liquid(c.ledger) + AutoFees(txs) < TWO64
    ensures Liquid(WithFees(LedgerRun(c.ledger, txs), leader, TotalFees(txs))) + CoinsStaked(txs)
            == Liquid(c.ledger) + AutoFees(txs)
  {
    BalanceSimulation(c, txs);
    TotalFeesExact(txs);
    LiquidCredited(LedgerRun(c.ledger, txs), leader, TotalFees(txs));
  }

  /** With any fees on auto-revocations the leader gets what is left of the sum. */
  lemma PhaseAShort(c: Ctx, txs: seq<Tx>, leader: Key)
    requires Accepts(c, txs) && Liquid(c.ledger) < TWO64
    ensures Short(Liquid(WithFees(LedgerRun(c.ledger, txs), leader, TotalFees(txs))) + CoinsStaked(txs),
                  Liquid(c.ledger) + AutoFees(txs))
  {
    hide Short;
    hide Accepts;
    hide LedgerRun;
    hide AutoFees;
    BalanceSimulation(c, txs);
    TotalFeesShort(txs);
    var a, fees, staked := LedgerRun(c.ledger, txs), TotalFees(txs), CoinsStaked(txs);
    FeesShort(a, leader, fees);
    CreditedFees(Liquid(WithFees(a, leader, fees)), Liquid(a), fees, FeesPaid(txs) + AutoFees(txs), staked);
  }

  lemma CreditedFees(after: nat, liquid: nat, fees: nat, sum: nat, staked: nat)
    requires Short(after, liquid + fees) && Short(fees, sum)
    ensures Short(after + staked, sum + liquid + staked)
  {
    hide Short;
    ShortAdd(after, liquid + fees, staked);
    ShortAdd(fees, sum, liquid + staked);
    ShortTrans(after + staked, fees + (liquid + staked), sum + (liquid + staked));
  }

  lemma FeesShort(a: Accounts, leader: Key, fees: u64)
    ensures Short(Liquid(WithFees(a, leader, fees)), Liquid(a) + fees)
  {
    CreditShort(a, leader, fees);
  }

  lemma FreeFees(fees: u64, paid: nat, auto: nat)
    requires Short(fees, paid + auto) && paid < TWO64 && auto % TWO64 == 0
    ensures fees == paid
  {
  }

  /** Fees that add up to a multiple of 2^64 are as good as none. */
  lemma PhaseAFree(c: Ctx, txs: seq<Tx>, leader: Key)
    requires Accepts(c, txs) && Liquid(c.ledger) < TWO64 && AutoFees(txs) % TWO64 == 0
    ensures Liquid(WithFees(LedgerRun(c.ledger, txs), leader, TotalFees(txs))) + CoinsStaked(txs) == Liquid(c.ledger)
  {
    hide Accepts;
    hide LedgerRun;
    BalanceSimulation(c, txs);
    TotalFeesShort(txs);
    FreeFees(TotalFees(txs), FeesPaid(txs), AutoFees(txs));
    hide Short;
    hide AutoFees;
    LiquidCredited(LedgerRun(c.ledger, txs), leader, TotalFees(txs));
  }

  /** The stake phase starts with what the sweep leaves, and takes what phase A paid for. */
  lemma StakePhaseTotals(w: World, s: State, b: Block, staked: nat)
    requires staked == CoinsStaked(b.txs) && staked <= Liquid(s.ledger) && Coins(s) + UncoveredIn(w, s, b) < TWO64
    ensures Bonded(StakePhase(w, s, b)) + Matured(s, b) + SlashedIn(w, s, b)
            == Total(s.stakes) + QueueTotal(s.queue) + staked + UncoveredIn(w, s, b)
  {
    SweepTotals(s.queue, SlotNumber(b.slot));
    StakeRunTotals(w.env, StartStake(s, b), b.txs, b.slot);
    hide StakeRun;
    hide UncoveredRun;
    hide SlashedRun;
  }

  /** The ledger's part of an accepted block. */
  lemma LedgerAccounting(w: World, s: State, st: Step, s': State)
    requires Transition(w, s, st, s') && Liquid(s.ledger) < TWO64
    ensures CoinsStaked(st.block.txs) <= Liquid(s.ledger)
    ensures Short(Liquid(s'.ledger) + CoinsStaked(st.block.txs), Liquid(s.ledger) + AutoFees(st.block.txs))
  {
    hide Short;
    hide Accepts;
    hide HashesOk;
    hide NoCrash;
    hide PurgesPresent;
    hide StakeRun;
    hide LedgerRun;
    hide DomainRun;
    hide AutoFees;
    hide WithFees;
    var b, c := st.block, ContextOf(w, s, st.block, st.lookup);
    BalanceSimulation(c, b.txs);
    PhaseAShort(c, b.txs, b.leader);
    PhaseBShort(PlaceOf(w, b), StartB(s, b), b.txs, st.founds);
    LiquidAndBonded(Liquid(s'.ledger), Liquid(PhaseA(s, b)), CoinsStaked(b.txs), Liquid(s.ledger), AutoFees(b.txs), 0);
  }

  lemma CoinsAfter(w: World, s: State, st: Step, s': State)
    requires Transition(w, s, st, s')
    ensures Coins(s') == Liquid(s'.ledger) + Bonded(StakePhase(w, s, st.block))
  {
    hide Accepts;
    hide HashesOk;
    hide NoCrash;
    hide PurgesPresent;
    hide PhaseB;
  }

  /**
   * The coins after an accepted block, with the matured entries that the sweep drops and the slashed coins, are the
   * coins before it, with the fees written on auto-revocations and the unstaked coins that were not staked, short of
   * what wraps around.  Below 2^64 nothing does.
   */
  lemma BlockAccounting(w: World, s: State, st: Step, s': State)
    requires Transition(w, s, st, s') && Coins(s) + UncoveredIn(w, s, st.block) < TWO64
    ensures Short(Coins(s') + Matured(s, st.block) + SlashedIn(w, s, st.block), Coins(s) + Minted(w, s, st.block))
    ensures Coins(s) + Minted(w, s, st.block) < TWO64 ==>
              Coins(s') + Matured(s, st.block) + SlashedIn(w, s, st.block) == Coins(s) + Minted(w, s, st.block)
  {
    hide Short;
    hide Transition;
    hide StakePhase;
    hide Bonded;
    hide AutoFees;
    hide UncoveredIn;
    hide SlashedIn;
    hide Matured;
    var b := st.block;
    LedgerAccounting(w, s, st, s');
    CoinsAfter(w, s, st, s');
    StakePhaseTotals(w, s, b, CoinsStaked(b.txs));
    ShortAdd(Liquid(s'.ledger) + CoinsStaked(b.txs), Liquid(s.ledger) + AutoFees(b.txs),
             Total(s.stakes) + QueueTotal(s.queue) + UncoveredIn(w, s, b));
    BelowExact(Coins(s') + Matured(s, b) + SlashedIn(w, s, b), Coins(s) + Minted(w, s, b));
  }

  lemma LiquidAndBonded(after: nat, paid: nat, staked: nat, liquid: nat, fees: nat, rest: nat)
    requires Short(after, paid) && Short(paid + staked, liquid + fees)
    ensures Short(after + staked + rest, liquid + fees + rest)
  {
    hide Short;
    ShortAdd(after, paid, staked + rest);
    ShortAdd(paid + staked, liquid + fees, rest);
    ShortTrans(after + (staked + rest), paid + (staked + rest), liquid + fees + rest);
  }

  lemma BelowExact(a: nat, b: nat)
    requires Short(a, b)
    ensures b < TWO64 ==> a == b
  {
    if b < TWO64 { ShortBelow(a, b); }
  }

  lemma FreeAccounting(w: World, s: State, st: Step, s': State)
    requires Transition(w, s, st, s') && Coins(s) + UncoveredIn(w, s, st.block) < TWO64
    requires AutoFees(st.block.txs) % TWO64 == 0
    ensures Coins(s') + Matured(s, st.block) + SlashedIn(w, s, st.block) == Coins(s) + UncoveredIn(w, s, st.block)
  {
    hide Accepts;
    hide HashesOk;
    hide NoCrash;
    hide PurgesPresent;
    hide StakeRun;
    hide LedgerRun;
    hide DomainRun;
    hide UncoveredRun;
    hide SlashedRun;
    hide AutoFees;
    var b, c := st.block, ContextOf(w, s, st.block, st.lookup);
    BalanceSimulation(c, b.txs);
    PhaseAFree(c, b.txs, b.leader);
    PhaseBConserves(PlaceOf(w, b), StartB(s, b), b.txs, st.founds);
    StakePhaseTotals(w, s, b, CoinsStaked(b.txs));
  }

  /** Every UNSTAKE of the block finds the stake that it asks for. */
  ghost predicate Covered(w: World, s: State, b: Block) {
    AllCovered(w.env, StartStake(s, b), b.txs, b.slot)
  }

  /** The fees on auto-revocations come to nothing modulo 2^64, and every UNSTAKE is covered. */
  ghost predicate Conserving(w: World, s: State, b: Block) {
    AutoFees(b.txs) % TWO64 == 0 && Covered(w, s, b)
  }

  lemma CoveredInIff(w: World, s: State, b: Block)
    ensures UncoveredIn(w, s, b) == 0 <==> Covered(w, s, b)
  {
    CoveredIff(w.env, StartStake(s, b), b.txs, b.slot);
    hide UncoveredRun;
    hide AllCovered;
  }

  /** The UNSTAKEs are covered, or what the block creates stays below 2^64. */
  ghost predicate Tame(w: World, s: State, b: Block) {
    Covered(w, s, b) || Coins(s) + Minted(w, s, b) < TWO64
  }

  ghost predicate Conserved(w: World, s: State, b: Block, s': State) {
    Coins(s') + Matured(s, b) + SlashedIn(w, s, b) == Coins(s)
  }

  /**
   * So an accepted block conserves coins exactly when its auto-revocations come to nothing modulo 2^64 and its UNSTAKEs
   * are covered.
   */
  lemma ConservesIff(w: World, s: State, st: Step, s': State)
    requires Transition(w, s, st, s') && Coins(s) < TWO64 && Tame(w, s, st.block)
    ensures Conserved(w, s, st.block, s') <==> Conserving(w, s, st.block)
  {
    hide Transition;
    hide Covered;
    hide Coins;
    hide AutoFees;
    hide UncoveredIn;
    hide Matured;
    hide SlashedIn;
    CoveredInIff(w, s, st.block);
    BlockAccounting(w, s, st, s');
    if AutoFees(st.block.txs) % TWO64 == 0 && Covered(w, s, st.block) {
      FreeAccounting(w, s, st, s');
    }
  }

  // ----- Whole runs -----

  /** What the first n blocks of a run dropped from the queue or slashed. */
  ghost function Gone(w: World, states: seq<State>, steps: seq<Step>, n: nat): nat
    requires n <= |steps| && |states| == |steps| + 1
  {
    if n == 0 then 0
    else
      Gone(w, states, steps, n - 1)
      + Matured(states[n - 1], steps[n - 1].block) + SlashedIn(w, states[n - 1], steps[n - 1].block)
  }

  /** What the first n blocks of a run created. */
  ghost function MintedBy(w: World, states: seq<State>, steps: seq<Step>, n: nat): nat
    requires n <= |steps| && |states| == |steps| + 1
  {
    if n == 0 then 0 else MintedBy(w, states, steps, n - 1) + Minted(w, states[n - 1], steps[n - 1].block)
  }

  /** A run in which what is unstaked without having been staked keeps the coins below 2^64. */
  ghost predicate BoundedRun(w: World, states: seq<State>, steps: seq<Step>) {
    && ValidRun(w, states, steps)
    && forall i :: 0 <= i < |steps| ==> Coins(states[i]) + UncoveredIn(w, states[i], steps[i].block) < TWO64
  }

  /**
   * Supply accounting over any run: what is there and what is gone is what was there at first and what was created,
   * short of what wraps around.  Below 2^64 nothing does.
   */
  lemma {:induction false} RunAccounting(w: World, states: seq<State>, steps: seq<Step>, n: nat)
    requires BoundedRun(w, states, steps) && n <= |steps|
    ensures Short(Coins(states[n]) + Gone(w, states, steps, n), Coins(states[0]) + MintedBy(w, states, steps, n))
    ensures Coins(states[0]) + MintedBy(w, states, steps, n) < TWO64 ==>
              Coins(states[n]) + Gone(w, states, steps, n) == Coins(states[0]) + MintedBy(w, states, steps, n)
  {
    hide Transition;
    hide Coins;
    hide Minted;
    hide Matured;
    hide SlashedIn;
    hide UncoveredIn;
    if n == 0 {
    } else {
      RunAccounting(w, states, steps, n - 1);
      assert Transition(w, states[n - 1], steps[n - 1], states[n]);
      BlockAccounting(w, states[n - 1], steps[n - 1], states[n]);
    }
  }

  ghost predicate AllConserving(w: World, states: seq<State>, steps: seq<Step>)
    requires |states| == |steps| + 1
  {
    forall i :: 0 <= i < |steps| ==> Conserving(w, states[i], steps[i].block)
  }

  /** After every block every coin of the first state is there or gone. */
  ghost predicate AlwaysConserved(w: World, states: seq<State>, steps: seq<Step>)
    requires |states| == |steps| + 1
  {
    forall n :: 0 <= n <= |steps| ==> Coins(states[n]) + Gone(w, states, steps, n) == Coins(states[0])
  }

  lemma GoneNext(w: World, states: seq<State>, steps: seq<Step>, i: nat)
    requires |states| == |steps| + 1 && i < |steps|
    ensures Gone(w, states, steps, i + 1) ==
            Gone(w, states, steps, i) + Matured(states[i], steps[i].block) + SlashedIn(w, states[i], steps[i].block)
  {
    hide Matured;
    hide SlashedIn;
  }

  /** Then the supply never grows, and stays below 2^64. */
  lemma {:induction false} SupplyNeverGrows(w: World, states: seq<State>, steps: seq<Step>, n: nat)
    requires ValidRun(w, states, steps) && AllConserving(w, states, steps) && Coins(states[0]) < TWO64 && n <= |steps|
    ensures Coins(states[n]) + Gone(w, states, steps, n) == Coins(states[0]) < TWO64
  {
    hide Transition;
    hide Coins;
    hide Minted;
    hide Matured;
    hide SlashedIn;
    hide Covered;
    hide AutoFees;
    if n == 0 {
    } else {
      SupplyNeverGrows(w, states, steps, n - 1);
      assert Transition(w, states[n - 1], steps[n - 1], states[n]);
      assert Conserving(w, states[n - 1], steps[n - 1].block);
      ConservesIff(w, states[n - 1], steps[n - 1], states[n]);
    }
  }

  /**
   * Every coin of the first state is still liquid, staked or queued, or was slashed, or matured and was dropped,
   * after every block exactly when every block conserves.
   */
  lemma RunConservesIff(w: World, states: seq<State>, steps: seq<Step>)
    requires ValidRun(w, states, steps) && Coins(states[0]) < TWO64
    requires forall i :: 0 <= i < |steps| ==> Tame(w, states[i], steps[i].block)
    ensures AlwaysConserved(w, states, steps) <==> AllConserving(w, states, steps)
  {
    hide Transition;
    hide Coins;
    hide Gone;
    hide Conserving;
    hide Tame;
    hide Matured;
    hide SlashedIn;
    if AllConserving(w, states, steps) {
      forall n | 0 <= n <= |steps| ensures Coins(states[n]) + Gone(w, states, steps, n) == Coins(states[0]) {
        SupplyNeverGrows(w, states, steps, n);
      }
    }
    if AlwaysConserved(w, states, steps) {
      forall i | 0 <= i < |steps| ensures Conserving(w, states[i], steps[i].block) {
        assert Transition(w, states[i], steps[i], states[i + 1]);
        GoneNext(w, states, steps, i);
        assert Coins(states[i]) + Gone(w, states, steps, i) == Coins(states[0]);
        assert Coins(states[i + 1]) + Gone(w, states, steps, i + 1) == Coins(states[0]);
        ConservesIff(w, states[i], steps[i], states[i + 1]);
      }
    }
  }

  lemma ConservingIsTame(w: World, s: State, b: Block)
    requires Conserving(w, s, b)
    ensures Tame(w, s, b)
  {
    hide Covered;
  }

  // ----- One proof per offender -----

  /** Auto-revocations are free, and nobody is accused twice in the block. */
  predicate Fair(w: World, b: Block) {
    AutoFees(b.txs) == 0 && OneProofPerOffender(w.env, b.txs)
  }

  lemma SweptStarts(w: World, s: State, st: Step)
    requires Coins(s) < TWO64
    ensures Starts(ContextOf(w, s, st.block, st.lookup), StartStake(s, st.block))
  {
    SweepTotals(s.queue, SlotNumber(st.block.slot));
  }

  /** That is enough for a block to conserve coins. */
  lemma FairConserves(w: World, s: State, st: Step, s': State)
    requires Transition(w, s, st, s') && Fair(w, st.block) && Coins(s) < TWO64
    ensures Conserving(w, s, st.block)
  {
    hide HashesOk;
    hide NoCrash;
    hide PurgesPresent;
    hide NextState;
    hide Accepts;
    SweptStarts(w, s, st);
    OneProofFits(ContextOf(w, s, st.block, st.lookup), st.block.txs);
    FittingIsCovered(ContextOf(w, s, st.block, st.lookup), StartStake(s, st.block), st.block.txs);
  }

  ghost predicate FairRun(w: World, states: seq<State>, steps: seq<Step>) {
    && ValidRun(w, states, steps)
    && (forall i :: 0 <= i < |steps| ==> Fair(w, steps[i].block))
    && Coins(states[0]) < TWO64
  }

  /** Over a run of such blocks the supply never exceeds what it was at first. */
  lemma {:induction false} FairSupply(w: World, states: seq<State>, steps: seq<Step>, n: nat)
    requires FairRun(w, states, steps) && n <= |steps|
    ensures Coins(states[n]) + Gone(w, states, steps, n) == Coins(states[0])
    ensures forall i :: 0 <= i < n ==> Conserving(w, states[i], steps[i].block)
  {
    hide Transition;
    hide Coins;
    hide Minted;
    hide Matured;
    hide SlashedIn;
    hide Conserving;
    hide Fair;
    if n == 0 {
    } else {
      FairSupply(w, states, steps, n - 1);
      assert Transition(w, states[n - 1], steps[n - 1], states[n]);
      FairConserves(w, states[n - 1], steps[n - 1], states[n]);
      ConservingIsTame(w, states[n - 1], steps[n - 1].block);
      ConservesIff(w, states[n - 1], steps[n - 1], states[n]);
    }
  }

  // ----- The stake floor -----

  /** Every stake is zero or at least the threshold while the block is applied. */
  ghost predicate FlooredIn(w: World, s: State, b: Block) {
    AlwaysFloored(w.env, StartStake(s, b), b.txs, b.slot)
  }

  /** The threshold checks of the block's STAKEs and UNSTAKEs hold of the stakes they are applied to. */
  ghost predicate FloorMetIn(w: World, s: State, b: Block) {
    AllFloorMet(w.env, StartStake(s, b), b.txs, b.slot)
  }

  lemma BlockFloorIff(w: World, s: State, st: Step, s': State)
    requires Transition(w, s, st, s') && Coins(s) + UncoveredIn(w, s, st.block) < TWO64 && Floored(s.stakes)
    ensures FlooredIn(w, s, st.block) <==> FloorMetIn(w, s, st.block)
    ensures FlooredIn(w, s, st.block) ==> Floored(s'.stakes)
  {
    hide HashesOk;
    hide NoCrash;
    hide PurgesPresent;
    hide Accepts;
    hide PhaseB;
    hide StakeRun;
    hide Floored;
    hide AllFloorMet;
    hide UncoveredRun;
    var b, c := st.block, ContextOf(w, s, st.block, st.lookup);
    BalanceSimulation(c, b.txs);
    AcceptedStakesSomething(c, b.txs);
    SweepTotals(s.queue, SlotNumber(b.slot));
    FloorIff(w.env, StartStake(s, b), b.txs, b.slot);
    assert b.txs[..|b.txs|] == b.txs;
  }

  /**
   * Every stake of a run is zero or at least the threshold, at every moment, exactly when those checks hold throughout.
   */
  lemma RunFloorIff(w: World, states: seq<State>, steps: seq<Step>)
    requires BoundedRun(w, states, steps) && Floored(states[0].stakes)
    ensures (forall i :: 0 <= i < |steps| ==> FlooredIn(w, states[i], steps[i].block))
            <==> (forall i :: 0 <= i < |steps| ==> FloorMetIn(w, states[i], steps[i].block))
  {
    hide Transition;
    hide Floored;
    hide FlooredIn;
    hide FloorMetIn;
    hide UncoveredIn;
    hide Coins;
    if forall i :: 0 <= i < |steps| ==> FlooredIn(w, states[i], steps[i].block) {
      forall i | 0 <= i < |steps| ensures FloorMetIn(w, states[i], steps[i].block) {
        FlooredUpTo(w, states, steps, i, false);
        assert Transition(w, states[i], steps[i], states[i + 1]);
        BlockFloorIff(w, states[i], steps[i], states[i + 1]);
      }
    }
    if forall i :: 0 <= i < |steps| ==> FloorMetIn(w, states[i], steps[i].block) {
      forall i | 0 <= i < |steps| ensures FlooredIn(w, states[i], steps[i].block) {
        FlooredUpTo(w, states, steps, i, true);
        assert Transition(w, states[i], steps[i], states[i + 1]);
        BlockFloorIff(w, states[i], steps[i], states[i + 1]);
      }
    }
  }

  /** In every state of such a run each stake is zero or at least the threshold. */
  lemma {:induction false} FlooredUpTo(w: World, states: seq<State>, steps: seq<Step>, n: nat, met: bool)
    requires BoundedRun(w, states, steps) && Floored(states[0].stakes) && n <= |steps|
    requires forall i | 0 <= i < n ::
               if met then FloorMetIn(w, states[i], steps[i].block) else FlooredIn(w, states[i], steps[i].block)
    ensures Floored(states[n].stakes)
  {
    hide Transition;
    hide Floored;
    hide FlooredIn;
    hide FloorMetIn;
    hide UncoveredIn;
    hide Coins;
    if n == 0 {
    } else {
      FlooredUpTo(w, states, steps, n - 1, met);
      assert Transition(w, states[n - 1], steps[n - 1], states[n]);
      BlockFloorIff(w, states[n - 1], steps[n - 1], states[n]);
    }
  }

  lemma FairBlockKeepsFloor(w: World, s: State, st: Step, s': State)
    requires Transition(w, s, st, s') && Fair(w, st.block) && Coins(s) < TWO64 && Floored(s.stakes)
    ensures Floored(s'.stakes)
  {
    hide HashesOk;
    hide NoCrash;
    hide PurgesPresent;
    hide Accepts;
    hide PhaseB;
    SweptStarts(w, s, st);
    OneProofFits(ContextOf(w, s, st.block, st.lookup), st.block.txs);
    FloorKept(ContextOf(w, s, st.block, st.lookup), StartStake(s, st.block), st.block.txs);
  }

  /** With one proof per offender every reachable state keeps the floor. */
  lemma {:induction false} RunKeepsFloor(w: World, states: seq<State>, steps: seq<Step>, n: nat)
    requires FairRun(w, states, steps) && Floored(states[0].stakes) && n <= |steps|
    ensures Floored(states[n].stakes)
  {
    hide Transition;
    hide Floored;
    hide Fair;
    hide Coins;
    if n == 0 {
    } else {
      RunKeepsFloor(w, states, steps, n - 1);
      FairSupply(w, states, steps, n - 1);
      assert Transition(w, states[n - 1], steps[n - 1], states[n]);
      FairBlockKeepsFloor(w, states[n - 1], steps[n - 1], states[n]);
    }
  }
}
