/** A block whose one BUY makes its honest ledger hash unacceptable, and one whose auto-revocation pays its leader. */
module SingleBlocks {
  import opened Basics
  import opened Sums
  import opened Transactions
  import opened Ledger
  import opened DomainIndex
  import opened Validation
  import opened Application
  import opened Blocks
  import opened Ownership
  import opened BuyTransfers
  import opened ExampleChain
  import Supply
  import WrapFree
  import opened ShadowStake
  import opened StakeTotals

  const BUYER: Key := [1]
  const SELLER: Key := [2]
  const LEADER: Key := [3]
  const NAME: Name := [100]

  function Setting(): Env {
    Env((k, tx) => true, b => b, b => None, b => true, [], 1)
  }

  function Transaction(tid: i64, typ: TxType, expirySlot: i64, redeems: i64, owner: Key, fee: u64, listPrice: u64): Tx {
    Tx(tid, typ, 0, NAME, [], 0, expirySlot, redeems, owner, fee, 0, listPrice, [], seq(64, i => 0), [], [], 0, [], [])
  }

  /** A name registered until slot 100. */
  function Registration(): Tx { Transaction(10, REVEAL, 100, 0, SELLER, 1, 0) }

  function Stored(id: i64): Option<Tx> { if id == 10 then Some(Registration()) else None }

  function Start(price: u64): State {
    State(map[BUYER := Account(100, 0)], Index(map[NAME := Entry(Registration(), Some(SELLER), price)], {}), map[],
          map[], [], {},
          Tip(0, 0, []))
  }

  // ----- The BUY -----

  /** The name is listed for 40; the buyer offers up to 50. */
  function Purchase(): Tx { Transaction(20, BUY, 0, 0, BUYER, 1, 50) }

  /** The digest of a ledger is the buyer's balance. */
  function Telling(): World {
    Chain(Setting(), LEADER).(hashLedger := (a: Accounts) => [BalanceOf(a, BUYER) % 256])
  }

  function Sale(): (st: Step)
    ensures |st.founds| == |st.block.txs|
  {
    var st := Proposed(1, 10, LEADER, [Purchase()], Stored, [None]);
    st.(block := st.block.(ledgerHash := [59]))
  }

  lemma PurchasePasses()
    ensures Gates(ContextOf(Telling(), Start(40), Sale().block, Stored), EmptyShadow(), Purchase())
  {
  }

  lemma PurchaseIsPaid()
    ensures BalanceOf(PhaseA(Start(40), Sale().block), BUYER) == 99
  {
    OnePaid(Start(40).ledger, Purchase());
    hide LedgerRun;
    hide TotalFees;
  }

  lemma PurchaseTakesEffect()
    ensures var d := StartB(Start(40), Sale().block);
            var r := ApplyDomain(PlaceOf(Telling(), Sale().block), d, Purchase(), None);
            r.outcome.Done? && BalanceOf(r.state.ledger, BUYER) == 59
  {
    PurchaseIsPaid();
    hide PhaseA;
    var d := StartB(Start(40), Sale().block);
    assert GetPrice(d.index, NAME) == 40 && Seller(d.index, NAME) == SELLER;
    assert GetDomain(d.index, NAME) == Some(Registration());
    hide GetPrice;
    hide Seller;
    hide GetDomain;
  }

  lemma SaleLedger()
    ensures Telling().hashLedger(PhaseB(Telling(), Start(40), Sale()).ledger) == [59]
    ensures Telling().hashLedger(PhaseA(Start(40), Sale().block)) == [99]
  {
    hide PhaseA;
    hide ApplyDomain;
    PurchaseIsPaid();
    PurchaseTakesEffect();
    OneApplied(PlaceOf(Telling(), Sale().block), StartB(Start(40), Sale().block), Purchase(), None);
  }

  /** The one BUY of the block takes effect. */
  lemma SaleBuys()
    ensures BuysAt(PlaceOf(Telling(), Sale().block), StartB(Start(40), Sale().block), Sale().block.txs, Sale().founds,
                   0)
  {
    hide ApplyDomain;
    PurchaseTakesEffect();
    var txs, founds := Sale().block.txs, Sale().founds;
    assert txs[..0] == [] && founds[..0] == [];
  }

  /**
   * The list passes every gate, the header is in order, nothing crashes and the ledger hash is the one that the leader
   * computes after phase B; validators refuse the block.
   */
  lemma HonestSaleRefused()
    ensures var w, s, b := Telling(), Start(40), Sale().block;
            && HeaderOk(w, s, b) && PurgesPresent(b.txs, w.purgeable(s.index, b.slot))
            && Accepts(ContextOf(w, s, b, Stored), b.txs) && NoCrash(w, s, Sale())
            && BuysAt(PlaceOf(w, b), StartB(s, b), b.txs, Sale().founds, 0)
            && b.ledgerHash == w.hashLedger(PhaseB(w, s, Sale()).ledger)
            && !HashesOk(w, s, Sale())
  {
    hide Gates;
    hide NoCrash;
    hide PhaseA;
    hide PhaseB;
    hide StakePhase;
    hide BuysAt;
    PurchasePasses();
    OneAccepted(ContextOf(Telling(), Start(40), Sale().block, Stored), Purchase());
    hide Accepts;
    AcceptedBlockNeverCrashes(Telling(), Start(40), Sale());
    hide ContextOf;
    SaleLedger();
    SaleBuys();
  }

  // ----- The auto-revocation -----

  /** Past its expiry slot the name may be revoked by the leader, who writes a fee of 5 on the transaction. */
  function Revocation(): Tx { Transaction(30, REVOKE, 0, 10, [], 5, 0) }

  function Cleaning(): (st: Step)
    ensures |st.founds| == |st.block.txs|
  {
    Proposed(1, 120, LEADER, [Revocation()], Stored, [Some(Registration())])
  }

  lemma RevocationPasses()
    ensures Gates(ContextOf(Chain(Setting(), LEADER), Start(0), Cleaning().block, Stored), EmptyShadow(), Revocation())
  {
  }

  lemma RevocationMintsFee()
    ensures Supply.AutoFees([Revocation()]) == 5
  {
    assert [Revocation()][..0] == [];
  }

  lemma NothingStaked()
    ensures Supply.UncoveredIn(Chain(Setting(), LEADER), Start(0), Cleaning().block) == 0
    ensures Supply.Matured(Start(0), Cleaning().block) == 0
    ensures Supply.SlashedIn(Chain(Setting(), LEADER), Start(0), Cleaning().block) == 0
    ensures Supply.Coins(Start(0)) == 100
  {
    assert Cleaning().block.txs[..0] == [];
    assert Balances(Start(0).ledger) == map[][BUYER := 100];
    TotalUpdate(map[], BUYER, 100);
  }

  /** The block is accepted, and there are five coins more after it than before. */
  lemma RevocationPaysLeader()
    ensures var w, s := Chain(Setting(), LEADER), Start(0);
            var s' := NextState(w, s, Cleaning());
            && Transition(w, s, Cleaning(), s')
            && Supply.Coins(s) == 100 && Supply.Coins(s') == 105
            && !Supply.Conserving(w, s, Cleaning().block)
  {
    hide Gates;
    hide Transition;
    hide NextState;
    hide Supply.Coins;
    hide Supply.Matured;
    hide Supply.SlashedIn;
    hide Supply.UncoveredIn;
    hide Supply.Conserving;
    hide Supply.AutoFees;
    var w, s := Chain(Setting(), LEADER), Start(0);
    RevocationPasses();
    OneAccepted(ContextOf(w, s, Cleaning().block, Stored), Revocation());
    hide Accepts;
    hide ContextOf;
    AcceptedBlock(Setting(), LEADER, s, 1, 120, [Revocation()], Stored, [Some(Registration())]);
    RevocationMintsFee();
    NothingStaked();
    Supply.BlockAccounting(w, s, Cleaning(), NextState(w, s, Cleaning()));
    Supply.ConservesIff(w, s, Cleaning(), NextState(w, s, Cleaning()));
  }

  // ----- Two auto-revocations whose fees wrap around -----

  const OTHER: Name := [101]

  /** Two expired names, and a revocation of each with a fee of 2^63. */
  function OtherRegistration(): Tx { Registration().(tid := 11, domain := OTHER) }

  function TwoNames(): State {
    Start(0).(index := Index(map[NAME := Entry(Registration(), Some(SELLER), 0),
                                 OTHER := Entry(OtherRegistration(), Some(SELLER), 0)], {}))
  }

  function StoredTwo(id: i64): Option<Tx> {
    if id == 10 then Some(Registration()) else if id == 11 then Some(OtherRegistration()) else None
  }

  function Half(d: Name, redeems: i64): Tx {
    Revocation().(domain := d, redeems := redeems, fee := 0x8000_0000_0000_0000)
  }

  function Halves(): seq<Tx> { [Half(NAME, 10), Half(OTHER, 11)] }

  function Wrapping(): (st: Step)
    ensures |st.founds| == |st.block.txs|
  {
    Proposed(1, 120, LEADER, Halves(), StoredTwo, [Some(Registration()), Some(OtherRegistration())])
  }

  function WrapContext(): Ctx { ContextOf(Chain(Setting(), LEADER), TwoNames(), Wrapping().block, StoredTwo) }

  lemma HalvesPass()
    ensures Gates(WrapContext(), EmptyShadow(), Half(NAME, 10))
    ensures NextShadow(WrapContext(), EmptyShadow(), Half(NAME, 10)) == EmptyShadow().(spent := {10})
    ensures Gates(WrapContext(), EmptyShadow().(spent := {10}), Half(OTHER, 11))
  {
  }

  lemma WrappingAccepted()
    ensures var w := Chain(Setting(), LEADER);
            Transition(w, TwoNames(), Wrapping(), NextState(w, TwoNames(), Wrapping()))
  {
    hide Gates;
    hide NextShadow;
    hide Transition;
    hide NextState;
    HalvesPass();
    assert Halves()[..1] == [Half(NAME, 10)] && [Half(NAME, 10)][..0] == [];
    assert Accepts(WrapContext(), [Half(NAME, 10)]);
    AcceptedBlock(Setting(), LEADER, TwoNames(), 1, 120, Halves(), StoredTwo,
                  [Some(Registration()), Some(OtherRegistration())]);
  }

  lemma WrappingTotals()
    ensures Supply.AutoFees(Halves()) == TWO64 && Supply.Coins(TwoNames()) == 100
    ensures Supply.Matured(TwoNames(), Wrapping().block) == 0
  {
    assert Halves()[..1] == [Half(NAME, 10)] && [Half(NAME, 10)][..0] == [];
    assert Supply.AutoFees([Half(NAME, 10)]) == TWO63;
    assert Balances(TwoNames().ledger) == map[][BUYER := 100];
    TotalUpdate(map[], BUYER, 100);
  }

  lemma WrappingStakes()
    ensures Supply.SlashedIn(Chain(Setting(), LEADER), TwoNames(), Wrapping().block) == 0
    ensures Supply.UncoveredIn(Chain(Setting(), LEADER), TwoNames(), Wrapping().block) == 0
  {
    RevocationsStakeNothing(Setting(), StartStake(TwoNames(), Wrapping().block), Halves(), 120);
  }

  /** Revocations neither slash nor unstake. */
  lemma {:induction false} RevocationsStakeNothing(env: Env, k: StakeState, txs: seq<Tx>, slot: i64)
    requires forall i :: 0 <= i < |txs| ==> txs[i].typ.REVOKE?
    ensures SlashedRun(env, k, txs, slot) == 0 && UncoveredRun(env, k, txs, slot) == 0
  {
    hide ApplyStake;
    if txs == [] {
    } else {
      RevocationsStakeNothing(env, k, txs[..|txs| - 1], slot);
    }
  }

  /**
   * The block is accepted, its auto-revocations carry fees of 2^64 together, and there are as many coins as before: it
   * conserves coins because its fee total wraps around.
   */
  lemma FeesWrapToNothing()
    ensures var w, s := Chain(Setting(), LEADER), TwoNames();
            var s' := NextState(w, s, Wrapping());
            && Transition(w, s, Wrapping(), s')
            && Supply.AutoFees(Wrapping().block.txs) == TWO64
            && Supply.Coins(s) == 100 && Supply.Coins(s') == 100
            && Supply.Conserving(w, s, Wrapping().block) && !WrapFree.NothingWraps(w, s, Wrapping())
  {
    hide Transition;
    hide NextState;
    hide Supply.Coins;
    hide Supply.Matured;
    hide Supply.SlashedIn;
    hide Supply.UncoveredIn;
    hide Supply.AutoFees;
    var w, s := Chain(Setting(), LEADER), TwoNames();
    WrappingAccepted();
    WrappingTotals();
    WrappingStakes();
    Supply.FreeAccounting(w, s, Wrapping(), NextState(w, s, Wrapping()));
    Supply.CoveredInIff(w, s, Wrapping().block);
    hide Supply.Covered;
    hide WrapFree.NothingWraps;
    WrapFree.NothingWrapsIff(w, s, Wrapping(), NextState(w, s, Wrapping()));
  }
}
