/** Three accepted blocks: a LIST, a COMMIT after the name has lapsed, and a REVEAL with a BUY at the old price. */
module LapsedListing {
  import opened Basics
  import opened Transactions
  import opened Ledger
  import Commits
  import opened DomainIndex
  import opened Validation
  import opened Application
  import opened Blocks
  import opened Ownership
  import opened EarlierRecords
  import opened ExampleChain
  import opened Redemption
  import opened ListedPrices
  import ShortenedRegistration

  const SELLER: Key := [1]
  const LEADER: Key := [3]
  const BUYER: Key := [4]
  const NEWCOMER: Key := [5]
  const NAME: Name := [100]

  function Setting(sha: Bytes -> Bytes): Env { OpenEnv(sha, 1) }
  function Here(sha: Bytes -> Bytes): World { Chain(Setting(sha), LEADER) }

  function Transaction(tid: i64, typ: TxType, d: Name, owner: Key, listPrice: u64): Tx {
    ShortenedRegistration.Transaction(tid, typ, d, [], 0, 0, owner, []).(listPrice := listPrice)
  }

  /** A registration until slot 100, purged at slot 130, which its owner lists for 40. */
  function Registration(): Tx { RevealOf(10, NAME, 100, 0, 0, SELLER) }
  function Listing(): Tx { Transaction(11, LIST, NAME, SELLER, 40) }

  /** The registry commits to the name and registers it for somebody else; a buyer offers up to 50. */
  function Commitment(sha: Bytes -> Bytes): Tx { Transaction(9, COMMIT, [], REGISTRY, 0).(commitHash := Hash(sha)) }
  function Taking(): Tx { RevealOf(12, NAME, 2000, 9, 1, NEWCOMER) }
  function Purchase(): Tx { Transaction(13, BUY, NAME, BUYER, 50) }

  function Hash(sha: Bytes -> Bytes): Bytes { RevealHash(Setting(sha), Taking()) }

  // ----- The states -----

  function Book(seller: Account, registry: Account, leader: u64): Accounts {
    var a := map[SELLER := seller, REGISTRY := registry, BUYER := Account(100, 0)];
    if leader == 0 then a else a[LEADER := Account(leader, 0)]
  }

  function Names(price: u64): Index { Index(map[NAME := Entry(Registration(), Some(SELLER), price)], {}) }

  function Pending(sha: Bytes -> Bytes): Commits.Store { map[Hash(sha) := RecordAt(Hash(sha), 200, 2, 9)] }

  function S0(): State {
    State(Book(Account(100, 0), Account(100, 0), 0), Names(0), map[], map[], [], {}, Tip(0, 0, []))
  }

  function S1(): State {
    State(Book(Account(99, 1), Account(100, 0), 1), Names(40), map[], map[], [], {}, Tip(1, 10, []))
  }

  function S2(sha: Bytes -> Bytes): State {
    State(Book(Account(99, 1), Account(99, 1), 2), Names(40), Pending(sha), map[], [], {}, Tip(2, 200, []))
  }

  ghost function S3(sha: Bytes -> Bytes): State { NextState(Here(sha), S2(sha), B3()) }

  function B1(): Step { Proposed(1, 10, LEADER, [Listing()], NoLookup, [None]) }
  function B2(sha: Bytes -> Bytes): Step { Proposed(2, 200, LEADER, [Commitment(sha)], NoLookup, [None]) }
  function B3(): (st: Step)
    ensures |st.founds| == |st.block.txs|
  {
    Proposed(3, 210, LEADER, [Taking(), Purchase()], NoLookup, [None, None])
  }

  // ----- The LIST -----

  lemma ListingPasses(sha: Bytes -> Bytes)
    ensures Gates(ContextOf(Here(sha), S0(), B1().block, NoLookup), EmptyShadow(), Listing())
  {
    hide RevealHash;
  }

  lemma ListingPaid()
    ensures WithFees(ApplyLedger(S0().ledger, Listing()), LEADER, 1) == S1().ledger
  {
  }

  lemma ListingStored(sha: Bytes -> Bytes)
    ensures var d := DomState(S1().ledger, NewOverlay(S0().index), PurgedOverlay(S0(), B1().block));
            var r := ApplyDomain(Place(Setting(sha), 10, 1), d, Listing(), None).state;
            && r.ledger == S1().ledger && Committed(r.index) == S1().index
            && r.commits == PurgedOverlay(S0(), B1().block)
  {
    hide PurgedOverlay;
    var d := DomState(S1().ledger, NewOverlay(S0().index), PurgedOverlay(S0(), B1().block));
    var o := ApplyDomain(Place(Setting(sha), 10, 1), d, Listing(), None).state.index;
    forall e ensures Look(Committed(o), e) == Look(S1().index, e) {
      CommittedLook(o, e);
    }
    SameLooks(Committed(o), S1().index);
  }

  lemma NothingPending()
    ensures Commits.Flushed(PurgedOverlay(S0(), B1().block), map[]) == map[]
  {
  }

  lemma FirstBlock(sha: Bytes -> Bytes)
    ensures Transition(Here(sha), S0(), B1(), S1())
  {
    hide Gates;
    hide ApplyLedger;
    hide ApplyDomain;
    hide Committed;
    hide Commits.Flushed;
    hide Transition;
    hide NextState;
    ListingPasses(sha);
    OneAccepted(ContextOf(Here(sha), S0(), B1().block, NoLookup), Listing());
    hide Accepts;
    hide ContextOf;
    AcceptedBlock(Setting(sha), LEADER, S0(), 1, 10, [Listing()], NoLookup, [None]);
    ListingPaid();
    ListingStored(sha);
    NothingPending();
    OneNext(Setting(sha), LEADER, S0(), 1, 10, Listing(), NoLookup, None);
  }

  // ----- The COMMIT -----

  lemma CommitmentPasses(sha: Bytes -> Bytes)
    requires |Hash(sha)| == 32
    ensures Gates(ContextOf(Here(sha), S1(), B2(sha).block, NoLookup), EmptyShadow(), Commitment(sha))
  {
  }

  lemma CommitmentPaid(sha: Bytes -> Bytes)
    ensures WithFees(ApplyLedger(S1().ledger, Commitment(sha)), LEADER, 1) == S2(sha).ledger
  {
    hide RevealHash;
  }

  lemma CommitmentStored(sha: Bytes -> Bytes)
    ensures var d := DomState(S2(sha).ledger, NewOverlay(S1().index), PurgedOverlay(S1(), B2(sha).block));
            var r := ApplyDomain(Place(Setting(sha), 200, 2), d, Commitment(sha), None).state;
            && r.ledger == S2(sha).ledger && Committed(r.index) == S2(sha).index
            && Commits.Flushed(r.commits, map[]) == Pending(sha)
  {
    SoundNew(S1().index);
    hide Committed;
    hide RevealHash;
  }

  lemma SecondBlock(sha: Bytes -> Bytes)
    requires |Hash(sha)| == 32
    ensures Transition(Here(sha), S1(), B2(sha), S2(sha))
  {
    hide Gates;
    hide ApplyLedger;
    hide ApplyDomain;
    hide Committed;
    hide Commits.Flushed;
    hide Transition;
    hide NextState;
    CommitmentPasses(sha);
    OneAccepted(ContextOf(Here(sha), S1(), B2(sha).block, NoLookup), Commitment(sha));
    hide Accepts;
    hide ContextOf;
    AcceptedBlock(Setting(sha), LEADER, S1(), 2, 200, [Commitment(sha)], NoLookup, [None]);
    CommitmentPaid(sha);
    CommitmentStored(sha);
    OneNext(Setting(sha), LEADER, S1(), 2, 200, Commitment(sha), NoLookup, None);
  }

  // ----- The REVEAL and the BUY -----

  function LastContext(sha: Bytes -> Bytes): Ctx { ContextOf(Here(sha), S2(sha), B3().block, NoLookup) }

  lemma TakingPasses(sha: Bytes -> Bytes)
    ensures Gates(LastContext(sha), EmptyShadow(), Taking())
  {
    var c := LastContext(sha);
    assert RevealHash(c.env, Taking()) == Hash(sha);
    hide RevealHash;
    assert Commits.WithoutExpired(map[], 3) == map[];
    assert Commits.OvGet(c.commits, Hash(sha)) == Some(RecordAt(Hash(sha), 200, 2, 9));
  }

  function AfterTaking(sha: Bytes -> Bytes): Shadow { NextShadow(LastContext(sha), EmptyShadow(), Taking()) }

  lemma RunningAfterTaking(sha: Bytes -> Bytes)
    ensures var c, sh := LastContext(sha), AfterTaking(sha);
            && Nonce(c, sh, BUYER) == 0 && Balance(c, sh, BUYER) == 100
            && Owner(c, sh, NAME) == NEWCOMER && Price(c, sh, NAME) == 40 && NAME in sh.registered
  {
    hide RevealHash;
  }

  lemma BuyGates(c: Ctx, sh: Shadow, tx: Tx)
    requires tx.typ.BUY?
    ensures CommitGate(c, sh, tx) && RevealGate(c, sh, tx)
  {
  }

  lemma PurchasePasses(sha: Bytes -> Bytes)
    ensures Gates(LastContext(sha), AfterTaking(sha), Purchase())
  {
    hide RevealHash;
    hide CommitGate;
    hide RevealGate;
    hide NextShadow;
    hide Nonce;
    hide Balance;
    hide Owner;
    hide Price;
    RunningAfterTaking(sha);
    BuyGates(LastContext(sha), AfterTaking(sha), Purchase());
  }

  lemma ThirdBlock(sha: Bytes -> Bytes)
    ensures Transition(Here(sha), S2(sha), B3(), S3(sha))
  {
    hide Gates;
    hide NextShadow;
    hide Transition;
    hide NextState;
    hide ContextOf;
    TakingPasses(sha);
    PurchasePasses(sha);
    var txs := [Taking(), Purchase()];
    assert txs[..1] == [Taking()] && [Taking()][..0] == [];
    ShortenedRegistration.OneRun(LastContext(sha), Taking());
    OneAccepted(LastContext(sha), Taking());
    AcceptedBlock(Setting(sha), LEADER, S2(sha), 3, 210, txs, NoLookup, [None, None]);
  }

  /** The REVEAL takes effect: the name has a new owner and the old price. */
  lemma TakingTakesEffect(sha: Bytes -> Bytes, ledger: Accounts)
    ensures var d := DomState(ledger, NewOverlay(S2(sha).index), PurgedOverlay(S2(sha), B3().block));
            var r := ApplyDomain(Place(Setting(sha), 210, 3), d, Taking(), None);
            && r.outcome.Done? && r.state.ledger == ledger
            && GetDomain(r.state.index, NAME) == Some(Taking())
            && GetOwner(r.state.index, NAME) == Some(NEWCOMER) && GetPrice(r.state.index, NAME) == 40
  {
    var d := DomState(ledger, NewOverlay(S2(sha).index), PurgedOverlay(S2(sha), B3().block));
    assert RevealHash(Setting(sha), Taking()) == Hash(sha);
    hide RevealHash;
    assert Commits.WithoutExpired(map[], 3) == map[];
    assert Commits.OvGet(d.commits, Hash(sha)) == Some(RecordAt(Hash(sha), 200, 2, 9));
  }

  lemma FeesLeaveBuyer(sha: Bytes -> Bytes)
    ensures CanDebit(PhaseA(S2(sha), B3().block), BUYER, 40)
  {
    hide RevealHash;
    var txs := B3().block.txs;
    assert txs[..1] == [Taking()];
    OnePaid(S2(sha).ledger, Taking());
  }

  lemma PurchaseTakesEffect(sha: Bytes -> Bytes, st: DomState)
    requires CanDebit(st.ledger, BUYER, 40) && GetDomain(st.index, NAME) == Some(Taking())
    requires GetOwner(st.index, NAME) == Some(NEWCOMER) && GetPrice(st.index, NAME) == 40
    ensures ApplyMarket(Place(Setting(sha), 210, 3), st, Purchase()).outcome.Done?
  {
    hide GetDomain;
    hide GetOwner;
    hide GetPrice;
    hide RevealHash;
  }

  // ----- The run -----

  ghost function States(sha: Bytes -> Bytes): seq<State> { [S0(), S1(), S2(sha), S3(sha)] }
  function Steps(sha: Bytes -> Bytes): seq<Step> { [B1(), B2(sha), B3()] }

  lemma RunIsValid(sha: Bytes -> Bytes)
    requires |Hash(sha)| == 32
    ensures ValidRun(Here(sha), States(sha), Steps(sha))
  {
    hide Transition;
    hide NextState;
    hide S0;
    hide S1;
    hide S2;
    hide S3;
    hide B1;
    hide B2;
    hide B3;
    FirstBlock(sha);
    SecondBlock(sha);
    ThirdBlock(sha);
    forall i | 0 <= i < 3 ensures Transition(Here(sha), States(sha)[i], Steps(sha)[i], States(sha)[i + 1]) {
      assert i == 0 || i == 1 || i == 2;
    }
  }

  lemma LastBlock(sha: Bytes -> Bytes)
    ensures var w, s, st := Here(sha), S2(sha), B3();
            && GetPrice(Before(w, s, st, 0).index, NAME) == 40
            && TookEffect(w, s, st, 0) && TookEffect(w, s, st, 1)
            && Sold(Before(w, s, st, 1), Purchase(), Before(w, s, st, 2), NEWCOMER)
  {
    hide PhaseA;
    hide ApplyDomain;
    hide PurgedOverlay;
    hide RevealHash;
    var w, s, st := Here(sha), S2(sha), B3();
    assert Before(w, s, st, 0) == StartB(s, st.block);
    BeforeStep(w, s, st, 0);
    BeforeStep(w, s, st, 1);
    hide DomainRun;
    TakingTakesEffect(sha, PhaseA(s, st.block));
    FeesLeaveBuyer(sha);
    BuyHere(sha, Before(w, s, st, 1));
  }

  lemma BuyHere(sha: Bytes -> Bytes, st: DomState)
    requires CanDebit(st.ledger, BUYER, 40) && GetDomain(st.index, NAME) == Some(Taking())
    requires GetOwner(st.index, NAME) == Some(NEWCOMER) && GetPrice(st.index, NAME) == 40
    ensures var r := ApplyDomain(Place(Setting(sha), 210, 3), st, Purchase(), None);
            r.outcome.Done? && Sold(st, Purchase(), r.state, NEWCOMER)
  {
    PurchaseTakesEffect(sha, st);
    hide ApplyMarket;
    hide Sold;
    hide GetOwner;
    hide GetDomain;
    hide GetPrice;
    SaleTerms(Place(Setting(sha), 210, 3), st, Purchase(), NEWCOMER);
  }

  lemma LastPositions(sha: Bytes -> Bytes)
    ensures var w, states, steps := Here(sha), States(sha), Steps(sha);
            && |states| == 4 && |steps| == 3 && IxPrice(states[0].index, NAME) == 0
            && MeetsPrice(w, states, steps, NAME, 2, 0) && Inside(states, steps, 2, 2)
            && Effective(w, states, steps, NAME, 2, 1)
            && Sold(Before(w, states[2], steps[2], 1), Purchase(), Before(w, states[2], steps[2], 2), NEWCOMER)
  {
    LastBlock(sha);
    hide S1;
    hide S2;
    hide S3;
    hide B1;
    hide B2;
    hide Sold;
    hide TookEffect;
    hide Before;
  }

  /**
   * A valid run in which a name is listed for 40, lapses and is registered for somebody else, who never lists it; the
   * next transaction buys it from them for 40.
   */
  lemma PriceOutlivesOwner(sha: Bytes -> Bytes)
    requires |Hash(sha)| == 32
    ensures var w, states, steps := Here(sha), States(sha), Steps(sha);
            && ValidRun(w, states, steps) && IxPrice(states[0].index, NAME) == 0
            && MeetsPrice(w, states, steps, NAME, 2, 0)
            && Inside(states, steps, 2, 2) && !OwnersPrice(w, states, steps, NAME, 2, 1)
            && Effective(w, states, steps, NAME, 2, 1)
            && Sold(Before(w, states[2], steps[2], 1), Purchase(), Before(w, states[2], steps[2], 2), NEWCOMER)
  {
    hide ValidRun;
    hide S0;
    hide States;
    hide Steps;
    hide Sold;
    hide OwnersPrice;
    hide MeetsPrice;
    hide Effective;
    RunIsValid(sha);
    LastPositions(sha);
    RevealKeepsPrice(Here(sha), States(sha), Steps(sha), NAME, 2, 0);
  }
}
