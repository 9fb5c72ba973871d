/** Three accepted blocks: a COMMIT, an UPDATE that shortens a registration, and a REVEAL long before its purge slot. */
module ShortenedRegistration {
  import opened Basics
  import opened Config
  import opened Transactions
  import opened Ledger
  import Commits
  import opened DomainIndex
  import opened Validation
  import opened Application
  import opened Blocks
  import opened Provenance
  import opened EarlierRecords
  import opened ExampleChain
  import ShadowMarket

  const OWNER: Key := [1]
  const LEADER: Key := [3]
  const NAME: Name := [100]

  function Setting(sha: Bytes -> Bytes): Env { OpenEnv(sha, 1) }

  function Transaction(tid: i64, typ: TxType, d: Name, records: seq<Record>, expirySlot: i64, redeems: i64, owner: Key,
                       commitHash: Bytes): Tx {
    Tx(tid, typ, 0, d, records, 0, expirySlot, redeems, owner, 1, 0, 0, [], seq(64, i => 0), commitHash, [], 0, [], [])
  }

  /**
   * A registration until slot 1000, the registry's COMMIT, and an UPDATE as the constructors build it: without an
   * expiry slot.
   */
  function Registration(): Tx { RevealOf(10, NAME, 1000, 0, 0, OWNER) }
  function Commitment(sha: Bytes -> Bytes): Tx { Transaction(9, COMMIT, [], [], 0, 0, REGISTRY, Hash(sha)) }
  function Update(): Tx { Transaction(11, UPDATE, NAME, [Record([1], [2], 0)], 0, 10, OWNER, []) }
  function Taking(): Tx { RevealOf(12, NAME, 2000, 9, 1, REGISTRY) }

  /** What the registry commits to. */
  function Hash(sha: Bytes -> Bytes): Bytes { RevealHash(Setting(sha), Taking()) }

  function Stored(id: i64): Option<Tx> { if id == 10 then Some(Registration()) else None }

  // ----- The states -----

  function Book(owner: Account, registry: Account, leader: u64): Accounts {
    if leader == 0 then map[OWNER := owner, REGISTRY := registry]
    else map[OWNER := owner, REGISTRY := registry, LEADER := Account(leader, 0)]
  }

  function Names(tx: Tx, spent: set<i64>): Index {
    Index(map[NAME := Entry(tx, Some(OWNER), 0)], spent)
  }

  function Pending(sha: Bytes -> Bytes): Commits.Store { map[Hash(sha) := RecordAt(Hash(sha), 50, 1, 9)] }

  function S0(): State {
    State(Book(Account(100, 0), Account(100, 0), 0), Names(Registration(), {}), map[], map[], [], {}, Tip(0, 0, []))
  }

  function S1(sha: Bytes -> Bytes): State {
    State(Book(Account(100, 0), Account(99, 1), 1), Names(Registration(), {}), Pending(sha), map[], [], {},
          Tip(1, 50, []))
  }

  function S2(sha: Bytes -> Bytes): State {
    State(Book(Account(99, 1), Account(99, 1), 2), Names(Update(), {10}), Pending(sha), map[], [], {}, Tip(2, 60, []))
  }

  ghost function S3(sha: Bytes -> Bytes): State { NextState(Here(sha), S2(sha), B3()) }

  function Here(sha: Bytes -> Bytes): World { Chain(Setting(sha), LEADER) }

  function B1(sha: Bytes -> Bytes): Step { Proposed(1, 50, LEADER, [Commitment(sha)], Stored, [None]) }
  function B2(): Step { Proposed(2, 60, LEADER, [Update()], Stored, [Some(Registration())]) }
  function B3(): (st: Step)
    ensures |st.founds| == |st.block.txs|
  {
    Proposed(3, 61, LEADER, [Taking()], Stored, [None])
  }

  // ----- The COMMIT -----

  lemma CommitmentPasses(sha: Bytes -> Bytes)
    requires |Hash(sha)| == 32
    ensures Gates(ContextOf(Here(sha), S0(), B1(sha).block, Stored), EmptyShadow(), Commitment(sha))
  {
  }

  lemma CommitmentPaid(sha: Bytes -> Bytes)
    ensures WithFees(ApplyLedger(S0().ledger, Commitment(sha)), LEADER, 1) == S1(sha).ledger
  {
  }

  lemma CommitmentStored(sha: Bytes -> Bytes)
    ensures var d := DomState(S1(sha).ledger, NewOverlay(S0().index), PurgedOverlay(S0(), B1(sha).block));
            var r := ApplyDomain(Place(Setting(sha), 50, 1), d, Commitment(sha), None).state;
            && r.ledger == S1(sha).ledger && Committed(r.index) == S1(sha).index
            && Commits.Flushed(r.commits, map[]) == Pending(sha)
  {
    SoundNew(S0().index);
    hide Committed;
  }

  lemma FirstBlock(sha: Bytes -> Bytes)
    requires |Hash(sha)| == 32
    ensures Transition(Here(sha), S0(), B1(sha), S1(sha))
  {
    hide Gates;
    hide ApplyLedger;
    hide ApplyDomain;
    hide Committed;
    hide Commits.Flushed;
    hide Transition;
    hide NextState;
    CommitmentPasses(sha);
    OneAccepted(ContextOf(Here(sha), S0(), B1(sha).block, Stored), Commitment(sha));
    hide Accepts;
    hide ContextOf;
    AcceptedBlock(Setting(sha), LEADER, S0(), 1, 50, [Commitment(sha)], Stored, [None]);
    CommitmentPaid(sha);
    CommitmentStored(sha);
    OneNext(Setting(sha), LEADER, S0(), 1, 50, Commitment(sha), Stored, None);
  }

  // ----- The UPDATE -----

  lemma UpdatePasses(sha: Bytes -> Bytes)
    ensures Gates(ContextOf(Here(sha), S1(sha), B2().block, Stored), EmptyShadow(), Update())
  {
    hide RevealHash;
    hide CommitGate;
    hide RevealGate;
    NoCommitment(ContextOf(Here(sha), S1(sha), B2().block, Stored), EmptyShadow(), Update());
  }

  lemma NoCommitment(c: Ctx, sh: Shadow, tx: Tx)
    requires tx.typ.UPDATE?
    ensures CommitGate(c, sh, tx) && RevealGate(c, sh, tx)
  {
  }

  lemma UpdatePaid(sha: Bytes -> Bytes)
    ensures WithFees(ApplyLedger(S1(sha).ledger, Update()), LEADER, 1) == S2(sha).ledger
  {
  }

  lemma UpdateStored(sha: Bytes -> Bytes)
    ensures var d := DomState(S2(sha).ledger, NewOverlay(S1(sha).index), PurgedOverlay(S1(sha), B2().block));
            var r := ApplyDomain(Place(Setting(sha), 60, 2), d, Update(), Some(Registration())).state;
            && r.ledger == S2(sha).ledger && Committed(r.index) == S2(sha).index
            && r.commits == PurgedOverlay(S1(sha), B2().block)
  {
    hide PurgedOverlay;
    var d := DomState(S2(sha).ledger, NewOverlay(S1(sha).index), PurgedOverlay(S1(sha), B2().block));
    var o := ApplyDomain(Place(Setting(sha), 60, 2), d, Update(), Some(Registration())).state.index;
    forall e ensures Look(Committed(o), e) == Look(S2(sha).index, e) {
      CommittedLook(o, e);
    }
    SameLooks(Committed(o), S2(sha).index);
  }

  lemma StillPending(sha: Bytes -> Bytes)
    ensures Commits.Flushed(PurgedOverlay(S1(sha), B2().block), Pending(sha)) == Pending(sha)
  {
    assert Commits.WithoutExpired(map[], 2) == map[];
    assert PurgedOverlay(S1(sha), B2().block).purged == {};
  }

  lemma SecondBlock(sha: Bytes -> Bytes)
    ensures Transition(Here(sha), S1(sha), B2(), S2(sha))
  {
    hide Gates;
    hide ApplyLedger;
    hide ApplyDomain;
    hide Committed;
    hide Commits.Flushed;
    hide Transition;
    hide NextState;
    UpdatePasses(sha);
    OneAccepted(ContextOf(Here(sha), S1(sha), B2().block, Stored), Update());
    hide Accepts;
    hide ContextOf;
    AcceptedBlock(Setting(sha), LEADER, S1(sha), 2, 60, [Update()], Stored, [Some(Registration())]);
    UpdatePaid(sha);
    UpdateStored(sha);
    StillPending(sha);
    OneNext(Setting(sha), LEADER, S1(sha), 2, 60, Update(), Stored, Some(Registration()));
  }

  // ----- The REVEAL -----

  lemma TakingPasses(sha: Bytes -> Bytes)
    ensures Gates(ContextOf(Here(sha), S2(sha), B3().block, Stored), EmptyShadow(), Taking())
  {
    var c := ContextOf(Here(sha), S2(sha), B3().block, Stored);
    assert RevealHash(c.env, Taking()) == Hash(sha);
    hide RevealHash;
    assert Commits.WithoutExpired(map[], 3) == map[];
    assert Commits.OvGet(c.commits, Hash(sha)) == Some(RecordAt(Hash(sha), 50, 1, 9));
  }

  lemma ThirdBlock(sha: Bytes -> Bytes)
    ensures Transition(Here(sha), S2(sha), B3(), S3(sha))
  {
    hide Gates;
    hide Transition;
    hide NextState;
    TakingPasses(sha);
    OneAccepted(ContextOf(Here(sha), S2(sha), B3().block, Stored), Taking());
    hide Accepts;
    hide ContextOf;
    AcceptedBlock(Setting(sha), LEADER, S2(sha), 3, 61, [Taking()], Stored, [None]);
  }

  /** The REVEAL takes effect: the name has a new owner. */
  lemma TakingTakesEffect(sha: Bytes -> Bytes, ledger: Accounts)
    ensures var d := DomState(ledger, NewOverlay(S2(sha).index), PurgedOverlay(S2(sha), B3().block));
            var r := ApplyDomain(Place(Setting(sha), 61, 3), d, Taking(), None);
            r.outcome.Done? && GetOwner(r.state.index, NAME) == Some(REGISTRY)
  {
    var d := DomState(ledger, NewOverlay(S2(sha).index), PurgedOverlay(S2(sha), B3().block));
    assert RevealHash(Setting(sha), Taking()) == Hash(sha);
    hide RevealHash;
    assert Commits.WithoutExpired(map[], 3) == map[];
    assert Commits.OvGet(d.commits, Hash(sha)) == Some(RecordAt(Hash(sha), 50, 1, 9));
  }

  // ----- The run -----

  ghost function States(sha: Bytes -> Bytes): seq<State> { [S0(), S1(sha), S2(sha), S3(sha)] }
  function Steps(sha: Bytes -> Bytes): seq<Step> { [B1(sha), B2(), B3()] }

  lemma RunIsValid(sha: Bytes -> Bytes)
    requires |Hash(sha)| == 32
    ensures ValidRun(Here(sha), States(sha), Steps(sha))
  {
    hide Transition;
    hide NextState;
    hide S0;
    hide S1;
    hide S2;
    hide S3;
    hide B1;
    hide B2;
    hide B3;
    FirstBlock(sha);
    SecondBlock(sha);
    ThirdBlock(sha);
    forall i | 0 <= i < 3 ensures Transition(Here(sha), States(sha)[i], Steps(sha)[i], States(sha)[i + 1]) {
      assert i == 0 || i == 1 || i == 2;
    }
  }

  lemma CommitmentBacks(sha: Bytes -> Bytes)
    requires |Hash(sha)| == 32
    ensures ValidRun(Here(sha), States(sha), Steps(sha)) && Backs(Here(sha), States(sha), Steps(sha), 0, 0, 2, 0)
  {
    hide ValidRun;
    hide NextState;
    hide S3;
    RunIsValid(sha);
    assert RevealHash(Setting(sha), Taking()) == Hash(sha);
    hide RevealHash;
    assert CommitOf(Place(Setting(sha), 50, 1), Commitment(sha)) == RecordAt(Hash(sha), 50, 1, 9);
  }

  /**
   * A valid run in which the record of the name, before the last two blocks, was to be purged at slot 1030, and in
   * which a REVEAL of the name is accepted at slot 61, backed by a COMMIT of slot 50, and takes effect.
   */
  lemma UpdateShortensRegistration(sha: Bytes -> Bytes)
    requires |Hash(sha)| == 32
    ensures ValidRun(Here(sha), States(sha), Steps(sha)) && States(sha)[0].commits == map[]
    ensures Backs(Here(sha), States(sha), Steps(sha), 0, 0, 2, 0)
    ensures ApplyDomain(Place(Setting(sha), 61, 3), StartB(S2(sha), B3().block), Taking(), None).outcome.Done?
    ensures IxDomain(States(sha)[1].index, NAME) == Some(Registration()) && Steps(sha)[2].block.txs[0].domain == NAME
    ensures Steps(sha)[0].block.slot == 50 < ComputePurgeSlot(Registration().expirySlot, 1) == 1030
    ensures !Lasts(IxDomain(States(sha)[2].index, NAME), Registration().expirySlot)
  {
    hide ValidRun;
    hide Backs;
    hide NextState;
    hide S3;
    hide ApplyDomain;
    CommitmentBacks(sha);
    TakingTakesEffect(sha, PhaseA(S2(sha), B3().block));
  }

  // ----- The UPDATE and a TRANSFER in one block -----

  function Handover(): Tx { Transaction(13, TRANSFER, NAME, [], 0, 0, OWNER, []).(nonce := 1, recipient := REGISTRY) }

  function Both(): (st: Step)
    ensures |st.founds| == |st.block.txs|
  {
    Proposed(1, 60, LEADER, [Update(), Handover()], Stored, [Some(Registration()), None])
  }

  function BothContext(sha: Bytes -> Bytes): Ctx { ContextOf(Here(sha), S0(), Both().block, Stored) }

  lemma UpdatePassesHere(sha: Bytes -> Bytes)
    ensures Gates(BothContext(sha), EmptyShadow(), Update())
  {
    hide RevealHash;
    hide CommitGate;
    hide RevealGate;
    NoCommitment(BothContext(sha), EmptyShadow(), Update());
  }

  function AfterUpdate(sha: Bytes -> Bytes): Shadow { NextShadow(BothContext(sha), EmptyShadow(), Update()) }

  lemma RunningAfterUpdate(sha: Bytes -> Bytes)
    ensures Nonce(BothContext(sha), AfterUpdate(sha), OWNER) == 1
    ensures Balance(BothContext(sha), AfterUpdate(sha), OWNER) == 99
    ensures Owner(BothContext(sha), AfterUpdate(sha), NAME) == OWNER
  {
  }

  lemma HandoverPasses(sha: Bytes -> Bytes)
    ensures Gates(BothContext(sha), AfterUpdate(sha), Handover())
  {
    hide RevealHash;
    hide CommitGate;
    hide RevealGate;
    hide NextShadow;
    hide Nonce;
    hide Balance;
    hide Owner;
    RunningAfterUpdate(sha);
    TransferGates(BothContext(sha), AfterUpdate(sha), Handover());
  }

  lemma TransferGates(c: Ctx, sh: Shadow, tx: Tx)
    requires tx.typ.TRANSFER?
    ensures CommitGate(c, sh, tx) && RevealGate(c, sh, tx)
  {
  }

  lemma OneRun(c: Ctx, tx: Tx)
    ensures ShadowRun(c, [tx]) == NextShadow(c, EmptyShadow(), tx)
  {
    hide NextShadow;
    assert [tx][..0] == [];
  }

  lemma BothAccepted(sha: Bytes -> Bytes)
    ensures Transition(Here(sha), S0(), Both(), NextState(Here(sha), S0(), Both()))
  {
    hide Gates;
    hide NextShadow;
    hide Transition;
    hide NextState;
    hide ContextOf;
    UpdatePassesHere(sha);
    HandoverPasses(sha);
    var txs := [Update(), Handover()];
    assert txs[..1] == [Update()] && [Update()][..0] == [];
    OneRun(BothContext(sha), Update());
    OneAccepted(BothContext(sha), Update());
    AcceptedBlock(Setting(sha), LEADER, S0(), 1, 60, txs, Stored, [Some(Registration()), None]);
  }

  lemma HandoverRefused(sha: Bytes -> Bytes, d: DomState)
    requires d.index == NewOverlay(S0().index)
    ensures var r := ApplyDomain(Place(Setting(sha), 60, 1), d, Update(), Some(Registration())).state;
            && !ApplyDomain(Place(Setting(sha), 60, 1), r, Handover(), None).outcome.Done?
            && GetOwner(ApplyDomain(Place(Setting(sha), 60, 1), r, Handover(), None).state.index, NAME) == Some(OWNER)
  {
  }

  lemma HandoverCounted(sha: Bytes -> Bytes)
    ensures Owner(BothContext(sha), ShadowRun(BothContext(sha), Both().block.txs), NAME) == REGISTRY
  {
    hide NextBalance;
    hide Nonce;
    hide Balance;
    hide ContextOf;
    var txs := Both().block.txs;
    assert txs[..1] == [Update()];
  }

  /** The block is accepted; for validation the name has changed hands, and in the overlay it has not. */
  lemma TransferDiverges(sha: Bytes -> Bytes)
    ensures var x, start, st := PlaceOf(Here(sha), Both().block), StartB(S0(), Both().block), Both();
            && Transition(Here(sha), S0(), st, NextState(Here(sha), S0(), st))
            && Owner(BothContext(sha), ShadowRun(BothContext(sha), st.block.txs), NAME) == REGISTRY
            && GetOwner(DomainRun(x, start, st.block.txs, st.founds).index, NAME) == Some(OWNER)
            && !ShadowMarket.AgreesAt(BothContext(sha), x, start, st.block.txs, st.founds, 2)
  {
    hide Transition;
    hide NextState;
    hide ApplyDomain;
    hide NextShadow;
    hide GetOwner;
    hide Owner;
    hide PhaseA;
    BothAccepted(sha);
    HandoverCounted(sha);
    HandoverRefused(sha, StartB(S0(), Both().block));
    var txs, founds := Both().block.txs, Both().founds;
    assert txs[..2] == txs && founds[..2] == founds;
    assert txs[..1] == [Update()] && founds[..1] == [Some(Registration())];
    OneApplied(Place(Setting(sha), 60, 1), StartB(S0(), Both().block), Update(), Some(Registration()));
  }
}
