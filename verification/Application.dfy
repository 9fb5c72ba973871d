/** The effects of transactions on state, as values (internal/blockchain/apply.go). */
module Application {
  import opened Basics
  import opened Sums
  import opened Config
  import opened Transactions
  import opened Ledger
  import opened Staking
  import opened Validation
  import Commits
  import opened DomainIndex

  // ----- Phase A: nonce, fee, FUND and STAKE debits -----

  function ApplyLedger(a: Accounts, tx: Tx): Accounts {
    if tx.owner == [] then a
    else
      var b := Bumped(a, tx.owner);
      var c := if tx.fee > 0 then Debited(b, tx.owner, tx.fee) else b;
      var d :=
        if tx.typ.FUND? && tx.recipient != [] && tx.listPrice > 0 && CanDebit(c, tx.owner, tx.listPrice)
        then Credited(Debited(c, tx.owner, tx.listPrice), tx.recipient, tx.listPrice)
        else c;
      if tx.typ.STAKE? && tx.stakeAmount > 0 then Debited(d, tx.owner, tx.stakeAmount) else d
  }

  function LedgerRun(a: Accounts, txs: seq<Tx>): Accounts {
    if txs == [] then a else ApplyLedger(LedgerRun(a, txs[..|txs| - 1]), txs[|txs| - 1])
  }

  /** The fees of all transactions, as the uint64 that the running total computes. */
  function TotalFees(txs: seq<Tx>): u64 {
    if txs == [] then 0 else Add64(TotalFees(txs[..|txs| - 1]), txs[|txs| - 1].fee)
  }

  function WithFees(a: Accounts, leader: Key, fees: u64): Accounts {
    if fees > 0 then Credited(a, leader, fees) else a
  }

  // ----- Stake, unstake and slashing -----

  datatype StakeState = StakeState(stakes: Stakes, queue: Queue, evidence: set<Offense>)

  /** `uint64(slot)`. */
  function SlotNumber(slot: i64): u64 {
    if slot >= 0 then slot else slot + TWO64
  }

  ghost function Slash(st: StakeState, k: Key): StakeState {
    var staked := At(st.stakes, k);
    var slash := ComputeSlashAmount(Add64(staked, PendingStake(st.queue, k)), SLASHING_PERCENT);
    if slash <= staked then st.(stakes := StakeReduced(st.stakes, k, slash))
    else st.(stakes := StakeReduced(st.stakes, k, staked), queue := BurnedAndCompacted(st.queue, k, slash - staked))
  }

  ghost function ApplyStake(env: Env, st: StakeState, tx: Tx, slot: i64): StakeState {
    if tx.owner == [] then st
    else
      match tx.typ
      case STAKE => st.(stakes := StakeAdded(st.stakes, tx.owner, tx.stakeAmount))
      case UNSTAKE =>
        var entry := Pending(tx.owner, tx.stakeAmount, Add64(SlotNumber(slot), UNSTAKE_DELAY_SLOTS));
        st.(stakes := StakeReduced(st.stakes, tx.owner, tx.stakeAmount), queue := st.queue + [entry])
      case EQUIVOCATION_PROOF =>
        if tx.equivA == [] || env.decodeBlock(tx.equivA).None? || OffenseOf(env, tx) in st.evidence then st
        else Slash(st, Offender(env, tx)).(evidence := st.evidence + {OffenseOf(env, tx)})
      case _ => st
  }

  ghost function StakeRun(env: Env, st: StakeState, txs: seq<Tx>, slot: i64): StakeState {
    if txs == [] then st else ApplyStake(env, StakeRun(env, st, txs[..|txs| - 1], slot), txs[|txs| - 1], slot)
  }

  // ----- Phase B: the domain index, the commitments and BUY transfers -----

  datatype DomState = DomState(ledger: Accounts, index: Overlay, commits: Commits.Overlay)

  /** Done: took effect.  Refused: returned an error and changed nothing.  Crashed: dereferenced a missing record. */
  datatype Outcome = Done | Refused | Crashed

  datatype Applied = Applied(state: DomState, outcome: Outcome)

  /** Where the block stands. */
  datatype Place = Place(env: Env, slot: i64, block: int)

  function PhaseAt(x: Place, tx: Tx): Phase {
    GetDomainPhase(x.slot, tx.expirySlot, x.env.slotsPerDay)
  }

  function Refuse(st: DomState): Applied {
    Applied(st, Refused)
  }

  predicate Owns(o: Overlay, d: Name, k: Key) {
    GetOwner(o, d) == Some(k)
  }

  function ApplyRegister(x: Place, st: DomState, tx: Tx): Applied {
    var existing := GetDomain(st.index, tx.domain);
    if existing.Some? && !PhaseAt(x, existing.value).Purged? then Refuse(st)
    else if tx.redeems != 0 then Refuse(st)
    else Applied(st.(index := OwnerSet(Added(st.index, tx.domain, tx), tx.domain, tx.owner)), Done)
  }

  function CommitOf(x: Place, tx: Tx): Commits.CommitRecord {
    Commits.CommitRecord(tx.commitHash, tx.owner, x.block, x.slot, tx.tid, x.block + COMMIT_MAX_WINDOW)
  }

  function ApplyCommit(x: Place, st: DomState, tx: Tx): Applied {
    Applied(st.(commits := Commits.OvAdd(st.commits, CommitOf(x, tx))), Done)
  }

  function ApplyReveal(x: Place, st: DomState, tx: Tx): Applied {
    var h := RevealHash(x.env, tx);
    var existing := GetDomain(st.index, tx.domain);
    if Commits.OvGet(st.commits, h).None? then Refuse(st)
    else if existing.Some? && !PhaseAt(x, existing.value).Purged? then Refuse(st)
    else
      var o := OwnerSet(Added(st.index, tx.domain, tx), tx.domain, tx.recipient);
      Applied(st.(index := Marked(o, tx.redeems), commits := Commits.OvConsume(st.commits, h)), Done)
  }

  function KeepOwner(o: Overlay, d: Name, owner: Option<Key>): Overlay {
    if owner.Some? then OwnerSet(o, d, owner.value) else o
  }

  predicate Names(found: Option<Tx>, tx: Tx) {
    found.Some? && found.value.domain == tx.domain
  }

  function ApplyRevoke(x: Place, st: DomState, tx: Tx, found: Option<Tx>): Applied {
    var existing := GetDomain(st.index, tx.domain);
    if tx.owner != [] && !Owns(st.index, tx.domain, tx.owner) then Refuse(st)
    else if tx.redeems != 0 && !Names(found, tx) then Refuse(st)
    else if tx.owner == [] && (existing.None? || PhaseAt(x, existing.value).Active?) then Refuse(st)
    else
      var o := if tx.redeems != 0 then Marked(st.index, tx.redeems) else st.index;
      Applied(st.(index := KeepOwner(Added(o, tx.domain, tx), tx.domain, GetOwner(st.index, tx.domain))), Done)
  }

  /** RENEW keeps the records that are in force. */
  function Renewed(tx: Tx, current: Option<Tx>): Tx {
    if current.Some? && current.value.records != [] then tx.(records := current.value.records) else tx
  }

  function ApplyUpdateOrRenew(st: DomState, tx: Tx, found: Option<Tx>, renew: bool): Applied {
    if tx.redeems == 0 || !Names(found, tx) then Refuse(st)
    else
      var price, owner := GetPrice(st.index, tx.domain), GetOwner(st.index, tx.domain);
      var store := if renew then Renewed(tx, GetDomain(st.index, tx.domain)) else tx;
      var o := Added(Marked(st.index, tx.redeems), tx.domain, store);
      var p := if price > 0 then PriceSet(o, tx.domain, price) else o;
      Applied(st.(index := KeepOwner(p, tx.domain, owner)), Done)
  }

  function ApplyUpdate(x: Place, st: DomState, tx: Tx, found: Option<Tx>): Applied {
    var existing := GetDomain(st.index, tx.domain);
    if !Owns(st.index, tx.domain, tx.owner) then Refuse(st)
    else if existing.Some? && !PhaseAt(x, existing.value).Active? then Refuse(st)
    else ApplyUpdateOrRenew(st, tx, found, false)
  }

  function ApplyRenew(x: Place, st: DomState, tx: Tx, found: Option<Tx>): Applied {
    var existing := GetDomain(st.index, tx.domain);
    if existing.Some? && PhaseAt(x, existing.value).Purged? then Refuse(st)
    else ApplyUpdateOrRenew(st, tx, found, true)
  }

  function ApplyMarket(x: Place, st: DomState, tx: Tx): Applied {
    var existing := GetDomain(st.index, tx.domain);
    if existing.None? then Applied(st, Crashed)
    else if !PhaseAt(x, existing.value).Active? then Refuse(st)
    else
      match tx.typ
      case BUY => ApplyBuy(st, tx)
      case TRANSFER =>
        if !Owns(st.index, tx.domain, tx.owner) then Refuse(st)
        else Applied(st.(index := PriceSet(OwnerSet(st.index, tx.domain, tx.recipient), tx.domain, 0)), Done)
      case LIST =>
        if !Owns(st.index, tx.domain, tx.owner) then Refuse(st)
        else Applied(st.(index := PriceSet(st.index, tx.domain, tx.listPrice)), Done)
      case _ =>
        if !Owns(st.index, tx.domain, tx.owner) || !IsForSale(st.index, tx.domain) then Refuse(st)
        else Applied(st.(index := PriceSet(st.index, tx.domain, 0)), Done)
  }

  /** A missing owner is paid under the empty key. */
  function Seller(o: Overlay, d: Name): Key {
    if GetOwner(o, d).Some? then GetOwner(o, d).value else []
  }

  function ApplyBuy(st: DomState, tx: Tx): Applied {
    var price, seller := GetPrice(st.index, tx.domain), Seller(st.index, tx.domain);
    if price == 0 || tx.owner == seller || tx.listPrice < price || !CanDebit(st.ledger, tx.owner, price) then Refuse(st)
    else
      Applied(
        st.(ledger := Credited(Debited(st.ledger, tx.owner, price), seller, price),
            index := PriceSet(OwnerSet(st.index, tx.domain, tx.owner), tx.domain, 0)),
        Done)
  }

  /** `found` is what GetTxByID answers for the redeemed transaction. */
  function ApplyDomain(x: Place, st: DomState, tx: Tx, found: Option<Tx>): Applied {
    match tx.typ
    case REGISTER => ApplyRegister(x, st, tx)
    case COMMIT => ApplyCommit(x, st, tx)
    case REVEAL => ApplyReveal(x, st, tx)
    case REVOKE => ApplyRevoke(x, st, tx, found)
    case UPDATE => ApplyUpdate(x, st, tx, found)
    case RENEW => ApplyRenew(x, st, tx, found)
    case LIST => ApplyMarket(x, st, tx)
    case BUY => ApplyMarket(x, st, tx)
    case TRANSFER => ApplyMarket(x, st, tx)
    case DELIST => ApplyMarket(x, st, tx)
    case _ => Applied(st, Done)
  }

  function DomainRun(x: Place, st: DomState, txs: seq<Tx>, founds: seq<Option<Tx>>): DomState
    requires |founds| == |txs|
  {
    if txs == [] then st
    else
      var n := |txs| - 1;
      ApplyDomain(x, DomainRun(x, st, txs[..n], founds[..n]), txs[n], founds[n]).state
  }

  /** How the i-th transaction fared. */
  function OutcomeAt(x: Place, st: DomState, txs: seq<Tx>, founds: seq<Option<Tx>>, i: nat): Outcome
    requires |founds| == |txs| && i < |txs|
  {
    ApplyDomain(x, DomainRun(x, st, txs[..i], founds[..i]), txs[i], founds[i]).outcome
  }

  lemma DomainStep(x: Place, st: DomState, txs: seq<Tx>, founds: seq<Option<Tx>>, i: nat)
    requires |founds| == |txs| && i < |txs|
    ensures DomainRun(x, st, txs[..i + 1], founds[..i + 1]) ==
            ApplyDomain(x, DomainRun(x, st, txs[..i], founds[..i]), txs[i], founds[i]).state
  {
    hide ApplyDomain;
    assert txs[..i + 1][..i] == txs[..i] && founds[..i + 1][..i] == founds[..i];
  }
}
