/** A block validated and applied, and runs of blocks (internal/blockchain/block.go:266-407, internal/network). */
module Blocks {
  import opened Basics
  import opened Transactions
  import opened Ledger
  import opened Staking
  import Commits
  import opened DomainIndex
  import opened Validation
  import opened Application

  datatype Block = Block(
    index: int,
    timestamp: i64,
    slot: i64,
    leader: Key,
    txs: seq<Tx>,
    prevHash: Bytes,
    hash: Bytes,
    merkleRoot: Bytes,
    ledgerHash: Bytes,
    indexHash: Bytes,
    commitsHash: Bytes,
    stakesHash: Bytes,
    queueHash: Bytes,
    signature: Bytes)

  /** What a node keeps between blocks. */
  datatype State = State(
    ledger: Accounts,
    index: Index,
    commits: Commits.Store,
    stakes: Stakes,
    queue: Queue,
    evidence: set<Offense>,
    tip: Tip)

  /** What validation reads of the latest block. */
  datatype Tip = Tip(index: int, slot: i64, hash: Bytes)

  /** A registration that the purge index lists under a slot. */
  datatype Purge = Purge(domain: Name, tid: i64, expirySlot: i64)

  /** The parameters of a whole chain: the environment, header cryptography, state hashes and leader schedule. */
  datatype World = World(
    env: Env,
    leaderOf: Block -> Key,
    signed: (Key, Block) -> bool,
    blockHash: Block -> Bytes,
    merkle: seq<Tx> -> Bytes,
    hashLedger: Accounts -> Bytes,
    hashIndex: Overlay -> Bytes,
    hashCommits: Commits.Store -> Bytes,
    hashStakes: Stakes -> Bytes,
    hashQueue: Queue -> Bytes,
    purgeable: (Index, i64) -> seq<Purge>)

  /**
   * One block as a node processes it, with the answers of GetTxByID:
   * `lookup` on the index before the block, `founds` on the overlay as each transaction is applied.
   */
  datatype Step = Step(block: Block, lookup: i64 -> Option<Tx>, founds: seq<Option<Tx>>)

  // ----- Applying a block -----

  function PurgedOverlay(s: State, b: Block): Commits.Overlay {
    Commits.OvPurge(Commits.NewOverlay(s.commits, b.index), b.index)
  }

  function ContextOf(w: World, s: State, b: Block, lookup: i64 -> Option<Tx>): Ctx {
    Ctx(w.env, s.ledger, NewOverlay(s.index), lookup, PurgedOverlay(s, b), b.slot, true, b.leader, s.stakes, s.queue,
        s.evidence)
  }

  /** The ledger after phase A: nonces, debits and the leader's fees. */
  function PhaseA(s: State, b: Block): Accounts {
    WithFees(LedgerRun(s.ledger, b.txs), b.leader, TotalFees(b.txs))
  }

  function PlaceOf(w: World, b: Block): Place {
    Place(w.env, b.slot, b.index)
  }

  function StartB(s: State, b: Block): DomState {
    DomState(PhaseA(s, b), NewOverlay(s.index), PurgedOverlay(s, b))
  }

  /** Phase B: the domain mutations of the whole block. */
  function PhaseB(w: World, s: State, st: Step): DomState
    requires |st.founds| == |st.block.txs|
  {
    DomainRun(PlaceOf(w, st.block), StartB(s, st.block), st.block.txs, st.founds)
  }

  /** Matured entries are swept off the queue and not credited to anybody. */
  function SweptQueue(s: State, b: Block): Queue {
    Select(s.queue, SlotNumber(b.slot), false)
  }

  function StartStake(s: State, b: Block): StakeState {
    StakeState(s.stakes, SweptQueue(s, b), s.evidence)
  }

  ghost function StakePhase(w: World, s: State, b: Block): StakeState {
    StakeRun(w.env, StartStake(s, b), b.txs, b.slot)
  }

  ghost function NextState(w: World, s: State, st: Step): State
    requires |st.founds| == |st.block.txs|
  {
    var d, k := PhaseB(w, s, st), StakePhase(w, s, st.block);
    State(d.ledger, Committed(d.index), Commits.Flushed(d.commits, s.commits), k.stakes, k.queue, k.evidence,
          Tip(st.block.index, st.block.slot, st.block.hash))
  }

  // ----- Validating a block -----

  predicate HeaderOk(w: World, s: State, b: Block) {
    && b.index == s.tip.index + 1
    && b.slot > s.tip.slot
    && b.prevHash == s.tip.hash
    && b.leader == w.leaderOf(b)
    && w.signed(b.leader, b)
    && b.txs != []
    && b.merkleRoot == w.merkle(b.txs)
    && b.hash == w.blockHash(b)
  }

  /** Every registration due for purging is renewed or revoked by the block. */
  predicate PurgesPresent(txs: seq<Tx>, due: seq<Purge>) {
    forall p :: p in due ==>
      || (exists tx :: tx in txs && tx.typ.RENEW? && tx.domain == p.domain)
      || (exists tx :: tx in txs && tx.typ.REVOKE? && tx.domain == p.domain && tx.redeems == p.tid)
  }

  /** The ledger hash is compared before the BUY transfers of phase B. */
  ghost predicate HashesOk(w: World, s: State, st: Step)
    requires |st.founds| == |st.block.txs|
  {
    var b, d, k := st.block, PhaseB(w, s, st), StakePhase(w, s, st.block);
    && b.ledgerHash == w.hashLedger(PhaseA(s, b))
    && b.indexHash == w.hashIndex(d.index)
    && b.commitsHash == w.hashCommits(Commits.Merged(d.commits))
    && b.stakesHash == w.hashStakes(k.stakes)
    && b.queueHash == w.hashQueue(k.queue)
  }

  /** No transaction of the block dereferences a missing record. */
  predicate NoCrash(w: World, s: State, st: Step)
    requires |st.founds| == |st.block.txs|
  {
    forall i :: 0 <= i < |st.block.txs| ==>
      !OutcomeAt(PlaceOf(w, st.block), StartB(s, st.block), st.block.txs, st.founds, i).Crashed?
  }

  ghost predicate Transition(w: World, s: State, st: Step, s': State) {
    && |st.founds| == |st.block.txs|
    && HeaderOk(w, s, st.block)
    && PurgesPresent(st.block.txs, w.purgeable(s.index, st.block.slot))
    && Accepts(ContextOf(w, s, st.block, st.lookup), st.block.txs)
    && NoCrash(w, s, st)
    && HashesOk(w, s, st)
    && s' == NextState(w, s, st)
  }

  /** states[i + 1] follows states[i] by the accepted block of steps[i]. */
  ghost predicate ValidRun(w: World, states: seq<State>, steps: seq<Step>) {
    && |states| == |steps| + 1
    && forall i :: 0 <= i < |steps| ==> Transition(w, states[i], steps[i], states[i + 1])
  }

  // ----- The two schedules -----

  /** The leader's phase A: ledger and stake mutations interleaved, transaction by transaction. */
  ghost function Interleaved(env: Env, a: Accounts, k: StakeState, txs: seq<Tx>, slot: i64): (Accounts, StakeState) {
    if txs == [] then (a, k)
    else
      var r := Interleaved(env, a, k, txs[..|txs| - 1], slot);
      (ApplyLedger(r.0, txs[|txs| - 1]), ApplyStake(env, r.1, txs[|txs| - 1], slot))
  }

  lemma {:induction false} InterleavingIsSequential(env: Env, a: Accounts, k: StakeState, txs: seq<Tx>, slot: i64)
    ensures Interleaved(env, a, k, txs, slot) == (LedgerRun(a, txs), StakeRun(env, k, txs, slot))
  {
    if txs == [] {
    } else {
      InterleavingIsSequential(env, a, k, txs[..|txs| - 1], slot);
    }
  }
}
