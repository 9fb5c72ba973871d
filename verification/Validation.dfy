/** The gates a transaction list passes before it is applied (internal/blockchain/block.go:413-1112). */
module Validation {
  import opened Basics
  import opened Sums
  import opened Config
  import opened Transactions
  import opened Ledger
  import opened Staking
  import opened Encoding
  import Commits
  import opened DomainIndex

  /** What ValidateTransactions reads and never changes. */
  datatype Ctx = Ctx(
    env: Env,
    ledger: Accounts,
    index: Overlay,
    /** What GetTxByID answers on that index. */
    lookup: i64 -> Option<Tx>,
    commits: Commits.Overlay,
    slot: i64,
    isBlock: bool,
    leader: Key,
    stakes: Stakes,
    queue: Queue,
    evidence: set<Offense>)

  /** The running state of one call: what the transactions so far would have done. */
  datatype Shadow = Shadow(
    nonce: map<Key, u64>,
    balance: map<Key, u64>,
    spent: set<i64>,
    forSale: map<Name, u64>,
    registered: set<Name>,
    owner: map<Name, Key>,
    txs: map<i64, Tx>,
    stake: map<Key, u64>,
    pending: map<Key, u64>,
    burned: map<Key, u64>,
    slashed: set<Offense>,
    commits: set<Bytes>)

  function EmptyShadow(): Shadow {
    Shadow(map[], map[], {}, map[], {}, map[], map[], map[], map[], map[], {}, {})
  }

  // ----- Shadow reads: the shadow entry if there is one, the real state otherwise -----

  function Balance(c: Ctx, sh: Shadow, k: Key): u64 {
    if k in sh.balance then sh.balance[k] else BalanceOf(c.ledger, k)
  }

  function Nonce(c: Ctx, sh: Shadow, k: Key): u64 {
    if k in sh.nonce then sh.nonce[k] else NonceOf(c.ledger, k)
  }

  function Stake(c: Ctx, sh: Shadow, k: Key): u64 {
    if k in sh.stake then sh.stake[k] else At(c.stakes, k)
  }

  /** A missing owner reads as the empty key. */
  function Owner(c: Ctx, sh: Shadow, d: Name): Key {
    if d in sh.owner then sh.owner[d]
    else if GetOwner(c.index, d).Some? then GetOwner(c.index, d).value
    else []
  }

  /** 0 is not listed. */
  function Price(c: Ctx, sh: Shadow, d: Name): u64 {
    if d in sh.forSale then sh.forSale[d] else GetPrice(c.index, d)
  }

  function PhaseOf(c: Ctx, tx: Tx): Phase {
    GetDomainPhase(c.slot, tx.expirySlot, c.env.slotsPerDay)
  }

  function RevealHash(env: Env, tx: Tx): Bytes {
    env.sha(CommitPreimage(tx.domain, tx.salt, tx.owner))
  }

  // ----- Gates on any transaction -----

  /** Gate 1. */
  predicate SignatureGate(c: Ctx, tx: Tx) {
    tx.owner != [] ==> VerifySignature(c.env, tx.owner, tx)
  }

  /** Gates 1.5p, 1.5q, 1.5r and 1.5s. */
  predicate HygieneGate(tx: Tx) {
    && (tx.typ.STAKE? || tx.typ.UNSTAKE? ==>
          && tx.domain == [] && tx.records == [] && tx.redeems == 0 && tx.recipient == []
          && tx.equivA == [] && tx.equivB == [])
    && (tx.typ.EQUIVOCATION_PROOF? ==>
          tx.domain == [] && tx.records == [] && tx.redeems == 0 && tx.recipient == [] && tx.stakeAmount == 0)
    && (!tx.typ.STAKE? && !tx.typ.UNSTAKE? && !tx.typ.EQUIVOCATION_PROOF? ==>
          tx.stakeAmount == 0 && tx.equivA == [] && tx.equivB == [])
    && !tx.typ.REGISTER?
    && (!tx.typ.COMMIT? && !tx.typ.REVEAL? ==> tx.commitHash == [] && tx.salt == [])
  }

  predicate Redeems(tx: Tx) {
    tx.redeems != 0 && (tx.typ.REGISTER? || tx.typ.UPDATE? || tx.typ.RENEW? || tx.typ.REVOKE? || tx.typ.REVEAL?)
  }

  /** Gates 1.5 and 1.5h. */
  predicate RedeemGate(c: Ctx, sh: Shadow, tx: Tx) {
    Redeems(tx) ==>
      && tx.redeems !in sh.spent
      && !IsSpent(c.index, tx.redeems)
      && (!tx.typ.REGISTER? && !tx.typ.REVEAL? ==>
            var r := if tx.redeems in sh.txs then Some(sh.txs[tx.redeems]) else c.lookup(tx.redeems);
            r.Some? && r.value.domain == tx.domain)
  }

  /** Gates 1.5b, 1.5c, 1.5d and 1.5g. */
  predicate StructureGate(tx: Tx) {
    && (tx.typ.LIST? ==> tx.listPrice != 0)
    && (tx.typ.UPDATE? || tx.typ.RENEW? ==> tx.records != [])
    && (tx.typ.TRANSFER? ==> tx.recipient != [])
    && (tx.typ.UPDATE? || tx.typ.RENEW? || tx.typ.REVOKE? ==> tx.redeems != 0)
  }

  /** Gate 1.5c-commit. */
  predicate CommitGate(c: Ctx, sh: Shadow, tx: Tx) {
    tx.typ.COMMIT? ==>
      && IsRegistryKey(c.env, tx.owner)
      && |tx.commitHash| == 32
      && tx.domain == [] && tx.records == [] && tx.redeems == 0 && tx.salt == []
      && tx.commitHash !in sh.commits
      && Commits.OvGet(c.commits, tx.commitHash).None?
  }

  predicate IsMarket(tx: Tx) {
    tx.typ.LIST? || tx.typ.DELIST? || tx.typ.BUY? || tx.typ.TRANSFER?
  }

  /** Gate 1.5e. */
  predicate MarketGate(c: Ctx, sh: Shadow, tx: Tx) {
    IsMarket(tx) ==>
      || tx.domain in sh.registered
      || (GetDomain(c.index, tx.domain).Some? && PhaseOf(c, GetDomain(c.index, tx.domain).value).Active?)
  }

  /** A transaction without an owner must be an auto-revocation signed by the slot leader. */
  predicate AutoGate(c: Ctx, sh: Shadow, tx: Tx) {
    && tx.typ.REVOKE? && c.isBlock
    && VerifySignature(c.env, c.leader, tx)
    && tx.domain !in sh.registered
  }

  // ----- Gates on a transaction with an owner -----

  /** Gates 2 and 2a. */
  predicate FeeGate(c: Ctx, sh: Shadow, tx: Tx) {
    && tx.fee >= MIN_FEE
    && (tx.typ.FUND? ==>
          && IsRegistryKey(c.env, tx.owner)
          && tx.listPrice != 0 && tx.recipient != []
          && (var needed := Add64(tx.fee, tx.listPrice);
              needed >= tx.fee && needed >= tx.listPrice && needed <= Balance(c, sh, tx.owner)))
    && tx.fee <= Balance(c, sh, tx.owner)
  }

  /** Gate 3. */
  predicate NonceGate(c: Ctx, sh: Shadow, tx: Tx) {
    tx.nonce == Nonce(c, sh, tx.owner)
  }

  function AfterFee(c: Ctx, sh: Shadow, tx: Tx): u64 {
    Sub64(Balance(c, sh, tx.owner), tx.fee)
  }

  predicate BuyGate(c: Ctx, sh: Shadow, tx: Tx) {
    tx.typ.BUY? ==>
      && Price(c, sh, tx.domain) > 0
      && Price(c, sh, tx.domain) <= AfterFee(c, sh, tx)
      && Price(c, sh, tx.domain) <= tx.listPrice
      && Owner(c, sh, tx.domain) != tx.owner
  }

  predicate OwnerGate(c: Ctx, sh: Shadow, tx: Tx) {
    && (tx.typ.LIST? || tx.typ.DELIST? || tx.typ.UPDATE? || tx.typ.REVOKE? || tx.typ.TRANSFER? ==>
          Owner(c, sh, tx.domain) == tx.owner)
    && (tx.typ.DELIST? ==> Price(c, sh, tx.domain) > 0)
  }

  predicate ExistsGate(c: Ctx, sh: Shadow, tx: Tx) {
    && (tx.typ.UPDATE? || tx.typ.REVOKE? || tx.typ.RENEW? ==>
          || tx.domain in sh.registered
          || (GetDomain(c.index, tx.domain).Some? && !PhaseOf(c, GetDomain(c.index, tx.domain).value).Purged?))
    && (tx.typ.RENEW? ==> IsRegistryKey(c.env, tx.owner))
  }

  /** Gates R1 to R4b. */
  predicate RevealGate(c: Ctx, sh: Shadow, tx: Tx) {
    tx.typ.REVEAL? ==>
      && IsRegistryKey(c.env, tx.owner)
      && tx.commitHash == [] && tx.recipient != []
      && var h := RevealHash(c.env, tx);
         var rec := Commits.OvGet(c.commits, h);
         && rec.Some? && h !in sh.commits
         && tx.redeems == rec.value.tid
         && tx.owner == rec.value.committer
         && c.slot - rec.value.slot >= COMMIT_MIN_DELAY
         && tx.domain !in sh.registered
         && (GetDomain(c.index, tx.domain).Some? ==>
               && PhaseOf(c, GetDomain(c.index, tx.domain).value).Purged?
               && rec.value.slot >= ComputePurgeSlot(GetDomain(c.index, tx.domain).value.expirySlot, c.env.slotsPerDay))
  }

  predicate StakeGate(c: Ctx, sh: Shadow, tx: Tx) {
    tx.typ.STAKE? ==>
      && tx.stakeAmount > 0
      && (Stake(c, sh, tx.owner) == 0 ==> tx.stakeAmount >= MIN_STAKE_THRESHOLD)
      && Add64(tx.fee, tx.stakeAmount) >= tx.fee
      && tx.stakeAmount <= AfterFee(c, sh, tx)
  }

  predicate UnstakeGate(c: Ctx, sh: Shadow, tx: Tx) {
    tx.typ.UNSTAKE? ==>
      && tx.stakeAmount > 0
      && tx.stakeAmount <= Stake(c, sh, tx.owner)
      && (var rest := Stake(c, sh, tx.owner) - tx.stakeAmount; rest == 0 || rest >= MIN_STAKE_THRESHOLD)
  }

  // ----- Equivocation proofs -----

  /** The offender of a proof, when its first block decodes. */
  function Offender(env: Env, tx: Tx): Key {
    if env.decodeBlock(tx.equivA).Some? then env.decodeBlock(tx.equivA).value.leader else []
  }

  function OffenseOf(env: Env, tx: Tx): Offense {
    if env.decodeBlock(tx.equivA).Some?
    then Offense(env.decodeBlock(tx.equivA).value.index, env.decodeBlock(tx.equivA).value.leader)
    else Offense(0, [])
  }

  /** The offender's queued coins as validation computes them: the queue is read before it is swept. */
  function QueuePart(c: Ctx, sh: Shadow, k: Key): u64 {
    Sub64(Add64(PendingStake(c.queue, k), At(sh.pending, k)), At(sh.burned, k))
  }

  function Slashable(c: Ctx, sh: Shadow, k: Key): u64 {
    Add64(Stake(c, sh, k), QueuePart(c, sh, k))
  }

  predicate ProofGate(c: Ctx, sh: Shadow, tx: Tx) {
    tx.typ.EQUIVOCATION_PROOF? ==>
      && tx.equivA != [] && tx.equivB != []
      && |tx.equivA| <= MAX_EVIDENCE_BLOCK_BYTES && |tx.equivB| <= MAX_EVIDENCE_BLOCK_BYTES
      && var a, b := c.env.decodeBlock(tx.equivA), c.env.decodeBlock(tx.equivB);
         && a.Some? && b.Some?
         && a.value.index == b.value.index && a.value.leader == b.value.leader && a.value.hash != b.value.hash
         && c.env.evidenceSigned(tx.equivA) && c.env.evidenceSigned(tx.equivB)
         && OffenseOf(c.env, tx) !in c.evidence && OffenseOf(c.env, tx) !in sh.slashed
         && Slashable(c, sh, Offender(c.env, tx)) != 0
  }

  // ----- One transaction -----

  predicate Gates(c: Ctx, sh: Shadow, tx: Tx) {
    && SignatureGate(c, tx) && HygieneGate(tx) && RedeemGate(c, sh, tx) && StructureGate(tx)
    && CommitGate(c, sh, tx) && MarketGate(c, sh, tx)
    && if tx.owner == [] then AutoGate(c, sh, tx) else OwnedGates(c, sh, tx)
  }

  predicate OwnedGates(c: Ctx, sh: Shadow, tx: Tx) {
    && FeeGate(c, sh, tx) && NonceGate(c, sh, tx)
    && BuyGate(c, sh, tx) && OwnerGate(c, sh, tx) && ExistsGate(c, sh, tx) && RevealGate(c, sh, tx)
    && StakeGate(c, sh, tx) && UnstakeGate(c, sh, tx) && ProofGate(c, sh, tx)
  }

  function NextBalance(c: Ctx, sh: Shadow, tx: Tx): u64 {
    var b := AfterFee(c, sh, tx);
    match tx.typ
    case FUND => Sub64(b, tx.listPrice)
    case BUY => Sub64(b, Price(c, sh, tx.domain))
    case STAKE => Sub64(b, tx.stakeAmount)
    case _ => b
  }

  function NextForSale(sh: Shadow, tx: Tx): map<Name, u64> {
    match tx.typ
    case LIST => sh.forSale[tx.domain := tx.listPrice]
    case BUY => sh.forSale[tx.domain := 0]
    case DELIST => sh.forSale[tx.domain := 0]
    case TRANSFER => sh.forSale[tx.domain := 0]
    case _ => sh.forSale
  }

  function NextOwner(sh: Shadow, tx: Tx): map<Name, Key> {
    match tx.typ
    case BUY => sh.owner[tx.domain := tx.owner]
    case TRANSFER => sh.owner[tx.domain := tx.recipient]
    case REVEAL => sh.owner[tx.domain := tx.recipient]
    case _ => sh.owner
  }

  function NextTxs(sh: Shadow, tx: Tx): map<i64, Tx> {
    if tx.typ.UPDATE? || tx.typ.RENEW? || tx.typ.REVOKE? || tx.typ.COMMIT? || tx.typ.REVEAL?
    then sh.txs[tx.tid := tx]
    else sh.txs
  }

  function NextStake(c: Ctx, sh: Shadow, tx: Tx): map<Key, u64> {
    match tx.typ
    case STAKE => sh.stake[tx.owner := Add64(Stake(c, sh, tx.owner), tx.stakeAmount)]
    case UNSTAKE => sh.stake[tx.owner := Sub64(Stake(c, sh, tx.owner), tx.stakeAmount)]
    case EQUIVOCATION_PROOF =>
      var k := Offender(c.env, tx);
      var slash := ComputeSlashAmount(Slashable(c, sh, k), SLASHING_PERCENT);
      sh.stake[k := if slash <= Stake(c, sh, k) then Stake(c, sh, k) - slash else 0]
    case _ => sh.stake
  }

  /** The part of a slash that the stake does not cover. */
  function Excess(c: Ctx, sh: Shadow, k: Key): u64 {
    var slash := ComputeSlashAmount(Slashable(c, sh, k), SLASHING_PERCENT);
    if slash <= Stake(c, sh, k) then 0 else slash - Stake(c, sh, k)
  }

  function NextPending(c: Ctx, sh: Shadow, tx: Tx): map<Key, u64> {
    match tx.typ
    case UNSTAKE => sh.pending[tx.owner := Add64(At(sh.pending, tx.owner), tx.stakeAmount)]
    case EQUIVOCATION_PROOF =>
      var k := Offender(c.env, tx);
      var x := Excess(c, sh, k);
      if x == 0 then sh.pending
      else sh.pending[k := if At(sh.pending, k) > x then At(sh.pending, k) - x else 0]
    case _ => sh.pending
  }

  function NextBurned(c: Ctx, sh: Shadow, tx: Tx): map<Key, u64> {
    if tx.typ.EQUIVOCATION_PROOF? && Excess(c, sh, Offender(c.env, tx)) > 0
    then
      var k := Offender(c.env, tx);
      sh.burned[k := Add64(At(sh.burned, k), Excess(c, sh, k))]
    else sh.burned
  }

  function NextCommits(c: Ctx, sh: Shadow, tx: Tx): set<Bytes> {
    match tx.typ
    case COMMIT => sh.commits + {tx.commitHash}
    case REVEAL => sh.commits + {RevealHash(c.env, tx)}
    case _ => sh.commits
  }

  function NextShadow(c: Ctx, sh: Shadow, tx: Tx): Shadow {
    var spent := if Redeems(tx) then sh.spent + {tx.redeems} else sh.spent;
    if tx.owner == [] then sh.(spent := spent)
    else Shadow(
      sh.nonce[tx.owner := Add64(Nonce(c, sh, tx.owner), 1)],
      sh.balance[tx.owner := NextBalance(c, sh, tx)],
      spent,
      NextForSale(sh, tx),
      if tx.typ.REVEAL? then sh.registered + {tx.domain} else sh.registered,
      NextOwner(sh, tx),
      NextTxs(sh, tx),
      NextStake(c, sh, tx),
      NextPending(c, sh, tx),
      NextBurned(c, sh, tx),
      if tx.typ.EQUIVOCATION_PROOF? then sh.slashed + {OffenseOf(c.env, tx)} else sh.slashed,
      NextCommits(c, sh, tx))
  }

  // ----- The whole list -----

  /** The shadow state after txs. */
  function ShadowRun(c: Ctx, txs: seq<Tx>): Shadow {
    if txs == [] then EmptyShadow()
    else NextShadow(c, ShadowRun(c, txs[..|txs| - 1]), txs[|txs| - 1])
  }

  predicate Accepts(c: Ctx, txs: seq<Tx>) {
    txs == [] || (Accepts(c, txs[..|txs| - 1]) && Gates(c, ShadowRun(c, txs[..|txs| - 1]), txs[|txs| - 1]))
  }

  /** Every prefix of an accepted list is accepted, and its next transaction passes the gates. */
  lemma {:induction false} AcceptsPrefix(c: Ctx, txs: seq<Tx>, n: nat)
    requires n <= |txs| && Accepts(c, txs)
    ensures Accepts(c, txs[..n])
    ensures n < |txs| ==> Gates(c, ShadowRun(c, txs[..n]), txs[n])
    decreases |txs|
  {
    hide Gates;
    hide NextShadow;
    if n == |txs| {
      assert txs[..n] == txs;
    } else if n < |txs| - 1 {
      var p := txs[..|txs| - 1];
      AcceptsPrefix(c, p, n);
      assert p[..n] == txs[..n];
    }
  }

  /**
   * Everything accepted is signed by its owner, except leader-signed revocations without an owner, which only a block
   * may hold.
   */
  lemma AcceptedAreSigned(c: Ctx, txs: seq<Tx>, i: nat)
    requires Accepts(c, txs) && i < |txs|
    ensures VerifySignature(c.env, if txs[i].owner == [] then c.leader else txs[i].owner, txs[i])
    ensures txs[i].owner == [] ==> txs[i].typ.REVOKE? && c.isBlock
  {
    AcceptsPrefix(c, txs, i);
  }

  method ValidateTransactions(c: Ctx, txs: seq<Tx>) returns (ok: bool)
    ensures ok == Accepts(c, txs)
  {
    hide Gates;
    hide NextShadow;
    var sh := EmptyShadow();
    for i := 0 to |txs|
      invariant sh == ShadowRun(c, txs[..i]) && Accepts(c, txs[..i])
    {
      assert txs[..i + 1][..i] == txs[..i];
      if !Gates(c, sh, txs[i]) {
        if Accepts(c, txs) { AcceptsPrefix(c, txs, i); }
        return false;
      }
      sh := NextShadow(c, sh, txs[i]);
    }
    assert txs[..|txs|] == txs;
    ok := true;
  }
}
