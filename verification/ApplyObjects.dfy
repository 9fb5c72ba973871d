/** The effects of transactions, as updates of the objects passed in (internal/blockchain/apply.go). */
module ApplyObjects {
  import opened Basics
  import opened Config
  import opened Transactions
  import opened Ledger
  import opened Staking
  import Commits
  import opened DomainIndex
  import opened IndexObjects
  import opened Validation
  import opened Application

  /** The map of punished offenses, which the source passes by reference. */
  class EvidenceSet {
    var keys: set<Offense>

    constructor (keys: set<Offense>)
      ensures this.keys == keys
    {
      this.keys := keys;
    }
  }

  /** The names that the list mentions are in use. */
  ghost predicate NamesUsed(txs: seq<Tx>, used: iset<Name>) {
    forall i :: 0 <= i < |txs| ==> txs[i].domain in used
  }

  method ApplyLedgerMutations(tx: Tx, ledger: BalanceLedger)
    modifies ledger
    ensures ledger.accounts == ApplyLedger(old(ledger.accounts), tx)
  {
    if tx.owner == [] {
      return;
    }
    ledger.IncrementNonce(tx.owner);
    if tx.fee > 0 {
      var ok := ledger.Debit(tx.owner, tx.fee);
    }
    if tx.typ.FUND? && tx.recipient != [] && tx.listPrice > 0 {
      var ok := ledger.Debit(tx.owner, tx.listPrice);
      if ok {
        ledger.Credit(tx.recipient, tx.listPrice);
      }
    }
    if tx.typ.STAKE? && tx.stakeAmount > 0 {
      var ok := ledger.Debit(tx.owner, tx.stakeAmount);
    }
  }

  ghost function StakeView(stakes: StakeMap, queue: UnstakeQueue, evidence: EvidenceSet): StakeState
    requires queue.Valid()
    reads stakes, queue, queue.buf, evidence
  {
    StakeState(stakes.entries, queue.Contents(), evidence.keys)
  }

  method SlashOffender(k: Key, stakes: StakeMap, queue: UnstakeQueue, ghost evidence: EvidenceSet)
    requires queue.Valid()
    modifies stakes, queue, queue.buf
    ensures queue.Valid() && queue.buf == old(queue.buf)
    ensures StakeView(stakes, queue, evidence) == Slash(old(StakeView(stakes, queue, evidence)), k)
  {
    var staked := stakes.GetStake(k);
    var pending := queue.GetPendingStake(k);
    var slash := ComputeSlashAmount(Add64(staked, pending), SLASHING_PERCENT);
    if slash <= staked {
      stakes.ReduceStake(k, slash);
    } else {
      stakes.ReduceStake(k, staked);
      var burned := queue.BurnPending(k, slash - staked);
    }
  }

  method ApplyStakeMutations(env: Env, tx: Tx, stakes: StakeMap, queue: UnstakeQueue, evidence: EvidenceSet, slot: i64)
    requires queue.Valid()
    modifies stakes, queue, queue.buf, evidence
    ensures queue.Valid() && (queue.buf == old(queue.buf) || fresh(queue.buf))
    ensures StakeView(stakes, queue, evidence) == ApplyStake(env, old(StakeView(stakes, queue, evidence)), tx, slot)
  {
    if tx.owner == [] {
      return;
    }
    match tx.typ {
      case STAKE =>
        stakes.AddStake(tx.owner, tx.stakeAmount);
      case UNSTAKE =>
        stakes.ReduceStake(tx.owner, tx.stakeAmount);
        queue.Enqueue(tx.owner, tx.stakeAmount, Add64(SlotNumber(slot), UNSTAKE_DELAY_SLOTS));
      case EQUIVOCATION_PROOF =>
        if tx.equivA == [] {
          return;
        }
        var blockA := env.decodeBlock(tx.equivA);
        if blockA.None? {
          return;
        }
        var offense := Offense(blockA.value.index, blockA.value.leader);
        if offense in evidence.keys {
          return;
        }
        SlashOffender(blockA.value.leader, stakes, queue, evidence);
        evidence.keys := evidence.keys + {offense};
      case _ =>
    }
  }

  // ----- Domain mutations -----

  ghost function DomView(ledger: BalanceLedger, im: IndexOverlay, cs: Commits.CommitOverlay): DomState
    requires im.Valid()
    reads ledger, im, im.base, im.base.tree, im.base.tree.repr, cs
  {
    DomState(ledger.accounts, im.View(), cs.View())
  }

  method Reveal(x: Place, tx: Tx, ledger: BalanceLedger, im: IndexOverlay, cs: Commits.CommitOverlay)
    returns (outcome: Outcome)
    requires im.Valid() && tx.domain in im.base.used
    modifies ledger, im, cs
    ensures im.Valid()
    ensures Applied(DomView(ledger, im, cs), outcome) == ApplyReveal(x, old(DomView(ledger, im, cs)), tx)
  {
    hide Holds;
    hide ViewOf;
    hide GetDomain;
    hide Added;
    hide OwnerSet;
    hide Marked;
    hide Commits.OvGet;
    hide Commits.OvConsume;
    var h := RevealHash(x.env, tx);
    var rec := cs.GetCommit(h);
    if rec.None? {
      return Refused;
    }
    var existing := im.GetDomain(tx.domain);
    if existing.Some? && !PhaseAt(x, existing.value).Purged? {
      return Refused;
    }
    im.Add(tx.domain, tx);
    im.SetOwner(tx.domain, tx.recipient);
    im.MarkAsSpent(tx.redeems);
    cs.ConsumeCommit(h);
    outcome := Done;
  }

  method Register(x: Place, tx: Tx, ledger: BalanceLedger, im: IndexOverlay, cs: Commits.CommitOverlay)
    returns (outcome: Outcome)
    requires im.Valid() && tx.domain in im.base.used
    modifies ledger, im, cs
    ensures im.Valid()
    ensures Applied(DomView(ledger, im, cs), outcome) == ApplyRegister(x, old(DomView(ledger, im, cs)), tx)
  {
    hide Holds;
    hide ViewOf;
    hide GetDomain;
    hide GetOwner;
    hide GetPrice;
    hide Added;
    hide OwnerSet;
    hide PriceSet;
    hide Marked;
    var existing := im.GetDomain(tx.domain);
    if existing.Some? && !PhaseAt(x, existing.value).Purged? {
      return Refused;
    }
    if tx.redeems != 0 {
      return Refused;
    }
    im.Add(tx.domain, tx);
    im.SetOwner(tx.domain, tx.owner);
    outcome := Done;
  }

  method Commit(x: Place, tx: Tx, ledger: BalanceLedger, im: IndexOverlay, cs: Commits.CommitOverlay)
    returns (outcome: Outcome)
    requires im.Valid() && tx.domain in im.base.used
    modifies ledger, im, cs
    ensures im.Valid()
    ensures Applied(DomView(ledger, im, cs), outcome) == ApplyCommit(x, old(DomView(ledger, im, cs)), tx)
  {
    hide Holds;
    hide ViewOf;
    hide GetDomain;
    hide GetOwner;
    hide GetPrice;
    hide Added;
    hide OwnerSet;
    hide PriceSet;
    hide Marked;
    hide Commits.OvAdd;
    cs.AddCommit(CommitOf(x, tx));
    outcome := Done;
  }

  method Revoke(x: Place, tx: Tx, ledger: BalanceLedger, im: IndexOverlay, cs: Commits.CommitOverlay)
    returns (outcome: Outcome, ghost found: Option<Tx>)
    requires im.Valid() && tx.domain in im.base.used
    modifies ledger, im, cs
    ensures im.Valid()
    ensures Finds(old(im.View()), tx.redeems, found)
    ensures Applied(DomView(ledger, im, cs), outcome) == ApplyRevoke(x, old(DomView(ledger, im, cs)), tx, found)
  {
    hide Holds;
    hide ViewOf;
    hide GetDomain;
    hide GetOwner;
    hide GetPrice;
    hide Added;
    hide OwnerSet;
    hide PriceSet;
    hide Marked;
    hide Finds;
    var owner := im.GetOwner(tx.domain);
    var target := im.GetTxByID(tx.redeems);
    found := target;
    if tx.owner != [] && owner != Some(tx.owner) {
      return Refused, found;
    }
    if tx.redeems != 0 && !Names(target, tx) {
      return Refused, found;
    }
    if tx.owner == [] {
      var existing := im.GetDomain(tx.domain);
      if existing.None? || PhaseAt(x, existing.value).Active? {
        return Refused, found;
      }
    }
    if tx.redeems != 0 {
      im.MarkAsSpent(tx.redeems);
    }
    im.Add(tx.domain, tx);
    if owner.Some? {
      im.SetOwner(tx.domain, owner.value);
    }
    outcome := Done;
  }

  method UpdateOrRenew(tx: Tx, renew: bool, ledger: BalanceLedger, im: IndexOverlay, cs: Commits.CommitOverlay)
    returns (outcome: Outcome, ghost found: Option<Tx>)
    requires im.Valid() && tx.domain in im.base.used
    modifies ledger, im, cs
    ensures im.Valid()
    ensures Finds(old(im.View()), tx.redeems, found)
    ensures Applied(DomView(ledger, im, cs), outcome) ==
            ApplyUpdateOrRenew(old(DomView(ledger, im, cs)), tx, found, renew)
  {
    hide Holds;
    hide ViewOf;
    hide GetDomain;
    hide GetOwner;
    hide GetPrice;
    hide Added;
    hide OwnerSet;
    hide PriceSet;
    hide Marked;
    hide Finds;
    var target := im.GetTxByID(tx.redeems);
    found := target;
    if tx.redeems == 0 || !Names(target, tx) {
      return Refused, found;
    }
    var price := im.GetListPrice(tx.domain);
    var owner := im.GetOwner(tx.domain);
    var current := im.GetDomain(tx.domain);
    im.MarkAsSpent(tx.redeems);
    im.Add(tx.domain, if renew then Renewed(tx, current) else tx);
    if price > 0 {
      im.SetListPrice(tx.domain, price);
    }
    if owner.Some? {
      im.SetOwner(tx.domain, owner.value);
    }
    outcome := Done;
  }

  method Update(x: Place, tx: Tx, ledger: BalanceLedger, im: IndexOverlay, cs: Commits.CommitOverlay)
    returns (outcome: Outcome, ghost found: Option<Tx>)
    requires im.Valid() && tx.domain in im.base.used
    modifies ledger, im, cs
    ensures im.Valid()
    ensures Finds(old(im.View()), tx.redeems, found)
    ensures Applied(DomView(ledger, im, cs), outcome) == ApplyUpdate(x, old(DomView(ledger, im, cs)), tx, found)
  {
    hide Holds;
    hide ViewOf;
    hide GetDomain;
    hide GetOwner;
    hide GetPrice;
    hide Added;
    hide OwnerSet;
    hide PriceSet;
    hide Marked;
    hide Finds;
    hide ApplyUpdateOrRenew;
    var owner := im.GetOwner(tx.domain);
    var existing := im.GetDomain(tx.domain);
    if owner != Some(tx.owner) || (existing.Some? && !PhaseAt(x, existing.value).Active?) {
      var target := im.GetTxByID(tx.redeems);
      return Refused, target;
    }
    outcome, found := UpdateOrRenew(tx, false, ledger, im, cs);
  }

  method Renew(x: Place, tx: Tx, ledger: BalanceLedger, im: IndexOverlay, cs: Commits.CommitOverlay)
    returns (outcome: Outcome, ghost found: Option<Tx>)
    requires im.Valid() && tx.domain in im.base.used
    modifies ledger, im, cs
    ensures im.Valid()
    ensures Finds(old(im.View()), tx.redeems, found)
    ensures Applied(DomView(ledger, im, cs), outcome) == ApplyRenew(x, old(DomView(ledger, im, cs)), tx, found)
  {
    hide Holds;
    hide ViewOf;
    hide GetDomain;
    hide GetOwner;
    hide GetPrice;
    hide Added;
    hide OwnerSet;
    hide PriceSet;
    hide Marked;
    hide Finds;
    hide ApplyUpdateOrRenew;
    var existing := im.GetDomain(tx.domain);
    if existing.Some? && PhaseAt(x, existing.value).Purged? {
      var target := im.GetTxByID(tx.redeems);
      return Refused, target;
    }
    outcome, found := UpdateOrRenew(tx, true, ledger, im, cs);
  }

  method Buy(tx: Tx, ledger: BalanceLedger, im: IndexOverlay, cs: Commits.CommitOverlay) returns (outcome: Outcome)
    requires im.Valid() && tx.domain in im.base.used
    modifies ledger, im, cs
    ensures im.Valid()
    ensures Applied(DomView(ledger, im, cs), outcome) == ApplyBuy(old(DomView(ledger, im, cs)), tx)
  {
    hide Holds;
    hide ViewOf;
    hide GetDomain;
    hide GetOwner;
    hide GetPrice;
    hide Added;
    hide OwnerSet;
    hide PriceSet;
    hide Marked;
    hide Credited;
    hide Debited;
    var price := im.GetListPrice(tx.domain);
    if price == 0 {
      return Refused;
    }
    var owner := im.GetOwner(tx.domain);
    var seller := if owner.Some? then owner.value else [];
    if tx.owner == seller || tx.listPrice < price {
      return Refused;
    }
    var ok := ledger.Debit(tx.owner, price);
    if !ok {
      assert ledger.accounts == old(ledger.accounts) by { DebitRefused(old(ledger.accounts), tx.owner, price); }
      return Refused;
    }
    ledger.Credit(seller, price);
    im.SetOwner(tx.domain, tx.owner);
    im.SetListPrice(tx.domain, 0);
    outcome := Done;
  }

  lemma DebitRefused(a: Accounts, k: Key, x: u64)
    requires !CanDebit(a, k, x)
    ensures Debited(a, k, x) == a
  {
  }

  method Market(x: Place, tx: Tx, ledger: BalanceLedger, im: IndexOverlay, cs: Commits.CommitOverlay)
    returns (outcome: Outcome)
    requires im.Valid() && tx.domain in im.base.used
    modifies ledger, im, cs
    ensures im.Valid()
    ensures Applied(DomView(ledger, im, cs), outcome) == ApplyMarket(x, old(DomView(ledger, im, cs)), tx)
  {
    hide Holds;
    hide ViewOf;
    hide GetDomain;
    hide GetOwner;
    hide GetPrice;
    hide Added;
    hide OwnerSet;
    hide PriceSet;
    hide Marked;
    hide ApplyBuy;
    var existing := im.GetDomain(tx.domain);
    if existing.None? {
      return Crashed;
    }
    if !PhaseAt(x, existing.value).Active? {
      return Refused;
    }
    if tx.typ.BUY? {
      outcome := Buy(tx, ledger, im, cs);
      return;
    }
    var owner := im.GetOwner(tx.domain);
    if owner != Some(tx.owner) {
      return Refused;
    }
    if tx.typ.TRANSFER? {
      im.SetOwner(tx.domain, tx.recipient);
      im.SetListPrice(tx.domain, 0);
    } else if tx.typ.LIST? {
      im.SetListPrice(tx.domain, tx.listPrice);
    } else {
      var price := im.GetListPrice(tx.domain);
      if price == 0 {
        return Refused;
      }
      im.SetListPrice(tx.domain, 0);
    }
    outcome := Done;
  }

  /** `found` is what GetTxByID answered, or could have answered where the code does not ask. */
  method ApplyDomainMutations(x: Place, tx: Tx, ledger: BalanceLedger, im: IndexOverlay, cs: Commits.CommitOverlay)
    returns (outcome: Outcome, ghost found: Option<Tx>)
    requires im.Valid() && tx.domain in im.base.used
    modifies ledger, im, cs
    ensures im.Valid()
    ensures Finds(old(im.View()), tx.redeems, found)
    ensures Applied(DomView(ledger, im, cs), outcome) == ApplyDomain(x, old(DomView(ledger, im, cs)), tx, found)
  {
    hide Holds;
    hide ViewOf;
    hide Finds;
    hide ApplyRegister;
    hide ApplyCommit;
    hide ApplyReveal;
    hide ApplyRevoke;
    hide ApplyUpdate;
    hide ApplyRenew;
    hide ApplyMarket;
    var target := im.GetTxByID(tx.redeems);
    found := target;
    match tx.typ {
      case REGISTER => outcome := Register(x, tx, ledger, im, cs);
      case COMMIT => outcome := Commit(x, tx, ledger, im, cs);
      case REVEAL => outcome := Reveal(x, tx, ledger, im, cs);
      case REVOKE => outcome, found := Revoke(x, tx, ledger, im, cs);
      case UPDATE => outcome, found := Update(x, tx, ledger, im, cs);
      case RENEW => outcome, found := Renew(x, tx, ledger, im, cs);
      case LIST => outcome := Market(x, tx, ledger, im, cs);
      case BUY => outcome := Market(x, tx, ledger, im, cs);
      case TRANSFER => outcome := Market(x, tx, ledger, im, cs);
      case DELIST => outcome := Market(x, tx, ledger, im, cs);
      case _ => outcome := Done;
    }
  }
}
