/** When transactions take effect, in plain slots (internal/blockchain/config.go:55-69, apply.go:85-350). */
module Periods {
  import opened Basics
  import opened Config
  import opened Transactions
  import opened Ledger
  import opened Encoding
  import Commits
  import opened DomainIndex
  import opened Application
  import opened Blocks
  import opened Ownership
  import opened Redemption

  /** The thirty days of grace are over; an expiry slot too close to the end of int64 has no grace period. */
  predicate GraceOver(slot: i64, expirySlot: i64, slotsPerDay: SlotsPerDay) {
    && slot >= expirySlot
    && (slot >= expirySlot + 30 * slotsPerDay || expirySlot + 30 * slotsPerDay >= 0x8000_0000_0000_0000)
  }

  lemma PhaseInSlots(slot: i64, expirySlot: i64, slotsPerDay: SlotsPerDay)
    ensures var p := GetDomainPhase(slot, expirySlot, slotsPerDay);
            && (p.Active? <==> slot < expirySlot)
            && (p.Purged? <==> GraceOver(slot, expirySlot, slotsPerDay))
  {
  }

  /** Before the expiry slot of the record. */
  predicate Running(x: Place, r: Tx) {
    x.slot < r.expirySlot
  }

  predicate Lapsed(x: Place, r: Tx) {
    GraceOver(x.slot, r.expirySlot, x.env.slotsPerDay)
  }

  /** The transaction that tx redeems was found and has the same name. */
  predicate RedeemsOwn(tx: Tx, found: Option<Tx>) {
    tx.redeems != 0 && found.Some? && found.value.domain == tx.domain
  }

  /** Whether tx may take effect, in terms of its name's record, owner and price, the slot and the balances. */
  predicate MayTakeEffect(x: Place, st: DomState, tx: Tx, found: Option<Tx>) {
    var record, owner := GetDomain(st.index, tx.domain), GetOwner(st.index, tx.domain);
    var price, isOwner := GetPrice(st.index, tx.domain), owner == Some(tx.owner);
    match tx.typ
    case REGISTER => (record.Some? ==> Lapsed(x, record.value)) && tx.redeems == 0
    case REVEAL =>
      && Commits.OvGet(st.commits, x.env.sha(CommitPreimage(tx.domain, tx.salt, tx.owner))).Some?
      && (record.Some? ==> Lapsed(x, record.value))
    case REVOKE =>
      && (tx.redeems == 0 || RedeemsOwn(tx, found))
      && if tx.owner == [] then record.Some? && !Running(x, record.value) else isOwner
    case UPDATE => isOwner && (record.Some? ==> Running(x, record.value)) && RedeemsOwn(tx, found)
    case RENEW => (record.Some? ==> !Lapsed(x, record.value)) && RedeemsOwn(tx, found)
    case LIST => record.Some? && Running(x, record.value) && isOwner
    case TRANSFER => record.Some? && Running(x, record.value) && isOwner
    case DELIST => record.Some? && Running(x, record.value) && isOwner && price > 0
    case BUY =>
      && record.Some? && Running(x, record.value) && 0 < price <= tx.listPrice
      && price <= BalanceOf(st.ledger, tx.owner) && tx.owner != (if owner.Some? then owner.value else [])
    case _ => true
  }

  lemma TakesEffectIff(x: Place, st: DomState, tx: Tx, found: Option<Tx>)
    ensures ApplyDomain(x, st, tx, found).outcome.Done? <==> MayTakeEffect(x, st, tx, found)
  {
    var record := GetDomain(st.index, tx.domain);
    if record.Some? { PhaseInSlots(x.slot, record.value.expirySlot, x.env.slotsPerDay); }
    hide GetDomainPhase;
    hide GraceOver;
    hide GetDomain;
    hide GetOwner;
    hide GetPrice;
  }

  /** The same for the transactions of a run. */
  lemma TookEffectIff(w: World, states: seq<State>, steps: seq<Step>, n: nat, i: nat)
    requires ValidRun(w, states, steps) && n < |steps| && i < |steps[n].block.txs|
    ensures |steps[n].founds| == |steps[n].block.txs|
    ensures TookEffect(w, states[n], steps[n], i) <==>
              MayTakeEffect(PlaceOf(w, steps[n].block), Before(w, states[n], steps[n], i), steps[n].block.txs[i],
                            steps[n].founds[i])
  {
    assert Transition(w, states[n], steps[n], states[n + 1]);
    assert |steps[n].founds| == |steps[n].block.txs|;
    hide Transition;
    TakesEffectIff(PlaceOf(w, steps[n].block), Before(w, states[n], steps[n], i), steps[n].block.txs[i],
                   steps[n].founds[i]);
    hide MayTakeEffect;
    hide ApplyDomain;
  }
}
