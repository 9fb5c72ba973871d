/** The DNS records of a name over whole runs: who can change them, and that a renewal does not. */
module NameRecords {
  import opened Basics
  import opened Transactions
  import opened DomainIndex
  import opened Validation
  import opened Application
  import opened Blocks
  import opened DomainSafety
  import opened Ownership
  import opened Redemption
  import opened Periods

  /** The records that a name resolves to; none without a registration. */
  function RecordsOf(o: Overlay, d: Name): seq<Record> {
    if GetDomain(o, d).Some? then GetDomain(o, d).value.records else []
  }

  // ----- One transaction -----

  /** The owner replaces the records while the registration is active. */
  predicate Updated(x: Place, before: Overlay, tx: Tx) {
    && tx.typ.UPDATE? && GetOwner(before, tx.domain) == Some(tx.owner)
    && (GetDomain(before, tx.domain).Some? ==> x.slot < GetDomain(before, tx.domain).value.expirySlot)
  }

  /** The owner gives the registration up, or the leader does once it has expired. */
  predicate Revoked(x: Place, before: Overlay, tx: Tx) {
    && tx.typ.REVOKE?
    && if tx.owner != [] then GetOwner(before, tx.domain) == Some(tx.owner)
       else GetDomain(before, tx.domain).Some? && x.slot >= GetDomain(before, tx.domain).value.expirySlot
  }

  /** The name is registered anew after its grace period. */
  predicate TakenOver(x: Place, before: Overlay, tx: Tx) {
    && tx.typ.REVEAL?
    && (GetDomain(before, tx.domain).Some? ==> Lapsed(x, GetDomain(before, tx.domain).value))
  }

  /** The ways in which a transaction may put its own records in the place of others. */
  predicate Replaces(x: Place, before: Overlay, tx: Tx, after: Overlay) {
    && RecordsOf(after, tx.domain) == tx.records
    && (Updated(x, before, tx) || Revoked(x, before, tx) || TakenOver(x, before, tx))
  }

  /** A renewal keeps the records in force and installs its own id and expiry slot. */
  lemma RenewKeepsRecords(x: Place, st: DomState, tx: Tx, found: Option<Tx>)
    requires tx.typ.RENEW? && ApplyDomain(x, st, tx, found).outcome.Done?
    ensures var o := ApplyDomain(x, st, tx, found).state.index;
            && GetDomain(o, tx.domain).Some?
            && GetDomain(o, tx.domain).value.tid == tx.tid
            && GetDomain(o, tx.domain).value.expirySlot == tx.expirySlot
            && RecordsOf(o, tx.domain) ==
                 if RecordsOf(st.index, tx.domain) != [] then RecordsOf(st.index, tx.domain) else tx.records
  {
    StepEffect(x, st, tx, found, tx.domain);
    hide ApplyDomain;
    hide GetDomain;
    hide GetOwner;
    hide GetPrice;
  }

  lemma EffectiveTerms(x: Place, st: DomState, tx: Tx, found: Option<Tx>)
    requires tx.typ.UPDATE? || tx.typ.REVOKE? || tx.typ.REVEAL?
    requires ApplyDomain(x, st, tx, found).outcome.Done?
    ensures Updated(x, st.index, tx) || Revoked(x, st.index, tx) || TakenOver(x, st.index, tx)
  {
    TakesEffectIff(x, st, tx, found);
    hide ApplyDomain;
    hide Lapsed;
    hide GetDomain;
    hide GetOwner;
    hide GetPrice;
  }

  /** The records of a name change only as its owner, its expiry or its purge allows. */
  lemma RecordsChange(x: Place, st: DomState, tx: Tx, found: Option<Tx>, d: Name)
    requires !tx.typ.REGISTER? && RecordsOf(st.index, d) != []
    requires RecordsOf(ApplyDomain(x, st, tx, found).state.index, d) != RecordsOf(st.index, d)
    ensures tx.domain == d && ApplyDomain(x, st, tx, found).outcome.Done?
    ensures Replaces(x, st.index, tx, ApplyDomain(x, st, tx, found).state.index)
  {
    StepEffect(x, st, tx, found, d);
    if tx.typ.RENEW? && ApplyDomain(x, st, tx, found).outcome.Done? && tx.domain == d {
      RenewKeepsRecords(x, st, tx, found);
    }
    if tx.typ.UPDATE? || tx.typ.REVOKE? || tx.typ.REVEAL? {
      if ApplyDomain(x, st, tx, found).outcome.Done? { EffectiveTerms(x, st, tx, found); }
    }
    hide ApplyDomain;
    hide GetDomain;
    hide GetOwner;
    hide GetPrice;
    hide Updated;
    hide Revoked;
    hide TakenOver;
  }

  // ----- One block -----

  lemma {:induction false} FirstReplacement(w: World, s: State, st: Step, d: Name, r: seq<Record>, n: nat)
    returns (j: nat)
    requires |st.founds| == |st.block.txs| && n <= |st.block.txs|
    requires RecordsOf(Before(w, s, st, 0).index, d) == r && RecordsOf(Before(w, s, st, n).index, d) != r
    ensures j < n && RecordsOf(Before(w, s, st, j).index, d) == r
    ensures RecordsOf(Before(w, s, st, j + 1).index, d) != r
  {
    hide Before;
    hide RecordsOf;
    if RecordsOf(Before(w, s, st, n - 1).index, d) == r {
      j := n - 1;
    } else {
      j := FirstReplacement(w, s, st, d, r, n - 1);
    }
  }

  /** The records of d in a state of a run. */
  function RecordsIn(s: State, d: Name): seq<Record> {
    if IxDomain(s.index, d).Some? then IxDomain(s.index, d).value.records else []
  }

  /**
   * Over any run: if a name has records before block n and other ones after it, then a transaction of block n that took
   * effect replaced them, and it was an UPDATE by the owner before the expiry slot, a REVOKE by the owner or, once
   * expired, by the leader, or a REVEAL after the purge slot.
   */
  lemma RunRecords(w: World, states: seq<State>, steps: seq<Step>, n: nat, d: Name) returns (i: nat)
    requires ValidRun(w, states, steps) && n < |steps|
    requires RecordsIn(states[n], d) != [] && RecordsIn(states[n + 1], d) != RecordsIn(states[n], d)
    ensures |steps[n].founds| == |steps[n].block.txs| && i < |steps[n].block.txs|
    ensures TookEffect(w, states[n], steps[n], i) && steps[n].block.txs[i].domain == d
    ensures RecordsOf(Before(w, states[n], steps[n], i).index, d) == RecordsIn(states[n], d)
    ensures Replaces(PlaceOf(w, steps[n].block), Before(w, states[n], steps[n], i).index, steps[n].block.txs[i],
                     Before(w, states[n], steps[n], i + 1).index)
  {
    assert Transition(w, states[n], steps[n], states[n + 1]);
    i := BlockRecords(w, states[n], steps[n], states[n + 1], d);
  }

  lemma BlockRecords(w: World, s: State, st: Step, s': State, d: Name) returns (i: nat)
    requires Transition(w, s, st, s') && RecordsIn(s, d) != [] && RecordsIn(s', d) != RecordsIn(s, d)
    ensures |st.founds| == |st.block.txs| && i < |st.block.txs|
    ensures TookEffect(w, s, st, i) && st.block.txs[i].domain == d
    ensures RecordsOf(Before(w, s, st, i).index, d) == RecordsIn(s, d)
    ensures Replaces(PlaceOf(w, st.block), Before(w, s, st, i).index, st.block.txs[i], Before(w, s, st, i + 1).index)
  {
    BlockReads(w, s, st, s', d);
    BlockMatches(w, s, st, s');
    assert |st.founds| == |st.block.txs|;
    hide Transition;
    hide ApplyDomain;
    hide GetDomain;
    hide GetOwner;
    hide Accepts;
    hide Replaces;
    var x, txs := PlaceOf(w, st.block), st.block.txs;
    i := FirstReplacement(w, s, st, d, RecordsIn(s, d), |txs|);
    NotRegister(ContextOf(w, s, st.block, st.lookup), txs, i);
    BeforeStep(w, s, st, i);
    RecordsChange(x, Before(w, s, st, i), txs[i], st.founds[i], d);
  }

  /** Every effective RENEW of a run keeps the records in force. */
  lemma RunRenewals(w: World, states: seq<State>, steps: seq<Step>, n: nat, i: nat)
    requires ValidRun(w, states, steps) && n < |steps| && i < |steps[n].block.txs|
    requires |steps[n].founds| == |steps[n].block.txs| && TookEffect(w, states[n], steps[n], i)
    requires steps[n].block.txs[i].typ.RENEW?
    ensures var tx, o := steps[n].block.txs[i], Before(w, states[n], steps[n], i).index;
            var o' := Before(w, states[n], steps[n], i + 1).index;
            && IsRegistryKey(w.env, tx.owner)
            && GetDomain(o', tx.domain).Some? && GetDomain(o', tx.domain).value.tid == tx.tid
            && GetDomain(o', tx.domain).value.expirySlot == tx.expirySlot
            && (RecordsOf(o, tx.domain) != [] ==> RecordsOf(o', tx.domain) == RecordsOf(o, tx.domain))
  {
    hide Transition;
    assert Transition(w, states[n], steps[n], states[n + 1]);
    BlockMatches(w, states[n], steps[n], states[n + 1]);
    var c := ContextOf(w, states[n], steps[n].block, steps[n].lookup);
    RenewByRegistry(c, steps[n].block.txs, i);
    hide Accepts;
    BeforeStep(w, states[n], steps[n], i);
    RenewKeepsRecords(PlaceOf(w, steps[n].block), Before(w, states[n], steps[n], i), steps[n].block.txs[i],
                      steps[n].founds[i]);
    hide ApplyDomain;
    hide GetDomain;
  }

  lemma RenewByRegistry(c: Ctx, txs: seq<Tx>, i: nat)
    requires Accepts(c, txs) && i < |txs| && txs[i].typ.RENEW?
    ensures IsRegistryKey(c.env, txs[i].owner)
  {
    AcceptsPrefix(c, txs, i);
  }
}
