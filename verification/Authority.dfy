/** Who may do what, over whole runs: registries, owners and leaders. */
module Authority {
  import opened Basics
  import opened Transactions
  import opened DomainIndex
  import opened Validation
  import opened Application
  import opened Blocks
  import opened ShadowLedger
  import opened DomainSafety
  import opened Ownership
  import opened Redemption
  import opened NameRecords
  import opened AccountFlows

  /** Only registries commit, register, renew and pay out; the rest of a run's transactions cost their owner a fee. */
  predicate Permitted(w: World, tx: Tx) {
    && (tx.typ.COMMIT? || tx.typ.REVEAL? || tx.typ.RENEW? || tx.typ.FUND? ==> tx.owner in w.env.registries)
    && (tx.owner == [] ==> tx.typ.REVOKE?)
    && (tx.owner != [] ==> tx.fee >= 1)
    && |tx.signature| == 64
  }

  lemma GatesPermit(w: World, s: State, st: Step, sh: Shadow, tx: Tx)
    requires Gates(ContextOf(w, s, st.block, st.lookup), sh, tx)
    ensures Permitted(w, tx) && (tx.typ.LIST? ==> tx.listPrice > 0)
    ensures (tx.typ.UPDATE? || tx.typ.RENEW?) ==> tx.records != []
    ensures w.env.ecdsaOk(if tx.owner == [] then st.block.leader else tx.owner, tx)
  {
    hide RevealHash;
  }

  /** Everything in a run is permitted, and signed by its owner or, without one, by the leader of its block. */
  lemma RunPermitted(w: World, states: seq<State>, steps: seq<Step>, n: nat, i: nat)
    requires ValidRun(w, states, steps) && n < |steps| && i < |steps[n].block.txs|
    ensures var tx := steps[n].block.txs[i];
            Permitted(w, tx) && w.env.ecdsaOk(if tx.owner == [] then steps[n].block.leader else tx.owner, tx)
  {
    assert Transition(w, states[n], steps[n], states[n + 1]);
    BlockMatches(w, states[n], steps[n], states[n + 1]);
    hide Transition;
    hide Gates;
    hide Permitted;
    hide Matches;
    var c := ContextOf(w, states[n], steps[n].block, steps[n].lookup);
    AcceptsPrefix(c, steps[n].block.txs, i);
    GatesPermit(w, states[n], steps[n], ShadowRun(c, steps[n].block.txs[..i]), steps[n].block.txs[i]);
  }

  // ----- What effective transactions leave -----

  lemma BlockGates(w: World, s: State, st: Step, s': State, i: nat)
    requires Transition(w, s, st, s') && i < |st.block.txs|
    ensures |st.founds| == |st.block.txs|
    ensures st.block.txs[i].typ.LIST? ==> st.block.txs[i].listPrice > 0
    ensures st.block.txs[i].typ.UPDATE? ==> st.block.txs[i].records != []
  {
    BlockMatches(w, s, st, s');
    assert |st.founds| == |st.block.txs|;
    hide Transition;
    hide Gates;
    hide Matches;
    var c := ContextOf(w, s, st.block, st.lookup);
    AcceptsPrefix(c, st.block.txs, i);
    GatesPermit(w, s, st, ShadowRun(c, st.block.txs[..i]), st.block.txs[i]);
  }

  /** A LIST puts the name up for sale, a DELIST or a change of hands takes it off, and an UPDATE leaves records. */
  predicate OwnersWish(tx: Tx, o: Overlay) {
    && (tx.typ.LIST? ==> IsForSale(o, tx.domain))
    && (tx.typ.DELIST? || tx.typ.BUY? || tx.typ.TRANSFER? ==> !IsForSale(o, tx.domain))
    && (tx.typ.UPDATE? ==> RecordsOf(o, tx.domain) == tx.records != [])
  }

  lemma WishGranted(x: Place, st: DomState, tx: Tx, found: Option<Tx>)
    requires ApplyDomain(x, st, tx, found).outcome.Done?
    requires (tx.typ.LIST? ==> tx.listPrice > 0) && (tx.typ.UPDATE? ==> tx.records != [])
    ensures OwnersWish(tx, ApplyDomain(x, st, tx, found).state.index)
  {
    StepEffect(x, st, tx, found, tx.domain);
    hide ApplyDomain;
    hide GetDomain;
    hide GetOwner;
    hide GetPrice;
  }

  /** So it is with every transaction of an accepted block that takes effect. */
  lemma EffectsOfOwner(w: World, s: State, st: Step, s': State, i: nat)
    requires Transition(w, s, st, s') && i < |st.block.txs|
    ensures |st.founds| == |st.block.txs|
    ensures TookEffect(w, s, st, i) ==> OwnersWish(st.block.txs[i], Before(w, s, st, i + 1).index)
  {
    BlockGates(w, s, st, s', i);
    hide Transition;
    hide ApplyDomain;
    hide OwnersWish;
    BeforeStep(w, s, st, i);
    if TookEffect(w, s, st, i) {
      WishGranted(PlaceOf(w, st.block), Before(w, s, st, i), st.block.txs[i], st.founds[i]);
    }
  }

  // ----- New names -----

  /** The transaction at this position is a registry's REVEAL of d, made out to the owner that d has after it. */
  ghost predicate Registers(w: World, s: State, st: Step, i: nat, d: Name) {
    && |st.founds| == |st.block.txs| && i < |st.block.txs| && TookEffect(w, s, st, i)
    && (var tx := st.block.txs[i];
        && tx.typ.REVEAL? && tx.domain == d && tx.owner in w.env.registries && tx.recipient != []
        && GetOwner(Before(w, s, st, i + 1).index, d) == Some(tx.recipient))
  }

  lemma {:induction false} FirstRecord(w: World, s: State, st: Step, d: Name, n: nat) returns (j: nat)
    requires |st.founds| == |st.block.txs| && n <= |st.block.txs|
    requires GetDomain(Before(w, s, st, 0).index, d).None? && GetDomain(Before(w, s, st, n).index, d).Some?
    ensures j < n && GetDomain(Before(w, s, st, j).index, d).None?
    ensures GetDomain(Before(w, s, st, j + 1).index, d).Some?
  {
    hide Before;
    hide GetDomain;
    if GetDomain(Before(w, s, st, n - 1).index, d).None? {
      j := n - 1;
    } else {
      j := FirstRecord(w, s, st, d, n - 1);
    }
  }

  /** Nothing but a REVEAL gives a record to a name that has none. */
  lemma OnlyRevealRecords(w: World, s: State, st: Step, s': State, d: Name, i: nat)
    requires Transition(w, s, st, s') && |st.founds| == |st.block.txs| && i < |st.block.txs|
    requires GetDomain(Before(w, s, st, i).index, d).None? && GetDomain(Before(w, s, st, i + 1).index, d).Some?
    ensures var tx := st.block.txs[i];
            && tx.typ.REVEAL? && tx.domain == d && TookEffect(w, s, st, i)
            && GetOwner(Before(w, s, st, i + 1).index, d) == Some(tx.recipient)
  {
    BlockMatches(w, s, st, s');
    hide Transition;
    hide ApplyDomain;
    hide GetDomain;
    hide GetOwner;
    hide GetPrice;
    hide Accepts;
    hide Matches;
    var x, c, txs := PlaceOf(w, st.block), ContextOf(w, s, st.block, st.lookup), st.block.txs;
    var mid, tx := Before(w, s, st, i), txs[i];
    BeforeStep(w, s, st, i);
    StepEffect(x, mid, tx, st.founds[i], d);
    NotRegister(c, txs, i);
    assert tx.domain == d && TookEffect(w, s, st, i);
    if tx.typ.UPDATE? || tx.typ.RENEW? || tx.typ.REVOKE? {
      if tx.owner == [] {
        OnlyRevocations(c, txs, i);
        AutoRevokeNeedsRecord(x, mid, tx, st.founds[i]);
      } else {
        TargetIsRecorded(c, x, StartB(s, st.block), txs, st.founds, i);
      }
    }
  }

  lemma OnlyRevocations(c: Ctx, txs: seq<Tx>, i: nat)
    requires Accepts(c, txs) && i < |txs| && txs[i].owner == []
    ensures txs[i].typ.REVOKE?
  {
    AcceptsPrefix(c, txs, i);
    PartyGates(c, ShadowRun(c, txs[..i]), txs[i]);
    hide Gates;
  }

  /** Over any run a name enters the index only by an effective REVEAL of a registry, which names its first owner. */
  lemma NamesComeFromRegistries(w: World, states: seq<State>, steps: seq<Step>, n: nat, d: Name) returns (i: nat)
    requires ValidRun(w, states, steps) && n < |steps|
    requires IxDomain(states[n].index, d).None? && IxDomain(states[n + 1].index, d).Some?
    ensures Registers(w, states[n], steps[n], i, d)
  {
    assert Transition(w, states[n], steps[n], states[n + 1]);
    i := BlockRegistration(w, states[n], steps[n], states[n + 1], d);
  }

  lemma BlockRegistration(w: World, s: State, st: Step, s': State, d: Name) returns (i: nat)
    requires Transition(w, s, st, s') && IxDomain(s.index, d).None? && IxDomain(s'.index, d).Some?
    ensures Registers(w, s, st, i, d)
  {
    BlockReads(w, s, st, s', d);
    BlockMatches(w, s, st, s');
    assert |st.founds| == |st.block.txs|;
    var c := ContextOf(w, s, st.block, st.lookup);
    i := FirstRecord(w, s, st, d, |st.block.txs|);
    OnlyRevealRecords(w, s, st, s', d, i);
    hide Transition;
    hide Gates;
    hide Matches;
    hide GetDomain;
    hide GetOwner;
    hide TookEffect;
    AcceptsPrefix(c, st.block.txs, i);
    GatesPermit(w, s, st, ShadowRun(c, st.block.txs[..i]), st.block.txs[i]);
    PartyGates(c, ShadowRun(c, st.block.txs[..i]), st.block.txs[i]);
  }

  // ----- Payments -----

  /** Coins reach an account by FUND only from a registry. */
  lemma {:induction false} FundsComeFromRegistries(c: Ctx, txs: seq<Tx>, k: Key) returns (i: nat)
    requires Accepts(c, txs) && Received(txs, k) > 0
    ensures i < |txs| && txs[i].typ.FUND? && txs[i].recipient == k && txs[i].owner in c.env.registries
    ensures txs[i].listPrice > 0
  {
    hide Gates;
    hide NextShadow;
    var n := |txs| - 1;
    if Inflow(txs[n], k) > 0 {
      FundGate(c, ShadowRun(c, txs[..n]), txs[n]);
      i := n;
    } else {
      i := FundsComeFromRegistries(c, txs[..n], k);
    }
  }

  lemma FundGate(c: Ctx, sh: Shadow, tx: Tx)
    requires Gates(c, sh, tx) && tx.typ.FUND? && tx.owner != []
    ensures tx.owner in c.env.registries
  {
  }
}
