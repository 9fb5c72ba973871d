/**
 * The leader's and the validator's order of applying a block, on the same objects
 * (internal/network/node_leader.go:185-217, internal/blockchain/block.go:357-391).
 */
module Schedules {
  import opened Basics
  import opened Transactions
  import opened Ledger
  import opened Staking
  import Commits
  import opened DomainIndex
  import opened IndexObjects
  import opened Application
  import opened ApplyObjects
  import opened Blocks

  /** Every answer is one that GetTxByID could have given at that point. */
  ghost predicate Honest(x: Place, st: DomState, txs: seq<Tx>, founds: seq<Option<Tx>>) {
    && |founds| == |txs|
    && forall i :: 0 <= i < |txs| ==> Finds(DomainRun(x, st, txs[..i], founds[..i]).index, txs[i].redeems, founds[i])
  }

  /** No transaction so far has crashed. */
  ghost predicate CrashFree(x: Place, st: DomState, txs: seq<Tx>, founds: seq<Option<Tx>>)
    requires |founds| == |txs|
  {
    forall i :: 0 <= i < |txs| ==> !OutcomeAt(x, st, txs, founds, i).Crashed?
  }

  /** Transaction i would dereference a missing record if GetTxByID answered `found`. */
  ghost predicate CrashesAt(x: Place, st: DomState, txs: seq<Tx>, founds: seq<Option<Tx>>, i: nat, found: Option<Tx>)
    requires |founds| == i < |txs|
  {
    ApplyDomain(x, DomainRun(x, st, txs[..i], founds), txs[i], found).outcome.Crashed?
  }

  ghost predicate CrashesSomehow(x: Place, st: DomState, txs: seq<Tx>, founds: seq<Option<Tx>>, i: nat)
    requires |founds| == i < |txs|
  {
    exists found :: CrashesAt(x, st, txs, founds, i, found)
  }

  lemma HonestSnoc(x: Place, st: DomState, txs: seq<Tx>, founds: seq<Option<Tx>>, tx: Tx, found: Option<Tx>)
    requires Honest(x, st, txs, founds) && Finds(DomainRun(x, st, txs, founds).index, tx.redeems, found)
    ensures Honest(x, st, txs + [tx], founds + [found])
    ensures DomainRun(x, st, txs + [tx], founds + [found]) ==
            ApplyDomain(x, DomainRun(x, st, txs, founds), tx, found).state
  {
    hide ApplyDomain;
    hide Finds;
    var t, f, n := txs + [tx], founds + [found], |txs|;
    assert t[..n] == txs && f[..n] == founds;
    forall i | 0 <= i < |t| ensures Finds(DomainRun(x, st, t[..i], f[..i]).index, t[i].redeems, f[i]) {
      if i < n {
        assert t[..i] == txs[..i] && f[..i] == founds[..i];
      }
    }
  }

  lemma CrashFreeSnoc(x: Place, st: DomState, txs: seq<Tx>, founds: seq<Option<Tx>>, tx: Tx, found: Option<Tx>)
    requires |founds| == |txs| && CrashFree(x, st, txs, founds)
    requires !ApplyDomain(x, DomainRun(x, st, txs, founds), tx, found).outcome.Crashed?
    ensures CrashFree(x, st, txs + [tx], founds + [found])
  {
    hide ApplyDomain;
    var t, f, n := txs + [tx], founds + [found], |txs|;
    assert t[..n] == txs && f[..n] == founds;
    forall i | 0 <= i < |t| ensures !OutcomeAt(x, st, t, f, i).Crashed? {
      if i < n {
        assert t[..i] == txs[..i] && f[..i] == founds[..i];
        assert !OutcomeAt(x, st, txs, founds, i).Crashed?;
      }
    }
  }

  // ----- The loops -----

  method ApplyAllLedger(txs: seq<Tx>, ledger: BalanceLedger)
    modifies ledger
    ensures ledger.accounts == LedgerRun(old(ledger.accounts), txs)
  {
    hide ApplyLedger;
    for i := 0 to |txs|
      invariant ledger.accounts == LedgerRun(old(ledger.accounts), txs[..i])
    {
      assert txs[..i + 1][..i] == txs[..i];
      ApplyLedgerMutations(txs[i], ledger);
    }
    assert txs[..|txs|] == txs;
  }

  method SumFees(txs: seq<Tx>) returns (total: u64)
    ensures total == TotalFees(txs)
  {
    total := 0;
    for i := 0 to |txs|
      invariant total == TotalFees(txs[..i])
    {
      assert txs[..i + 1][..i] == txs[..i];
      total := Add64(total, txs[i].fee);
    }
    assert txs[..|txs|] == txs;
  }

  method CreditFees(txs: seq<Tx>, leader: Key, ledger: BalanceLedger)
    modifies ledger
    ensures ledger.accounts == WithFees(old(ledger.accounts), leader, TotalFees(txs))
  {
    var total := SumFees(txs);
    if total > 0 {
      ledger.Credit(leader, total);
    }
  }

  method ApplyAllStake(env: Env, txs: seq<Tx>, stakes: StakeMap, queue: UnstakeQueue, evidence: EvidenceSet, slot: i64)
    requires queue.Valid()
    modifies stakes, queue, queue.buf, evidence
    ensures queue.Valid() && (queue.buf == old(queue.buf) || fresh(queue.buf))
    ensures StakeView(stakes, queue, evidence) == StakeRun(env, old(StakeView(stakes, queue, evidence)), txs, slot)
  {
    hide ApplyStake;
    ghost var start := StakeView(stakes, queue, evidence);
    for i := 0 to |txs|
      invariant queue.Valid() && (queue.buf == old(queue.buf) || fresh(queue.buf))
      invariant StakeView(stakes, queue, evidence) == StakeRun(env, start, txs[..i], slot)
    {
      assert txs[..i + 1][..i] == txs[..i];
      ApplyStakeMutations(env, txs[i], stakes, queue, evidence, slot);
    }
    assert txs[..|txs|] == txs;
  }

  /** `now` is where the first i transactions lead, none of them crashing. */
  ghost predicate Reached(x: Place, start: DomState, txs: seq<Tx>, i: nat, founds: seq<Option<Tx>>, now: DomState)
    requires i <= |txs|
  {
    && Honest(x, start, txs[..i], founds)
    && now == DomainRun(x, start, txs[..i], founds)
    && CrashFree(x, start, txs[..i], founds)
  }

  lemma ReachedNext(x: Place, start: DomState, txs: seq<Tx>, i: nat, founds: seq<Option<Tx>>, now: DomState,
                    found: Option<Tx>)
    requires i < |txs| && Reached(x, start, txs, i, founds, now) && Finds(now.index, txs[i].redeems, found)
    ensures var r := ApplyDomain(x, now, txs[i], found);
            if r.outcome.Crashed? then CrashesAt(x, start, txs, founds, i, found) && r.state == now
            else Reached(x, start, txs, i + 1, founds + [found], r.state)
  {
    hide ApplyDomain;
    hide Finds;
    if ApplyDomain(x, now, txs[i], found).outcome.Crashed? {
      CrashChangesNothing(x, now, txs[i], found);
    } else {
      HonestSnoc(x, start, txs[..i], founds, txs[i], found);
      CrashFreeSnoc(x, start, txs[..i], founds, txs[i], found);
      assert txs[..i] + [txs[i]] == txs[..i + 1];
    }
  }

  /** A crash ends the whole computation. */
  method ApplyAllDomain(x: Place, txs: seq<Tx>, ledger: BalanceLedger, im: IndexOverlay, cs: Commits.CommitOverlay)
    returns (crashed: bool, ghost founds: seq<Option<Tx>>, ghost done: nat)
    requires im.Valid() && NamesUsed(txs, im.base.used)
    modifies ledger, im, cs
    ensures im.Valid()
    ensures done <= |txs| && Reached(x, old(DomView(ledger, im, cs)), txs, done, founds, DomView(ledger, im, cs))
    ensures !crashed ==> done == |txs|
    ensures crashed ==> done < |txs| && CrashesSomehow(x, old(DomView(ledger, im, cs)), txs, founds, done)
  {
    hide ApplyDomain;
    hide Finds;
    hide Holds;
    hide ViewOf;
    ghost var start := DomView(ledger, im, cs);
    founds, done := [], 0;
    for i := 0 to |txs|
      invariant done == i && im.Valid() && Reached(x, start, txs, i, founds, DomView(ledger, im, cs))
    {
      hide Reached;
      hide CrashesAt;
      ghost var now := DomView(ledger, im, cs);
      ghost var found: Option<Tx>;
      var outcome;
      outcome, found := ApplyDomainMutations(x, txs[i], ledger, im, cs);
      ReachedNext(x, start, txs, i, founds, now, found);
      if outcome == Crashed {
        assert CrashesAt(x, start, txs, founds, i, found);
        return true, founds, done;
      }
      founds, done := founds + [found], i + 1;
    }
    crashed := false;
  }

  lemma CrashChangesNothing(x: Place, st: DomState, tx: Tx, found: Option<Tx>)
    requires ApplyDomain(x, st, tx, found).outcome.Crashed?
    ensures ApplyDomain(x, st, tx, found).state == st
  {
  }

  // ----- The two orders -----

  /** Where phase B starts: after the nonces, debits and fees of the whole block. */
  function AfterPhaseA(start: DomState, txs: seq<Tx>, leader: Key): DomState {
    start.(ledger := WithFees(LedgerRun(start.ledger, txs), leader, TotalFees(txs)))
  }

  /** The leader: ledger and stake mutations interleaved, then the fees, then the domain mutations. */
  method LeaderApply(x: Place, leader: Key, txs: seq<Tx>, ledger: BalanceLedger, stakes: StakeMap, queue: UnstakeQueue,
                     evidence: EvidenceSet, im: IndexOverlay, cs: Commits.CommitOverlay)
    returns (crashed: bool, ghost founds: seq<Option<Tx>>)
    requires im.Valid() && queue.Valid() && NamesUsed(txs, im.base.used)
    modifies ledger, stakes, queue, queue.buf, evidence, im, cs
    ensures im.Valid() && queue.Valid()
    ensures StakeView(stakes, queue, evidence) == StakeRun(x.env, old(StakeView(stakes, queue, evidence)), txs, x.slot)
    ensures var start := AfterPhaseA(old(DomView(ledger, im, cs)), txs, leader);
            !crashed ==> Honest(x, start, txs, founds) && DomView(ledger, im, cs) == DomainRun(x, start, txs, founds)
  {
    ghost var start := DomView(ledger, im, cs);
    LeaderPhaseA(x, txs, ledger, stakes, queue, evidence, im);
    CreditFees(txs, leader, ledger);
    assert DomView(ledger, im, cs) == AfterPhaseA(start, txs, leader);
    ghost var done;
    crashed, founds, done := ApplyAllDomain(x, txs, ledger, im, cs);
    assert txs[..|txs|] == txs;
  }

  /** The interleaved loop gives the ledger and the stakes that two separate loops would. */
  method LeaderPhaseA(x: Place, txs: seq<Tx>, ledger: BalanceLedger, stakes: StakeMap, queue: UnstakeQueue,
                      evidence: EvidenceSet, ghost im: IndexOverlay)
    requires im.Valid() && queue.Valid()
    modifies ledger, stakes, queue, queue.buf, evidence
    ensures im.Valid() && im.View() == old(im.View()) && queue.Valid()
    ensures ledger.accounts == LedgerRun(old(ledger.accounts), txs)
    ensures StakeView(stakes, queue, evidence) == StakeRun(x.env, old(StakeView(stakes, queue, evidence)), txs, x.slot)
  {
    hide ApplyLedger;
    hide ApplyStake;
    hide Holds;
    hide ViewOf;
    ghost var a, k := ledger.accounts, StakeView(stakes, queue, evidence);
    for i := 0 to |txs|
      invariant queue.Valid() && (queue.buf == old(queue.buf) || fresh(queue.buf))
      invariant (ledger.accounts, StakeView(stakes, queue, evidence)) == Interleaved(x.env, a, k, txs[..i], x.slot)
    {
      assert txs[..i + 1][..i] == txs[..i];
      ApplyLedgerMutations(txs[i], ledger);
      ApplyStakeMutations(x.env, txs[i], stakes, queue, evidence, x.slot);
    }
    assert txs[..|txs|] == txs;
    InterleavingIsSequential(x.env, a, k, txs, x.slot);
  }

  /**
   * The validator: the ledger mutations, the fees, the domain mutations, and the stake mutations last.
   * `paid` is the ledger before the domain mutations, which is the one whose digest is compared.
   */
  method ValidatorApply(x: Place, leader: Key, txs: seq<Tx>, ledger: BalanceLedger, stakes: StakeMap,
                        queue: UnstakeQueue,
                        evidence: EvidenceSet, im: IndexOverlay, cs: Commits.CommitOverlay)
    returns (crashed: bool, paid: Accounts, ghost founds: seq<Option<Tx>>, ghost done: nat)
    requires im.Valid() && queue.Valid() && NamesUsed(txs, im.base.used)
    modifies ledger, stakes, queue, queue.buf, evidence, im, cs
    ensures im.Valid() && queue.Valid()
    ensures paid == AfterPhaseA(old(DomView(ledger, im, cs)), txs, leader).ledger
    ensures !crashed ==>
              StakeView(stakes, queue, evidence) ==
                StakeRun(x.env, old(StakeView(stakes, queue, evidence)), txs, x.slot)
    ensures var start := AfterPhaseA(old(DomView(ledger, im, cs)), txs, leader);
            && done <= |txs| && Reached(x, start, txs, done, founds, DomView(ledger, im, cs))
            && (!crashed ==> done == |txs|)
            && (crashed ==> done < |txs| && CrashesSomehow(x, start, txs, founds, done))
  {
    hide ApplyDomain;
    hide ApplyStake;
    hide ApplyLedger;
    hide Holds;
    hide ViewOf;
    hide Reached;
    hide CrashesSomehow;
    ghost var start, k := DomView(ledger, im, cs), StakeView(stakes, queue, evidence);
    ApplyAllLedger(txs, ledger);
    CreditFees(txs, leader, ledger);
    assert DomView(ledger, im, cs) == AfterPhaseA(start, txs, leader);
    paid := ledger.accounts;
    crashed, founds, done := ApplyAllDomain(x, txs, ledger, im, cs);
    if !crashed {
      ghost var d := DomView(ledger, im, cs);
      assert StakeView(stakes, queue, evidence) == k;
      ApplyAllStake(x.env, txs, stakes, queue, evidence, x.slot);
      assert DomView(ledger, im, cs) == d;
    }
  }

  // ----- The two orders agree -----

  /** At most one stored transaction carries the id. */
  ghost predicate Unambiguous(o: Overlay, id: i64) {
    && (forall d, e | d in o.journal && e in o.journal && o.journal[d].tx.Some? && o.journal[e].tx.Some? ::
          o.journal[d].tx.value.tid == id == o.journal[e].tx.value.tid ==> o.journal[d].tx == o.journal[e].tx)
    && (forall d, e | d in o.base.entries && e in o.base.entries ::
          o.base.entries[d].tx.tid == id == o.base.entries[e].tx.tid ==> o.base.entries[d].tx == o.base.entries[e].tx)
  }

  lemma FindsUnique(o: Overlay, id: i64, r: Option<Tx>, r': Option<Tx>)
    requires Unambiguous(o, id) && Finds(o, id, r) && Finds(o, id, r')
    ensures r == r'
  {
  }

  /** No transaction of the list looks up an ambiguous id. */
  ghost predicate Clear(x: Place, st: DomState, txs: seq<Tx>, founds: seq<Option<Tx>>)
    requires |founds| == |txs|
  {
    forall i :: 0 <= i < |txs| ==> Unambiguous(DomainRun(x, st, txs[..i], founds[..i]).index, txs[i].redeems)
  }

  lemma HonestPrefix(x: Place, st: DomState, txs: seq<Tx>, founds: seq<Option<Tx>>, n: nat)
    requires Honest(x, st, txs, founds) && n <= |txs|
    ensures Honest(x, st, txs[..n], founds[..n])
  {
    hide ApplyDomain;
    hide Finds;
    var t, f := txs[..n], founds[..n];
    forall i | 0 <= i < n ensures Finds(DomainRun(x, st, t[..i], f[..i]).index, t[i].redeems, f[i]) {
      assert t[..i] == txs[..i] && f[..i] == founds[..i];
    }
  }

  lemma ClearPrefix(x: Place, st: DomState, txs: seq<Tx>, founds: seq<Option<Tx>>, n: nat)
    requires |founds| == |txs| && Clear(x, st, txs, founds) && n <= |txs|
    ensures Clear(x, st, txs[..n], founds[..n])
  {
    hide ApplyDomain;
    hide Unambiguous;
    var t, f := txs[..n], founds[..n];
    forall i | 0 <= i < n ensures Unambiguous(DomainRun(x, st, t[..i], f[..i]).index, t[i].redeems) {
      assert t[..i] == txs[..i] && f[..i] == founds[..i];
    }
  }

  /** Two nodes look up the same transactions, whatever the iteration order of their maps. */
  lemma {:induction false} ReplicasAgree(x: Place, st: DomState, txs: seq<Tx>, founds: seq<Option<Tx>>,
                                         founds': seq<Option<Tx>>)
    requires Honest(x, st, txs, founds) && Honest(x, st, txs, founds') && Clear(x, st, txs, founds)
    ensures founds == founds'
  {
    hide ApplyDomain;
    hide Finds;
    hide Unambiguous;
    if txs == [] {
    } else {
      var n := |txs| - 1;
      HonestPrefix(x, st, txs, founds, n);
      HonestPrefix(x, st, txs, founds', n);
      ClearPrefix(x, st, txs, founds, n);
      ReplicasAgree(x, st, txs[..n], founds[..n], founds'[..n]);
      FindsUnique(DomainRun(x, st, txs[..n], founds[..n]).index, txs[n].redeems, founds[n], founds'[n]);
      assert founds == founds[..n] + [founds[n]] && founds' == founds'[..n] + [founds'[n]];
    }
  }

  /** The leader's result: one interleaved pass, the fees, then phase B. */
  ghost function LeaderResult(x: Place, leader: Key, d: DomState, k: StakeState, txs: seq<Tx>, founds: seq<Option<Tx>>)
    : (DomState, StakeState)
    requires |founds| == |txs|
  {
    var r := Interleaved(x.env, d.ledger, k, txs, x.slot);
    (DomainRun(x, d.(ledger := WithFees(r.0, leader, TotalFees(txs))), txs, founds), r.1)
  }

  /** The validator's result: the ledger pass, the fees, phase B, then the stake pass. */
  ghost function ValidatorResult(x: Place, leader: Key, d: DomState, k: StakeState, txs: seq<Tx>,
                                 founds: seq<Option<Tx>>)
    : (DomState, StakeState)
    requires |founds| == |txs|
  {
    (DomainRun(x, AfterPhaseA(d, txs, leader), txs, founds), StakeRun(x.env, k, txs, x.slot))
  }

  /**
   * From equal states, for any transaction list, accepted or not, and whatever GetTxByID answers, both orders end in
   * the same ledger, stake map, queue, evidence, commit overlay and index overlay.
   */
  lemma SchedulesAgree(x: Place, leader: Key, d: DomState, k: StakeState, txs: seq<Tx>, founds: seq<Option<Tx>>)
    requires |founds| == |txs|
    ensures LeaderResult(x, leader, d, k, txs, founds) == ValidatorResult(x, leader, d, k, txs, founds)
  {
    hide ApplyDomain;
    InterleavingIsSequential(x.env, d.ledger, k, txs, x.slot);
  }

  /**
   * So do a leader and a validator whose maps iterate in different orders, as long as no looked-up id is carried by two
   * different stored transactions.
   */
  lemma LeaderAndValidatorAgree(x: Place, leader: Key, d: DomState, k: StakeState, txs: seq<Tx>,
                                founds: seq<Option<Tx>>, founds': seq<Option<Tx>>)
    requires Honest(x, AfterPhaseA(d, txs, leader), txs, founds) && Honest(x, AfterPhaseA(d, txs, leader), txs, founds')
    requires Clear(x, AfterPhaseA(d, txs, leader), txs, founds)
    ensures LeaderResult(x, leader, d, k, txs, founds) == ValidatorResult(x, leader, d, k, txs, founds')
  {
    hide ApplyDomain;
    SchedulesAgree(x, leader, d, k, txs, founds);
    ReplicasAgree(x, AfterPhaseA(d, txs, leader), txs, founds, founds');
  }
}
