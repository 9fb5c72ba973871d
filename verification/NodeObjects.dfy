/**
 * A node takes over an accepted block (internal/network/node_helper.go:27-66): the block is applied to
 * staging copies, and the copies replace the node's state only when it is accepted.
 */
module NodeObjects {
  import opened Basics
  import opened Transactions
  import opened Ledger
  import opened Staking
  import Commits
  import opened DomainIndex
  import opened IndexObjects
  import opened Validation
  import opened Application
  import opened ApplyObjects
  import opened Blocks
  import opened DomainSafety
  import opened Schedules

  class Node {
    var ledger: BalanceLedger
    var index: IndexManager
    var commits: Commits.CommitStore
    var stakes: StakeMap
    var queue: UnstakeQueue
    var evidence: EvidenceSet
    var tip: Tip

    constructor (ledger: BalanceLedger, index: IndexManager, commits: Commits.CommitStore, stakes: StakeMap,
                 queue: UnstakeQueue, evidence: EvidenceSet, tip: Tip)
      requires index.Valid() && queue.Valid()
      ensures Valid()
      ensures View() ==
              State(ledger.accounts, index.View(), commits.pending, stakes.entries, queue.Contents(), evidence.keys,
                    tip)
    {
      this.ledger, this.index, this.commits, this.stakes := ledger, index, commits, stakes;
      this.queue, this.evidence, this.tip := queue, evidence, tip;
    }

    ghost predicate Valid()
      reads this, index, index.tree, index.tree.repr, queue
    {
      index.Valid() && queue.Valid()
    }

    ghost function View(): State
      requires Valid()
      reads this, ledger, index, index.tree, index.tree.repr, commits, stakes, queue, queue.buf, evidence
    {
      State(ledger.accounts, index.View(), commits.pending, stakes.entries, queue.Contents(), evidence.keys, tip)
    }

    /** Some check of block validation fails. */
    static ghost predicate Refuses(w: World, s: State, st: Step) {
      || !HeaderOk(w, s, st.block)
      || !PurgesPresent(st.block.txs, w.purgeable(s.index, st.block.slot))
      || !Accepts(ContextOf(w, s, st.block, st.lookup), st.block.txs)
      || (|st.founds| == |st.block.txs| && !HashesOk(w, s, st))
    }

    /** A block that fails any check leaves the node as it was; any other is a transition of its state. */
    method AddBlock(w: World, b: Block) returns (ok: bool, ghost st: Step)
      requires Valid() && NamesUsed(b.txs, index.used)
      modifies this, index, index.tree, index.tree.repr, commits
      ensures Valid() && st.block == b
      ensures ok ==> Transition(w, old(View()), st, View())
      ensures !ok ==> View() == old(View()) && Refuses(w, old(View()), st)
    {
      hide Holds;
      hide ViewOf;
      hide Transition;
      hide Refuses;
      hide Accepts;
      hide NoCrash;
      hide HeaderOk;
      hide PurgesPresent;
      hide HashesOk;
      hide NextState;
      hide PhaseB;
      hide StakePhase;
      hide Committed;
      hide Commits.Flushed;
      hide ContextOf;
      hide PhaseA;
      ghost var s := View();
      var c;
      ok, c := Check(w, b);
      if !ok {
        st := Step(b, c.lookup, []);
        RefusedBefore(w, s, st);
        return;
      }
      var ledger', stakes', queue', evidence', im, cs, paid;
      ghost var founds;
      ledger', stakes', queue', evidence', im, cs, paid, founds := Stage(w, b, c);
      st := Step(b, c.lookup, founds);
      ok := CompareHashes(w, b, paid, stakes', queue', im, cs, s, st);
      if !ok {
        RefusedAfter(w, s, st);
        return;
      }
      Promote(b, ledger', stakes', queue', evidence', im, cs);
      NextStateIs(w, s, st);
      Passed(w, s, st);
    }

    static lemma RefusedBefore(w: World, s: State, st: Step)
      requires || !HeaderOk(w, s, st.block)
               || !PurgesPresent(st.block.txs, w.purgeable(s.index, st.block.slot))
               || !Accepts(ContextOf(w, s, st.block, st.lookup), st.block.txs)
      ensures Refuses(w, s, st)
    {
      hide HeaderOk;
      hide PurgesPresent;
      hide Accepts;
    }

    static lemma RefusedAfter(w: World, s: State, st: Step)
      requires |st.founds| == |st.block.txs| && !HashesOk(w, s, st)
      ensures Refuses(w, s, st)
    {
      hide HashesOk;
    }

    static lemma Passed(w: World, s: State, st: Step)
      requires |st.founds| == |st.block.txs| && HeaderOk(w, s, st.block)
      requires PurgesPresent(st.block.txs, w.purgeable(s.index, st.block.slot))
      requires Accepts(ContextOf(w, s, st.block, st.lookup), st.block.txs) && NoCrash(w, s, st) && HashesOk(w, s, st)
      ensures Transition(w, s, st, NextState(w, s, st))
    {
      hide HeaderOk;
      hide PurgesPresent;
      hide Accepts;
      hide NoCrash;
      hide HashesOk;
      hide NextState;
    }

    /** Everything that is checked before the block is applied. */
    method Check(w: World, b: Block) returns (ok: bool, c: Ctx)
      requires Valid()
      ensures c == ContextOf(w, View(), b, c.lookup)
      ensures ok ==
              (HeaderOk(w, View(), b) && PurgesPresent(b.txs, w.purgeable(View().index, b.slot)) && Accepts(c, b.txs))
    {
      hide Holds;
      hide ViewOf;
      hide Accepts;
      hide HeaderOk;
      hide PurgesPresent;
      hide ContextOf;
      ok := CheckHeader(w, b);
      var due;
      c, due := Snapshot(w, b);
      if ok {
        ok := CheckPurges(b.txs, due);
      }
      if ok {
        ok := ValidateTransactions(c, b.txs);
      }
    }

    method CheckHeader(w: World, b: Block) returns (ok: bool)
      requires Valid()
      ensures ok == HeaderOk(w, View(), b)
    {
      hide Holds;
      hide ViewOf;
      ok := b.index == tip.index + 1 && b.slot > tip.slot && b.prevHash == tip.hash
            && b.leader == w.leaderOf(b) && w.signed(b.leader, b)
            && b.txs != [] && b.merkleRoot == w.merkle(b.txs) && b.hash == w.blockHash(b);
    }

    /** What validation reads, and the registrations that are due for purging. */
    method Snapshot(w: World, b: Block) returns (c: Ctx, due: seq<Purge>)
      requires Valid()
      ensures c == ContextOf(w, View(), b, c.lookup) && due == w.purgeable(View().index, b.slot)
      ensures forall i :: 0 <= i < |b.txs| ==> IxFinds(View().index, b.txs[i].redeems, c.lookup(b.txs[i].redeems))
    {
      hide Holds;
      hide ViewOf;
      hide IxFinds;
      var ix := index.Snapshot();
      due := w.purgeable(ix, b.slot);
      var found := LookupAll(b.txs);
      var overlay := Commits.OvPurge(Commits.NewOverlay(commits.pending, b.index), b.index);
      c := Ctx(w.env, ledger.accounts, NewOverlay(ix), id => if id in found then found[id] else None, overlay, b.slot,
               true,
               b.leader, stakes.entries, queue.buf[..queue.len], evidence.keys);
    }

    /** The redeemed transactions, as GetTxByID finds them on the index before the block. */
    method LookupAll(txs: seq<Tx>) returns (found: map<i64, Option<Tx>>)
      requires Valid()
      ensures forall i :: 0 <= i < |txs| ==> txs[i].redeems in found
      ensures forall id :: id in found ==> IxFinds(View().index, id, found[id])
    {
      hide Holds;
      hide ViewOf;
      hide IxFinds;
      found := map[];
      for i := 0 to |txs|
        invariant forall j :: 0 <= j < i ==> txs[j].redeems in found
        invariant forall id :: id in found ==> IxFinds(View().index, id, found[id])
      {
        var r := index.GetTxByID(txs[i].redeems);
        found := found[txs[i].redeems := r];
      }
    }

    /** The purge check: a RENEW of the name, or a REVOKE of the registration. */
    static method CheckPurges(txs: seq<Tx>, due: seq<Purge>) returns (ok: bool)
      ensures ok == PurgesPresent(txs, due)
    {
      var renewed: set<Name> := {};
      for i := 0 to |txs|
        invariant forall d :: d in renewed <==> exists j :: 0 <= j < i && txs[j].typ.RENEW? && txs[j].domain == d
      {
        if txs[i].typ.RENEW? {
          renewed := renewed + {txs[i].domain};
        }
      }
      for k := 0 to |due|
        invariant forall l :: 0 <= l < k ==> Purged(txs, due[l])
      {
        var p := due[k];
        if p.domain !in renewed {
          var found := FindRevocation(txs, p);
          if !found {
            assert !Purged(txs, p);
            PurgesMissing(txs, due, k);
            return false;
          }
        } else {
          var j :| 0 <= j < |txs| && txs[j].typ.RENEW? && txs[j].domain == p.domain;
          assert txs[j] in txs;
        }
      }
      ok := true;
    }

    /** One registration is renewed or revoked. */
    static predicate Purged(txs: seq<Tx>, p: Purge) {
      || (exists tx :: tx in txs && tx.typ.RENEW? && tx.domain == p.domain)
      || (exists tx :: tx in txs && Revokes(tx, p))
    }

    static lemma PurgesMissing(txs: seq<Tx>, due: seq<Purge>, k: nat)
      requires k < |due| && !Purged(txs, due[k])
      ensures !PurgesPresent(txs, due)
    {
      assert due[k] in due;
    }

    static predicate Revokes(tx: Tx, p: Purge) {
      tx.typ.REVOKE? && tx.domain == p.domain && tx.redeems == p.tid
    }

    static method FindRevocation(txs: seq<Tx>, p: Purge) returns (found: bool)
      ensures found <==> exists tx :: tx in txs && Revokes(tx, p)
    {
      for i := 0 to |txs|
        invariant forall j :: 0 <= j < i ==> !Revokes(txs[j], p)
      {
        if Revokes(txs[i], p) {
          return true;
        }
      }
      found := false;
    }

    /**
     * The five digests of the header against the staging state; the ledger's is the one before the domain mutations.
     */
    static method CompareHashes(w: World, b: Block, paid: Accounts, stakes': StakeMap, queue': UnstakeQueue,
                                im: IndexOverlay,
                                cs: Commits.CommitOverlay, ghost s: State, ghost st: Step) returns (ok: bool)
      requires queue'.Valid() && im.Valid() && st.block == b && |st.founds| == |b.txs|
      requires paid == PhaseA(s, b) && im.View() == PhaseB(w, s, st).index && cs.View() == PhaseB(w, s, st).commits
      requires stakes'.entries == StakePhase(w, s, b).stakes && queue'.Contents() == StakePhase(w, s, b).queue
      ensures ok == HashesOk(w, s, st)
    {
      hide Holds;
      hide ViewOf;
      hide PhaseA;
      hide PhaseB;
      hide StakePhase;
      hide Commits.Merged;
      var ix := im.base.Snapshot();
      var records := cs.MergedRecords();
      ok := b.ledgerHash == w.hashLedger(paid) && b.indexHash == w.hashIndex(Overlay(ix, im.journal, im.pendingSpent))
            && b.commitsHash == w.hashCommits(records) && b.stakesHash == w.hashStakes(stakes'.entries)
            && b.queueHash == w.hashQueue(queue'.buf[..queue'.len]);
    }

    /** The stake copies as the block finds them: matured unstakes are swept off and dropped. */
    method StakeCopies(b: Block) returns (stakes': StakeMap, queue': UnstakeQueue, evidence': EvidenceSet)
      requires Valid()
      ensures fresh(stakes') && fresh(queue') && fresh(queue'.buf) && fresh(evidence') && queue'.Valid()
      ensures StakeView(stakes', queue', evidence') == StartStake(View(), b)
    {
      hide Holds;
      hide ViewOf;
      hide Select;
      stakes' := stakes.Clone();
      queue' := queue.Clone();
      evidence' := new EvidenceSet(evidence.keys);
      var matured := queue'.SweepMature(SlotNumber(b.slot));
    }

    /** The other copies: expired commits are purged from the overlay. */
    method DomainCopies(b: Block) returns (ledger': BalanceLedger, im: IndexOverlay, cs: Commits.CommitOverlay)
      requires Valid()
      ensures fresh(ledger') && fresh(im) && fresh(cs) && im.Valid() && im.base == index
      ensures AfterPhaseA(DomView(ledger', im, cs), b.txs, b.leader) == StartB(View(), b)
    {
      hide Holds;
      hide ViewOf;
      hide LedgerRun;
      hide TotalFees;
      hide WithFees;
      hide Commits.OvPurge;
      ledger' := ledger.Clone();
      im := new IndexOverlay(index);
      cs := new Commits.CommitOverlay(commits.pending, b.index);
      var purged := cs.PurgeExpired(b.index);
    }

    /** The block applied to copies that are as it finds them. */
    static method ApplyToCopies(w: World, b: Block, ghost s: State, ghost c: Ctx, ledger': BalanceLedger,
                                stakes': StakeMap, queue': UnstakeQueue, evidence': EvidenceSet, im: IndexOverlay,
                                cs: Commits.CommitOverlay)
      returns (paid: Accounts, ghost founds: seq<Option<Tx>>)
      requires c == ContextOf(w, s, b, c.lookup) && Accepts(c, b.txs) && queue'.Valid() && im.Valid()
      requires NamesUsed(b.txs, im.base.used)
      requires AfterPhaseA(DomView(ledger', im, cs), b.txs, b.leader) == StartB(s, b)
      requires StakeView(stakes', queue', evidence') == StartStake(s, b)
      modifies ledger', stakes', queue', queue'.buf, evidence', im, cs
      ensures queue'.Valid() && im.Valid()
      ensures |founds| == |b.txs| && NoCrash(w, s, Step(b, c.lookup, founds))
      ensures DomView(ledger', im, cs) == PhaseB(w, s, Step(b, c.lookup, founds))
      ensures StakeView(stakes', queue', evidence') == StakePhase(w, s, b)
      ensures paid == PhaseA(s, b)
    {
      hide Holds;
      hide ViewOf;
      hide Accepts;
      hide ContextOf;
      hide NoCrash;
      hide Reached;
      hide PhaseA;
      hide PhaseB;
      hide StakeRun;
      hide StartB;
      hide StartStake;
      hide AfterPhaseA;
      hide CrashesSomehow;
      var crashed; ghost var done;
      crashed, paid, founds, done :=
        ValidatorApply(PlaceOf(w, b), b.leader, b.txs, ledger', stakes', queue', evidence', im, cs);
      NeverCrashed(w, s, b, c, founds, done, DomView(ledger', im, cs), crashed);
      StartsPaid(s, b);
    }

    /** The block applied to copies; the node itself is left alone. */
    method Stage(w: World, b: Block, ghost c: Ctx)
      returns (ledger': BalanceLedger, stakes': StakeMap, queue': UnstakeQueue, evidence': EvidenceSet,
               im: IndexOverlay,
               cs: Commits.CommitOverlay, paid: Accounts, ghost founds: seq<Option<Tx>>)
      requires Valid() && c == ContextOf(w, View(), b, c.lookup) && Accepts(c, b.txs) && NamesUsed(b.txs, index.used)
      ensures queue'.Valid() && im.Valid() && im.base == index
      ensures |founds| == |b.txs| && NoCrash(w, View(), Step(b, c.lookup, founds))
      ensures DomView(ledger', im, cs) == PhaseB(w, View(), Step(b, c.lookup, founds))
      ensures StakeView(stakes', queue', evidence') == StakePhase(w, View(), b)
      ensures paid == PhaseA(View(), b)
    {
      hide Holds;
      hide ViewOf;
      hide Accepts;
      hide ContextOf;
      hide NoCrash;
      hide PhaseA;
      hide PhaseB;
      hide StakePhase;
      hide StartB;
      hide StartStake;
      hide AfterPhaseA;
      stakes', queue', evidence' := StakeCopies(b);
      ledger', im, cs := DomainCopies(b);
      paid, founds := ApplyToCopies(w, b, View(), c, ledger', stakes', queue', evidence', im, cs);
    }

    static lemma StartsPaid(s: State, b: Block)
      ensures StartB(s, b).ledger == PhaseA(s, b)
    {
    }

    /** The staging state becomes the node's; the index overlay is committed twice. */
    method Promote(b: Block, ledger': BalanceLedger, stakes': StakeMap, queue': UnstakeQueue, evidence': EvidenceSet,
                   im: IndexOverlay, cs: Commits.CommitOverlay)
      requires Valid() && im.Valid() && im.base == index && queue'.Valid()
      modifies this, index, index.tree, index.tree.repr, commits
      ensures Valid()
      ensures View() ==
              State(ledger'.accounts, Committed(old(im.View())), Commits.Flushed(cs.View(), old(commits.pending)),
                              stakes'.entries, queue'.Contents(), evidence'.keys, Tip(b.index, b.slot, b.hash))
    {
      hide Holds;
      hide ViewOf;
      hide Committed;
      hide Commits.Flushed;
      CommitBoth(im);
      cs.Commit(commits);
      Adopt(b, ledger', stakes', queue', evidence');
    }

    method Adopt(b: Block, ledger': BalanceLedger, stakes': StakeMap, queue': UnstakeQueue, evidence': EvidenceSet)
      modifies this
      ensures ledger == ledger' && stakes == stakes' && queue == queue' && evidence == evidence'
      ensures index == old(index) && commits == old(commits) && tip == Tip(b.index, b.slot, b.hash)
    {
      ledger := ledger';
      stakes, queue, evidence := stakes', queue', evidence';
      tip := Tip(b.index, b.slot, b.hash);
    }

    /** The commit at the end of validation and the one at promotion have the effect of one. */
    static method CommitBoth(im: IndexOverlay)
      requires im.Valid()
      modifies im.base, im.base.tree, im.base.tree.repr
      ensures im.base.Valid() && im.base.View() == Committed(old(im.View()))
    {
      hide Holds;
      hide ViewOf;
      hide Committed;
      ghost var o := im.View();
      im.Commit();
      assert im.View() == o.(base := Committed(o));
      CommitTwice(o);
      im.Commit();
    }

    static lemma NextStateIs(w: World, s: State, st: Step)
      requires |st.founds| == |st.block.txs|
      ensures var d, k := PhaseB(w, s, st), StakePhase(w, s, st.block);
              NextState(w, s, st) ==
                State(d.ledger, Committed(d.index), Commits.Flushed(d.commits, s.commits), k.stakes, k.queue,
                      k.evidence,
                      Tip(st.block.index, st.block.slot, st.block.hash))
    {
    }

    /** An accepted block never stops half-way. */
    static lemma NeverCrashed(w: World, s: State, b: Block, c: Ctx, founds: seq<Option<Tx>>, done: nat, now: DomState,
                              crashed: bool)
      requires c == ContextOf(w, s, b, c.lookup) && Accepts(c, b.txs)
      requires done <= |b.txs| && Reached(PlaceOf(w, b), StartB(s, b), b.txs, done, founds, now)
      requires !crashed ==> done == |b.txs|
      requires crashed ==> done < |b.txs| && CrashesSomehow(PlaceOf(w, b), StartB(s, b), b.txs, founds, done)
      ensures !crashed && |founds| == |b.txs| && NoCrash(w, s, Step(b, c.lookup, founds))
      ensures now == PhaseB(w, s, Step(b, c.lookup, founds))
    {
      hide ApplyDomain;
      hide Accepts;
      hide Finds;
      SoundNew(s.index);
      assert Commits.WithoutExpired(map[], b.index) == map[];
      var x, start := PlaceOf(w, b), StartB(s, b);
      if crashed {
        var found :| CrashesAt(x, start, b.txs, founds, done, found);
        AcceptsPrefix(c, b.txs, done + 1);
        var t, f := b.txs[..done + 1], founds + [found];
        assert t[..done] == b.txs[..done] && f[..done] == founds;
        AcceptedNeverCrashes(c, x, start, t, f, done);
      } else {
        assert b.txs[..done] == b.txs;
      }
    }
  }
}
