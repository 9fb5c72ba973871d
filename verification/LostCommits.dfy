/**
 * What becomes of the COMMITs of an accepted block.  The overlay is hashed with a COMMIT of an expired hash and
 * flushed without it (internal/blockchain/commit.go:183-227).
 */
module LostCommits {
  import opened Basics
  import opened Transactions
  import opened Ledger
  import Commits
  import opened DomainIndex
  import opened Validation
  import opened Application
  import opened Blocks
  import opened DomainSafety
  import opened Ownership
  import opened Provenance
  import opened ExampleChain

  // ----- Within a block -----

  /** The hashes that gates look at are new to the block. */
  lemma HashesAreNew(c: Ctx, sh: Shadow, tx: Tx)
    requires Gates(c, sh, tx)
    ensures tx.typ.COMMIT? ==> tx.commitHash !in sh.commits
    ensures tx.typ.REVEAL? ==> RevealHash(c.env, tx) !in sh.commits
  {
    assert tx.owner == [] ==> tx.typ.REVOKE?;
  }

  /** Nothing else in an accepted list touches the hash of a COMMIT. */
  lemma {:induction false} CommitStays(c: Ctx, x: Place, st: DomState, txs: seq<Tx>, founds: seq<Option<Tx>>, i: nat)
    requires |founds| == |txs| && Accepts(c, txs) && x.env == c.env && i < |txs| && txs[i].typ.COMMIT?
    requires st.commits.added == map[] && st.commits.consumed == {}
    ensures var o, h := DomainRun(x, st, txs, founds).commits, txs[i].commitHash;
            && h in o.added && o.added[h] == CommitOf(x, txs[i]) && h !in o.consumed
            && h in ShadowRun(c, txs).commits
    decreases |txs|
  {
    hide ApplyDomain;
    hide Gates;
    hide NextShadow;
    hide RevealHash;
    var n := |txs| - 1;
    var mid, sh := DomainRun(x, st, txs[..n], founds[..n]), ShadowRun(c, txs[..n]);
    StepCommits(x, mid, txs[n], founds[n]);
    NextCommitsSeen(c, sh, txs[n]);
    HashesAreNew(c, sh, txs[n]);
    CommitsTracked(c, x, st, txs[..n], founds[..n]);
    if i < n {
      CommitStays(c, x, st, txs[..n], founds[..n], i);
    }
  }

  lemma {:induction false} AddedNotConsumed(c: Ctx, x: Place, st: DomState, txs: seq<Tx>, founds: seq<Option<Tx>>)
    requires |founds| == |txs| && Accepts(c, txs) && x.env == c.env
    requires st.commits.added == map[] && st.commits.consumed == {}
    ensures DomainRun(x, st, txs, founds).commits.added.Keys !! DomainRun(x, st, txs, founds).commits.consumed
  {
    hide ApplyDomain;
    hide Gates;
    hide NextShadow;
    hide RevealHash;
    if txs == [] {
    } else {
      var n := |txs| - 1;
      AddedNotConsumed(c, x, st, txs[..n], founds[..n]);
      StepCommits(x, DomainRun(x, st, txs[..n], founds[..n]), txs[n], founds[n]);
      HashesAreNew(c, ShadowRun(c, txs[..n]), txs[n]);
      CommitsTracked(c, x, st, txs[..n], founds[..n]);
    }
  }

  // ----- The block -----

  /** What an accepted block leaves in its commitment overlay. */
  lemma OverlayAfter(w: World, s: State, st: Step, s': State)
    requires Transition(w, s, st, s')
    ensures var o := PhaseB(w, s, st).commits;
            && o.base == s.commits && (forall h :: h in o.purged <==> Commits.Expired(s.commits, h, st.block.index))
            && o.added.Keys !! o.consumed
            && s'.commits == Commits.Flushed(o, s.commits)
  {
    BlockMatches(w, s, st, s');
    hide Accepts;
    hide HashesOk;
    hide NoCrash;
    hide PurgesPresent;
    hide ApplyDomain;
    var c, x, start := ContextOf(w, s, st.block, st.lookup), PlaceOf(w, st.block), StartB(s, st.block);
    CommitsTracked(c, x, start, st.block.txs, st.founds);
    AddedNotConsumed(c, x, start, st.block.txs, st.founds);
  }

  /** The block puts back a hash that is expired at its height. */
  predicate PutsBack(s: State, b: Block, i: nat)
    requires i < |b.txs|
  {
    b.txs[i].typ.COMMIT? && Commits.Expired(s.commits, b.txs[i].commitHash, b.index)
  }

  /** The record of a COMMIT is pending after its block exactly when the hash was not expired before it. */
  lemma CommitKeptIff(w: World, s: State, st: Step, s': State, i: nat)
    requires Transition(w, s, st, s') && i < |st.block.txs| && st.block.txs[i].typ.COMMIT?
    ensures Commits.Get(s'.commits, st.block.txs[i].commitHash) == Some(CommitOf(PlaceOf(w, st.block), st.block.txs[i]))
            <==> !PutsBack(s, st.block, i)
    ensures PutsBack(s, st.block, i) ==> st.block.txs[i].commitHash !in s'.commits
  {
    OverlayAfter(w, s, st, s');
    BlockMatches(w, s, st, s');
    assert |st.founds| == |st.block.txs|;
    hide Transition;
    hide Accepts;
    hide ApplyDomain;
    CommitStays(ContextOf(w, s, st.block, st.lookup), PlaceOf(w, st.block), StartB(s, st.block), st.block.txs,
                st.founds, i);
  }

  /** Two stores that differ only in what was added and is gone. */
  lemma MergedIsFlushed(o: Commits.Overlay)
    requires o.added.Keys !! o.consumed
    ensures Commits.Merged(o) == Commits.Flushed(o, o.base) <==> o.added.Keys !! o.purged
  {
    if h :| h in o.added && h in o.purged {
      assert h in Commits.Merged(o) && h !in Commits.Flushed(o, o.base);
    } else {
      assert Commits.Merged(o) == Commits.Flushed(o, o.base);
    }
  }

  /**
   * The header's commitment hash is that of the store after the block exactly when no COMMIT puts back an expired hash.
   */
  lemma HashedIsStoredIff(w: World, s: State, st: Step, s': State)
    requires Transition(w, s, st, s')
    ensures |st.founds| == |st.block.txs|
    ensures Commits.Merged(PhaseB(w, s, st).commits) == s'.commits
            <==> forall i :: 0 <= i < |st.block.txs| ==> !PutsBack(s, st.block, i)
  {
    OverlayAfter(w, s, st, s');
    BlockMatches(w, s, st, s');
    assert |st.founds| == |st.block.txs|;
    hide Transition;
    hide Accepts;
    hide ApplyDomain;
    hide Commits.Merged;
    hide Commits.Flushed;
    var o := PhaseB(w, s, st).commits;
    MergedIsFlushed(o);
    if i :| 0 <= i < |st.block.txs| && PutsBack(s, st.block, i) {
      CommitStays(ContextOf(w, s, st.block, st.lookup), PlaceOf(w, st.block), StartB(s, st.block), st.block.txs,
                  st.founds, i);
      assert st.block.txs[i].commitHash in o.added && st.block.txs[i].commitHash in o.purged;
    } else if h :| h in o.added && h in o.purged {
      var j := AddedByCommit(PlaceOf(w, st.block), StartB(s, st.block), st.block.txs, st.founds, h);
      assert PutsBack(s, st.block, j);
    }
  }

  // ----- Such a block -----

  const REGISTRY: Key := [2]

  function Setting(sha: Bytes -> Bytes): Env {
    Env((k, tx) => true, sha, b => None, b => true, [REGISTRY], 1)
  }

  function Again(h: Bytes): Tx {
    Tx(20, COMMIT, 0, [], [], 0, 0, 0, REGISTRY, 1, 0, 0, [], seq(64, i => 0), h, [], 0, [], [])
  }

  /** The hash was committed in block 5, so it expired after block 105. */
  function Before106(h: Bytes): State {
    State(map[REGISTRY := Account(100, 0)], Index(map[], {}),
          map[h := Commits.CommitRecord(h, REGISTRY, 5, 50, 9, 105)], map[], [], {}, Tip(105, 500, []))
  }

  function Block106(h: Bytes): (st: Step)
    ensures |st.founds| == |st.block.txs|
  {
    Proposed(106, 501, REGISTRY, [Again(h)], NoLookup, [None])
  }

  lemma AgainPasses(sha: Bytes -> Bytes, h: Bytes)
    requires |h| == 32
    ensures Gates(ContextOf(Chain(Setting(sha), REGISTRY), Before106(h), Block106(h).block, NoLookup), EmptyShadow(),
                  Again(h))
  {
    var o := ContextOf(Chain(Setting(sha), REGISTRY), Before106(h), Block106(h).block, NoLookup).commits;
    assert h in o.purged;
  }

  /** The block is accepted; its COMMIT is in the hashed records and not in the store that it leaves. */
  lemma CommitIsLost(sha: Bytes -> Bytes, h: Bytes)
    requires |h| == 32
    ensures var w, s := Chain(Setting(sha), REGISTRY), Before106(h);
            var s' := NextState(w, s, Block106(h));
            && Transition(w, s, Block106(h), s')
            && h in Commits.Merged(PhaseB(w, s, Block106(h)).commits)
            && h !in s'.commits
  {
    hide Gates;
    hide Transition;
    hide NextState;
    var w, s := Chain(Setting(sha), REGISTRY), Before106(h);
    AgainPasses(sha, h);
    OneAccepted(ContextOf(w, s, Block106(h).block, NoLookup), Again(h));
    AcceptedBlock(Setting(sha), REGISTRY, s, 106, 501, [Again(h)], NoLookup, [None]);
    BlockMatches(w, s, Block106(h), NextState(w, s, Block106(h)));
    CommitKeptIff(w, s, Block106(h), NextState(w, s, Block106(h)), 0);
    var b := Block106(h).block;
    CommitStays(ContextOf(w, s, b, NoLookup), PlaceOf(w, b), StartB(s, b), [Again(h)], [None], 0);
  }
}
