/** Pending commitments over whole runs: whose they are, how long they last, and what ends them. */
module PendingCommits {
  import opened Basics
  import opened Transactions
  import Commits
  import opened Validation
  import opened Application
  import opened Blocks
  import opened DomainSafety
  import opened Ownership
  import opened Provenance

  // ----- One block -----

  /** What a block consumes is the hash of one of its REVEALs that took effect. */
  lemma {:induction false} ConsumedByReveal(x: Place, st: DomState, txs: seq<Tx>, founds: seq<Option<Tx>>, h: Bytes)
    returns (j: nat)
    requires |founds| == |txs| && h !in st.commits.consumed && h in DomainRun(x, st, txs, founds).commits.consumed
    ensures j < |txs| && txs[j].typ.REVEAL? && RevealHash(x.env, txs[j]) == h && OutcomeAt(x, st, txs, founds, j).Done?
  {
    hide ApplyDomain;
    hide RevealHash;
    var n := |txs| - 1;
    var mid := DomainRun(x, st, txs[..n], founds[..n]);
    StepCommits(x, mid, txs[n], founds[n]);
    if h in mid.commits.consumed {
      j := ConsumedByReveal(x, st, txs[..n], founds[..n], h);
      assert txs[..n][..j] == txs[..j] && founds[..n][..j] == founds[..j];
    } else {
      j := n;
    }
  }

  lemma CommitIsNew(c: Ctx, txs: seq<Tx>, j: nat)
    requires Accepts(c, txs) && j < |txs| && txs[j].typ.COMMIT?
    ensures Commits.OvGet(c.commits, txs[j].commitHash).None?
    ensures |txs[j].commitHash| == 32 && IsRegistryKey(c.env, txs[j].owner)
  {
    AcceptsPrefix(c, txs, j);
    hide RevealHash;
  }

  /**
   * Nobody can replace or remove somebody's pending commitment: in every accepted block it survives unchanged exactly
   * when no REVEAL of it takes effect, until it expires, and then it is gone.
   */
  lemma PendingKeptIff(w: World, s: State, st: Step, s': State, h: Bytes)
    requires Transition(w, s, st, s') && h in s.commits
    ensures if st.block.index > s.commits[h].expiryBlock then h !in s'.commits
            else
              && (h in s'.commits <==> Unrevealed(w, s, st, h))
              && (h in s'.commits ==> s'.commits[h] == s.commits[h])
  {
    hide Accepts;
    hide HashesOk;
    hide NoCrash;
    hide PurgesPresent;
    hide ApplyDomain;
    hide RevealHash;
    var x, c, d := PlaceOf(w, st.block), ContextOf(w, s, st.block, st.lookup), PhaseB(w, s, st);
    assert Commits.WithoutExpired(map[], st.block.index) == map[];
    RunBase(x, StartB(s, st.block), st.block.txs, st.founds);
    if h in d.commits.added {
      var j := AddedByCommit(x, StartB(s, st.block), st.block.txs, st.founds, h);
      CommitIsNew(c, st.block.txs, j);
    }
    if h in d.commits.consumed {
      var j := ConsumedByReveal(x, StartB(s, st.block), st.block.txs, st.founds, h);
      assert Reveals(w, s, st, j, h);
    } else {
      forall i: nat ensures !Reveals(w, s, st, i, h) {
        if Reveals(w, s, st, i, h) {
          RevealConsumes(x, StartB(s, st.block), st.block.txs, st.founds, i);
        }
      }
    }
  }

  lemma {:induction false} RunBase(x: Place, st: DomState, txs: seq<Tx>, founds: seq<Option<Tx>>)
    requires |founds| == |txs|
    ensures DomainRun(x, st, txs, founds).commits.purged == st.commits.purged
  {
    hide ApplyDomain;
    if txs == [] {
    } else {
      var n := |txs| - 1;
      RunBase(x, st, txs[..n], founds[..n]);
      StepCommits(x, DomainRun(x, st, txs[..n], founds[..n]), txs[n], founds[n]);
    }
  }

  // ----- Whole runs -----

  /** A commitment of a registry to a 32-byte hash, made at most a hundred blocks ago. */
  predicate WellMade(w: World, s: State, h: Bytes, rec: Commits.CommitRecord) {
    && rec.hash == h && |h| == 32 && rec.committer in w.env.registries
    && rec.block <= s.tip.index <= rec.block + 100 && rec.slot <= s.tip.slot
  }

  /** In every state of a run that starts without commitments all pending ones are like that. */
  lemma {:induction false} PendingAreWellMade(w: World, states: seq<State>, steps: seq<Step>, n: nat, h: Bytes)
    requires ValidRun(w, states, steps) && n <= |steps| && states[0].commits == map[] && h in states[n].commits
    ensures WellMade(w, states[n], h, states[n].commits[h])
    ensures states[n].commits[h].expiryBlock == states[n].commits[h].block + 100
  {
    hide Transition;
    hide Unrevealed;
    hide RevealHash;
    assert n > 0;
    var s, st, s' := states[n - 1], steps[n - 1], states[n];
    assert Transition(w, s, st, s');
    TransitionTip(w, s, st, s');
    PendingOrigin(w, s, st, s', h);
    if h in s.commits && s'.commits[h] == s.commits[h] {
      PendingAreWellMade(w, states, steps, n - 1, h);
      PendingKeptIff(w, s, st, s', h);
    } else {
      var j: nat :| Provenance.Recorded(w, st, j, s'.commits[h]) && st.block.txs[j].commitHash == h;
      BlockMatches(w, s, st, s');
      hide Accepts;
      CommitIsNew(ContextOf(w, s, st.block, st.lookup), st.block.txs, j);
    }
  }
}
