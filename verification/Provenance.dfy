/** Every registration goes back to one commitment, over whole runs. */
module Provenance {
  import opened Basics
  import opened Config
  import opened Transactions
  import Commits
  import opened DomainIndex
  import opened Validation
  import opened Application
  import opened Blocks
  import opened DomainSafety
  import opened Ownership
  import opened Redemption

  // ----- One block -----

  /** Every record that the block added comes from one of its COMMITs. */
  lemma {:induction false} AddedByCommit(x: Place, st: DomState, txs: seq<Tx>, founds: seq<Option<Tx>>, h: Bytes)
    returns (j: nat)
    requires |founds| == |txs| && st.commits.added == map[]
    requires h in DomainRun(x, st, txs, founds).commits.added
    ensures j < |txs| && txs[j].typ.COMMIT? && txs[j].commitHash == h
    ensures DomainRun(x, st, txs, founds).commits.added[h] == CommitOf(x, txs[j])
  {
    hide ApplyDomain;
    var n := |txs| - 1;
    var mid := DomainRun(x, st, txs[..n], founds[..n]);
    StepCommits(x, mid, txs[n], founds[n]);
    if txs[n].typ.COMMIT? && txs[n].commitHash == h {
      j := n;
    } else {
      j := AddedByCommit(x, st, txs[..n], founds[..n], h);
    }
  }

  /** A REVEAL that takes effect consumes its hash for the rest of the block. */
  lemma {:induction false} RevealConsumes(x: Place, st: DomState, txs: seq<Tx>, founds: seq<Option<Tx>>, i: nat)
    requires |founds| == |txs| && i < |txs| && txs[i].typ.REVEAL? && OutcomeAt(x, st, txs, founds, i).Done?
    ensures RevealHash(x.env, txs[i]) in DomainRun(x, st, txs, founds).commits.consumed
    decreases |txs|
  {
    hide ApplyDomain;
    var n := |txs| - 1;
    var mid := DomainRun(x, st, txs[..n], founds[..n]);
    StepCommits(x, mid, txs[n], founds[n]);
    if i < n {
      assert txs[..n][..i] == txs[..i] && founds[..n][..i] == founds[..i];
      RevealConsumes(x, st, txs[..n], founds[..n], i);
    }
  }

  /** The i-th transaction of the block is a REVEAL of h that took effect. */
  predicate Reveals(w: World, s: State, st: Step, i: nat, h: Bytes)
    requires |st.founds| == |st.block.txs|
  {
    && i < |st.block.txs| && st.block.txs[i].typ.REVEAL? && RevealHash(w.env, st.block.txs[i]) == h
    && TookEffect(w, s, st, i)
  }

  /** The block does not reveal h. */
  ghost predicate Unrevealed(w: World, s: State, st: Step, h: Bytes) {
    |st.founds| == |st.block.txs| ==> forall i: nat :: !Reveals(w, s, st, i, h)
  }

  lemma UnrevealedAt(w: World, s: State, st: Step, h: Bytes, i: nat)
    requires Unrevealed(w, s, st, h) && |st.founds| == |st.block.txs|
    ensures !Reveals(w, s, st, i, h)
  {
  }

  /** The j-th transaction of the block is the COMMIT that the record was made from. */
  predicate Recorded(w: World, st: Step, j: nat, rec: Commits.CommitRecord) {
    j < |st.block.txs| && st.block.txs[j].typ.COMMIT? && rec == CommitOf(PlaceOf(w, st.block), st.block.txs[j])
  }

  /** A pending commitment after a block was pending before it and not revealed, or comes from the block. */
  lemma PendingOrigin(w: World, s: State, st: Step, s': State, h: Bytes)
    requires Transition(w, s, st, s') && h in s'.commits
    ensures || (h in s.commits && s'.commits[h] == s.commits[h] && Unrevealed(w, s, st, h))
            || (exists j: nat :: Recorded(w, st, j, s'.commits[h]) && st.block.txs[j].commitHash == h)
  {
    hide Accepts;
    hide HashesOk;
    hide NoCrash;
    hide PurgesPresent;
    hide ApplyDomain;
    var x, d := PlaceOf(w, st.block), PhaseB(w, s, st);
    assert Commits.WithoutExpired(map[], st.block.index) == map[];
    if h in d.commits.added {
      var j := AddedByCommit(x, StartB(s, st.block), st.block.txs, st.founds, h);
      assert Recorded(w, st, j, s'.commits[h]);
    } else {
      forall i: nat ensures !Reveals(w, s, st, i, h) {
        if Reveals(w, s, st, i, h) {
          RevealConsumes(x, StartB(s, st.block), st.block.txs, st.founds, i);
        }
      }
    }
  }

  // ----- Whole runs -----

  lemma {:induction false} BlockIndex(w: World, states: seq<State>, steps: seq<Step>, n: nat)
    requires ValidRun(w, states, steps) && n < |steps|
    ensures steps[n].block.index == states[0].tip.index + n + 1
    ensures states[n + 1].tip.index == steps[n].block.index
  {
    assert Transition(w, states[n], steps[n], states[n + 1]);
    TransitionTip(w, states[n], steps[n], states[n + 1]);
    hide Transition;
    if n == 0 {
    } else {
      BlockIndex(w, states, steps, n - 1);
    }
  }

  lemma TransitionTip(w: World, s: State, st: Step, s': State)
    requires Transition(w, s, st, s')
    ensures st.block.index == s.tip.index + 1 && s'.tip.index == st.block.index
    ensures st.block.slot > s.tip.slot && s'.tip.slot == st.block.slot
    ensures |st.founds| == |st.block.txs|
  {
    hide Accepts;
    hide HashesOk;
    hide NoCrash;
    hide PurgesPresent;
  }

  /** Block m holds the COMMIT of a record, and no block between m and n revealed it. */
  ghost predicate CommittedAt(w: World, states: seq<State>, steps: seq<Step>, m: nat, j: nat, n: nat, h: Bytes,
                              rec: Commits.CommitRecord)
    requires ValidRun(w, states, steps) && n <= |steps|
  {
    && m < n && Recorded(w, steps[m], j, rec) && steps[m].block.txs[j].commitHash == h
    && forall b :: m < b < n ==> Unrevealed(w, states[b], steps[b], h)
  }

  /** Every pending commitment comes from a COMMIT of an earlier block and has not been revealed since. */
  lemma {:induction false} PendingProvenance(w: World, states: seq<State>, steps: seq<Step>, n: nat, h: Bytes)
    returns (m: nat, j: nat)
    requires ValidRun(w, states, steps) && n <= |steps| && states[0].commits == map[] && h in states[n].commits
    ensures CommittedAt(w, states, steps, m, j, n, h, states[n].commits[h])
  {
    hide Transition;
    hide Unrevealed;
    assert Transition(w, states[n - 1], steps[n - 1], states[n]);
    TransitionTip(w, states[n - 1], steps[n - 1], states[n]);
    PendingOrigin(w, states[n - 1], steps[n - 1], states[n], h);
    if && h in states[n - 1].commits && states[n].commits[h] == states[n - 1].commits[h]
       && Unrevealed(w, states[n - 1], steps[n - 1], h)
    {
      m, j := PendingProvenance(w, states, steps, n - 1, h);
    } else {
      m := n - 1;
      j :| Recorded(w, steps[n - 1], j, states[n].commits[h]) && steps[n - 1].block.txs[j].commitHash == h;
    }
  }

  /** What the gates of a REVEAL establish about the commitment it redeems. */
  predicate Redeemed(w: World, s: State, b: Block, tx: Tx, rec: Commits.CommitRecord) {
    && rec.committer == tx.owner && rec.tid == tx.redeems
    && b.slot - rec.slot >= COMMIT_MIN_DELAY
    && b.index <= rec.expiryBlock
    && (IxDomain(s.index, tx.domain).Some? ==>
          && GetDomainPhase(b.slot, IxDomain(s.index, tx.domain).value.expirySlot, w.env.slotsPerDay).Purged?
          && rec.slot >= ComputePurgeSlot(IxDomain(s.index, tx.domain).value.expirySlot, w.env.slotsPerDay))
  }

  lemma RevealGates(w: World, s: State, st: Step, sh: Shadow, tx: Tx)
    requires Gates(ContextOf(w, s, st.block, st.lookup), sh, tx) && tx.typ.REVEAL?
    ensures var h := RevealHash(w.env, tx);
            h in s.commits && h !in sh.commits && Redeemed(w, s, st.block, tx, s.commits[h])
  {
    assert tx.owner != [];
  }

  lemma RevealIsBacked(w: World, s: State, st: Step, s': State, i: nat)
    requires Transition(w, s, st, s') && i < |st.block.txs| && st.block.txs[i].typ.REVEAL?
    ensures var h := RevealHash(w.env, st.block.txs[i]);
            h in s.commits && Redeemed(w, s, st.block, st.block.txs[i], s.commits[h])
  {
    BlockMatches(w, s, st, s');
    hide Transition;
    hide Gates;
    hide NextShadow;
    hide Matches;
    hide Redeemed;
    var c := ContextOf(w, s, st.block, st.lookup);
    AcceptsPrefix(c, st.block.txs, i);
    RevealGates(w, s, st, ShadowRun(c, st.block.txs[..i]), st.block.txs[i]);
  }

  /** The COMMIT at (m, j) backs the REVEAL at (n, i). */
  ghost predicate Backs(w: World, states: seq<State>, steps: seq<Step>, m: nat, j: nat, n: nat, i: nat)
    requires ValidRun(w, states, steps) && n < |steps| && i < |steps[n].block.txs|
  {
    var h := RevealHash(w.env, steps[n].block.txs[i]);
    && m < n && h in states[n].commits
    && Recorded(w, steps[m], j, states[n].commits[h]) && steps[m].block.txs[j].commitHash == h
  }

  /**
   * Every REVEAL of a run that starts without pending commitments is backed by a COMMIT of a strictly
   * earlier block with the same hash, owner key and id, at least COMMIT_MIN_DELAY slots and at most
   * COMMIT_MAX_WINDOW blocks before it, and not before the purge slot of the name's current record.
   */
  lemma RevealProvenance(w: World, states: seq<State>, steps: seq<Step>, n: nat, i: nat) returns (m: nat, j: nat)
    requires ValidRun(w, states, steps) && states[0].commits == map[]
    requires n < |steps| && i < |steps[n].block.txs| && steps[n].block.txs[i].typ.REVEAL?
    ensures Backs(w, states, steps, m, j, n, i)
    ensures var tx, com := steps[n].block.txs[i], steps[m].block.txs[j];
            && com.typ.COMMIT? && com.commitHash == RevealHash(w.env, tx)
            && com.owner == tx.owner && com.tid == tx.redeems
            && steps[n].block.slot - steps[m].block.slot >= COMMIT_MIN_DELAY
            && 1 <= n - m <= COMMIT_MAX_WINDOW
            && (IxDomain(states[n].index, tx.domain).Some? ==>
                  steps[m].block.slot >= ComputePurgeSlot(IxDomain(states[n].index, tx.domain).value.expirySlot,
                                                          w.env.slotsPerDay))
  {
    hide Transition;
    var h := RevealHash(w.env, steps[n].block.txs[i]);
    assert Transition(w, states[n], steps[n], states[n + 1]);
    RevealIsBacked(w, states[n], steps[n], states[n + 1], i);
    m, j := PendingProvenance(w, states, steps, n, h);
    BlockIndex(w, states, steps, m);
    BlockIndex(w, states, steps, n);
  }

  /** No COMMIT backs two REVEALs that take effect. */
  lemma RevealsOnce(w: World, states: seq<State>, steps: seq<Step>, m: nat, j: nat, n: nat, i: nat, n': nat, i': nat)
    requires ValidRun(w, states, steps) && states[0].commits == map[]
    requires n < |steps| && i < |steps[n].block.txs| == |steps[n].founds| && steps[n].block.txs[i].typ.REVEAL?
    requires n' < |steps| && i' < |steps[n'].block.txs| && steps[n'].block.txs[i'].typ.REVEAL?
    requires n < n' || (n == n' && i < i')
    requires TookEffect(w, states[n], steps[n], i)
    requires Backs(w, states, steps, m, j, n, i)
    ensures !Backs(w, states, steps, m, j, n', i')
  {
    hide Transition;
    hide TookEffect;
    if Backs(w, states, steps, m, j, n', i') {
      var h := RevealHash(w.env, steps[n].block.txs[i]);
      assert h == steps[m].block.txs[j].commitHash == RevealHash(w.env, steps[n'].block.txs[i']);
      if n < n' {
        var m', j' := PendingProvenance(w, states, steps, n', h);
        BlockIndex(w, states, steps, m);
        BlockIndex(w, states, steps, m');
        assert Unrevealed(w, states[n], steps[n], h);
        UnrevealedAt(w, states[n], steps[n], h, i);
      } else {
        OneRevealPerBlock(w, states[n], steps[n], states[n + 1], i, i');
      }
    }
  }

  lemma {:induction false} SeenInBlock(c: Ctx, txs: seq<Tx>, i: nat)
    requires Accepts(c, txs) && i < |txs| && txs[i].typ.REVEAL?
    ensures RevealHash(c.env, txs[i]) in ShadowRun(c, txs).commits
    decreases |txs|
  {
    hide Gates;
    hide NextShadow;
    var n := |txs| - 1;
    NextCommitsSeen(c, ShadowRun(c, txs[..n]), txs[n]);
    if i < n { SeenInBlock(c, txs[..n], i); }
  }

  /** Two REVEALs of one block never have the same hash. */
  lemma OneRevealPerBlock(w: World, s: State, st: Step, s': State, i: nat, i': nat)
    requires Transition(w, s, st, s') && i < i' < |st.block.txs|
    requires st.block.txs[i].typ.REVEAL? && st.block.txs[i'].typ.REVEAL?
    ensures RevealHash(w.env, st.block.txs[i]) != RevealHash(w.env, st.block.txs[i'])
  {
    BlockMatches(w, s, st, s');
    hide Transition;
    hide Gates;
    hide NextShadow;
    hide Matches;
    hide Redeemed;
    var c, txs := ContextOf(w, s, st.block, st.lookup), st.block.txs;
    AcceptsPrefix(c, txs, i');
    SeenInBlock(c, txs[..i'], i);
    RevealGates(w, s, st, ShadowRun(c, txs[..i']), txs[i']);
  }
}
