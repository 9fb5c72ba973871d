/** What an accepted equivocation proof shows, and what a validator that never equivocated keeps. */
module Equivocation {
  import opened Basics
  import Config
  import opened Transactions
  import opened Ledger
  import opened Staking
  import opened Validation
  import opened Application
  import opened Blocks
  import opened ShadowLedger
  import opened ShadowStake
  import opened Unbonding
  import Sums
  import Supply

  /** Two signed blocks of k for one height, with different hashes. */
  predicate Conflict(env: Env, k: Key, a: Bytes, b: Bytes) {
    var x, y := env.decodeBlock(a), env.decodeBlock(b);
    && x.Some? && y.Some? && x.value.leader == k && y.value.leader == k
    && x.value.index == y.value.index && x.value.hash != y.value.hash
    && env.evidenceSigned(a) && env.evidenceSigned(b)
  }

  ghost predicate NeverEquivocated(env: Env, k: Key) {
    forall a: Bytes, b: Bytes :: !Conflict(env, k, a, b)
  }

  /** An accepted proof holds two conflicting blocks of the validator it accuses, of two megabytes at most. */
  lemma ProofShowsConflict(c: Ctx, sh: Shadow, tx: Tx)
    requires Gates(c, sh, tx) && tx.typ.EQUIVOCATION_PROOF?
    ensures c.env.decodeBlock(tx.equivA).Some?
    ensures Conflict(c.env, c.env.decodeBlock(tx.equivA).value.leader, tx.equivA, tx.equivB)
    ensures 0 < |tx.equivA| <= 2 * 1024 * 1024 && 0 < |tx.equivB| <= 2 * 1024 * 1024
  {
  }

  /** Nothing accepted slashes a validator that never equivocated, whatever state it is applied to. */
  lemma NoSlash(c: Ctx, sh: Shadow, tx: Tx, st: StakeState, k: Key)
    requires Gates(c, sh, tx) && NeverEquivocated(c.env, k)
    ensures !SlashesKey(c.env, st, tx, k)
  {
    if tx.typ.EQUIVOCATION_PROOF? {
      ProofShowsConflict(c, sh, tx);
      hide Gates;
    }
  }

  // ----- One transaction -----

  lemma SlashOther(st: StakeState, j: Key, k: Key)
    requires j != k
    ensures Sums.At(Slash(st, j).stakes, k) == Sums.At(st.stakes, k)
    ensures Queued(Slash(st, j).queue, k) == Queued(st.queue, k)
  {
    var staked := Sums.At(st.stakes, j);
    var slash := Config.ComputeSlashAmount(Add64(staked, PendingStake(st.queue, j)), Config.SLASHING_PERCENT);
    if slash > staked {
      BurnedKeepsOthers(st.queue, j, slash - staked, k);
      CompactKeeps(Burned(st.queue, j, slash - staked), k);
    }
  }

  /** What tx does to the stake and the queue of a validator that it does not slash. */
  lemma KeyStep(env: Env, st: StakeState, tx: Tx, slot: i64, k: Key)
    requires !SlashesKey(env, st, tx, k) && Sums.At(st.stakes, k) + StakedFor(tx, k) < TWO64
    requires UnstakedFor(tx, k) <= Sums.At(st.stakes, k)
    ensures var r := ApplyStake(env, st, tx, slot);
            && Sums.At(r.stakes, k) == Sums.At(st.stakes, k) + StakedFor(tx, k) - UnstakedFor(tx, k)
            && Queued(r.queue, k) == Queued(st.queue, k) + UnstakedFor(tx, k)
  {
    hide Slash;
    if tx.owner != [] {
      match tx.typ {
        case STAKE =>
        case UNSTAKE =>
          TotalStakeReduced(st.stakes, tx.owner, tx.stakeAmount);
          QueuedSnoc(st.queue,
                     Pending(tx.owner, tx.stakeAmount, Add64(SlotNumber(slot), Config.UNSTAKE_DELAY_SLOTS)), k);
        case EQUIVOCATION_PROOF =>
          if Slashes(env, st, tx) { SlashOther(st, Offender(env, tx), k); }
        case _ =>
      }
    }
  }

  /** What validation makes of the stake of a validator that tx does not accuse. */
  lemma ShadowKeyStep(c: Ctx, sh: Shadow, tx: Tx, k: Key)
    requires Gates(c, sh, tx) && NeverEquivocated(c.env, k) && Stake(c, sh, k) + StakedFor(tx, k) < TWO64
    ensures UnstakedFor(tx, k) <= Stake(c, sh, k)
    ensures Stake(c, NextShadow(c, sh, tx), k) == Stake(c, sh, k) + StakedFor(tx, k) - UnstakedFor(tx, k)
  {
    if tx.typ.EQUIVOCATION_PROOF? { ProofShowsConflict(c, sh, tx); }
    if tx.owner != [] { BondGates(c, sh, tx); }
    ShadowBonds(c, sh, tx);
    hide Gates;
    hide NextShadow;
  }

  // ----- One block -----

  /** In an accepted list the bonded coins of such a validator change by its own STAKEs and UNSTAKEs only. */
  lemma {:induction false} HonestList(c: Ctx, st: StakeState, txs: seq<Tx>, k: Key)
    requires Accepts(c, txs) && NeverEquivocated(c.env, k) && st.stakes == c.stakes && Liquid(c.ledger) < TWO64
    requires Sums.At(c.stakes, k) + Liquid(c.ledger) < TWO64
    ensures var r := StakeRun(c.env, st, txs, c.slot);
            && Stake(c, ShadowRun(c, txs), k) == Sums.At(r.stakes, k)
            && Sums.At(r.stakes, k) + CoinsUnstakedFor(txs, k) == Sums.At(st.stakes, k) + CoinsStakedFor(txs, k)
            && Queued(r.queue, k) == Queued(st.queue, k) + CoinsUnstakedFor(txs, k)
  {
    hide Gates;
    hide NextShadow;
    hide ApplyStake;
    hide NeverEquivocated;
    hide SlashesKey;
    if txs == [] {
    } else {
      var n := |txs| - 1;
      var p, tx := txs[..n], txs[n];
      HonestList(c, st, p, k);
      BalanceSimulation(c, txs);
      StakedForBelow(txs, k);
      var mid := StakeRun(c.env, st, p, c.slot);
      NoSlash(c, ShadowRun(c, p), tx, mid, k);
      ShadowKeyStep(c, ShadowRun(c, p), tx, k);
      KeyStep(c.env, mid, tx, c.slot, k);
    }
  }

  lemma {:induction false} SweptFor(q: Queue, slot: u64, v: Key)
    ensures Queued(q, v) == Queued(Select(q, slot, true), v) + Queued(Select(q, slot, false), v)
  {
    if q == [] {
    } else {
      var p, e := q[..|q| - 1], q[|q| - 1];
      SweptFor(p, slot, v);
      QueuedSnoc(Select(p, slot, true), e, v);
      QueuedSnoc(Select(p, slot, false), e, v);
    }
  }

  /** The queued coins of k that mature with the block. */
  ghost function MaturedFor(s: State, b: Block, k: Key): nat {
    Queued(Select(s.queue, SlotNumber(b.slot), true), k)
  }

  lemma HonestBlock(w: World, s: State, st: Step, s': State, k: Key)
    requires Transition(w, s, st, s') && NeverEquivocated(w.env, k)
    requires Sums.At(s.stakes, k) + Liquid(s.ledger) < TWO64
    ensures Sums.At(s'.stakes, k) + CoinsUnstakedFor(st.block.txs, k)
            == Sums.At(s.stakes, k) + CoinsStakedFor(st.block.txs, k)
    ensures Queued(s'.queue, k) + MaturedFor(s, st.block, k)
            == Queued(s.queue, k) + CoinsUnstakedFor(st.block.txs, k)
  {
    hide Accepts;
    hide HashesOk;
    hide NoCrash;
    hide PurgesPresent;
    hide StakeRun;
    hide NeverEquivocated;
    hide SlashesKey;
    var c, txs := ContextOf(w, s, st.block, st.lookup), st.block.txs;
    HonestList(c, StartStake(s, st.block), txs, k);
    SweptFor(s.queue, SlotNumber(st.block.slot), k);
  }

  lemma NeverSlashedIn(c: Ctx, st: StakeState, txs: seq<Tx>, k: Key)
    requires Accepts(c, txs) && NeverEquivocated(c.env, k)
    ensures !SlashedAmong(c.env, st, txs, c.slot, k)
  {
    hide Accepts;
    hide Gates;
    hide StakeRun;
    hide NeverEquivocated;
    hide SlashesKey;
    forall i | 0 <= i < |txs| ensures !SlashesKey(c.env, StakeRun(c.env, st, txs[..i], c.slot), txs[i], k) {
      AcceptsPrefix(c, txs, i);
      NoSlash(c, ShadowRun(c, txs[..i]), txs[i], StakeRun(c.env, st, txs[..i], c.slot), k);
    }
  }

  // ----- Whole runs -----

  ghost function StakedOver(steps: seq<Step>, k: Key): nat {
    if steps == [] then 0 else StakedOver(steps[..|steps| - 1], k) + CoinsStakedFor(steps[|steps| - 1].block.txs, k)
  }

  ghost function UnstakedOver(steps: seq<Step>, k: Key): nat {
    if steps == [] then 0
    else UnstakedOver(steps[..|steps| - 1], k) + CoinsUnstakedFor(steps[|steps| - 1].block.txs, k)
  }

  /** What the first n blocks of a run sweep off the queue for k. */
  ghost function MaturedOver(states: seq<State>, steps: seq<Step>, n: nat, k: Key): nat
    requires n <= |steps| && |states| == |steps| + 1
  {
    if n == 0 then 0
    else MaturedOver(states, steps, n - 1, k) + MaturedFor(states[n - 1], steps[n - 1].block, k)
  }

  /** Over any run, a validator of whom no two signed blocks for one height have different hashes is never slashed. */
  lemma HonestNeverSlashed(w: World, states: seq<State>, steps: seq<Step>, i: nat, k: Key)
    requires ValidRun(w, states, steps) && i < |steps|
    requires forall a: Bytes, b: Bytes :: !Conflict(w.env, k, a, b)
    ensures !SlashedIn(w, states[i], steps[i].block, k)
  {
    hide Accepts;
    hide HashesOk;
    hide NoCrash;
    hide PurgesPresent;
    hide NextState;
    hide Conflict;
    assert Transition(w, states[i], steps[i], states[i + 1]);
    NeverSlashedIn(ContextOf(w, states[i], steps[i].block, steps[i].lookup), StartStake(states[i], steps[i].block),
                   steps[i].block.txs, k);
  }

  /**
   * Over any run, a validator of whom no two signed blocks for one height have different hashes keeps its coins:
   * its stake is what it had and staked less what it unstaked, its queue what it had and unstaked less what matured.
   */
  lemma {:induction false} HonestValidatorKeepsStake(w: World, states: seq<State>, steps: seq<Step>, n: nat, k: Key)
    requires ValidRun(w, states, steps) && n <= |steps|
    requires forall i :: 0 <= i < n ==> Supply.Coins(states[i]) < TWO64
    requires forall a: Bytes, b: Bytes :: !Conflict(w.env, k, a, b)
    ensures Sums.At(states[n].stakes, k) + UnstakedOver(steps[..n], k)
            == Sums.At(states[0].stakes, k) + StakedOver(steps[..n], k)
    ensures Queued(states[n].queue, k) + MaturedOver(states, steps, n, k)
            == Queued(states[0].queue, k) + UnstakedOver(steps[..n], k)
  {
    hide Transition;
    hide Conflict;
    hide CoinsStakedFor;
    hide CoinsUnstakedFor;
    hide MaturedFor;
    if n == 0 {
    } else {
      HonestValidatorKeepsStake(w, states, steps, n - 1, k);
      assert Transition(w, states[n - 1], steps[n - 1], states[n]);
      assert steps[..n][..n - 1] == steps[..n - 1];
      Sums.TotalBounds(states[n - 1].stakes, k);
      HonestBlock(w, states[n - 1], steps[n - 1], states[n], k);
    }
  }

  /** And what it unstakes at slot t is in the queue, to the last coin, while the latest block is before t + 1000. */
  lemma HonestUnbonding(w: World, states: seq<State>, steps: seq<Step>, a: nat, n: nat, k: Key)
    requires ValidRun(w, states, steps) && WithinDelay(states[0]) && a < n <= |steps|
    requires forall x: Bytes, y: Bytes :: !Conflict(w.env, k, x, y)
    ensures var due := steps[a].block.slot + 1000;
            && due >= 1000
            && QueuedAt(states[n].queue, k, due) ==
                 if states[n].tip.slot < due then CoinsUnstakedFor(steps[a].block.txs, k) else 0
  {
    hide Transition;
    hide Conflict;
    hide SlashedIn;
    hide QueuedAt;
    hide CoinsUnstakedFor;
    forall i | 0 <= i < n ensures !SlashedIn(w, states[i], steps[i].block, k) {
      HonestNeverSlashed(w, states, steps, i, k);
    }
    UnbondingDelay(w, states, steps, a, n, k);
  }

  // ----- Who can be accused -----

  ghost predicate StakesNothing(txs: seq<Tx>, k: Key) {
    forall i :: 0 <= i < |txs| ==> !(txs[i].typ.STAKE? && txs[i].owner == k)
  }

  /** Nothing of k is staked, queued or burned as far as validation has counted. */
  predicate NothingBonded(c: Ctx, sh: Shadow, k: Key) {
    && Stake(c, sh, k) == 0 && PendingStake(c.queue, k) == 0
    && Sums.At(sh.pending, k) == 0 && Sums.At(sh.burned, k) == 0
  }

  lemma UnbondedStep(c: Ctx, sh: Shadow, tx: Tx, k: Key)
    requires Gates(c, sh, tx) && NothingBonded(c, sh, k) && !(tx.typ.STAKE? && tx.owner == k)
    ensures !ProofAgainst(c.env, tx, k) && NothingBonded(c, NextShadow(c, sh, tx), k)
  {
    hide PendingStake;
    if tx.owner != [] { BondGates(c, sh, tx); }
    UnbondedGates(c, sh, tx, k);
    ShadowBonds(c, sh, tx);
    hide Gates;
    hide NextShadow;
  }

  lemma UnbondedGates(c: Ctx, sh: Shadow, tx: Tx, k: Key)
    requires Gates(c, sh, tx) && NothingBonded(c, sh, k)
    ensures !ProofAgainst(c.env, tx, k) && !(tx.typ.UNSTAKE? && tx.owner == k && k != [])
  {
    hide PendingStake;
  }

  lemma {:induction false} UnbondedList(c: Ctx, txs: seq<Tx>, k: Key)
    requires Accepts(c, txs) && NothingBonded(c, EmptyShadow(), k) && StakesNothing(txs, k)
    ensures NothingBonded(c, ShadowRun(c, txs), k)
    ensures forall i :: 0 <= i < |txs| ==> !ProofAgainst(c.env, txs[i], k)
  {
    hide Gates;
    hide NextShadow;
    hide NothingBonded;
    hide ProofAgainst;
    if txs == [] {
    } else {
      var n := |txs| - 1;
      assert forall i :: 0 <= i < n ==> txs[..n][i] == txs[i];
      UnbondedList(c, txs[..n], k);
      UnbondedStep(c, ShadowRun(c, txs[..n]), txs[n], k);
    }
  }

  /** Whoever has nothing staked or queued before a block and stakes nothing in it is not accused in it. */
  lemma OnlyBondedAccused(w: World, states: seq<State>, steps: seq<Step>, n: nat, k: Key)
    requires ValidRun(w, states, steps) && n < |steps|
    requires Sums.At(states[n].stakes, k) == 0 && Queued(states[n].queue, k) == 0
    requires StakesNothing(steps[n].block.txs, k)
    ensures forall i :: 0 <= i < |steps[n].block.txs| ==> !ProofAgainst(w.env, steps[n].block.txs[i], k)
  {
    hide Accepts;
    hide HashesOk;
    hide NoCrash;
    hide PurgesPresent;
    hide NextState;
    hide ProofAgainst;
    assert Transition(w, states[n], steps[n], states[n + 1]);
    NoneQueued(states[n].queue, k);
    UnbondedList(ContextOf(w, states[n], steps[n].block, steps[n].lookup), steps[n].block.txs, k);
  }

  lemma {:induction false} NoneQueued(q: Queue, k: Key)
    requires Queued(q, k) == 0
    ensures PendingStake(q, k) == 0
  {
    if q == [] {
    } else {
      NoneQueued(q[..|q| - 1], k);
    }
  }

  // ----- One punishment per offense -----

  /** The i-th transaction of block n is a proof against k at this height. */
  ghost predicate ProvesAt(w: World, steps: seq<Step>, n: nat, i: nat, k: Key, height: i64) {
    && n < |steps| && i < |steps[n].block.txs| && steps[n].block.txs[i].typ.EQUIVOCATION_PROOF?
    && (var e := w.env.decodeBlock(steps[n].block.txs[i].equivA);
        e.Some? && e.value.leader == k && e.value.index == height)
  }

  lemma ProofGates(c: Ctx, txs: seq<Tx>, i: nat)
    requires Accepts(c, txs) && i < |txs| && txs[i].typ.EQUIVOCATION_PROOF?
    ensures txs[i].owner != [] && txs[i].equivA != [] && c.env.decodeBlock(txs[i].equivA).Some?
    ensures OffenseOf(c.env, txs[i]) !in c.evidence && OffenseOf(c.env, txs[i]) !in ShadowRun(c, txs[..i]).slashed
  {
    AcceptsPrefix(c, txs, i);
    BondGates(c, ShadowRun(c, txs[..i]), txs[i]);
    hide NextShadow;
  }

  lemma {:induction false} SeenOffense(c: Ctx, txs: seq<Tx>, i: nat, j: nat)
    requires Accepts(c, txs) && i < j <= |txs| && txs[i].typ.EQUIVOCATION_PROOF?
    ensures OffenseOf(c.env, txs[i]) in ShadowRun(c, txs[..j]).slashed
  {
    hide Gates;
    hide Accepts;
    ProofGates(c, txs, i);
    assert txs[..j][..j - 1] == txs[..j - 1];
    NextSlashed(c, ShadowRun(c, txs[..j - 1]), txs[j - 1]);
    hide NextShadow;
    if i < j - 1 { SeenOffense(c, txs, i, j - 1); }
  }

  lemma NextSlashed(c: Ctx, sh: Shadow, tx: Tx)
    ensures sh.slashed <= NextShadow(c, sh, tx).slashed
    ensures tx.owner != [] && tx.typ.EQUIVOCATION_PROOF? ==> OffenseOf(c.env, tx) in NextShadow(c, sh, tx).slashed
  {
  }

  lemma EvidenceStep(env: Env, st: StakeState, tx: Tx, slot: i64)
    ensures st.evidence <= ApplyStake(env, st, tx, slot).evidence
    ensures tx.owner != [] && tx.typ.EQUIVOCATION_PROOF? && tx.equivA != [] && env.decodeBlock(tx.equivA).Some? ==>
              OffenseOf(env, tx) in ApplyStake(env, st, tx, slot).evidence
  {
  }

  /** A proof that is applied is on record from then on. */
  lemma {:induction false} EvidenceKept(env: Env, st: StakeState, txs: seq<Tx>, slot: i64)
    ensures st.evidence <= StakeRun(env, st, txs, slot).evidence
    ensures forall i :: 0 <= i < |txs| && txs[i].owner != [] && txs[i].typ.EQUIVOCATION_PROOF? && txs[i].equivA != []
                        && env.decodeBlock(txs[i].equivA).Some? ==>
                          OffenseOf(env, txs[i]) in StakeRun(env, st, txs, slot).evidence
  {
    hide ApplyStake;
    if txs == [] {
    } else {
      var n := |txs| - 1;
      EvidenceKept(env, st, txs[..n], slot);
      EvidenceStep(env, StakeRun(env, st, txs[..n], slot), txs[n], slot);
    }
  }

  lemma BlockEvidence(w: World, s: State, st: Step, s': State)
    requires Transition(w, s, st, s')
    ensures s.evidence <= s'.evidence
    ensures forall i :: 0 <= i < |st.block.txs| && st.block.txs[i].typ.EQUIVOCATION_PROOF? ==>
                          && w.env.decodeBlock(st.block.txs[i].equivA).Some?
                          && OffenseOf(w.env, st.block.txs[i]) in s'.evidence
                          && OffenseOf(w.env, st.block.txs[i]) !in s.evidence
  {
    hide Accepts;
    hide HashesOk;
    hide NoCrash;
    hide PurgesPresent;
    hide StakeRun;
    hide OffenseOf;
    var c, txs := ContextOf(w, s, st.block, st.lookup), st.block.txs;
    EvidenceKept(w.env, StartStake(s, st.block), txs, st.block.slot);
    forall i | 0 <= i < |txs| && txs[i].typ.EQUIVOCATION_PROOF?
      ensures w.env.decodeBlock(txs[i].equivA).Some? && OffenseOf(w.env, txs[i]) in s'.evidence
      ensures OffenseOf(w.env, txs[i]) !in s.evidence
    {
      ProofGates(c, txs, i);
    }
  }

  lemma {:induction false} EvidenceGrows(w: World, states: seq<State>, steps: seq<Step>, m: nat, n: nat)
    requires ValidRun(w, states, steps) && m <= n <= |steps|
    ensures states[m].evidence <= states[n].evidence
  {
    hide Transition;
    if m == n {
    } else {
      EvidenceGrows(w, states, steps, m, n - 1);
      assert Transition(w, states[n - 1], steps[n - 1], states[n]);
      BlockEvidence(w, states[n - 1], steps[n - 1], states[n]);
    }
  }

  lemma OneProofPerHeight(w: World, s: State, st: Step, s': State, i: nat, j: nat)
    requires Transition(w, s, st, s') && i < j < |st.block.txs|
    requires st.block.txs[i].typ.EQUIVOCATION_PROOF? && st.block.txs[j].typ.EQUIVOCATION_PROOF?
    ensures OffenseOf(w.env, st.block.txs[i]) != OffenseOf(w.env, st.block.txs[j])
  {
    hide HashesOk;
    hide NoCrash;
    hide PurgesPresent;
    hide NextState;
    hide Accepts;
    hide OffenseOf;
    var c := ContextOf(w, s, st.block, st.lookup);
    SeenOffense(c, st.block.txs, i, j);
    ProofGates(c, st.block.txs, j);
  }

  /** Over any run no offense is punished twice: there is at most one proof against a validator for one height. */
  lemma PunishedOnce(w: World, states: seq<State>, steps: seq<Step>, n: nat, i: nat, n': nat, i': nat, k: Key,
                     height: i64)
    requires ValidRun(w, states, steps)
    requires ProvesAt(w, steps, n, i, k, height) && ProvesAt(w, steps, n', i', k, height)
    ensures n == n' && i == i'
  {
    hide Transition;
    assert Transition(w, states[n], steps[n], states[n + 1]) && Transition(w, states[n'], steps[n'], states[n' + 1]);
    BlockEvidence(w, states[n], steps[n], states[n + 1]);
    BlockEvidence(w, states[n'], steps[n'], states[n' + 1]);
    if n < n' {
      EvidenceGrows(w, states, steps, n + 1, n');
    } else if n' < n {
      EvidenceGrows(w, states, steps, n' + 1, n);
    } else if i < i' {
      OneProofPerHeight(w, states[n], steps[n], states[n + 1], i, i');
    } else if i' < i {
      OneProofPerHeight(w, states[n], steps[n], states[n + 1], i', i);
    }
  }
}
