/** The unbonding delay over whole runs: when unstaked coins are queued, and when they are gone. */
module Unbonding {
  import opened Basics
  import opened Config
  import opened Transactions
  import opened Staking
  import opened Validation
  import opened Application
  import opened Blocks
  import opened ShadowStake

  // ----- The coins of one validator that mature at one slot -----

  /** What v has queued for slot m. */
  ghost function QueuedAt(q: Queue, v: Key, m: u64): nat {
    if q == [] then 0
    else
      var e := q[|q| - 1];
      QueuedAt(q[..|q| - 1], v, m) + (if e.validator == v && e.matureSlot == m then e.amount else 0)
  }

  lemma QueuedAtSnoc(q: Queue, e: Pending, v: Key, m: u64)
    ensures QueuedAt(q + [e], v, m) ==
            QueuedAt(q, v, m) + (if e.validator == v && e.matureSlot == m then e.amount else 0)
  {
    assert (q + [e])[..|q|] == q;
  }

  lemma {:induction false} CompactKeepsAt(q: Queue, v: Key, m: u64)
    ensures QueuedAt(Compact(q), v, m) == QueuedAt(q, v, m)
  {
    if q == [] {
    } else {
      CompactKeepsAt(q[..|q| - 1], v, m);
      QueuedAtSnoc(Compact(q[..|q| - 1]), q[|q| - 1], v, m);
    }
  }

  /** A burn takes nothing from other validators, and gives nothing to anybody. */
  lemma {:induction false} BurnedAt(q: Queue, k: Key, amount: u64, v: Key, m: u64)
    ensures QueuedAt(Burned(q, k, amount), v, m) <= QueuedAt(q, v, m)
    ensures v != k ==> QueuedAt(Burned(q, k, amount), v, m) == QueuedAt(q, v, m)
  {
    if q == [] {
    } else {
      var p := q[..|q| - 1];
      BurnedAt(p, k, amount, v, m);
      QueuedAtSnoc(Burned(p, k, amount), Drawn(q[|q| - 1], k, Need(p, k, amount)), v, m);
    }
  }

  /** The sweep takes what is due and leaves the rest. */
  lemma {:induction false} SweptAt(q: Queue, slot: u64, v: Key, m: u64)
    ensures QueuedAt(Select(q, slot, false), v, m) == if m <= slot then 0 else QueuedAt(q, v, m)
  {
    if q == [] {
    } else {
      var p, e := q[..|q| - 1], q[|q| - 1];
      SweptAt(p, slot, v, m);
      QueuedAtSnoc(Select(p, slot, false), e, v, m);
    }
  }

  // ----- One transaction -----

  /** What tx unstakes for v. */
  function UnstakedFor(tx: Tx, v: Key): nat {
    if v != [] && tx.owner == v && tx.typ.UNSTAKE? then tx.stakeAmount else 0
  }

  function CoinsUnstakedFor(txs: seq<Tx>, v: Key): nat {
    if txs == [] then 0 else CoinsUnstakedFor(txs[..|txs| - 1], v) + UnstakedFor(txs[|txs| - 1], v)
  }

  predicate SlashesKey(env: Env, st: StakeState, tx: Tx, v: Key) {
    Slashes(env, st, tx) && Offender(env, tx) == v
  }

  lemma SlashAt(st: StakeState, k: Key, v: Key, m: u64)
    ensures QueuedAt(Slash(st, k).queue, v, m) <= QueuedAt(st.queue, v, m)
    ensures v != k ==> QueuedAt(Slash(st, k).queue, v, m) == QueuedAt(st.queue, v, m)
  {
    var staked := Sums.At(st.stakes, k);
    var slash := ComputeSlashAmount(Add64(staked, PendingStake(st.queue, k)), SLASHING_PERCENT);
    if slash > staked {
      BurnedAt(st.queue, k, slash - staked, v, m);
      CompactKeepsAt(Burned(st.queue, k, slash - staked), v, m);
    }
  }

  /** What is unstaked is queued for a thousand slots later, and only a slash of the validator takes it out again. */
  lemma StepAt(env: Env, st: StakeState, tx: Tx, slot: i64, v: Key, m: u64)
    requires slot >= 0
    ensures var added := if m == slot + 1000 then UnstakedFor(tx, v) else 0;
            var q := ApplyStake(env, st, tx, slot).queue;
            && QueuedAt(q, v, m) <= QueuedAt(st.queue, v, m) + added
            && (!SlashesKey(env, st, tx, v) ==> QueuedAt(q, v, m) == QueuedAt(st.queue, v, m) + added)
  {
    hide Slash;
    if tx.owner != [] && tx.typ.UNSTAKE? {
      QueuedAtSnoc(st.queue, Pending(tx.owner, tx.stakeAmount, Add64(SlotNumber(slot), UNSTAKE_DELAY_SLOTS)), v, m);
    } else if Slashes(env, st, tx) {
      SlashAt(st, Offender(env, tx), v, m);
    }
  }

  // ----- One block -----

  /** Some transaction of the list slashes v. */
  ghost predicate SlashedAmong(env: Env, st: StakeState, txs: seq<Tx>, slot: i64, v: Key) {
    exists i :: 0 <= i < |txs| && SlashesKey(env, StakeRun(env, st, txs[..i], slot), txs[i], v)
  }

  lemma SlashedAmongPrefix(env: Env, st: StakeState, txs: seq<Tx>, slot: i64, v: Key)
    requires txs != [] && !SlashedAmong(env, st, txs, slot, v)
    ensures var n := |txs| - 1;
            && !SlashedAmong(env, st, txs[..n], slot, v)
            && !SlashesKey(env, StakeRun(env, st, txs[..n], slot), txs[n], v)
  {
    hide SlashesKey;
    hide StakeRun;
    var n := |txs| - 1;
    forall i | 0 <= i < n ensures !SlashesKey(env, StakeRun(env, st, txs[..n][..i], slot), txs[..n][i], v) {
      assert txs[..n][..i] == txs[..i];
    }
  }

  lemma {:induction false} ListAt(env: Env, st: StakeState, txs: seq<Tx>, slot: i64, v: Key, m: u64)
    requires slot >= 0
    ensures var added := if m == slot + 1000 then CoinsUnstakedFor(txs, v) else 0;
            var q := StakeRun(env, st, txs, slot).queue;
            && QueuedAt(q, v, m) <= QueuedAt(st.queue, v, m) + added
            && (!SlashedAmong(env, st, txs, slot, v) ==> QueuedAt(q, v, m) == QueuedAt(st.queue, v, m) + added)
  {
    hide ApplyStake;
    hide SlashesKey;
    hide SlashedAmong;
    if txs == [] {
    } else {
      var n := |txs| - 1;
      ListAt(env, st, txs[..n], slot, v, m);
      StepAt(env, StakeRun(env, st, txs[..n], slot), txs[n], slot, v, m);
      if !SlashedAmong(env, st, txs, slot, v) { SlashedAmongPrefix(env, st, txs, slot, v); }
    }
  }

  ghost predicate SlashedIn(w: World, s: State, b: Block, v: Key) {
    SlashedAmong(w.env, StartStake(s, b), b.txs, b.slot, v)
  }

  lemma BlockAt(w: World, s: State, st: Step, s': State, v: Key, m: u64)
    requires Transition(w, s, st, s') && s.tip.slot >= 0
    ensures var b := st.block;
            var kept := if m <= b.slot then 0 else QueuedAt(s.queue, v, m);
            var added := if m == b.slot + 1000 then CoinsUnstakedFor(b.txs, v) else 0;
            && s.tip.slot < b.slot == s'.tip.slot
            && QueuedAt(s'.queue, v, m) <= kept + added
            && (!SlashedIn(w, s, b, v) ==> QueuedAt(s'.queue, v, m) == kept + added)
  {
    hide Accepts;
    hide HashesOk;
    hide NoCrash;
    hide PurgesPresent;
    hide SlashedAmong;
    hide StakeRun;
    SweptAt(s.queue, SlotNumber(st.block.slot), v, m);
    ListAt(w.env, StartStake(s, st.block), st.block.txs, st.block.slot, v, m);
  }

  // ----- Whole runs -----

  /** Nothing is queued for longer than the delay from now. */
  ghost predicate WithinDelay(s: State) {
    s.tip.slot >= 0 && forall v: Key, m: u64 :: m > s.tip.slot + 1000 ==> QueuedAt(s.queue, v, m) == 0
  }

  lemma {:induction false} RunWithinDelay(w: World, states: seq<State>, steps: seq<Step>, n: nat)
    requires ValidRun(w, states, steps) && n <= |steps| && WithinDelay(states[0])
    ensures WithinDelay(states[n])
  {
    hide Transition;
    if n == 0 {
    } else {
      RunWithinDelay(w, states, steps, n - 1);
      assert Transition(w, states[n - 1], steps[n - 1], states[n]);
      forall v: Key, m: u64 | m > states[n].tip.slot + 1000 ensures QueuedAt(states[n].queue, v, m) == 0 {
        BlockAt(w, states[n - 1], steps[n - 1], states[n], v, m);
      }
      BlockAt(w, states[n - 1], steps[n - 1], states[n], [], 0);
    }
  }

  /** v is slashed in one of the blocks from a on, before n. */
  ghost predicate SlashedBetween(w: World, states: seq<State>, steps: seq<Step>, a: nat, n: nat, v: Key)
    requires |states| == |steps| + 1
  {
    exists i :: a <= i < n && i < |steps| && SlashedIn(w, states[i], steps[i].block, v)
  }

  /**
   * Over any run: the coins that v unstakes in a block of slot t are all in the queue, unless v has been slashed since,
   * in every state whose latest block is before slot t + 1000, and in no state after that.
   */
  lemma {:induction false} UnbondingDelay(w: World, states: seq<State>, steps: seq<Step>, a: nat, n: nat, v: Key)
    requires ValidRun(w, states, steps) && WithinDelay(states[0]) && a < n <= |steps|
    ensures var t := steps[a].block.slot;
            var due := t + 1000;
            && t >= 0
            && (states[n].tip.slot < due ==>
                  && QueuedAt(states[n].queue, v, due) <= CoinsUnstakedFor(steps[a].block.txs, v)
                  && (SlashedBetween(w, states, steps, a, n, v)
                      || QueuedAt(states[n].queue, v, due) == CoinsUnstakedFor(steps[a].block.txs, v)))
            && (states[n].tip.slot >= due ==> QueuedAt(states[n].queue, v, due) == 0)
  {
    hide Transition;
    hide SlashedIn;
    hide CoinsUnstakedFor;
    RunWithinDelay(w, states, steps, a);
    RunWithinDelay(w, states, steps, n - 1);
    assert Transition(w, states[a], steps[a], states[a + 1]);
    assert Transition(w, states[n - 1], steps[n - 1], states[n]);
    SlotGrows(w, states[a], steps[a], states[a + 1]);
    var due := steps[a].block.slot + 1000;
    BlockAt(w, states[a], steps[a], states[a + 1], v, due);
    BlockAt(w, states[n - 1], steps[n - 1], states[n], v, due);
    if n > a + 1 {
      UnbondingDelay(w, states, steps, a, n - 1, v);
      SlotsGrow(w, states, steps, a + 1, n - 1);
    }
  }

  lemma {:induction false} SlotsGrow(w: World, states: seq<State>, steps: seq<Step>, m: nat, n: nat)
    requires ValidRun(w, states, steps) && m <= n <= |steps|
    ensures states[n].tip.slot - states[m].tip.slot >= n - m
  {
    hide Transition;
    if m == n {
    } else {
      SlotsGrow(w, states, steps, m, n - 1);
      assert Transition(w, states[n - 1], steps[n - 1], states[n]);
      SlotGrows(w, states[n - 1], steps[n - 1], states[n]);
    }
  }

  lemma SlotGrows(w: World, s: State, st: Step, s': State)
    requires Transition(w, s, st, s')
    ensures s.tip.slot < st.block.slot == s'.tip.slot
  {
    hide Accepts;
    hide HashesOk;
    hide NoCrash;
    hide PurgesPresent;
  }
}
