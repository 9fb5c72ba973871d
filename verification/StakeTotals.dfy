/**
 * Bonded coins and the stake floor over any transaction list, whether or not validation's stakes are the applied ones.
 */
module StakeTotals {
  import opened Basics
  import opened Config
  import opened Transactions
  import opened Validation
  import opened Application
  import opened ShadowLedger
  import opened ShadowStake

  // ----- Coverage -----

  /** What all UNSTAKEs of the list ask beyond the stakes they are applied to. */
  ghost function UncoveredRun(env: Env, st: StakeState, txs: seq<Tx>, slot: i64): nat {
    if txs == [] then 0
    else
      var p := txs[..|txs| - 1];
      UncoveredRun(env, st, p, slot) + Uncovered(StakeRun(env, st, p, slot), txs[|txs| - 1])
  }

  /** Every UNSTAKE finds the stake that it asks for. */
  ghost predicate AllCovered(env: Env, st: StakeState, txs: seq<Tx>, slot: i64) {
    forall i :: 0 <= i < |txs| ==> Unstakeable(StakeRun(env, st, txs[..i], slot), txs[i])
  }

  lemma {:induction false} CoveredIff(env: Env, st: StakeState, txs: seq<Tx>, slot: i64)
    ensures UncoveredRun(env, st, txs, slot) == 0 <==> AllCovered(env, st, txs, slot)
  {
    hide ApplyStake;
    if txs == [] {
    } else {
      var n := |txs| - 1;
      var p := txs[..n];
      CoveredIff(env, st, p, slot);
      assert forall i :: 0 <= i < n ==> p[..i] == txs[..i] && p[i] == txs[i];
      if AllCovered(env, st, txs, slot) {
        forall i | 0 <= i < n ensures Unstakeable(StakeRun(env, st, p[..i], slot), p[i]) {
          assert Unstakeable(StakeRun(env, st, txs[..i], slot), txs[i]);
        }
      }
    }
  }

  /** For every list: staked coins come in, slashed coins go out, and what is not covered is added to the queue. */
  lemma {:induction false} StakeRunTotals(env: Env, st: StakeState, txs: seq<Tx>, slot: i64)
    requires Bonded(st) + CoinsStaked(txs) + UncoveredRun(env, st, txs, slot) < TWO64
    ensures Bonded(StakeRun(env, st, txs, slot)) + SlashedRun(env, st, txs, slot)
            == Bonded(st) + CoinsStaked(txs) + UncoveredRun(env, st, txs, slot)
  {
    hide ApplyStake;
    hide Bonded;
    if txs == [] {
    } else {
      var p := txs[..|txs| - 1];
      StakeRunTotals(env, st, p, slot);
      StakeStepTotals(env, StakeRun(env, st, p, slot), txs[|txs| - 1], slot);
    }
  }

  lemma {:induction false} BondedPrefix(env: Env, st: StakeState, txs: seq<Tx>, slot: i64, n: nat)
    requires n < |txs| && Bonded(st) + CoinsStaked(txs) + UncoveredRun(env, st, txs, slot) < TWO64
    ensures Bonded(StakeRun(env, st, txs[..n], slot)) + StakedBy(txs[n]) < TWO64
    decreases |txs|
  {
    hide ApplyStake;
    hide Bonded;
    var p := txs[..|txs| - 1];
    if n == |p| {
      StakeRunTotals(env, st, p, slot);
    } else {
      BondedPrefix(env, st, p, slot, n);
      assert p[..n] == txs[..n];
    }
  }

  /** Where validation's stakes are the applied ones, every accepted UNSTAKE is covered. */
  lemma FittingIsCovered(c: Ctx, st: StakeState, txs: seq<Tx>)
    requires Accepts(c, txs) && SlashesFit(c, txs) && Starts(c, st)
    ensures AllCovered(c.env, st, txs, c.slot)
  {
    forall i | 0 <= i < |txs| ensures Unstakeable(StakeRun(c.env, st, txs[..i], c.slot), txs[i]) {
      UnstakesAreCovered(c, st, txs, i);
    }
  }

  // ----- The floor -----

  /** The threshold checks of STAKE and UNSTAKE, made against the stake that the transaction is applied to. */
  predicate FloorMet(st: StakeState, tx: Tx) {
    var staked := Sums.At(st.stakes, tx.owner);
    && (tx.owner != [] && tx.typ.STAKE? ==> staked > 0 || tx.stakeAmount >= MIN_STAKE_THRESHOLD)
    && (tx.owner != [] && tx.typ.UNSTAKE? ==>
          staked <= tx.stakeAmount || staked - tx.stakeAmount >= MIN_STAKE_THRESHOLD)
  }

  lemma FloorStepIff(env: Env, st: StakeState, tx: Tx, slot: i64)
    requires Floored(st.stakes) && Bonded(st) + StakedBy(tx) < TWO64 && (tx.typ.STAKE? ==> tx.stakeAmount > 0)
    ensures Floored(ApplyStake(env, st, tx, slot).stakes) <==> FloorMet(st, tx)
  {
    hide ApplyStake;
    hide Bonded;
    var m := ApplyStake(env, st, tx, slot).stakes;
    StakeStepAt(env, st, tx, slot, tx.owner);
    if FloorMet(st, tx) {
      forall k ensures Sums.At(m, k) == 0 || Sums.At(m, k) >= MIN_STAKE_THRESHOLD {
        StakeStepAt(env, st, tx, slot, k);
        assert Sums.At(st.stakes, k) == 0 || Sums.At(st.stakes, k) >= MIN_STAKE_THRESHOLD;
      }
    } else {
      assert !(Sums.At(m, tx.owner) == 0 || Sums.At(m, tx.owner) >= MIN_STAKE_THRESHOLD);
    }
  }

  ghost predicate AlwaysFloored(env: Env, st: StakeState, txs: seq<Tx>, slot: i64) {
    forall n :: 0 <= n <= |txs| ==> Floored(StakeRun(env, st, txs[..n], slot).stakes)
  }

  ghost predicate AllFloorMet(env: Env, st: StakeState, txs: seq<Tx>, slot: i64) {
    forall i :: 0 <= i < |txs| ==> FloorMet(StakeRun(env, st, txs[..i], slot), txs[i])
  }

  predicate StakesSomething(txs: seq<Tx>) {
    forall i :: 0 <= i < |txs| && txs[i].typ.STAKE? ==> txs[i].stakeAmount > 0
  }

  /**
   * Every stake is zero or at least the threshold after every prefix exactly when those checks hold of the applied
   * stakes.
   */
  lemma FloorIff(env: Env, st: StakeState, txs: seq<Tx>, slot: i64)
    requires Floored(st.stakes) && StakesSomething(txs)
    requires Bonded(st) + CoinsStaked(txs) + UncoveredRun(env, st, txs, slot) < TWO64
    ensures AlwaysFloored(env, st, txs, slot) <==> AllFloorMet(env, st, txs, slot)
  {
    hide ApplyStake;
    hide Floored;
    if AllFloorMet(env, st, txs, slot) {
      forall n | 0 <= n <= |txs| ensures Floored(StakeRun(env, st, txs[..n], slot).stakes) {
        FloorUpTo(env, st, txs, slot, n);
      }
    }
    if AlwaysFloored(env, st, txs, slot) {
      forall i | 0 <= i < |txs| ensures FloorMet(StakeRun(env, st, txs[..i], slot), txs[i]) {
        FloorAt(env, st, txs, slot, i);
      }
    }
  }

  lemma {:induction false} FloorUpTo(env: Env, st: StakeState, txs: seq<Tx>, slot: i64, n: nat)
    requires Floored(st.stakes) && StakesSomething(txs) && AllFloorMet(env, st, txs, slot) && n <= |txs|
    requires Bonded(st) + CoinsStaked(txs) + UncoveredRun(env, st, txs, slot) < TWO64
    ensures Floored(StakeRun(env, st, txs[..n], slot).stakes)
  {
    hide ApplyStake;
    hide Floored;
    hide Bonded;
    hide UncoveredRun;
    hide CoinsStaked;
    hide FloorMet;
    if n == 0 {
      assert txs[..0] == [];
    } else {
      FloorUpTo(env, st, txs, slot, n - 1);
      BondedPrefix(env, st, txs, slot, n - 1);
      FloorStepIff(env, StakeRun(env, st, txs[..n - 1], slot), txs[n - 1], slot);
      assert txs[..n][..n - 1] == txs[..n - 1];
    }
  }

  lemma FloorAt(env: Env, st: StakeState, txs: seq<Tx>, slot: i64, i: nat)
    requires Floored(st.stakes) && StakesSomething(txs) && AlwaysFloored(env, st, txs, slot) && i < |txs|
    requires Bonded(st) + CoinsStaked(txs) + UncoveredRun(env, st, txs, slot) < TWO64
    ensures FloorMet(StakeRun(env, st, txs[..i], slot), txs[i])
  {
    hide ApplyStake;
    hide Floored;
    hide Bonded;
    hide UncoveredRun;
    hide CoinsStaked;
    hide FloorMet;
    BondedPrefix(env, st, txs, slot, i);
    FloorStepIff(env, StakeRun(env, st, txs[..i], slot), txs[i], slot);
    assert txs[..i + 1][..i] == txs[..i];
    assert Floored(StakeRun(env, st, txs[..i], slot).stakes) && Floored(StakeRun(env, st, txs[..i + 1], slot).stakes);
  }

  lemma AcceptedStakesSomething(c: Ctx, txs: seq<Tx>)
    requires Accepts(c, txs)
    ensures StakesSomething(txs)
  {
    hide Gates;
    hide NextShadow;
    forall i | 0 <= i < |txs| && txs[i].typ.STAKE? ensures txs[i].stakeAmount > 0 {
      AcceptsPrefix(c, txs, i);
      StakeIsPositive(c, ShadowRun(c, txs[..i]), txs[i]);
    }
  }

  lemma StakeIsPositive(c: Ctx, sh: Shadow, tx: Tx)
    requires Gates(c, sh, tx) && tx.typ.STAKE?
    ensures tx.stakeAmount > 0
  {
  }
}
