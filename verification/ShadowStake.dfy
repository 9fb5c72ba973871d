/** Validation's running stakes against the stake map and unbonding queue that are later built. */
module ShadowStake {
  import opened Basics
  import opened Sums
  import opened Config
  import opened Transactions
  import opened Ledger
  import opened Staking
  import opened Validation
  import opened Application
  import opened ShadowLedger

  // ----- One slash -----

  /** Coins bonded in any way. */
  ghost function Bonded(st: StakeState): nat {
    Total(st.stakes) + QueueTotal(st.queue)
  }

  lemma BondedCovers(st: StakeState, k: Key)
    ensures Sums.At(st.stakes, k) + Queued(st.queue, k) <= Bonded(st)
  {
    TotalBounds(st.stakes, k);
    QueuedBelowTotal(st.queue, k);
  }

  /** Burning all that k has queued. */
  lemma BurnAll(q: Queue, k: Key)
    requires 0 < Queued(q, k) < TWO64
    ensures QueueTotal(BurnedAndCompacted(q, k, Queued(q, k))) == QueueTotal(q) - Queued(q, k)
    ensures Queued(BurnedAndCompacted(q, k, Queued(q, k)), k) == 0
  {
    BurnedExactly(q, k, Queued(q, k));
    CompactKeeps(Burned(q, k, Queued(q, k)), k);
  }

  /** As long as nothing wraps, a slash is the whole stake and the whole queue of its offender. */
  lemma SlashShape(st: StakeState, k: Key)
    requires Bonded(st) < TWO64
    ensures Queued(st.queue, k) < TWO64
    ensures Slash(st, k) ==
            st.(stakes := StakeReduced(st.stakes, k, Sums.At(st.stakes, k)),
                queue := if Queued(st.queue, k) == 0 then st.queue
                         else BurnedAndCompacted(st.queue, k, Queued(st.queue, k)))
  {
    PendingStakeExact(st.queue, k);
    BondedCovers(st, k);
  }

  /** A slash takes everything its offender has bonded, and nothing of anybody else's. */
  lemma SlashTakesAll(st: StakeState, k: Key)
    requires Bonded(st) < TWO64
    ensures Bonded(Slash(st, k)) == Bonded(st) - Sums.At(st.stakes, k) - Queued(st.queue, k)
    ensures Sums.At(Slash(st, k).stakes, k) == 0 && Queued(Slash(st, k).queue, k) == 0
    ensures forall j :: j != k ==> Sums.At(Slash(st, k).stakes, j) == Sums.At(st.stakes, j)
  {
    SlashShape(st, k);
    hide Slash;
    hide BurnedAndCompacted;
    hide StakeReduced;
    TotalStakeReduced(st.stakes, k, Sums.At(st.stakes, k));
    if Queued(st.queue, k) > 0 { BurnAll(st.queue, k); }
  }

  lemma SlashKeepsOtherQueues(st: StakeState, k: Key, j: Key)
    requires Bonded(st) < TWO64 && j != k
    ensures Queued(Slash(st, k).queue, j) == Queued(st.queue, j)
  {
    SlashShape(st, k);
    var queued := Queued(st.queue, k);
    if queued > 0 {
      BurnedKeepsOthers(st.queue, k, queued, j);
      CompactKeeps(Burned(st.queue, k, queued), j);
    }
  }

  // ----- One transaction -----

  /** What tx slashes when it is applied to st. */
  ghost function SlashedBy(env: Env, st: StakeState, tx: Tx): nat {
    if Slashes(env, st, tx)
    then Sums.At(st.stakes, Offender(env, tx)) + Queued(st.queue, Offender(env, tx))
    else 0
  }

  predicate Slashes(env: Env, st: StakeState, tx: Tx) {
    && tx.owner != [] && tx.typ.EQUIVOCATION_PROOF?
    && tx.equivA != [] && env.decodeBlock(tx.equivA).Some? && OffenseOf(env, tx) !in st.evidence
  }

  /** An UNSTAKE that asks for more than the stake would mint queued coins. */
  predicate Unstakeable(st: StakeState, tx: Tx) {
    tx.owner != [] && tx.typ.UNSTAKE? ==> tx.stakeAmount <= Sums.At(st.stakes, tx.owner)
  }

  /** What an UNSTAKE asks beyond the stake it is applied to; the queue gets it all the same. */
  function Uncovered(st: StakeState, tx: Tx): nat {
    if Unstakeable(st, tx) then 0 else tx.stakeAmount - Sums.At(st.stakes, tx.owner)
  }

  /** Staked coins come in, slashed coins go out, and an UNSTAKE adds what its stake does not cover. */
  lemma StakeStepTotals(env: Env, st: StakeState, tx: Tx, slot: i64)
    requires Bonded(st) + StakedBy(tx) < TWO64
    ensures Bonded(ApplyStake(env, st, tx, slot)) + SlashedBy(env, st, tx) ==
            Bonded(st) + StakedBy(tx) + Uncovered(st, tx)
  {
    hide Slash;
    if tx.owner != [] {
      match tx.typ {
        case STAKE =>
          BondedCovers(st, tx.owner);
          TotalUpdate(st.stakes, tx.owner, Add64(Sums.At(st.stakes, tx.owner), tx.stakeAmount));
        case UNSTAKE =>
          TotalStakeReduced(st.stakes, tx.owner, tx.stakeAmount);
          QueuedSnoc(st.queue, Pending(tx.owner, tx.stakeAmount, Add64(SlotNumber(slot), UNSTAKE_DELAY_SLOTS)),
                     tx.owner);
        case EQUIVOCATION_PROOF =>
          if Slashes(env, st, tx) { SlashTakesAll(st, Offender(env, tx)); }
        case _ =>
      }
    }
  }

  /** What tx does to one stake. */
  lemma StakeStepAt(env: Env, st: StakeState, tx: Tx, slot: i64, k: Key)
    requires Bonded(st) + StakedBy(tx) < TWO64
    ensures Sums.At(ApplyStake(env, st, tx, slot).stakes, k) ==
            if tx.owner != [] && tx.typ.STAKE? && k == tx.owner then Sums.At(st.stakes, k) + tx.stakeAmount
            else if tx.owner != [] && tx.typ.UNSTAKE? && k == tx.owner
            then Sums.At(st.stakes, k) - Min(tx.stakeAmount, Sums.At(st.stakes, k))
            else if Slashes(env, st, tx) && k == Offender(env, tx) then 0
            else Sums.At(st.stakes, k)
  {
    hide Slash;
    if tx.owner != [] {
      match tx.typ {
        case STAKE =>
          BondedCovers(st, tx.owner);
        case UNSTAKE =>
          TotalStakeReduced(st.stakes, tx.owner, tx.stakeAmount);
        case EQUIVOCATION_PROOF =>
          if Slashes(env, st, tx) { SlashTakesAll(st, Offender(env, tx)); }
        case _ =>
      }
    }
  }

  // ----- The simulation -----

  /** Validation's sum of an offender's stake and queue does not wrap around. */
  predicate SlashFits(c: Ctx, sh: Shadow, tx: Tx) {
    tx.typ.EQUIVOCATION_PROOF? ==>
      Stake(c, sh, Offender(c.env, tx)) + QueuePart(c, sh, Offender(c.env, tx)) < TWO64
  }

  predicate SlashesFit(c: Ctx, txs: seq<Tx>) {
    txs == [] || (SlashesFit(c, txs[..|txs| - 1]) && SlashFits(c, ShadowRun(c, txs[..|txs| - 1]), txs[|txs| - 1]))
  }

  /** The running stakes are the applied ones, and so is the set of punished offenses. */
  ghost predicate StakesAgree(c: Ctx, sh: Shadow, st: StakeState) {
    && (forall k :: Stake(c, sh, k) == Sums.At(st.stakes, k))
    && st.evidence == c.evidence + sh.slashed
  }

  /** What validation does to one stake. */
  lemma ShadowStakeAt(c: Ctx, sh: Shadow, tx: Tx, k: Key)
    requires Gates(c, sh, tx)
    ensures SlashFits(c, sh, tx) && Stake(c, sh, tx.owner) + StakedBy(tx) < TWO64 ==>
              Stake(c, NextShadow(c, sh, tx), k) ==
                if tx.owner != [] && tx.typ.STAKE? && k == tx.owner then Stake(c, sh, k) + tx.stakeAmount
                else if tx.owner != [] && tx.typ.UNSTAKE? && k == tx.owner then Stake(c, sh, k) - tx.stakeAmount
                else if tx.owner != [] && tx.typ.EQUIVOCATION_PROOF? && k == Offender(c.env, tx) then 0
                else Stake(c, sh, k)
  {
  }

  lemma ShadowSlashed(c: Ctx, sh: Shadow, tx: Tx)
    ensures NextShadow(c, sh, tx).slashed ==
            if tx.owner != [] && tx.typ.EQUIVOCATION_PROOF? then sh.slashed + {OffenseOf(c.env, tx)} else sh.slashed
  {
  }

  /** The gates that concern bonded coins. */
  lemma BondGates(c: Ctx, sh: Shadow, tx: Tx)
    requires Gates(c, sh, tx) && tx.owner != []
    ensures tx.typ.UNSTAKE? ==> tx.stakeAmount <= Stake(c, sh, tx.owner)
    ensures tx.typ.EQUIVOCATION_PROOF? ==>
              && tx.equivA != [] && c.env.decodeBlock(tx.equivA).Some?
              && OffenseOf(c.env, tx) !in c.evidence && OffenseOf(c.env, tx) !in sh.slashed
  {
  }

  lemma AgreeStep(c: Ctx, sh: Shadow, st: StakeState, tx: Tx, slot: i64)
    requires Gates(c, sh, tx) && SlashFits(c, sh, tx)
    requires StakesAgree(c, sh, st) && Bonded(st) + StakedBy(tx) < TWO64
    ensures Unstakeable(st, tx)
    ensures StakesAgree(c, NextShadow(c, sh, tx), ApplyStake(c.env, st, tx, slot))
  {
    hide Slash;
    hide Gates;
    hide NextShadow;
    BondedCovers(st, tx.owner);
    ShadowSlashed(c, sh, tx);
    if tx.owner != [] { BondGates(c, sh, tx); }
    var st' := ApplyStake(c.env, st, tx, slot);
    assert tx.owner != [] && tx.typ.EQUIVOCATION_PROOF? ==> Slashes(c.env, st, tx);
    forall k ensures Stake(c, NextShadow(c, sh, tx), k) == Sums.At(st'.stakes, k) {
      ShadowStakeAt(c, sh, tx, k);
      StakeStepAt(c.env, st, tx, slot, k);
    }
  }

  ghost function SlashedRun(env: Env, st: StakeState, txs: seq<Tx>, slot: i64): nat {
    if txs == [] then 0
    else
      var p := txs[..|txs| - 1];
      SlashedRun(env, st, p, slot) + SlashedBy(env, StakeRun(env, st, p, slot), txs[|txs| - 1])
  }

  /** The stake phase of a block starts where validation starts, with a queue that validation has not swept. */
  ghost predicate Starts(c: Ctx, st: StakeState) {
    && st.stakes == c.stakes && st.evidence == c.evidence
    && QueueTotal(st.queue) <= QueueTotal(c.queue)
    && Liquid(c.ledger) + Total(c.stakes) + QueueTotal(c.queue) < TWO64
  }

  /**
   * As long as no slash wraps around, after every accepted list the running stakes are the
   * applied stakes, and staking, unstaking and slashing conserve the bonded coins.
   */
  lemma {:induction false} StakeSimulation(c: Ctx, st: StakeState, txs: seq<Tx>)
    requires Accepts(c, txs) && SlashesFit(c, txs) && Starts(c, st)
    ensures StakesAgree(c, ShadowRun(c, txs), StakeRun(c.env, st, txs, c.slot))
    ensures Bonded(StakeRun(c.env, st, txs, c.slot)) + SlashedRun(c.env, st, txs, c.slot) ==
            Bonded(st) + CoinsStaked(txs)
  {
    hide Gates;
    hide NextShadow;
    hide ApplyStake;
    BalanceSimulation(c, txs);
    if txs == [] {
    } else {
      var p, tx := txs[..|txs| - 1], txs[|txs| - 1];
      StakeSimulation(c, st, p);
      var mid := StakeRun(c.env, st, p, c.slot);
      AgreeStep(c, ShadowRun(c, p), mid, tx, c.slot);
      StakeStepTotals(c.env, mid, tx, c.slot);
    }
  }

  /** Every UNSTAKE of such a list enqueues exactly the coins that it takes from the stake. */
  lemma UnstakesAreCovered(c: Ctx, st: StakeState, txs: seq<Tx>, i: nat)
    requires Accepts(c, txs) && SlashesFit(c, txs) && Starts(c, st) && i < |txs|
    ensures Unstakeable(StakeRun(c.env, st, txs[..i], c.slot), txs[i])
  {
    hide Gates;
    hide NextShadow;
    hide ApplyStake;
    SlashesFitPrefix(c, txs, i);
    AcceptsPrefix(c, txs, i);
    StakeSimulation(c, st, txs[..i]);
    if txs[i].owner != [] { BondGates(c, ShadowRun(c, txs[..i]), txs[i]); }
  }

  lemma {:induction false} SlashesFitPrefix(c: Ctx, txs: seq<Tx>, n: nat)
    requires n <= |txs| && SlashesFit(c, txs)
    ensures SlashesFit(c, txs[..n])
    ensures n < |txs| ==> SlashFits(c, ShadowRun(c, txs[..n]), txs[n])
    decreases |txs|
  {
    hide SlashFits;
    hide NextShadow;
    if n == |txs| {
      assert txs[..n] == txs;
    } else if n < |txs| - 1 {
      var p := txs[..|txs| - 1];
      SlashesFitPrefix(c, p, n);
      assert p[..n] == txs[..n];
    }
  }

  // ----- Exactly when the simulation holds -----

  /** A slash whose sum wraps around leaves the running stake positive, while the applied stake is gone. */
  lemma WrapDiverges(c: Ctx, sh: Shadow, st: StakeState, tx: Tx)
    requires Gates(c, sh, tx) && !SlashFits(c, sh, tx)
    requires StakesAgree(c, sh, st) && Bonded(st) < TWO64
    ensures !StakesAgree(c, NextShadow(c, sh, tx), ApplyStake(c.env, st, tx, c.slot))
  {
    assert tx.owner != [];
    BondGates(c, sh, tx);
    hide Slash;
    hide Gates;
    var k := Offender(c.env, tx);
    StakeStepAt(c.env, st, tx, c.slot, k);
    assert Stake(c, NextShadow(c, sh, tx), k) == Stake(c, sh, k) - Slashable(c, sh, k) > 0;
  }

  /** The running stakes equal the applied ones after every prefix. */
  ghost predicate AlwaysAgree(c: Ctx, st: StakeState, txs: seq<Tx>) {
    forall n :: 0 <= n <= |txs| ==> StakesAgree(c, ShadowRun(c, txs[..n]), StakeRun(c.env, st, txs[..n], c.slot))
  }

  lemma {:induction false} WrapIsSeen(c: Ctx, st: StakeState, txs: seq<Tx>)
    requires Accepts(c, txs) && !SlashesFit(c, txs) && Starts(c, st)
    ensures exists n :: 0 <= n <= |txs| && !StakesAgree(c, ShadowRun(c, txs[..n]),
                                                        StakeRun(c.env, st, txs[..n], c.slot))
  {
    hide Gates;
    hide NextShadow;
    hide ApplyStake;
    hide SlashFits;
    var p, tx := txs[..|txs| - 1], txs[|txs| - 1];
    if !SlashesFit(c, p) {
      WrapIsSeen(c, st, p);
      var n :| 0 <= n <= |p| && !StakesAgree(c, ShadowRun(c, p[..n]), StakeRun(c.env, st, p[..n], c.slot));
      assert p[..n] == txs[..n];
    } else {
      StakeSimulation(c, st, p);
      BalanceSimulation(c, p);
      WrapDiverges(c, ShadowRun(c, p), StakeRun(c.env, st, p, c.slot), tx);
      assert txs[..|txs|] == txs;
    }
  }

  /** The running stakes track the applied ones exactly when no slash of the list wraps around. */
  lemma StakesAgreeIff(c: Ctx, st: StakeState, txs: seq<Tx>)
    requires Accepts(c, txs) && Starts(c, st)
    ensures AlwaysAgree(c, st, txs) <==> SlashesFit(c, txs)
  {
    hide Gates;
    hide NextShadow;
    hide ApplyStake;
    if SlashesFit(c, txs) {
      forall n | 0 <= n <= |txs|
        ensures StakesAgree(c, ShadowRun(c, txs[..n]), StakeRun(c.env, st, txs[..n], c.slot))
      {
        AcceptsPrefix(c, txs, n);
        SlashesFitPrefix(c, txs, n);
        StakeSimulation(c, st, txs[..n]);
      }
    } else {
      WrapIsSeen(c, st, txs);
    }
  }

  // ----- At most one proof per offender is enough -----

  predicate ProofAgainst(env: Env, tx: Tx, k: Key) {
    tx.typ.EQUIVOCATION_PROOF? && Offender(env, tx) == k
  }

  predicate Unaccused(env: Env, txs: seq<Tx>, k: Key) {
    forall i :: 0 <= i < |txs| ==> !ProofAgainst(env, txs[i], k)
  }

  /** No validator is accused twice in the block. */
  predicate OneProofPerOffender(env: Env, txs: seq<Tx>) {
    forall i, j | 0 <= i < j < |txs| && txs[j].typ.EQUIVOCATION_PROOF? ::
      !ProofAgainst(env, txs[i], Offender(env, txs[j]))
  }

  function StakedFor(tx: Tx, k: Key): nat {
    if tx.owner == k then StakedBy(tx) else 0
  }

  function CoinsStakedFor(txs: seq<Tx>, k: Key): nat {
    if txs == [] then 0 else CoinsStakedFor(txs[..|txs| - 1], k) + StakedFor(txs[|txs| - 1], k)
  }

  lemma {:induction false} StakedForBelow(txs: seq<Tx>, k: Key)
    ensures CoinsStakedFor(txs, k) <= CoinsStaked(txs)
  {
    if txs == [] {
    } else {
      StakedForBelow(txs[..|txs| - 1], k);
    }
  }

  lemma ShadowBonds(c: Ctx, sh: Shadow, tx: Tx)
    ensures var sh' := NextShadow(c, sh, tx);
            if tx.owner == [] then sh'.stake == sh.stake && sh'.pending == sh.pending && sh'.burned == sh.burned
            else
              && sh'.stake == NextStake(c, sh, tx) && sh'.pending == NextPending(c, sh, tx)
              && sh'.burned == NextBurned(c, sh, tx)
  {
  }

  /** What validation does to the bonded coins of a validator that tx does not accuse. */
  lemma UnaccusedStep(c: Ctx, sh: Shadow, tx: Tx, k: Key)
    requires Gates(c, sh, tx) && !ProofAgainst(c.env, tx, k)
    requires Stake(c, sh, k) + Sums.At(sh.pending, k) + StakedFor(tx, k) < TWO64
    ensures var sh' := NextShadow(c, sh, tx);
            && Stake(c, sh', k) + Sums.At(sh'.pending, k) == Stake(c, sh, k) + Sums.At(sh.pending, k) + StakedFor(tx, k)
            && Sums.At(sh'.burned, k) == Sums.At(sh.burned, k)
  {
    if tx.owner != [] { BondGates(c, sh, tx); }
    ShadowBonds(c, sh, tx);
    hide Gates;
    hide NextShadow;
    hide Slashable;
  }

  lemma {:induction false} UnaccusedBonds(c: Ctx, txs: seq<Tx>, k: Key)
    requires Accepts(c, txs) && Unaccused(c.env, txs, k)
    requires Liquid(c.ledger) + Total(c.stakes) + QueueTotal(c.queue) < TWO64
    ensures var sh := ShadowRun(c, txs);
            && Stake(c, sh, k) + Sums.At(sh.pending, k) == Sums.At(c.stakes, k) + CoinsStakedFor(txs, k)
            && Sums.At(sh.burned, k) == 0
  {
    hide Gates;
    hide NextShadow;
    BalanceSimulation(c, txs);
    StakedForBelow(txs, k);
    TotalBounds(c.stakes, k);
    if txs == [] {
    } else {
      var p := txs[..|txs| - 1];
      assert forall i :: 0 <= i < |p| ==> p[i] == txs[i];
      UnaccusedBonds(c, p, k);
      UnaccusedStep(c, ShadowRun(c, p), txs[|txs| - 1], k);
    }
  }

  lemma {:induction false} OneProofFits(c: Ctx, txs: seq<Tx>)
    requires Accepts(c, txs) && OneProofPerOffender(c.env, txs)
    requires Liquid(c.ledger) + Total(c.stakes) + QueueTotal(c.queue) < TWO64
    ensures SlashesFit(c, txs)
  {
    hide Gates;
    hide NextShadow;
    if txs == [] {
    } else {
      var p, tx := txs[..|txs| - 1], txs[|txs| - 1];
      assert forall i :: 0 <= i < |p| ==> p[i] == txs[i];
      OneProofFits(c, p);
      if tx.typ.EQUIVOCATION_PROOF? {
        var k := Offender(c.env, tx);
        UnaccusedBonds(c, p, k);
        BalanceSimulation(c, p);
        StakedForBelow(p, k);
        TotalBounds(c.stakes, k);
        PendingStakeExact(c.queue, k);
        QueuedBelowTotal(c.queue, k);
      }
    }
  }

  // ----- The stake floor -----

  /** Nobody has a stake below the threshold. */
  ghost predicate Floored(m: Stakes) {
    forall k :: Sums.At(m, k) == 0 || Sums.At(m, k) >= MIN_STAKE_THRESHOLD
  }

  lemma FloorStep(c: Ctx, sh: Shadow, tx: Tx, k: Key)
    requires Gates(c, sh, tx) && SlashFits(c, sh, tx) && Stake(c, sh, tx.owner) + StakedBy(tx) < TWO64
    requires Stake(c, sh, k) == 0 || Stake(c, sh, k) >= MIN_STAKE_THRESHOLD
    ensures Stake(c, NextShadow(c, sh, tx), k) == 0 || Stake(c, NextShadow(c, sh, tx), k) >= MIN_STAKE_THRESHOLD
  {
    ShadowStakeAt(c, sh, tx, k);
    hide NextShadow;
  }

  lemma {:induction false} FloorKept(c: Ctx, st: StakeState, txs: seq<Tx>)
    requires Accepts(c, txs) && SlashesFit(c, txs) && Starts(c, st) && Floored(c.stakes)
    ensures Floored(StakeRun(c.env, st, txs, c.slot).stakes)
  {
    hide Gates;
    hide NextShadow;
    hide ApplyStake;
    hide SlashFits;
    if txs == [] {
    } else {
      var p, tx := txs[..|txs| - 1], txs[|txs| - 1];
      FloorKept(c, st, p);
      StakeSimulation(c, st, p);
      StakeSimulation(c, st, txs);
      BalanceSimulation(c, txs);
      BondedCovers(StakeRun(c.env, st, p, c.slot), tx.owner);
      var m := StakeRun(c.env, st, txs, c.slot).stakes;
      forall k ensures Sums.At(m, k) == 0 || Sums.At(m, k) >= MIN_STAKE_THRESHOLD {
        FloorStep(c, ShadowRun(c, p), tx, k);
      }
    }
  }
}
