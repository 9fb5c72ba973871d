/** A transaction id is redeemed at most once, over whole runs. */
module Redemption {
  import opened Transactions
  import opened DomainIndex
  import opened Validation
  import opened Application
  import opened Blocks
  import opened DomainSafety
  import opened Ownership

  /** The i-th transaction of the block took effect. */
  predicate TookEffect(w: World, s: State, st: Step, i: nat)
    requires |st.founds| == |st.block.txs| && i < |st.block.txs|
  {
    OutcomeAt(PlaceOf(w, st.block), StartB(s, st.block), st.block.txs, st.founds, i).Done?
  }

  // ----- Within a block -----

  lemma NextSpent(c: Ctx, sh: Shadow, tx: Tx)
    ensures NextShadow(c, sh, tx).spent == if Redeems(tx) then sh.spent + {tx.redeems} else sh.spent
  {
  }

  lemma {:induction false} SpentInBlock(c: Ctx, txs: seq<Tx>, i: nat)
    requires i < |txs| && Redeems(txs[i])
    ensures txs[i].redeems in ShadowRun(c, txs).spent
    decreases |txs|
  {
    hide NextShadow;
    var n := |txs| - 1;
    NextSpent(c, ShadowRun(c, txs[..n]), txs[n]);
    if i < n { SpentInBlock(c, txs[..n], i); }
  }

  lemma RedeemGates(c: Ctx, sh: Shadow, tx: Tx)
    requires Gates(c, sh, tx) && Redeems(tx)
    ensures !tx.typ.REGISTER? && tx.redeems !in sh.spent && !IsSpent(c.index, tx.redeems)
  {
  }

  // ----- Across blocks -----

  /** An effective redemption is on record in the next state. */
  lemma EffectIsSpent(w: World, s: State, st: Step, s': State, i: nat)
    requires Transition(w, s, st, s') && i < |st.block.txs|
    requires |st.founds| == |st.block.txs| && TookEffect(w, s, st, i)
    requires Redeems(st.block.txs[i]) && !st.block.txs[i].typ.REGISTER?
    ensures st.block.txs[i].redeems in s'.index.spent
  {
    hide Accepts;
    hide HashesOk;
    hide NoCrash;
    hide PurgesPresent;
    hide ApplyDomain;
    var x, txs := PlaceOf(w, st.block), st.block.txs;
    BeforeStep(w, s, st, i);
    StepEffect(x, Before(w, s, st, i), txs[i], st.founds[i], txs[i].domain);
    RunGrows(x, StartB(s, st.block), txs, st.founds, i + 1);
  }

  lemma SpentStays(w: World, s: State, st: Step, s': State)
    requires Transition(w, s, st, s')
    ensures s.index.spent <= s'.index.spent
  {
    hide Accepts;
    hide HashesOk;
    hide NoCrash;
    hide PurgesPresent;
    hide ApplyDomain;
    assert st.block.txs[..0] == [] && st.founds[..0] == [];
    RunGrows(PlaceOf(w, st.block), StartB(s, st.block), st.block.txs, st.founds, 0);
  }

  lemma {:induction false} SpentForever(w: World, states: seq<State>, steps: seq<Step>, m: nat, n: nat)
    requires ValidRun(w, states, steps) && m <= n <= |steps|
    ensures states[m].index.spent <= states[n].index.spent
    decreases n
  {
    hide Transition;
    if m < n {
      SpentForever(w, states, steps, m, n - 1);
      assert Transition(w, states[n - 1], steps[n - 1], states[n]);
      SpentStays(w, states[n - 1], steps[n - 1], states[n]);
    }
  }

  /**
   * Over any run, once an UPDATE, RENEW, REVOKE or REVEAL that redeems an id has taken effect,
   * no later transaction that redeems the same id is even included.
   */
  lemma SingleRedemption(w: World, states: seq<State>, steps: seq<Step>, m: nat, i: nat, n: nat, j: nat)
    requires ValidRun(w, states, steps) && m <= n < |steps| && (m == n ==> i < j)
    requires i < |steps[m].block.txs| == |steps[m].founds| && j < |steps[n].block.txs|
    requires Redeems(steps[m].block.txs[i]) && TookEffect(w, states[m], steps[m], i)
    requires Redeems(steps[n].block.txs[j])
    ensures steps[m].block.txs[i].redeems != steps[n].block.txs[j].redeems
  {
    assert Transition(w, states[m], steps[m], states[m + 1]);
    assert Transition(w, states[n], steps[n], states[n + 1]);
    BlockMatches(w, states[m], steps[m], states[m + 1]);
    BlockMatches(w, states[n], steps[n], states[n + 1]);
    hide Transition;
    hide TookEffect;
    hide Gates;
    hide NextShadow;
    hide Matches;
    var c, txs := ContextOf(w, states[n], steps[n].block, steps[n].lookup), steps[n].block.txs;
    AcceptsPrefix(c, txs, j);
    RedeemGates(c, ShadowRun(c, txs[..j]), txs[j]);
    if m == n {
      SpentInBlock(c, txs[..j], i);
    } else {
      NotRegister(ContextOf(w, states[m], steps[m].block, steps[m].lookup), steps[m].block.txs, i);
      EffectIsSpent(w, states[m], steps[m], states[m + 1], i);
      SpentForever(w, states, steps, m + 1, n);
    }
  }
}
