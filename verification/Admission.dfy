/**
 * What acceptance means without the running maps: each transaction of an accepted block against the state before the
 * block and the transactions before it.
 */
module Admission {
  import opened Basics
  import Config
  import opened Transactions
  import Commits
  import opened DomainIndex
  import opened Validation
  import opened Application
  import opened Blocks
  import opened DomainSafety
  import opened Ownership
  import opened Periods

  // ----- The running maps -----

  /** Some transaction of the list registers d. */
  ghost predicate Revealed(txs: seq<Tx>, d: Name) {
    exists j :: 0 <= j < |txs| && txs[j].typ.REVEAL? && txs[j].domain == d
  }

  lemma NextRegistered(c: Ctx, sh: Shadow, tx: Tx)
    requires Gates(c, sh, tx)
    ensures NextShadow(c, sh, tx).registered == if tx.typ.REVEAL? then sh.registered + {tx.domain} else sh.registered
  {
    PartyGates(c, sh, tx);
    hide Gates;
  }

  lemma {:induction false} RegisteredIff(c: Ctx, txs: seq<Tx>, d: Name)
    requires Accepts(c, txs)
    ensures d in ShadowRun(c, txs).registered <==> Revealed(txs, d)
  {
    hide Gates;
    hide NextShadow;
    if txs == [] {
    } else {
      var n := |txs| - 1;
      RegisteredIff(c, txs[..n], d);
      NextRegistered(c, ShadowRun(c, txs[..n]), txs[n]);
      if Revealed(txs[..n], d) {
        var j :| 0 <= j < n && txs[..n][j].typ.REVEAL? && txs[..n][j].domain == d;
        assert txs[j] == txs[..n][j];
      }
      if Revealed(txs, d) && !(txs[n].typ.REVEAL? && txs[n].domain == d) {
        var j :| 0 <= j < |txs| && txs[j].typ.REVEAL? && txs[j].domain == d;
        assert txs[j] == txs[..n][j];
      }
    }
  }

  /** The latest transaction of the list with this id, among the types that can be redeemed. */
  function Latest(txs: seq<Tx>, id: i64): Option<Tx> {
    if txs == [] then None
    else
      var tx := txs[|txs| - 1];
      if tx.owner != [] && tx.tid == id
         && (tx.typ.UPDATE? || tx.typ.RENEW? || tx.typ.REVOKE? || tx.typ.COMMIT? || tx.typ.REVEAL?)
      then Some(tx) else Latest(txs[..|txs| - 1], id)
  }

  lemma NextTransactions(c: Ctx, sh: Shadow, tx: Tx)
    ensures NextShadow(c, sh, tx).txs == if tx.owner == [] then sh.txs else NextTxs(sh, tx)
  {
  }

  lemma {:induction false} LatestIs(c: Ctx, txs: seq<Tx>, id: i64)
    ensures Latest(txs, id) ==
            var sh := ShadowRun(c, txs);
            if id in sh.txs then Some(sh.txs[id]) else None
  {
    hide NextShadow;
    if txs == [] {
    } else {
      var n := |txs| - 1;
      LatestIs(c, txs[..n], id);
      NextTransactions(c, ShadowRun(c, txs[..n]), txs[n]);
    }
  }

  /** The commitment hash that a transaction of the list makes or opens. */
  ghost predicate Touches(env: Env, txs: seq<Tx>, h: Bytes) {
    exists j :: 0 <= j < |txs| && TouchesHash(env, txs[j], h)
  }

  predicate TouchesHash(env: Env, tx: Tx, h: Bytes) {
    (tx.typ.COMMIT? && tx.commitHash == h) || (tx.typ.REVEAL? && RevealHash(env, tx) == h)
  }

  lemma {:induction false} TouchedIff(c: Ctx, txs: seq<Tx>, h: Bytes)
    requires Accepts(c, txs)
    ensures h in ShadowRun(c, txs).commits <==> Touches(c.env, txs, h)
  {
    hide Gates;
    hide NextShadow;
    hide RevealHash;
    if txs == [] {
    } else {
      var n := |txs| - 1;
      TouchedIff(c, txs[..n], h);
      NextCommitsSeen(c, ShadowRun(c, txs[..n]), txs[n]);
      if Touches(c.env, txs[..n], h) {
        var j :| 0 <= j < n && TouchesHash(c.env, txs[..n][j], h);
        assert TouchesHash(c.env, txs[j], h);
      }
      if Touches(c.env, txs, h) && !TouchesHash(c.env, txs[n], h) {
        var j :| 0 <= j < |txs| && TouchesHash(c.env, txs[j], h);
        assert TouchesHash(c.env, txs[..n][j], h);
      }
    }
  }

  // ----- Admission -----

  /** The name is in the right period at the start of the block, or was registered earlier in it. */
  ghost predicate Timely(x: Place, record: Option<Tx>, txs: seq<Tx>, tx: Tx) {
    var registered := Revealed(txs, tx.domain);
    && (IsMarket(tx) ==> registered || (record.Some? && Running(x, record.value)))
    && (tx.owner != [] && (tx.typ.UPDATE? || tx.typ.RENEW? || tx.typ.REVOKE?) ==>
          registered || (record.Some? && !Lapsed(x, record.value)))
    && (tx.typ.REVEAL? ==> !registered && (record.Some? ==> Lapsed(x, record.value)))
    && (tx.owner == [] ==> !registered)
  }

  /** What is redeemed is a transaction of the same name, the latest one of the block with the id or a stored one. */
  predicate RedeemsSameName(lookup: i64 -> Option<Tx>, txs: seq<Tx>, tx: Tx) {
    tx.typ.UPDATE? || tx.typ.RENEW? || tx.typ.REVOKE? ==>
      && tx.redeems != 0
      && var r := if Latest(txs, tx.redeems).Some? then Latest(txs, tx.redeems) else lookup(tx.redeems);
         r.Some? && r.value.domain == tx.domain
  }

  /** A COMMIT is of a hash that is neither pending nor made or opened earlier in the block; a REVEAL opens it once. */
  ghost predicate FirstOfHash(env: Env, pending: Commits.Overlay, txs: seq<Tx>, tx: Tx) {
    && (tx.typ.COMMIT? ==> !Touches(env, txs, tx.commitHash) && Commits.OvGet(pending, tx.commitHash).None?)
    && (tx.typ.REVEAL? ==> !Touches(env, txs, RevealHash(env, tx)))
  }

  /** Fields that the type does not use are empty. */
  predicate NothingExtra(tx: Tx) {
    && (tx.stakeAmount != 0 ==> tx.typ.STAKE? || tx.typ.UNSTAKE?)
    && (tx.equivA != [] || tx.equivB != [] ==> tx.typ.EQUIVOCATION_PROOF?)
    && (tx.commitHash != [] ==> tx.typ.COMMIT?)
    && (tx.salt != [] ==> tx.typ.REVEAL?)
    && (tx.typ.COMMIT? || tx.typ.STAKE? || tx.typ.UNSTAKE? || tx.typ.EQUIVOCATION_PROOF? ==>
          tx.domain == [] && tx.records == [] && tx.redeems == 0)
    && (tx.typ.STAKE? || tx.typ.UNSTAKE? || tx.typ.EQUIVOCATION_PROOF? ==> tx.recipient == [])
  }

  lemma GatesNothingExtra(c: Ctx, sh: Shadow, tx: Tx)
    requires Gates(c, sh, tx)
    ensures NothingExtra(tx)
  {
    hide RevealHash;
    assert tx.typ.REVEAL? ==> tx.owner != [];
  }

  lemma GatesTimely(c: Ctx, x: Place, txs: seq<Tx>, tx: Tx)
    requires Accepts(c, txs) && Gates(c, ShadowRun(c, txs), tx) && x.env == c.env && x.slot == c.slot
    ensures Timely(x, GetDomain(c.index, tx.domain), txs, tx)
  {
    RegisteredIff(c, txs, tx.domain);
    var record := GetDomain(c.index, tx.domain);
    if record.Some? { PhaseInSlots(x.slot, record.value.expirySlot, x.env.slotsPerDay); }
    hide Accepts;
    hide ShadowRun;
    hide Revealed;
    hide GetDomain;
    hide Config.GetDomainPhase;
    hide GraceOver;
    hide RevealHash;
    PartyGates(c, ShadowRun(c, txs), tx);
  }

  lemma GatesRedeem(c: Ctx, txs: seq<Tx>, tx: Tx)
    requires Gates(c, ShadowRun(c, txs), tx)
    ensures RedeemsSameName(c.lookup, txs, tx)
  {
    LatestIs(c, txs, tx.redeems);
    hide ShadowRun;
    hide Latest;
  }

  lemma GatesFirst(c: Ctx, txs: seq<Tx>, tx: Tx)
    requires Accepts(c, txs) && Gates(c, ShadowRun(c, txs), tx)
    ensures FirstOfHash(c.env, c.commits, txs, tx)
  {
    PartyGates(c, ShadowRun(c, txs), tx);
    TouchedIff(c, txs, tx.commitHash);
    TouchedIff(c, txs, RevealHash(c.env, tx));
    hide Accepts;
    hide ShadowRun;
    hide Touches;
    hide RevealHash;
  }

  ghost predicate Admissible(w: World, s: State, st: Step, i: nat)
    requires i < |st.block.txs|
  {
    var txs, tx := st.block.txs[..i], st.block.txs[i];
    && Timely(PlaceOf(w, st.block), IxDomain(s.index, tx.domain), txs, tx)
    && RedeemsSameName(st.lookup, txs, tx)
    && FirstOfHash(w.env, PurgedOverlay(s, st.block), txs, tx)
    && NothingExtra(tx)
  }

  /** Every transaction of a run is admissible by the state before its block and the transactions before it. */
  lemma RunAdmissible(w: World, states: seq<State>, steps: seq<Step>, n: nat, i: nat)
    requires ValidRun(w, states, steps) && n < |steps| && i < |steps[n].block.txs|
    ensures Admissible(w, states[n], steps[n], i)
  {
    var s, st := states[n], steps[n];
    assert Transition(w, s, st, states[n + 1]);
    BlockMatches(w, s, st, states[n + 1]);
    BlockReads(w, s, st, states[n + 1], st.block.txs[i].domain);
    hide Transition;
    hide Gates;
    hide Matches;
    hide Accepts;
    hide Timely;
    hide RedeemsSameName;
    hide FirstOfHash;
    hide NothingExtra;
    hide DomainRun;
    var c, tx, txs := ContextOf(w, s, st.block, st.lookup), st.block.txs[i], st.block.txs[..i];
    AcceptsPrefix(c, st.block.txs, i);
    GatesTimely(c, PlaceOf(w, st.block), txs, tx);
    GatesRedeem(c, txs, tx);
    GatesFirst(c, txs, tx);
    GatesNothingExtra(c, ShadowRun(c, txs), tx);
    SoundNew(s.index);
  }
}
