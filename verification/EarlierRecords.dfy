/**
 * The purge slots of the records that a name has had.  A REVEAL is measured against the name's current record
 * (internal/blockchain/block.go:936-957); an UPDATE, RENEW or REVOKE replaces that record, expiry slot included
 * (internal/blockchain/apply.go:151-207, 252-282).
 */
module EarlierRecords {
  import opened Basics
  import opened Config
  import opened Transactions
  import opened Ledger
  import Commits
  import opened DomainIndex
  import opened Validation
  import opened Blocks
  import opened Provenance

  /** The record is there and expires no earlier than e. */
  predicate Lasts(r: Option<Tx>, e: i64) {
    r.Some? && r.value.expirySlot >= e
  }

  /** The purge slot of an expiry slot, and the delay after it, are proper int64 numbers. */
  predicate NoOverflow(slotsPerDay: SlotsPerDay, expirySlot: i64) {
    expirySlot + GRACE_PERIOD_DAYS * slotsPerDay + COMMIT_MIN_DELAY < TWO63
  }

  // ----- Any context over one index -----

  /** The slot of the COMMIT that the gates find for a REVEAL. */
  function CommitSlot(c: Ctx, tx: Tx): i64 {
    var rec := Commits.OvGet(c.commits, RevealHash(c.env, tx));
    if rec.Some? then rec.value.slot else 0
  }

  /** The context reads this index, with this hash function and length of a day. */
  ghost predicate Over(c: Ctx, o: Overlay, sha: Bytes -> Bytes, slotsPerDay: SlotsPerDay) {
    c.index == o && c.env.sha == sha && c.env.slotsPerDay == slotsPerDay
  }

  /** Every REVEAL of d that the gates accept over this index has its COMMIT at or after the purge slot of e. */
  ghost predicate AlwaysAfterPurge(o: Overlay, sha: Bytes -> Bytes, slotsPerDay: SlotsPerDay, d: Name, e: i64) {
    forall c: Ctx, sh: Shadow, tx: Tx |
      Over(c, o, sha, slotsPerDay) && tx.typ.REVEAL? && tx.domain == d && Gates(c, sh, tx) ::
      CommitSlot(c, tx) >= ComputePurgeSlot(e, slotsPerDay)
  }

  lemma RevealAfterCurrent(c: Ctx, sh: Shadow, tx: Tx)
    requires Gates(c, sh, tx) && tx.typ.REVEAL? && GetDomain(c.index, tx.domain).Some?
    ensures CommitSlot(c, tx) >= ComputePurgeSlot(GetDomain(c.index, tx.domain).value.expirySlot, c.env.slotsPerDay)
  {
    assert tx.owner != [];
    hide GetDomain;
    hide RevealHash;
  }

  lemma LaterPurge(slotsPerDay: SlotsPerDay, e: i64, f: i64)
    requires NoOverflow(slotsPerDay, e) && NoOverflow(slotsPerDay, f)
    ensures ComputePurgeSlot(e, slotsPerDay) <= ComputePurgeSlot(f, slotsPerDay) <==> e <= f
    ensures ComputePurgeSlot(e, slotsPerDay) + COMMIT_MIN_DELAY < TWO63
  {
  }

  const REGISTRY: Key := [2]

  function OpenEnv(sha: Bytes -> Bytes, slotsPerDay: SlotsPerDay): Env {
    Env((k, tx) => true, sha, b => None, b => true, [REGISTRY], slotsPerDay)
  }

  /** A REVEAL by the registry, without records. */
  function RevealOf(tid: i64, d: Name, expirySlot: i64, redeems: i64, nonce: u64, recipient: Key): Tx {
    Tx(tid, REVEAL, 0, d, [], 0, expirySlot, redeems, REGISTRY, 1, nonce, 0, recipient, seq(64, i => 0), [], [], 0, [],
       [])
  }

  function RecordAt(hash: Bytes, slot: i64, block: int, tid: i64): Commits.CommitRecord {
    Commits.CommitRecord(hash, REGISTRY, block, slot, tid, block + COMMIT_MAX_WINDOW)
  }

  function EarlyReveal(d: Name): Tx { RevealOf(0, d, 0, 0, 0, REGISTRY) }

  /** A context in which the registry committed at the given slot and may reveal three slots later. */
  function EarlyContext(o: Overlay, sha: Bytes -> Bytes, slotsPerDay: SlotsPerDay, d: Name, slot: i64): Ctx
    requires slot + COMMIT_MIN_DELAY < TWO63
  {
    var h := RevealHash(OpenEnv(sha, slotsPerDay), EarlyReveal(d));
    Ctx(OpenEnv(sha, slotsPerDay), map[REGISTRY := Account(1, 0)], o, id => None,
        Commits.NewOverlay(map[h := RecordAt(h, slot, 0, 0)], 1), slot + COMMIT_MIN_DELAY, true, REGISTRY, map[], [],
        {})
  }

  /** A COMMIT at the purge slot of the current record is early enough. */
  lemma EarlyRevealAccepted(o: Overlay, sha: Bytes -> Bytes, slotsPerDay: SlotsPerDay, d: Name)
    requires GetDomain(o, d).Some? && NoOverflow(slotsPerDay, GetDomain(o, d).value.expirySlot)
    ensures var slot := ComputePurgeSlot(GetDomain(o, d).value.expirySlot, slotsPerDay);
            && slot + COMMIT_MIN_DELAY < TWO63
            && Gates(EarlyContext(o, sha, slotsPerDay, d, slot), EmptyShadow(), EarlyReveal(d))
            && CommitSlot(EarlyContext(o, sha, slotsPerDay, d, slot), EarlyReveal(d)) == slot
  {
    var e := GetDomain(o, d).value.expirySlot;
    LaterPurge(slotsPerDay, e, e);
    var slot := ComputePurgeSlot(e, slotsPerDay);
    var c, tx := EarlyContext(o, sha, slotsPerDay, d, slot), EarlyReveal(d);
    var h := RevealHash(c.env, tx);
    hide GetDomain;
    hide ComputePurgeSlot;
    hide RevealHash;
    assert Commits.OvGet(c.commits, h) == Some(RecordAt(h, slot, 0, 0));
    PurgedAt(slotsPerDay, e, slot + COMMIT_MIN_DELAY);
  }

  lemma PurgedAt(slotsPerDay: SlotsPerDay, e: i64, slot: i64)
    requires NoOverflow(slotsPerDay, e) && slot >= ComputePurgeSlot(e, slotsPerDay)
    ensures GetDomainPhase(slot, e, slotsPerDay).Purged?
  {
  }

  /**
   * Over an index that holds a record of d, every REVEAL of d that is accepted, whatever the commitments, the
   * ledger, the keys and the slot, comes after the purge slot of e exactly when the current record expires no earlier
   * than e.
   */
  lemma AfterPurgeIff(o: Overlay, sha: Bytes -> Bytes, slotsPerDay: SlotsPerDay, d: Name, e: i64)
    requires GetDomain(o, d).Some?
    requires NoOverflow(slotsPerDay, e) && NoOverflow(slotsPerDay, GetDomain(o, d).value.expirySlot)
    ensures AlwaysAfterPurge(o, sha, slotsPerDay, d, e) <==> Lasts(GetDomain(o, d), e)
  {
    hide Gates;
    hide GetDomain;
    hide ComputePurgeSlot;
    hide CommitSlot;
    var current := GetDomain(o, d).value.expirySlot;
    LaterPurge(slotsPerDay, e, current);
    if e <= current {
      forall c: Ctx, sh: Shadow, tx: Tx |
        Over(c, o, sha, slotsPerDay) && tx.typ.REVEAL? && tx.domain == d && Gates(c, sh, tx)
        ensures CommitSlot(c, tx) >= ComputePurgeSlot(e, slotsPerDay)
      {
        RevealAfterCurrent(c, sh, tx);
      }
    } else {
      EarlyRevealAccepted(o, sha, slotsPerDay, d);
    }
  }

  // ----- Over a run -----

  /** The COMMIT behind a REVEAL is not before the purge slot of any expiry that the name's current record outlasts. */
  lemma RevealAfterEarlierRecords(w: World, states: seq<State>, steps: seq<Step>, n: nat, i: nat, e: i64)
    returns (m: nat, j: nat)
    requires ValidRun(w, states, steps) && states[0].commits == map[]
    requires n < |steps| && i < |steps[n].block.txs| && steps[n].block.txs[i].typ.REVEAL?
    requires Lasts(IxDomain(states[n].index, steps[n].block.txs[i].domain), e)
    requires NoOverflow(w.env.slotsPerDay, IxDomain(states[n].index, steps[n].block.txs[i].domain).value.expirySlot)
    ensures Backs(w, states, steps, m, j, n, i)
    ensures steps[m].block.slot >= ComputePurgeSlot(e, w.env.slotsPerDay)
  {
    hide Transition;
    hide Backs;
    m, j := RevealProvenance(w, states, steps, n, i);
  }
}
