/** What phase B does to the index, the commitments and the owners, step by step. */
module DomainSafety {
  import opened Basics
  import opened Transactions
  import Commits
  import opened DomainIndex
  import opened Validation
  import opened Application

  // ----- The overlay stays sound -----

  lemma AddedReads(o: Overlay, d: Name, tx: Tx, e: Name)
    ensures GetDomain(Added(o, d, tx), e) == if e == d then Some(tx) else GetDomain(o, e)
    ensures GetOwner(Added(o, d, tx), e) == GetOwner(o, e)
    ensures GetPrice(Added(o, d, tx), e) == GetPrice(o, e)
  {
  }

  lemma OwnerSetReads(o: Overlay, d: Name, k: Key, e: Name)
    ensures GetDomain(OwnerSet(o, d, k), e) == GetDomain(o, e)
    ensures GetOwner(OwnerSet(o, d, k), e) == if e == d then Some(k) else GetOwner(o, e)
    ensures GetPrice(OwnerSet(o, d, k), e) == GetPrice(o, e)
  {
  }

  lemma PriceSetReads(o: Overlay, d: Name, p: u64, e: Name)
    ensures GetDomain(PriceSet(o, d, p), e) == GetDomain(o, e)
    ensures GetOwner(PriceSet(o, d, p), e) == GetOwner(o, e)
    ensures GetPrice(PriceSet(o, d, p), e) == if e == d then p else GetPrice(o, e)
  {
  }

  lemma MarkedReads(o: Overlay, id: i64, e: Name)
    ensures GetDomain(Marked(o, id), e) == GetDomain(o, e)
    ensures GetOwner(Marked(o, id), e) == GetOwner(o, e)
    ensures GetPrice(Marked(o, id), e) == GetPrice(o, e)
  {
  }

  lemma AddedKeepsSound(o: Overlay, d: Name, tx: Tx)
    requires Sound(o)
    ensures Sound(Added(o, d, tx)) && GetDomain(Added(o, d, tx), d).Some?
  {
    AddedDirect(o, d, tx);
  }

  lemma MarkedKeepsSound(o: Overlay, id: i64)
    requires Sound(o)
    ensures Sound(Marked(o, id))
  {
    MarkedDirect(o, id);
  }

  lemma OwnerSetKeepsSound(o: Overlay, d: Name, k: Key)
    requires Sound(o) && GetDomain(o, d).Some?
    ensures Sound(OwnerSet(o, d, k)) && GetDomain(OwnerSet(o, d, k), d).Some?
  {
    OwnerSetDirect(o, d, k);
    OwnerSetReads(o, d, k, d);
  }

  lemma PriceSetKeepsSound(o: Overlay, d: Name, p: u64)
    requires Sound(o) && GetDomain(o, d).Some?
    ensures Sound(PriceSet(o, d, p)) && GetDomain(PriceSet(o, d, p), d).Some?
  {
    PriceSetDirect(o, d, p);
    PriceSetReads(o, d, p, d);
  }

  /** Metadata is only ever set on a name that has a record, so the overlay stays sound. */
  lemma StepSound(x: Place, st: DomState, tx: Tx, found: Option<Tx>)
    requires Sound(st.index)
    ensures Sound(ApplyDomain(x, st, tx, found).state.index)
  {
    hide Sound;
    hide Added;
    hide OwnerSet;
    hide PriceSet;
    hide Marked;
    var o, d := st.index, tx.domain;
    match tx.typ {
      case REGISTER =>
        AddedKeepsSound(o, d, tx);
        OwnerSetKeepsSound(Added(o, d, tx), d, tx.owner);
      case REVEAL =>
        AddedKeepsSound(o, d, tx);
        OwnerSetKeepsSound(Added(o, d, tx), d, tx.recipient);
        MarkedKeepsSound(OwnerSet(Added(o, d, tx), d, tx.recipient), tx.redeems);
      case REVOKE =>
        MarkedKeepsSound(o, tx.redeems);
        var m := if tx.redeems != 0 then Marked(o, tx.redeems) else o;
        AddedKeepsSound(m, d, tx);
        if GetOwner(o, d).Some? { OwnerSetKeepsSound(Added(m, d, tx), d, GetOwner(o, d).value); }
      case UPDATE => UpdateSound(st, tx, found, false);
      case RENEW => UpdateSound(st, tx, found, true);
      case BUY => MarketSound(x, st, tx);
      case TRANSFER => MarketSound(x, st, tx);
      case LIST => MarketSound(x, st, tx);
      case DELIST => MarketSound(x, st, tx);
      case _ =>
    }
  }

  lemma UpdateSound(st: DomState, tx: Tx, found: Option<Tx>, renew: bool)
    requires Sound(st.index)
    ensures Sound(ApplyUpdateOrRenew(st, tx, found, renew).state.index)
  {
    hide Sound;
    hide Added;
    hide OwnerSet;
    hide PriceSet;
    hide Marked;
    var o, d := st.index, tx.domain;
    var store := if renew then Renewed(tx, GetDomain(o, d)) else tx;
    MarkedKeepsSound(o, tx.redeems);
    var a := Added(Marked(o, tx.redeems), d, store);
    AddedKeepsSound(Marked(o, tx.redeems), d, store);
    PriceSetKeepsSound(a, d, GetPrice(o, d));
    var p := if GetPrice(o, d) > 0 then PriceSet(a, d, GetPrice(o, d)) else a;
    if GetOwner(o, d).Some? { OwnerSetKeepsSound(p, d, GetOwner(o, d).value); }
  }

  lemma MarketSound(x: Place, st: DomState, tx: Tx)
    requires Sound(st.index)
    ensures Sound(ApplyMarket(x, st, tx).state.index)
  {
    hide Sound;
    hide OwnerSet;
    hide PriceSet;
    var o, d := st.index, tx.domain;
    if GetDomain(o, d).Some? {
      PriceSetKeepsSound(o, d, tx.listPrice);
      PriceSetKeepsSound(o, d, 0);
      OwnerSetKeepsSound(o, d, tx.recipient);
      PriceSetKeepsSound(OwnerSet(o, d, tx.recipient), d, 0);
      OwnerSetKeepsSound(o, d, tx.owner);
      PriceSetKeepsSound(OwnerSet(o, d, tx.owner), d, 0);
    }
  }

  // ----- What one step changes -----

  /** The owner that tx leaves under its own domain when it takes effect. */
  function OwnerAfter(o: Overlay, tx: Tx): Option<Key> {
    match tx.typ
    case REGISTER => Some(tx.owner)
    case REVEAL => Some(tx.recipient)
    case BUY => Some(tx.owner)
    case TRANSFER => Some(tx.recipient)
    case _ => GetOwner(o, tx.domain)
  }

  function PriceAfter(o: Overlay, tx: Tx): u64 {
    match tx.typ
    case LIST => tx.listPrice
    case DELIST => 0
    case BUY => 0
    case TRANSFER => 0
    case _ => GetPrice(o, tx.domain)
  }

  function RecordAfter(o: Overlay, tx: Tx): Option<Tx> {
    match tx.typ
    case REGISTER => Some(tx)
    case REVEAL => Some(tx)
    case REVOKE => Some(tx)
    case UPDATE => Some(tx)
    case RENEW => Some(Renewed(tx, GetDomain(o, tx.domain)))
    case _ => GetDomain(o, tx.domain)
  }

  /** The transaction id that tx marks as spent when it takes effect. */
  predicate Marks(tx: Tx) {
    tx.typ.REVEAL? || ((tx.typ.UPDATE? || tx.typ.RENEW? || tx.typ.REVOKE?) && tx.redeems != 0)
  }

  /** o' is o after tx took effect, as far as the name e can tell. */
  predicate Effect(o: Overlay, tx: Tx, o': Overlay, e: Name) {
    && GetDomain(o', e) == (if e == tx.domain then RecordAfter(o, tx) else GetDomain(o, e))
    && GetOwner(o', e) == (if e == tx.domain then OwnerAfter(o, tx) else GetOwner(o, e))
    && GetPrice(o', e) == (if e == tx.domain then PriceAfter(o, tx) else GetPrice(o, e))
    && o'.spent == (if Marks(tx) then o.spent + {tx.redeems} else o.spent)
    && o'.base == o.base
  }

  /** A refused or crashed transaction changes nothing; one that takes effect changes its own name only. */
  lemma StepEffect(x: Place, st: DomState, tx: Tx, found: Option<Tx>, e: Name)
    ensures var r := ApplyDomain(x, st, tx, found);
            && (!r.outcome.Done? ==> r.state == st)
            && (r.outcome.Done? ==> Effect(st.index, tx, r.state.index, e))
  {
    hide GetDomain;
    hide GetOwner;
    hide GetPrice;
    var o, d := st.index, tx.domain;
    match tx.typ {
      case REGISTER =>
        AddedReads(o, d, tx, e);
        OwnerSetReads(Added(o, d, tx), d, tx.owner, e);
      case REVEAL =>
        AddedReads(o, d, tx, e);
        OwnerSetReads(Added(o, d, tx), d, tx.recipient, e);
        MarkedReads(OwnerSet(Added(o, d, tx), d, tx.recipient), tx.redeems, e);
      case REVOKE =>
        MarkedReads(o, tx.redeems, e);
        var m := if tx.redeems != 0 then Marked(o, tx.redeems) else o;
        AddedReads(m, d, tx, e);
        if GetOwner(o, d).Some? { OwnerSetReads(Added(m, d, tx), d, GetOwner(o, d).value, e); }
      case UPDATE => UpdateEffect(st, tx, found, false, e);
      case RENEW => UpdateEffect(st, tx, found, true, e);
      case BUY => MarketEffect(x, st, tx, e);
      case TRANSFER => MarketEffect(x, st, tx, e);
      case LIST => MarketEffect(x, st, tx, e);
      case DELIST => MarketEffect(x, st, tx, e);
      case _ =>
    }
  }

  lemma UpdateEffect(st: DomState, tx: Tx, found: Option<Tx>, renew: bool, e: Name)
    requires if renew then tx.typ.RENEW? else tx.typ.UPDATE?
    ensures var r := ApplyUpdateOrRenew(st, tx, found, renew);
            r.outcome.Done? ==> Effect(st.index, tx, r.state.index, e)
  {
    hide GetDomain;
    hide GetOwner;
    hide GetPrice;
    var o, d := st.index, tx.domain;
    var store := if renew then Renewed(tx, GetDomain(o, d)) else tx;
    MarkedReads(o, tx.redeems, e);
    MarkedReads(o, tx.redeems, d);
    var m := Marked(o, tx.redeems);
    AddedReads(m, d, store, e);
    AddedReads(m, d, store, d);
    var a := Added(m, d, store);
    PriceSetReads(a, d, GetPrice(o, d), e);
    var p := if GetPrice(o, d) > 0 then PriceSet(a, d, GetPrice(o, d)) else a;
    if GetOwner(o, d).Some? { OwnerSetReads(p, d, GetOwner(o, d).value, e); }
  }

  lemma MarketEffect(x: Place, st: DomState, tx: Tx, e: Name)
    requires IsMarket(tx)
    ensures var r := ApplyMarket(x, st, tx);
            r.outcome.Done? ==> Effect(st.index, tx, r.state.index, e)
  {
    hide GetDomain;
    hide GetOwner;
    hide GetPrice;
    var o, d := st.index, tx.domain;
    PriceSetReads(o, d, tx.listPrice, e);
    PriceSetReads(o, d, 0, e);
    OwnerSetReads(o, d, tx.recipient, e);
    PriceSetReads(OwnerSet(o, d, tx.recipient), d, 0, e);
    OwnerSetReads(o, d, tx.owner, e);
    PriceSetReads(OwnerSet(o, d, tx.owner), d, 0, e);
  }

  /** What no step ever undoes. */
  ghost predicate Grows(o: Overlay, o': Overlay) {
    && o'.base == o.base
    && o.spent <= o'.spent
    && (forall d :: GetDomain(o, d).Some? ==> GetDomain(o', d).Some?)
  }

  /** No step removes a record, forgets a spent id or touches the index below. */
  lemma StepGrows(x: Place, st: DomState, tx: Tx, found: Option<Tx>)
    ensures Grows(st.index, ApplyDomain(x, st, tx, found).state.index)
  {
    hide ApplyDomain;
    hide GetDomain;
    hide GetOwner;
    hide GetPrice;
    var o' := ApplyDomain(x, st, tx, found).state.index;
    StepEffect(x, st, tx, found, tx.domain);
    forall d ensures GetDomain(st.index, d).Some? ==> GetDomain(o', d).Some? {
      StepEffect(x, st, tx, found, d);
    }
  }

  // ----- Whole blocks -----

  lemma {:induction false} RunSound(x: Place, st: DomState, txs: seq<Tx>, founds: seq<Option<Tx>>)
    requires |founds| == |txs| && Sound(st.index)
    ensures Sound(DomainRun(x, st, txs, founds).index)
    ensures Grows(st.index, DomainRun(x, st, txs, founds).index)
  {
    hide ApplyDomain;
    hide Sound;
    hide GetDomain;
    if txs == [] {
    } else {
      var n := |txs| - 1;
      RunSound(x, st, txs[..n], founds[..n]);
      var mid := DomainRun(x, st, txs[..n], founds[..n]);
      StepSound(x, mid, txs[n], founds[n]);
      StepGrows(x, mid, txs[n], founds[n]);
    }
  }

  lemma {:induction false} RunGrows(x: Place, st: DomState, txs: seq<Tx>, founds: seq<Option<Tx>>, i: nat)
    requires |founds| == |txs| && i <= |txs|
    ensures Grows(DomainRun(x, st, txs[..i], founds[..i]).index, DomainRun(x, st, txs, founds).index)
    decreases |txs|
  {
    hide ApplyDomain;
    hide GetDomain;
    if i == |txs| {
      assert txs[..i] == txs && founds[..i] == founds;
    } else {
      var n := |txs| - 1;
      RunGrows(x, st, txs[..n], founds[..n], i);
      assert txs[..n][..i] == txs[..i] && founds[..n][..i] == founds[..i];
      StepGrows(x, DomainRun(x, st, txs[..n], founds[..n]), txs[n], founds[n]);
    }
  }

  // ----- Commitments inside a block -----

  /** The overlay has changed only at hashes that validation has seen in this block. */
  ghost predicate CommitsWithin(o: Commits.Overlay, start: Commits.Overlay, seen: set<Bytes>) {
    && o.base == start.base && o.purged == start.purged && o.index == start.index
    && o.added.Keys <= seen && o.consumed <= seen
  }

  lemma CommitsUnseen(o: Commits.Overlay, start: Commits.Overlay, seen: set<Bytes>, h: Bytes)
    requires CommitsWithin(o, start, seen) && h !in seen && start.added == map[] && start.consumed == {}
    ensures Commits.OvGet(o, h) == Commits.OvGet(start, h)
  {
  }

  /** COMMIT adds its record, an effective REVEAL consumes its hash, and nothing else touches the commitments. */
  lemma StepCommits(x: Place, st: DomState, tx: Tx, found: Option<Tx>)
    ensures var r := ApplyDomain(x, st, tx, found);
            r.state.commits ==
              if tx.typ.COMMIT? then Commits.OvAdd(st.commits, CommitOf(x, tx))
              else if tx.typ.REVEAL? && r.outcome.Done? then Commits.OvConsume(st.commits, RevealHash(x.env, tx))
              else st.commits
  {
    hide GetDomain;
    hide GetOwner;
    hide GetPrice;
  }

  lemma NextCommitsSeen(c: Ctx, sh: Shadow, tx: Tx)
    requires Gates(c, sh, tx)
    ensures NextShadow(c, sh, tx).commits ==
              if tx.typ.COMMIT? then sh.commits + {tx.commitHash}
              else if tx.typ.REVEAL? then sh.commits + {RevealHash(c.env, tx)}
              else sh.commits
  {
    assert tx.owner == [] ==> tx.typ.REVOKE?;
    hide Gates;
  }

  lemma CommitStep(c: Ctx, sh: Shadow, x: Place, st: DomState, tx: Tx, found: Option<Tx>, start: Commits.Overlay)
    requires Gates(c, sh, tx) && x.env == c.env && CommitsWithin(st.commits, start, sh.commits)
    ensures CommitsWithin(ApplyDomain(x, st, tx, found).state.commits, start, NextShadow(c, sh, tx).commits)
  {
    hide ApplyDomain;
    hide Gates;
    hide NextShadow;
    StepCommits(x, st, tx, found);
    NextCommitsSeen(c, sh, tx);
  }

  lemma {:induction false} CommitsTracked(c: Ctx, x: Place, st: DomState, txs: seq<Tx>, founds: seq<Option<Tx>>)
    requires |founds| == |txs| && Accepts(c, txs) && x.env == c.env
    requires st.commits.added == map[] && st.commits.consumed == {}
    ensures CommitsWithin(DomainRun(x, st, txs, founds).commits, st.commits, ShadowRun(c, txs).commits)
  {
    hide ApplyDomain;
    hide Gates;
    hide NextShadow;
    if txs == [] {
    } else {
      var n := |txs| - 1;
      CommitsTracked(c, x, st, txs[..n], founds[..n]);
      CommitStep(c, ShadowRun(c, txs[..n]), x, DomainRun(x, st, txs[..n], founds[..n]), txs[n], founds[n], st.commits);
    }
  }

  // ----- No accepted block touches a missing record -----

  /** Validation's view of a block and the state that phase B starts from. */
  ghost predicate Matches(c: Ctx, x: Place, st: DomState) {
    && x.env == c.env && x.slot == c.slot
    && st.index == c.index && st.commits == c.commits
    && st.commits.added == map[] && st.commits.consumed == {}
    && Sound(st.index)
  }

  /** A REVEAL that passes the gates leaves a record under its name, whether or not it takes effect. */
  lemma RevealLeavesRecord(c: Ctx, sh: Shadow, x: Place, st: DomState, tx: Tx, start: DomState)
    requires Gates(c, sh, tx) && tx.typ.REVEAL? && Matches(c, x, start)
    requires CommitsWithin(st.commits, start.commits, sh.commits)
    ensures Commits.OvGet(st.commits, RevealHash(c.env, tx)) == Commits.OvGet(c.commits, RevealHash(c.env, tx))
    ensures Commits.OvGet(st.commits, RevealHash(c.env, tx)).Some?
    ensures GetDomain(ApplyReveal(x, st, tx).state.index, tx.domain).Some?
  {
    assert tx.owner != [];
    CommitsUnseen(st.commits, start.commits, sh.commits, RevealHash(c.env, tx));
    hide Sound;
  }

  ghost predicate Recorded(o: Overlay, names: set<Name>) {
    forall d :: d in names ==> GetDomain(o, d).Some?
  }

  lemma {:induction false} RegisteredAreRecorded(c: Ctx, x: Place, st: DomState, txs: seq<Tx>, founds: seq<Option<Tx>>)
    requires |founds| == |txs| && Accepts(c, txs) && Matches(c, x, st)
    ensures Recorded(DomainRun(x, st, txs, founds).index, ShadowRun(c, txs).registered)
  {
    hide ApplyDomain;
    hide Gates;
    hide NextShadow;
    hide GetDomain;
    hide Sound;
    hide CommitsWithin;
    if txs == [] {
    } else {
      var n := |txs| - 1;
      var mid, sh, tx := DomainRun(x, st, txs[..n], founds[..n]), ShadowRun(c, txs[..n]), txs[n];
      RegisteredAreRecorded(c, x, st, txs[..n], founds[..n]);
      CommitsTracked(c, x, st, txs[..n], founds[..n]);
      StepGrows(x, mid, tx, founds[n]);
      NextRegistered(c, sh, tx);
      if tx.typ.REVEAL? {
        RevealLeavesRecord(c, sh, x, mid, tx, st);
        ApplyIsReveal(x, mid, tx, founds[n]);
      }
    }
  }

  lemma NextRegistered(c: Ctx, sh: Shadow, tx: Tx)
    ensures NextShadow(c, sh, tx).registered ==
            if tx.owner != [] && tx.typ.REVEAL? then sh.registered + {tx.domain} else sh.registered
  {
  }

  lemma ApplyIsReveal(x: Place, st: DomState, tx: Tx, found: Option<Tx>)
    requires tx.typ.REVEAL?
    ensures ApplyDomain(x, st, tx, found) == ApplyReveal(x, st, tx)
  {
  }

  /** The gates that concern a record's existence. */
  lemma ExistenceGates(c: Ctx, sh: Shadow, tx: Tx)
    requires Gates(c, sh, tx)
    ensures !tx.typ.REGISTER?
    ensures IsMarket(tx) || (tx.owner != [] && (tx.typ.UPDATE? || tx.typ.RENEW? || tx.typ.REVOKE?)) ==>
              tx.domain in sh.registered || GetDomain(c.index, tx.domain).Some?
  {
  }

  /** A transaction on an existing name finds its record. */
  lemma TargetIsRecorded(c: Ctx, x: Place, st: DomState, txs: seq<Tx>, founds: seq<Option<Tx>>, i: nat)
    requires |founds| == |txs| && Accepts(c, txs) && Matches(c, x, st) && i < |txs|
    requires IsMarket(txs[i]) || (txs[i].owner != [] && (txs[i].typ.UPDATE? || txs[i].typ.RENEW? || txs[i].typ.REVOKE?))
    ensures GetDomain(DomainRun(x, st, txs[..i], founds[..i]).index, txs[i].domain).Some?
  {
    hide ApplyDomain;
    hide Gates;
    hide NextShadow;
    hide GetDomain;
    hide Sound;
    AcceptsPrefix(c, txs, i);
    ExistenceGates(c, ShadowRun(c, txs[..i]), txs[i]);
    RegisteredAreRecorded(c, x, st, txs[..i], founds[..i]);
    RunSound(x, st, txs[..i], founds[..i]);
  }

  /** In a validated block no LIST, DELIST, BUY or TRANSFER is applied to a missing record. */
  lemma AcceptedNeverCrashes(c: Ctx, x: Place, st: DomState, txs: seq<Tx>, founds: seq<Option<Tx>>, i: nat)
    requires |founds| == |txs| && Accepts(c, txs) && Matches(c, x, st) && i < |txs|
    ensures !OutcomeAt(x, st, txs, founds, i).Crashed?
  {
    hide ApplyDomain;
    hide GetDomain;
    hide Accepts;
    var mid := DomainRun(x, st, txs[..i], founds[..i]);
    if ApplyDomain(x, mid, txs[i], founds[i]).outcome.Crashed? {
      CrashMeansMissing(x, mid, txs[i], founds[i]);
      TargetIsRecorded(c, x, st, txs, founds, i);
    }
  }

  lemma CrashMeansMissing(x: Place, st: DomState, tx: Tx, found: Option<Tx>)
    requires ApplyDomain(x, st, tx, found).outcome.Crashed?
    ensures IsMarket(tx) && GetDomain(st.index, tx.domain).None?
  {
    hide GetDomain;
    hide GetOwner;
    hide GetPrice;
  }
}
