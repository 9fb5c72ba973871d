/**
 * The domain index and its per-block overlay, as values
 * (internal/index/index_manager.go, internal/index/index_overlay.go).
 */
module DomainIndex {
  import opened Basics
  import opened Transactions

  /** One record: the signed transaction, and the mutable metadata beside it. */
  datatype Entry = Entry(tx: Tx, owner: Option<Key>, price: u64)

  // ----- The real index -----

  datatype Index = Index(entries: map<Name, Entry>, spent: set<i64>)

  function IxDomain(ix: Index, d: Name): Option<Tx> {
    if d in ix.entries then Some(ix.entries[d].tx) else None
  }

  function IxOwner(ix: Index, d: Name): Option<Key> {
    if d in ix.entries then ix.entries[d].owner else None
  }

  function IxPrice(ix: Index, d: Name): u64 {
    if d in ix.entries then ix.entries[d].price else 0
  }

  /** Adding under an existing name replaces the transaction and keeps the metadata. */
  function IxAdd(ix: Index, d: Name, tx: Tx): Index {
    ix.(entries := ix.entries[d := if d in ix.entries then ix.entries[d].(tx := tx) else Entry(tx, None, 0)])
  }

  function IxSetOwner(ix: Index, d: Name, k: Key): Index {
    if d in ix.entries then ix.(entries := ix.entries[d := ix.entries[d].(owner := Some(k))]) else ix
  }

  function IxSetPrice(ix: Index, d: Name, p: u64): Index {
    if d in ix.entries then ix.(entries := ix.entries[d := ix.entries[d].(price := p)]) else ix
  }

  function IxMark(ix: Index, id: i64): Index {
    ix.(spent := ix.spent + {id})
  }

  // ----- The overlay -----

  /** `owner` and `price` are Some exactly when ownerSet and listPriceSet are true. */
  datatype Change = Change(tx: Option<Tx>, owner: Option<Key>, price: Option<u64>, added: bool)

  datatype Overlay = Overlay(base: Index, journal: map<Name, Change>, spent: set<i64>)

  function NewOverlay(base: Index): Overlay {
    Overlay(base, map[], {})
  }

  function GetDomain(o: Overlay, d: Name): Option<Tx> {
    if d in o.journal then o.journal[d].tx else IxDomain(o.base, d)
  }

  function GetOwner(o: Overlay, d: Name): Option<Key> {
    if d in o.journal && o.journal[d].owner.Some? then o.journal[d].owner else IxOwner(o.base, d)
  }

  function GetPrice(o: Overlay, d: Name): u64 {
    if d in o.journal && o.journal[d].price.Some? then o.journal[d].price.value else IxPrice(o.base, d)
  }

  predicate IsForSale(o: Overlay, d: Name) {
    GetPrice(o, d) > 0
  }

  predicate IsSpent(o: Overlay, id: i64) {
    id in o.spent || id in o.base.spent
  }

  function Added(o: Overlay, d: Name, tx: Tx): Overlay {
    var c := if d in o.journal then o.journal[d] else Change(None, None, None, false);
    o.(journal := o.journal[d := c.(tx := Some(tx), added := true)])
  }

  /** The journal entry of d; a new one caches what the real index holds. */
  function Touched(o: Overlay, d: Name): Change {
    if d in o.journal then o.journal[d] else Change(IxDomain(o.base, d), None, None, false)
  }

  function OwnerSet(o: Overlay, d: Name, k: Key): Overlay {
    o.(journal := o.journal[d := Touched(o, d).(owner := Some(k))])
  }

  function PriceSet(o: Overlay, d: Name, p: u64): Overlay {
    o.(journal := o.journal[d := Touched(o, d).(price := Some(p))])
  }

  function Marked(o: Overlay, id: i64): Overlay {
    o.(spent := o.spent + {id})
  }

  /** A possible answer of GetTxByID: any journal entry with that id, else any real entry with it. */
  ghost predicate Finds(o: Overlay, id: i64, r: Option<Tx>) {
    if exists d :: d in o.journal && o.journal[d].tx.Some? && o.journal[d].tx.value.tid == id
    then exists d :: d in o.journal && o.journal[d].tx.Some? && o.journal[d].tx.value.tid == id && r == o.journal[d].tx
    else IxFinds(o.base, id, r)
  }

  ghost predicate IxFinds(ix: Index, id: i64, r: Option<Tx>) {
    match r
    case None => forall d :: d in ix.entries ==> ix.entries[d].tx.tid != id
    case Some(tx) => tx.tid == id && exists d :: d in ix.entries && tx == ix.entries[d].tx
  }

  // ----- Flushing -----

  function Look(ix: Index, d: Name): Option<Entry> {
    if d in ix.entries then Some(ix.entries[d]) else None
  }

  /** One journal entry flushed into the index. */
  function Flush(ix: Index, d: Name, c: Change): Index {
    var a := if c.added && c.tx.Some? then IxAdd(ix, d, c.tx.value) else ix;
    var b := if c.owner.Some? then IxSetOwner(a, d, c.owner.value) else a;
    if c.price.Some? then IxSetPrice(b, d, c.price.value) else b
  }

  /** The same, seen from the one name that it concerns. */
  function FlushEntry(e: Option<Entry>, c: Change): Option<Entry> {
    var a :=
      if c.added && c.tx.Some?
      then Some(if e.Some? then e.value.(tx := c.tx.value) else Entry(c.tx.value, None, 0))
      else e;
    if a.None? then None
    else Some(a.value.(owner := if c.owner.Some? then c.owner else a.value.owner,
                       price := if c.price.Some? then c.price.value else a.value.price))
  }

  lemma FlushIsLocal(ix: Index, d: Name, c: Change, e: Name)
    ensures Look(Flush(ix, d, c), e) == if e == d then FlushEntry(Look(ix, d), c) else Look(ix, e)
    ensures Flush(ix, d, c).spent == ix.spent
  {
  }

  /** What the flush leaves under d. */
  function Settled(o: Overlay, d: Name): Option<Entry> {
    if d in o.journal then FlushEntry(Look(o.base, d), o.journal[d]) else Look(o.base, d)
  }

  /** The index after Commit: every name settled on its own, in whatever order. */
  function Committed(o: Overlay): Index {
    Index(map d | d in o.base.entries.Keys + o.journal.Keys && Settled(o, d).Some? :: Settled(o, d).value,
          o.base.spent + o.spent)
  }

  lemma CommittedLook(o: Overlay, d: Name)
    ensures Look(Committed(o), d) == Settled(o, d)
  {
  }

  lemma SameLooks(a: Index, b: Index)
    requires a.spent == b.spent
    requires forall d :: Look(a, d) == Look(b, d)
    ensures a == b
  {
    forall d ensures d in a.entries <==> d in b.entries {
      assert Look(a, d) == Look(b, d);
    }
    forall d | d in a.entries ensures a.entries[d] == b.entries[d] {
      assert Look(a, d) == Look(b, d);
    }
  }

  // ----- Refinement -----

  /** True of every overlay that its operations can build. */
  ghost predicate WellFormed(o: Overlay) {
    forall d :: d in o.journal ==>
      if o.journal[d].added then o.journal[d].tx.Some? else o.journal[d].tx == IxDomain(o.base, d)
  }

  /** Metadata was set on a name that neither the index nor the journal holds. */
  predicate Stray(o: Overlay, d: Name) {
    && d in o.journal && !o.journal[d].added && d !in o.base.entries
    && (o.journal[d].owner.Some? || (o.journal[d].price.Some? && o.journal[d].price.value > 0))
  }

  ghost predicate ReadsAgree(o: Overlay, ix: Index) {
    && (forall d :: GetDomain(o, d) == IxDomain(ix, d))
    && (forall d :: GetOwner(o, d) == IxOwner(ix, d))
    && (forall d :: GetPrice(o, d) == IxPrice(ix, d))
    && (forall d :: IsForSale(o, d) == (IxPrice(ix, d) > 0))
    && (forall id :: IsSpent(o, id) == (id in ix.spent))
  }

  lemma ReadsOne(o: Overlay, d: Name)
    requires WellFormed(o)
    ensures GetDomain(o, d) == IxDomain(Committed(o), d)
    ensures (GetOwner(o, d) == IxOwner(Committed(o), d) && GetPrice(o, d) == IxPrice(Committed(o), d)) <==> !Stray(o, d)
  {
    CommittedLook(o, d);
  }

  /** Reads before Commit equal reads after it exactly when no metadata is stray. */
  lemma ReadsAgreeIff(o: Overlay)
    requires WellFormed(o)
    ensures ReadsAgree(o, Committed(o)) <==> forall d :: !Stray(o, d)
  {
    forall d { ReadsOne(o, d); }
  }

  /** Committing a second time, over the index it already changed, changes nothing more. */
  lemma CommitTwice(o: Overlay)
    ensures Committed(o.(base := Committed(o))) == Committed(o)
  {
    var o' := o.(base := Committed(o));
    forall d ensures Look(Committed(o'), d) == Look(Committed(o), d) {
      CommittedLook(o, d);
      CommittedLook(o', d);
    }
    SameLooks(Committed(o'), Committed(o));
  }

  /** The overlay is one that the block may go on with. */
  ghost predicate Sound(o: Overlay) {
    WellFormed(o) && forall d :: !Stray(o, d)
  }

  lemma SoundReads(o: Overlay, d: Name)
    requires Sound(o)
    ensures GetDomain(o, d) == IxDomain(Committed(o), d)
    ensures GetOwner(o, d) == IxOwner(Committed(o), d)
    ensures GetPrice(o, d) == IxPrice(Committed(o), d)
    ensures GetDomain(o, d).Some? <==> d in Committed(o).entries
  {
    ReadsOne(o, d);
  }

  lemma SoundNew(ix: Index)
    ensures Sound(NewOverlay(ix)) && Committed(NewOverlay(ix)) == ix
  {
    forall d { CommittedLook(NewOverlay(ix), d); }
    SameLooks(Committed(NewOverlay(ix)), ix);
  }

  /** Each overlay operation is the direct operation on the committed index. */
  lemma AddedDirect(o: Overlay, d: Name, tx: Tx)
    requires Sound(o)
    ensures Sound(Added(o, d, tx))
    ensures Committed(Added(o, d, tx)) == IxAdd(Committed(o), d, tx)
  {
    var o' := Added(o, d, tx);
    forall e ensures !Stray(o', e) && Look(Committed(o'), e) == Look(IxAdd(Committed(o), d, tx), e) {
      assert !Stray(o, e);
      CommittedLook(o, e);
      CommittedLook(o', e);
    }
    SameLooks(Committed(o'), IxAdd(Committed(o), d, tx));
  }

  lemma OwnerSetDirect(o: Overlay, d: Name, k: Key)
    requires Sound(o) && GetDomain(o, d).Some?
    ensures Sound(OwnerSet(o, d, k))
    ensures Committed(OwnerSet(o, d, k)) == IxSetOwner(Committed(o), d, k)
  {
    var o' := OwnerSet(o, d, k);
    forall e ensures !Stray(o', e) && Look(Committed(o'), e) == Look(IxSetOwner(Committed(o), d, k), e) {
      assert !Stray(o, e);
      CommittedLook(o, e);
      CommittedLook(o', e);
    }
    SameLooks(Committed(o'), IxSetOwner(Committed(o), d, k));
  }

  lemma PriceSetDirect(o: Overlay, d: Name, p: u64)
    requires Sound(o) && (GetDomain(o, d).Some? || p == 0)
    ensures Sound(PriceSet(o, d, p))
    ensures Committed(PriceSet(o, d, p)) == IxSetPrice(Committed(o), d, p)
  {
    var o' := PriceSet(o, d, p);
    forall e ensures !Stray(o', e) && Look(Committed(o'), e) == Look(IxSetPrice(Committed(o), d, p), e) {
      assert !Stray(o, e);
      CommittedLook(o, e);
      CommittedLook(o', e);
    }
    SameLooks(Committed(o'), IxSetPrice(Committed(o), d, p));
  }

  lemma MarkedDirect(o: Overlay, id: i64)
    requires Sound(o)
    ensures Sound(Marked(o, id))
    ensures Committed(Marked(o, id)) == IxMark(Committed(o), id)
  {
    var o' := Marked(o, id);
    forall e ensures !Stray(o', e) && Look(Committed(o'), e) == Look(IxMark(Committed(o), id), e) {
      assert !Stray(o, e);
      CommittedLook(o, e);
      CommittedLook(o', e);
    }
    SameLooks(Committed(o'), IxMark(Committed(o), id));
  }
}
