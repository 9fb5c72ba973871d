/**
 * The domain index over the search tree, and the overlay over the index
 * (internal/index/index_manager.go, internal/index/index_overlay.go).
 */
module IndexObjects {
  import opened Basics
  import opened Transactions
  import opened DomainIndex
  import opened AvlModel
  import opened AvlTree

  /** The hash separates the names in use: some function undoes it on them. */
  ghost predicate Undoes(unhash: Bytes -> Name, hash: Name -> Bytes, used: iset<Name>) {
    forall d :: d in used ==> unhash(hash(d)) == d
  }

  /** The content is keyed by the hashes of the names. */
  ghost predicate Keyed(c: Content, names: set<Name>, hash: Name -> Bytes, unhash: Bytes -> Name) {
    && (forall d :: d in names ==> hash(d) in c)
    && (forall h :: h in c ==> unhash(h) in names && hash(unhash(h)) == h)
  }

  ghost function ByName(c: Content, names: set<Name>, hash: Name -> Bytes): map<Name, Entry>
    requires forall d :: d in names ==> hash(d) in c
  {
    map d | d in names :: c[hash(d)]
  }

  lemma PutByName(c: Content, names: set<Name>, hash: Name -> Bytes, unhash: Bytes -> Name,
                  used: iset<Name>, d: Name, tx: Tx)
    requires Undoes(unhash, hash, used) && Keyed(c, names, hash, unhash) && d in used
    requires forall e :: e in names ==> e in used
    ensures Keyed(Put(c, hash(d), tx), names + {d}, hash, unhash)
    ensures ByName(Put(c, hash(d), tx), names + {d}, hash) ==
            IxAdd(Index(ByName(c, names, hash), {}), d, tx).entries
  {
    assert hash(d) in c <==> d in names;
    forall e | e in names ensures hash(e) == hash(d) ==> e == d {
      assert unhash(hash(e)) == e && unhash(hash(d)) == d;
    }
  }

  lemma OverwriteByName(c: Content, names: set<Name>, hash: Name -> Bytes, unhash: Bytes -> Name,
                        used: iset<Name>, d: Name, e: Entry)
    requires Undoes(unhash, hash, used) && Keyed(c, names, hash, unhash) && d in names
    requires forall n :: n in names ==> n in used
    ensures Keyed(Overwrite(c, hash(d), e), names, hash, unhash)
    ensures ByName(Overwrite(c, hash(d), e), names, hash) == ByName(c, names, hash)[d := e]
  {
    forall n | n in names ensures hash(n) == hash(d) ==> n == d {
      assert unhash(hash(n)) == n && unhash(hash(d)) == d;
    }
  }

  /** A tree that holds the entries of the names, keyed by their hashes. */
  ghost predicate Holds(t: Tree, names: set<Name>, hash: Name -> Bytes, unhash: Bytes -> Name, used: iset<Name>) {
    && Undoes(unhash, hash, used) && Avl(t) && Keyed(ContentOf(t), names, hash, unhash)
    && (forall d :: d in names ==> d in used)
  }

  ghost function ViewOf(t: Tree, names: set<Name>, hash: Name -> Bytes, unhash: Bytes -> Name, used: iset<Name>,
                        spent: set<i64>): Index
    requires Holds(t, names, hash, unhash, used)
  {
    Index(ByName(ContentOf(t), names, hash), spent)
  }

  lemma AddView(t: Tree, names: set<Name>, hash: Name -> Bytes, unhash: Bytes -> Name, used: iset<Name>,
                spent: set<i64>, d: Name, tx: Tx)
    requires Holds(t, names, hash, unhash, used) && d in used
    ensures Holds(AvlModel.Add(t, hash(d), tx), names + {d}, hash, unhash, used)
    ensures ViewOf(AvlModel.Add(t, hash(d), tx), names + {d}, hash, unhash, used, spent) ==
            IxAdd(ViewOf(t, names, hash, unhash, used, spent), d, tx)
  {
    AddCorrect(t, hash(d), tx);
    PutByName(ContentOf(t), names, hash, unhash, used, d, tx);
  }

  lemma StoreView(t: Tree, names: set<Name>, hash: Name -> Bytes, unhash: Bytes -> Name, used: iset<Name>,
                  spent: set<i64>, d: Name, e: Entry)
    requires Holds(t, names, hash, unhash, used) && d in names
    ensures Holds(Stored(t, hash(d), e), names, hash, unhash, used)
    ensures var v := ViewOf(t, names, hash, unhash, used, spent);
            ViewOf(Stored(t, hash(d), e), names, hash, unhash, used, spent) == v.(entries := v.entries[d := e])
  {
    StoredShape(t, hash(d), e);
    StoredContent(t, hash(d), e);
    OverwriteByName(ContentOf(t), names, hash, unhash, used, d, e);
  }

  lemma FoundInView(t: Tree, names: set<Name>, hash: Name -> Bytes, unhash: Bytes -> Name, used: iset<Name>,
                    spent: set<i64>, id: i64)
    requires Holds(t, names, hash, unhash, used)
    ensures IxFinds(ViewOf(t, names, hash, unhash, used, spent), id, FindByTid(t, id))
  {
    FindByTidFinds(t, id);
    var c, v := ContentOf(t), ViewOf(t, names, hash, unhash, used, spent);
    match FindByTid(t, id) {
      case None =>
        assert forall d :: d in v.entries ==> hash(d) in c && v.entries[d] == c[hash(d)];
      case Some(tx) =>
        var h :| h in c && c[h].tx == tx;
        assert v.entries[unhash(h)].tx == tx;
    }
  }

  class IndexManager {
    const hash: Name -> Bytes
    ghost const unhash: Bytes -> Name
    /** The names that the chain ever mentions. */
    ghost const used: iset<Name>
    /** The Bloom filter's answer for a name that was never inserted. */
    const falsePositive: (set<Name>, Name) -> bool
    const tree: AVLTree
    var valid: set<Name>
    var spent: set<i64>

    ghost predicate Valid()
      reads this, tree, tree.repr
    {
      tree.Valid() && Holds(tree.Model(), valid, hash, unhash, used)
    }

    ghost function View(): Index
      requires Valid()
      reads this, tree, tree.repr
    {
      ViewOf(tree.Model(), valid, hash, unhash, used, spent)
    }

    constructor (hash: Name -> Bytes, ghost unhash: Bytes -> Name, ghost used: iset<Name>,
                 falsePositive: (set<Name>, Name) -> bool)
      requires Undoes(unhash, hash, used)
      ensures Valid() && fresh(tree.repr) && View() == Index(map[], {})
    {
      this.hash, this.unhash, this.used, this.falsePositive := hash, unhash, used, falsePositive;
      tree := new AVLTree();
      valid, spent := {}, {};
    }

    /** Search by hash is lookup by name. */
    method Find(d: Name) returns (e: Option<Entry>)
      requires Valid() && d in used
      ensures e == Look(View(), d)
    {
      SearchIsLookup(tree.Model(), hash(d));
      assert hash(d) in ContentOf(tree.Model()) <==> d in valid;
      e := tree.Search(hash(d));
    }

    method GetDomain(d: Name) returns (r: Option<Tx>)
      requires Valid() && d in used
      ensures r == IxDomain(View(), d)
    {
      if !(d in valid || falsePositive(valid, d)) {
        return None;
      }
      var e := Find(d);
      if e.None? {
        return None;
      }
      r := Some(e.value.tx);
    }

    method GetOwner(d: Name) returns (r: Option<Key>)
      requires Valid() && d in used
      ensures r == IxOwner(View(), d)
    {
      var e := Find(d);
      r := if e.None? then None else e.value.owner;
    }

    method GetListPrice(d: Name) returns (p: u64)
      requires Valid() && d in used
      ensures p == IxPrice(View(), d)
    {
      var e := Find(d);
      p := if e.None? then 0 else e.value.price;
    }

    method GetTxByID(id: i64) returns (r: Option<Tx>)
      requires Valid()
      ensures IxFinds(View(), id, r)
    {
      FoundInView(tree.Model(), valid, hash, unhash, used, spent, id);
      r := tree.FindNodeByTxID(id);
    }

    method Add(d: Name, tx: Tx)
      requires Valid() && d in used
      modifies this, tree, tree.repr
      ensures Valid() && fresh(tree.repr - old(tree.repr))
      ensures View() == IxAdd(old(View()), d, tx)
    {
      hide Keyed;
      hide ByName;
      hide IxAdd;
      AddView(tree.Model(), valid, hash, unhash, used, spent, d, tx);
      tree.Add(hash(d), tx);
      valid := valid + {d};
    }

    /** Overwrites the entry found under d. */
    method Store(d: Name, e: Entry)
      requires Valid() && d in used && d in View().entries
      modifies tree, tree.repr
      ensures Valid() && tree.repr == old(tree.repr)
      ensures View() == old(View()).(entries := old(View()).entries[d := e])
    {
      StoreView(tree.Model(), valid, hash, unhash, used, spent, d, e);
      tree.Store(hash(d), e);
    }

    method SetOwner(d: Name, k: Key)
      requires Valid() && d in used
      modifies tree, tree.repr
      ensures Valid() && tree.repr == old(tree.repr)
      ensures View() == IxSetOwner(old(View()), d, k)
    {
      var e := Find(d);
      if e.Some? {
        Store(d, e.value.(owner := Some(k)));
      }
    }

    method SetListPrice(d: Name, p: u64)
      requires Valid() && d in used
      modifies tree, tree.repr
      ensures Valid() && tree.repr == old(tree.repr)
      ensures View() == IxSetPrice(old(View()), d, p)
    {
      var e := Find(d);
      if e.Some? {
        Store(d, e.value.(price := p));
      }
    }

    /** All records, as the value that digests and validation are taken over. */
    method Snapshot() returns (ix: Index)
      requires Valid()
      ensures ix == View()
    {
      var entries: map<Name, Entry> := map[];
      var todo := valid;
      ghost var all := View().entries;
      while todo != {}
        invariant todo <= valid && all == View().entries && all.Keys == valid
        invariant entries == all - todo
        decreases todo
      {
        var d :| d in todo;
        var e := Find(d);
        assert all - (todo - {d}) == (all - todo)[d := all[d]];
        entries := entries[d := e.value];
        todo := todo - {d};
      }
      assert all - todo == all;
      ix := Index(entries, spent);
    }

    method MarkAsSpent(id: i64)
      requires Valid()
      modifies this
      ensures Valid() && View() == IxMark(old(View()), id)
    {
      spent := spent + {id};
    }
  }

  /** The index v is o's with every name but those in todo settled. */
  ghost predicate Partly(o: Overlay, todo: set<Name>, v: Index) {
    && v.spent == o.base.spent
    && forall d :: Look(v, d) == if d in o.journal && d in todo then Look(o.base, d) else Settled(o, d)
  }

  lemma PartlyStart(o: Overlay)
    ensures Partly(o, o.journal.Keys, o.base)
  {
  }

  lemma PartlyNext(o: Overlay, todo: set<Name>, d: Name, v: Index)
    requires Partly(o, todo, v) && d in todo && d in o.journal
    ensures Partly(o, todo - {d}, Flush(v, d, o.journal[d]))
  {
    var v' := Flush(v, d, o.journal[d]);
    forall e ensures Look(v', e) == if e in o.journal && e in todo - {d} then Look(o.base, e) else Settled(o, e) {
      FlushIsLocal(v, d, o.journal[d], e);
    }
  }

  lemma PartlyDone(o: Overlay, v: Index)
    requires Partly(o, {}, v)
    ensures v.(spent := v.spent + o.spent) == Committed(o)
  {
    forall d ensures Look(v.(spent := v.spent + o.spent), d) == Look(Committed(o), d) {
      CommittedLook(o, d);
    }
    SameLooks(v.(spent := v.spent + o.spent), Committed(o));
  }

  class IndexOverlay {
    const base: IndexManager
    var journal: map<Name, Change>
    var pendingSpent: set<i64>

    ghost predicate Valid()
      reads this, base, base.tree, base.tree.repr
    {
      base.Valid() && forall d :: d in journal ==> d in base.used
    }

    ghost function View(): Overlay
      requires Valid()
      reads this, base, base.tree, base.tree.repr
    {
      Overlay(base.View(), journal, pendingSpent)
    }

    constructor (base: IndexManager)
      requires base.Valid()
      ensures Valid() && this.base == base && View() == NewOverlay(base.View())
    {
      this.base := base;
      journal, pendingSpent := map[], {};
    }

    method GetDomain(d: Name) returns (r: Option<Tx>)
      requires Valid() && d in base.used
      ensures r == DomainIndex.GetDomain(View(), d)
    {
      if d in journal {
        return journal[d].tx;
      }
      r := base.GetDomain(d);
    }

    method Add(d: Name, tx: Tx)
      requires Valid() && d in base.used
      modifies this
      ensures Valid() && View() == Added(old(View()), d, tx)
    {
      var c := if d in journal then journal[d] else Change(None, None, None, false);
      journal := journal[d := c.(tx := Some(tx), added := true)];
    }

    /** The journal entry of d; a new one caches what the index holds. */
    method Entry(d: Name) returns (c: Change)
      requires Valid() && d in base.used
      ensures c == Touched(View(), d)
    {
      if d in journal {
        return journal[d];
      }
      var existing := base.GetDomain(d);
      c := Change(existing, None, None, false);
    }

    method SetOwner(d: Name, k: Key)
      requires Valid() && d in base.used
      modifies this
      ensures Valid() && View() == OwnerSet(old(View()), d, k)
    {
      var c := Entry(d);
      journal := journal[d := c.(owner := Some(k))];
    }

    method GetOwner(d: Name) returns (r: Option<Key>)
      requires Valid() && d in base.used
      ensures r == DomainIndex.GetOwner(View(), d)
    {
      if d in journal && journal[d].owner.Some? {
        return journal[d].owner;
      }
      r := base.GetOwner(d);
    }

    method SetListPrice(d: Name, p: u64)
      requires Valid() && d in base.used
      modifies this
      ensures Valid() && View() == PriceSet(old(View()), d, p)
    {
      var c := Entry(d);
      journal := journal[d := c.(price := Some(p))];
    }

    method GetListPrice(d: Name) returns (p: u64)
      requires Valid() && d in base.used
      ensures p == GetPrice(View(), d)
    {
      if d in journal && journal[d].price.Some? {
        return journal[d].price.value;
      }
      p := base.GetListPrice(d);
    }

    /** The journal is searched in whatever order the map iterates, then the index. */
    method GetTxByID(id: i64) returns (r: Option<Tx>)
      requires Valid()
      ensures Finds(View(), id, r)
    {
      var todo := journal.Keys;
      while todo != {}
        invariant todo <= journal.Keys
        invariant forall d :: d in journal && d !in todo ==> journal[d].tx.None? || journal[d].tx.value.tid != id
        decreases todo
      {
        var d :| d in todo;
        todo := todo - {d};
        if journal[d].tx.Some? && journal[d].tx.value.tid == id {
          return journal[d].tx;
        }
      }
      r := base.GetTxByID(id);
    }

    method MarkAsSpent(id: i64)
      requires Valid()
      modifies this
      ensures Valid() && View() == Marked(old(View()), id)
    {
      pendingSpent := pendingSpent + {id};
    }

    method IsSpent(id: i64) returns (b: bool)
      requires Valid()
      ensures b == DomainIndex.IsSpent(View(), id)
    {
      b := id in pendingSpent || id in base.spent;
    }

    /** One journal entry, flushed. */
    method FlushOne(d: Name, c: Change)
      requires Valid() && d in base.used
      modifies base, base.tree, base.tree.repr
      ensures Valid() && fresh(base.tree.repr - old(base.tree.repr))
      ensures base.View() == Flush(old(base.View()), d, c)
    {
      if c.added && c.tx.Some? {
        base.Add(d, c.tx.value);
      }
      if c.owner.Some? {
        base.SetOwner(d, c.owner.value);
      }
      if c.price.Some? {
        base.SetListPrice(d, c.price.value);
      }
    }

    /** The overlay o is being flushed; the names in todo are still to come. */
    ghost predicate Flushing(o: Overlay, todo: set<Name>)
      reads this, base, base.tree, base.tree.repr
    {
      Valid() && journal == o.journal && todo <= journal.Keys && Partly(o, todo, base.View())
    }

    /** The first loop of Commit: the journal, in whatever order the map iterates. */
    method CommitJournal(ghost o: Overlay)
      requires Valid() && o == View()
      modifies base, base.tree, base.tree.repr
      ensures Flushing(o, {}) && fresh(base.tree.repr - old(base.tree.repr))
    {
      hide Holds;
      var todo := journal.Keys;
      PartlyStart(o);
      while todo != {}
        invariant Flushing(o, todo) && fresh(base.tree.repr - old(base.tree.repr))
        decreases todo
      {
        var d :| d in todo;
        FlushNext(o, todo, d);
        todo := todo - {d};
      }
    }

    method FlushNext(ghost o: Overlay, ghost todo: set<Name>, d: Name)
      requires Flushing(o, todo) && d in todo
      modifies base, base.tree, base.tree.repr
      ensures Flushing(o, todo - {d}) && fresh(base.tree.repr - old(base.tree.repr))
    {
      PartlyNext(o, todo, d, base.View());
      FlushOne(d, journal[d]);
    }

    /** Flushes the overlay into the index; the journal itself stays. */
    method Commit()
      requires Valid()
      modifies base, base.tree, base.tree.repr
      ensures Valid() && fresh(base.tree.repr - old(base.tree.repr))
      ensures base.View() == Committed(old(View()))
      ensures journal == old(journal) && pendingSpent == old(pendingSpent)
    {
      ghost var o := View();
      CommitJournal(o);
      ghost var v := base.View();
      CommitSpent();
      PartlyDone(o, v);
    }

    method CommitSpent()
      requires Valid()
      modifies base
      ensures Valid() && base.tree.repr == old(base.tree.repr)
      ensures base.View() == old(base.View()).(spent := old(base.spent) + pendingSpent)
    {
      var todo := pendingSpent;
      while todo != {}
        invariant todo <= pendingSpent
        invariant Valid() && base.tree.repr == old(base.tree.repr)
        invariant base.View() == old(base.View()).(spent := old(base.spent) + (pendingSpent - todo))
        decreases todo
      {
        var id :| id in todo;
        todo := todo - {id};
        base.MarkAsSpent(id);
      }
      assert pendingSpent - todo == pendingSpent;
    }
  }
}
