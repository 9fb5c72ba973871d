/** The height-balanced search tree, as a value (internal/index/avl.go). */
module AvlModel {
  import opened Basics
  import opened Transactions
  import opened DomainIndex

  datatype Tree = Nil | Node(left: Tree, key: Bytes, entry: Entry, height: int, right: Tree)

  type Content = map<Bytes, Entry>

  function Max(a: int, b: int): int { if a >= b then a else b }

  /** The stored height; 0 for the nil node. */
  function H(t: Tree): int {
    if t.Nil? then 0 else t.height
  }

  /** recalculateHeight. */
  function Fixed(l: Tree, k: Bytes, e: Entry, r: Tree): Tree {
    Node(l, k, e, 1 + Max(H(l), H(r)), r)
  }

  // ----- What a tree must be -----

  ghost function ContentOf(t: Tree): Content {
    if t.Nil? then map[] else ContentOf(t.left) + map[t.key := t.entry] + ContentOf(t.right)
  }

  /** Every key of t is greater than k. */
  ghost predicate Above(t: Tree, k: Bytes) {
    t.Node? ==> Less(k, t.key) && Above(t.left, k) && Above(t.right, k)
  }

  /** Every key of t is less than k. */
  ghost predicate Below(t: Tree, k: Bytes) {
    t.Node? ==> Less(t.key, k) && Below(t.left, k) && Below(t.right, k)
  }

  ghost predicate Ordered(t: Tree) {
    t.Node? ==> Ordered(t.left) && Ordered(t.right) && Below(t.left, t.key) && Above(t.right, t.key)
  }

  /** Every stored height is the real one. */
  ghost predicate Exact(t: Tree)
    ensures Exact(t) ==> H(t) >= 0 && (H(t) == 0 <==> t.Nil?)
  {
    t.Node? ==> Exact(t.left) && Exact(t.right) && t.height == 1 + Max(H(t.left), H(t.right))
  }

  ghost predicate Balanced(t: Tree) {
    t.Node? ==> Balanced(t.left) && Balanced(t.right) && -1 <= H(t.left) - H(t.right) <= 1
  }

  ghost predicate Avl(t: Tree) {
    Exact(t) && Balanced(t) && Ordered(t)
  }

  // ----- Operations -----

  function RotatedLeft(t: Tree): Tree
    requires t.Node? && t.right.Node?
  {
    Fixed(Fixed(t.left, t.key, t.entry, t.right.left), t.right.key, t.right.entry, t.right.right)
  }

  function RotatedRight(t: Tree): Tree
    requires t.Node? && t.left.Node?
  {
    Fixed(t.left.left, t.left.key, t.left.entry, Fixed(t.left.right, t.key, t.entry, t.right))
  }

  function RightHeavyFix(r: Tree): Tree
    requires Exact(r) && r.Node?
  {
    if H(r.left) > H(r.right) then RotatedRight(r) else r
  }

  function LeftHeavyFix(l: Tree): Tree
    requires Exact(l) && l.Node?
  {
    if H(l.right) > H(l.left) then RotatedLeft(l) else l
  }

  function Rebalanced(l: Tree, k: Bytes, e: Entry, r: Tree): Tree
    requires Exact(l) && Exact(r)
  {
    if H(l) - H(r) == -2 then RotatedLeft(Fixed(l, k, e, RightHeavyFix(r)))
    else if H(l) - H(r) == 2 then RotatedRight(Fixed(LeftHeavyFix(l), k, e, r))
    else Fixed(l, k, e, r)
  }

  function Add(t: Tree, k: Bytes, tx: Tx): (r: Tree)
    requires Exact(t)
    ensures Exact(r)
  {
    if t.Nil? then Fixed(Nil, k, Entry(tx, None, 0), Nil)
    else if Less(k, t.key) then
      RebalancedExact(Add(t.left, k, tx), t.key, t.entry, t.right);
      Rebalanced(Add(t.left, k, tx), t.key, t.entry, t.right)
    else if Less(t.key, k) then
      RebalancedExact(t.left, t.key, t.entry, Add(t.right, k, tx));
      Rebalanced(t.left, t.key, t.entry, Add(t.right, k, tx))
    else
      RebalancedExact(t.left, t.key, t.entry.(tx := tx), t.right);
      Rebalanced(t.left, t.key, t.entry.(tx := tx), t.right)
  }

  /** rebalanceTree on a node whose subtrees did not change. */
  function Again(t: Tree): (r: Tree)
    requires t.Node? && Exact(t)
    ensures Exact(r)
    ensures Balanced(t) ==> r == t
  {
    RebalancedExact(t.left, t.key, t.entry, t.right);
    Rebalanced(t.left, t.key, t.entry, t.right)
  }

  function Smallest(t: Tree): Tree
    requires t.Node?
    ensures Smallest(t).Node?
  {
    if t.left.Node? then Smallest(t.left) else t
  }

  function Remove(t: Tree, k: Bytes): (r: Tree)
    requires Exact(t)
    ensures Exact(r)
  {
    if t.Nil? then Nil
    else if Less(k, t.key) then
      RebalancedExact(Remove(t.left, k), t.key, t.entry, t.right);
      Rebalanced(Remove(t.left, k), t.key, t.entry, t.right)
    else if Less(t.key, k) then
      RebalancedExact(t.left, t.key, t.entry, Remove(t.right, k));
      Rebalanced(t.left, t.key, t.entry, Remove(t.right, k))
    else if t.left.Node? && t.right.Node? then
      var m := Smallest(t.right);
      RebalancedExact(t.left, m.key, m.entry, Remove(t.right, m.key));
      Rebalanced(t.left, m.key, m.entry, Remove(t.right, m.key))
    else if t.left.Node? then Again(t.left)
    else if t.right.Node? then Again(t.right)
    else Nil
  }

  function Search(t: Tree, k: Bytes): Option<Entry> {
    if t.Nil? then None
    else if Less(k, t.key) then Search(t.left, k)
    else if Less(t.key, k) then Search(t.right, k)
    else Some(t.entry)
  }

  /** The node found by Search, with its metadata overwritten in place. */
  function Stored(t: Tree, k: Bytes, e: Entry): Tree {
    if t.Nil? then Nil
    else if Less(k, t.key) then t.(left := Stored(t.left, k, e))
    else if Less(t.key, k) then t.(right := Stored(t.right, k, e))
    else t.(entry := e)
  }

  function FindByTid(t: Tree, id: i64): Option<Tx> {
    if t.Nil? then None
    else if t.entry.tx.tid == id then Some(t.entry.tx)
    else
      var l := FindByTid(t.left, id);
      if l.Some? then l else FindByTid(t.right, id)
  }

  function InOrder(t: Tree): seq<(Bytes, Entry)> {
    if t.Nil? then [] else InOrder(t.left) + [(t.key, t.entry)] + InOrder(t.right)
  }

  // ----- Rotations keep order and content -----

  lemma RebalancedExact(l: Tree, k: Bytes, e: Entry, r: Tree)
    requires Exact(l) && Exact(r)
    ensures Exact(Rebalanced(l, k, e, r))
  {
  }

  lemma {:induction false} AboveTrans(t: Tree, j: Bytes, k: Bytes)
    requires Less(j, k) && Above(t, k)
    ensures Above(t, j)
  {
    if t.Nil? {
    } else {
      LessTransitive(j, k, t.key);
      AboveTrans(t.left, j, k);
      AboveTrans(t.right, j, k);
    }
  }

  lemma {:induction false} BelowTrans(t: Tree, j: Bytes, k: Bytes)
    requires Less(k, j) && Below(t, k)
    ensures Below(t, j)
  {
    if t.Nil? {
    } else {
      LessTransitive(t.key, k, j);
      BelowTrans(t.left, j, k);
      BelowTrans(t.right, j, k);
    }
  }

  /** A key that is not above k does not occur in a tree above k. */
  lemma {:induction false} AboveMisses(t: Tree, k: Bytes, x: Bytes)
    requires Above(t, k) && !Less(k, x)
    ensures x !in ContentOf(t)
  {
    if t.Nil? {
    } else {
      AboveMisses(t.left, k, x);
      AboveMisses(t.right, k, x);
    }
  }

  lemma {:induction false} BelowMisses(t: Tree, k: Bytes, x: Bytes)
    requires Below(t, k) && !Less(x, k)
    ensures x !in ContentOf(t)
  {
    if t.Nil? {
    } else {
      BelowMisses(t.left, k, x);
      BelowMisses(t.right, k, x);
    }
  }

  lemma RotatedLeftOrdered(t: Tree)
    requires t.Node? && t.right.Node? && Ordered(t)
    ensures Ordered(RotatedLeft(t))
  {
    BelowTrans(t.left, t.right.key, t.key);
  }

  lemma RotatedRightOrdered(t: Tree)
    requires t.Node? && t.left.Node? && Ordered(t)
    ensures Ordered(RotatedRight(t))
  {
    AboveTrans(t.right, t.left.key, t.key);
  }

  lemma RotatedLeftBounds(t: Tree, j: Bytes)
    requires t.Node? && t.right.Node?
    ensures Above(t, j) ==> Above(RotatedLeft(t), j)
    ensures Below(t, j) ==> Below(RotatedLeft(t), j)
  {
    if Above(t, j) { assert Above(t.right, j); }
    if Below(t, j) { assert Below(t.right, j); }
  }

  lemma RotatedRightBounds(t: Tree, j: Bytes)
    requires t.Node? && t.left.Node?
    ensures Above(t, j) ==> Above(RotatedRight(t), j)
    ensures Below(t, j) ==> Below(RotatedRight(t), j)
  {
    if Above(t, j) { assert Above(t.left, j); }
    if Below(t, j) { assert Below(t.left, j); }
  }

  lemma UnionAssoc(a: Content, b: Content, c: Content)
    ensures (a + b) + c == a + (b + c)
  {
  }

  lemma RotatedContent(t: Tree)
    requires t.Node?
    ensures t.right.Node? ==> ContentOf(RotatedLeft(t)) == ContentOf(t)
    ensures t.left.Node? ==> ContentOf(RotatedRight(t)) == ContentOf(t)
  {
    if t.right.Node? {
      var a, x := ContentOf(t.left), map[t.key := t.entry];
      var b, y, c := ContentOf(t.right.left), map[t.right.key := t.right.entry], ContentOf(t.right.right);
      UnionAssoc(a + x, b + y, c);
      UnionAssoc(a + x, b, y);
    }
    if t.left.Node? {
      var y, c := map[t.key := t.entry], ContentOf(t.right);
      var a, x, b := ContentOf(t.left.left), map[t.left.key := t.left.entry], ContentOf(t.left.right);
      UnionAssoc(a + x, b, y);
      UnionAssoc(a + x, b + y, c);
    }
  }

  lemma RebalancedOrdered(l: Tree, k: Bytes, e: Entry, r: Tree)
    requires Exact(l) && Exact(r)
    requires Ordered(l) && Ordered(r) && Below(l, k) && Above(r, k)
    ensures Ordered(Rebalanced(l, k, e, r))
  {
    if H(l) - H(r) == -2 {
      if H(r.left) > H(r.right) {
        RotatedRightOrdered(r);
        RotatedRightBounds(r, k);
      }
      RotatedLeftOrdered(Fixed(l, k, e, RightHeavyFix(r)));
    } else if H(l) - H(r) == 2 {
      if H(l.right) > H(l.left) {
        RotatedLeftOrdered(l);
        RotatedLeftBounds(l, k);
      }
      RotatedRightOrdered(Fixed(LeftHeavyFix(l), k, e, r));
    }
  }

  lemma RebalancedBounds(l: Tree, k: Bytes, e: Entry, r: Tree, j: Bytes)
    requires Exact(l) && Exact(r)
    ensures Above(l, j) && Less(j, k) && Above(r, j) ==> Above(Rebalanced(l, k, e, r), j)
    ensures Below(l, j) && Less(k, j) && Below(r, j) ==> Below(Rebalanced(l, k, e, r), j)
  {
    if H(l) - H(r) == -2 {
      if H(r.left) > H(r.right) { RotatedRightBounds(r, j); }
      RotatedLeftBounds(Fixed(l, k, e, RightHeavyFix(r)), j);
    } else if H(l) - H(r) == 2 {
      if H(l.right) > H(l.left) { RotatedLeftBounds(l, j); }
      RotatedRightBounds(Fixed(LeftHeavyFix(l), k, e, r), j);
    }
  }

  lemma RebalancedContent(l: Tree, k: Bytes, e: Entry, r: Tree)
    requires Exact(l) && Exact(r)
    ensures ContentOf(Rebalanced(l, k, e, r)) == ContentOf(l) + map[k := e] + ContentOf(r)
  {
    if H(l) - H(r) == -2 {
      RotatedContent(r);
      RotatedContent(Fixed(l, k, e, RightHeavyFix(r)));
    } else if H(l) - H(r) == 2 {
      RotatedContent(l);
      RotatedContent(Fixed(LeftHeavyFix(l), k, e, r));
    }
  }

  /** One rotation, or two, bring an imbalance of 2 back within 1. */
  lemma RebalancedBalances(l: Tree, k: Bytes, e: Entry, r: Tree)
    requires Exact(l) && Exact(r) && Balanced(l) && Balanced(r)
    requires -2 <= H(l) - H(r) <= 2
    ensures Balanced(Rebalanced(l, k, e, r))
    ensures Max(H(l), H(r)) <= H(Rebalanced(l, k, e, r)) <= 1 + Max(H(l), H(r))
    ensures -1 <= H(l) - H(r) <= 1 ==> H(Rebalanced(l, k, e, r)) == 1 + Max(H(l), H(r))
  {
    if H(l) - H(r) == -2 {
      RightHeavyBalances(l, k, e, r);
    } else if H(l) - H(r) == 2 {
      LeftHeavyBalances(l, k, e, r);
    }
  }

  lemma RightHeavyBalances(l: Tree, k: Bytes, e: Entry, r: Tree)
    requires Exact(l) && Exact(r) && Balanced(l) && Balanced(r) && H(r) == H(l) + 2
    ensures var t := RotatedLeft(Fixed(l, k, e, RightHeavyFix(r))); Balanced(t) && H(r) <= H(t) <= H(r) + 1
  {
    if H(r.left) > H(r.right) {
      var m := r.left;
      assert H(m) == H(l) + 1 && H(r.right) == H(l);
      assert H(Fixed(m.right, r.key, r.entry, r.right)) == H(l) + 1;
      assert H(Fixed(l, k, e, m.left)) == H(l) + 1;
    }
  }

  lemma LeftHeavyBalances(l: Tree, k: Bytes, e: Entry, r: Tree)
    requires Exact(l) && Exact(r) && Balanced(l) && Balanced(r) && H(l) == H(r) + 2
    ensures var t := RotatedRight(Fixed(LeftHeavyFix(l), k, e, r)); Balanced(t) && H(l) <= H(t) <= H(l) + 1
  {
    if H(l.right) > H(l.left) {
      var m := l.right;
      assert H(m) == H(r) + 1 && H(l.left) == H(r);
      assert H(Fixed(l.left, l.key, l.entry, m.left)) == H(r) + 1;
      assert H(Fixed(m.right, k, e, r)) == H(r) + 1;
    }
  }

  // ----- Add -----

  lemma {:induction false} AddBounds(t: Tree, k: Bytes, tx: Tx, j: Bytes)
    requires Exact(t)
    ensures Above(t, j) && Less(j, k) ==> Above(Add(t, k, tx), j)
    ensures Below(t, j) && Less(k, j) ==> Below(Add(t, k, tx), j)
  {
    if t.Nil? {
    } else {
      if Less(k, t.key) {
        AddBounds(t.left, k, tx, j);
        RebalancedBounds(Add(t.left, k, tx), t.key, t.entry, t.right, j);
      } else if Less(t.key, k) {
        AddBounds(t.right, k, tx, j);
        RebalancedBounds(t.left, t.key, t.entry, Add(t.right, k, tx), j);
      } else {
        RebalancedBounds(t.left, t.key, t.entry.(tx := tx), t.right, j);
      }
    }
  }

  lemma {:induction false} AddKeepsOrder(t: Tree, k: Bytes, tx: Tx)
    requires Exact(t) && Ordered(t)
    ensures Ordered(Add(t, k, tx))
  {
    if t.Nil? {
    } else {
      if Less(k, t.key) {
        AddKeepsOrder(t.left, k, tx);
        AddBounds(t.left, k, tx, t.key);
        RebalancedOrdered(Add(t.left, k, tx), t.key, t.entry, t.right);
      } else if Less(t.key, k) {
        AddKeepsOrder(t.right, k, tx);
        AddBounds(t.right, k, tx, t.key);
        RebalancedOrdered(t.left, t.key, t.entry, Add(t.right, k, tx));
      } else {
        RebalancedOrdered(t.left, t.key, t.entry.(tx := tx), t.right);
      }
    }
  }

  lemma {:induction false} AddKeepsBalance(t: Tree, k: Bytes, tx: Tx)
    requires Exact(t) && Balanced(t)
    ensures Balanced(Add(t, k, tx)) && H(t) <= H(Add(t, k, tx)) <= H(t) + 1
  {
    if t.Nil? {
    } else {
      if Less(k, t.key) {
        AddKeepsBalance(t.left, k, tx);
        RebalancedBalances(Add(t.left, k, tx), t.key, t.entry, t.right);
      } else if Less(t.key, k) {
        AddKeepsBalance(t.right, k, tx);
        RebalancedBalances(t.left, t.key, t.entry, Add(t.right, k, tx));
      } else {
        RebalancedBalances(t.left, t.key, t.entry.(tx := tx), t.right);
      }
    }
  }

  /** A new key gets empty metadata; an existing one keeps its own. */
  function Put(m: Content, k: Bytes, tx: Tx): Content {
    m[k := if k in m then m[k].(tx := tx) else Entry(tx, None, 0)]
  }

  /** The three ways an ordered node's content splits around a key. */
  lemma Split(t: Tree, k: Bytes)
    requires t.Node? && Ordered(t)
    ensures Less(k, t.key) ==> k !in ContentOf(t.right) && k != t.key
    ensures Less(t.key, k) ==> k !in ContentOf(t.left) && k != t.key
    ensures !Less(k, t.key) && !Less(t.key, k) ==> k == t.key && k !in ContentOf(t.left) && k !in ContentOf(t.right)
  {
    LessTrichotomy(k, t.key);
    if !Less(t.key, k) { AboveMisses(t.right, t.key, k); }
    if !Less(k, t.key) { BelowMisses(t.left, t.key, k); }
  }

  lemma PutInside(a: Content, j: Bytes, f: Entry, b: Content, k: Bytes, tx: Tx)
    ensures k != j && k !in b ==> Put(a, k, tx) + map[j := f] + b == Put(a + map[j := f] + b, k, tx)
    ensures k != j && k !in a ==> a + map[j := f] + Put(b, k, tx) == Put(a + map[j := f] + b, k, tx)
    ensures k == j && k !in a && k !in b ==> a + map[j := f.(tx := tx)] + b == Put(a + map[j := f] + b, k, tx)
  {
  }

  lemma {:induction false} AddContent(t: Tree, k: Bytes, tx: Tx)
    requires Exact(t) && Ordered(t)
    ensures ContentOf(Add(t, k, tx)) == Put(ContentOf(t), k, tx)
  {
    if t.Nil? {
    } else {
      Split(t, k);
      PutInside(ContentOf(t.left), t.key, t.entry, ContentOf(t.right), k, tx);
      if Less(k, t.key) {
        AddContent(t.left, k, tx);
        RebalancedContent(Add(t.left, k, tx), t.key, t.entry, t.right);
      } else if Less(t.key, k) {
        AddContent(t.right, k, tx);
        RebalancedContent(t.left, t.key, t.entry, Add(t.right, k, tx));
      } else {
        RebalancedContent(t.left, t.key, t.entry.(tx := tx), t.right);
      }
    }
  }

  /** Add keeps the tree balanced and ordered, and stores exactly the new transaction. */
  lemma AddCorrect(t: Tree, k: Bytes, tx: Tx)
    requires Avl(t)
    ensures Avl(Add(t, k, tx))
    ensures ContentOf(Add(t, k, tx)) == Put(ContentOf(t), k, tx)
  {
    AddKeepsOrder(t, k, tx);
    AddKeepsBalance(t, k, tx);
    AddContent(t, k, tx);
  }

  // ----- Remove -----

  lemma {:induction false} SmallestIsInside(t: Tree, j: Bytes)
    requires t.Node? && Ordered(t)
    ensures Above(t, j) ==> Less(j, Smallest(t).key)
    ensures Below(t, j) ==> Less(Smallest(t).key, j)
    ensures Smallest(t).key in ContentOf(t) && ContentOf(t)[Smallest(t).key] == Smallest(t).entry
  {
    if t.left.Node? {
      SmallestIsInside(t.left, j);
      SmallestIsInside(t.left, t.key);
      Split(t, Smallest(t.left).key);
    } else {
      LessTrichotomy(t.key, t.key);
      Split(t, t.key);
    }
  }

  lemma {:induction false} RemoveBounds(t: Tree, k: Bytes, j: Bytes)
    requires Avl(t)
    ensures Above(t, j) ==> Above(Remove(t, k), j)
    ensures Below(t, j) ==> Below(Remove(t, k), j)
  {
    if t.Nil? {
    } else {
      if Less(k, t.key) {
        RemoveBounds(t.left, k, j);
        RebalancedBounds(Remove(t.left, k), t.key, t.entry, t.right, j);
      } else if Less(t.key, k) {
        RemoveBounds(t.right, k, j);
        RebalancedBounds(t.left, t.key, t.entry, Remove(t.right, k), j);
      } else if t.left.Node? && t.right.Node? {
        var m := Smallest(t.right);
        SmallestIsInside(t.right, j);
        RemoveBounds(t.right, m.key, j);
        RebalancedBounds(t.left, m.key, m.entry, Remove(t.right, m.key), j);
      }
    }
  }

  /** Without its smallest key a tree lies above that key. */
  lemma {:induction false} RemoveSmallest(t: Tree)
    requires t.Node? && Avl(t)
    ensures Above(Remove(t, Smallest(t).key), Smallest(t).key)
  {
    var m := Smallest(t);
    if t.left.Node? {
      SmallestIsInside(t.left, t.key);
      RemoveSmallest(t.left);
      AboveTrans(t.right, m.key, t.key);
      RebalancedBounds(Remove(t.left, m.key), t.key, t.entry, t.right, m.key);
    } else {
      LessTrichotomy(t.key, t.key);
    }
  }

  lemma {:induction false} RemoveKeepsOrder(t: Tree, k: Bytes)
    requires Avl(t)
    ensures Ordered(Remove(t, k))
  {
    if t.Nil? {
    } else {
      if Less(k, t.key) {
        RemoveKeepsOrder(t.left, k);
        RemoveBounds(t.left, k, t.key);
        RebalancedOrdered(Remove(t.left, k), t.key, t.entry, t.right);
      } else if Less(t.key, k) {
        RemoveKeepsOrder(t.right, k);
        RemoveBounds(t.right, k, t.key);
        RebalancedOrdered(t.left, t.key, t.entry, Remove(t.right, k));
      } else if t.left.Node? && t.right.Node? {
        var m := Smallest(t.right);
        SmallestIsInside(t.right, t.key);
        BelowTrans(t.left, m.key, t.key);
        RemoveKeepsOrder(t.right, m.key);
        RemoveSmallest(t.right);
        RebalancedOrdered(t.left, m.key, m.entry, Remove(t.right, m.key));
      }
    }
  }

  lemma {:induction false} RemoveKeepsBalance(t: Tree, k: Bytes)
    requires Exact(t) && Balanced(t)
    ensures Balanced(Remove(t, k)) && H(t) - 1 <= H(Remove(t, k)) <= H(t)
  {
    if t.Nil? {
    } else {
      if Less(k, t.key) {
        RemoveKeepsBalance(t.left, k);
        RebalancedBalances(Remove(t.left, k), t.key, t.entry, t.right);
      } else if Less(t.key, k) {
        RemoveKeepsBalance(t.right, k);
        RebalancedBalances(t.left, t.key, t.entry, Remove(t.right, k));
      } else if t.left.Node? && t.right.Node? {
        var m := Smallest(t.right);
        RemoveKeepsBalance(t.right, m.key);
        RebalancedBalances(t.left, m.key, m.entry, Remove(t.right, m.key));
      }
    }
  }

  /** The successor takes the removed key's place; nothing else moves. */
  lemma Succession(a: Content, k: Bytes, e: Entry, b: Content, m: Bytes)
    requires k !in a && k !in b && m in b
    ensures a + map[m := b[m]] + (b - {m}) == (a + map[k := e] + b) - {k}
  {
  }

  lemma DropInside(a: Content, j: Bytes, f: Entry, b: Content, k: Bytes)
    ensures k != j && k !in b ==> (a - {k}) + map[j := f] + b == (a + map[j := f] + b) - {k}
    ensures k != j && k !in a ==> a + map[j := f] + (b - {k}) == (a + map[j := f] + b) - {k}
    ensures k == j && k !in a && k !in b ==> a + b == (a + map[j := f] + b) - {k}
  {
  }

  lemma {:induction false} RemoveContent(t: Tree, k: Bytes)
    requires Avl(t)
    ensures ContentOf(Remove(t, k)) == ContentOf(t) - {k}
  {
    if t.Nil? {
    } else {
      Split(t, k);
      DropInside(ContentOf(t.left), t.key, t.entry, ContentOf(t.right), k);
      if Less(k, t.key) {
        RemoveContent(t.left, k);
        RebalancedContent(Remove(t.left, k), t.key, t.entry, t.right);
      } else if Less(t.key, k) {
        RemoveContent(t.right, k);
        RebalancedContent(t.left, t.key, t.entry, Remove(t.right, k));
      } else if t.left.Node? && t.right.Node? {
        var m := Smallest(t.right);
        SmallestIsInside(t.right, t.key);
        RemoveContent(t.right, m.key);
        RebalancedContent(t.left, m.key, m.entry, Remove(t.right, m.key));
        Succession(ContentOf(t.left), t.key, t.entry, ContentOf(t.right), m.key);
      }
    }
  }

  /** Remove keeps the tree balanced and ordered, and every other key keeps its own value and metadata. */
  lemma RemoveCorrect(t: Tree, k: Bytes)
    requires Avl(t)
    ensures Avl(Remove(t, k))
    ensures ContentOf(Remove(t, k)) == ContentOf(t) - {k}
  {
    RemoveKeepsOrder(t, k);
    RemoveKeepsBalance(t, k);
    RemoveContent(t, k);
  }

  // ----- Reads -----

  lemma {:induction false} SearchIsLookup(t: Tree, k: Bytes)
    requires Ordered(t)
    ensures Search(t, k) == if k in ContentOf(t) then Some(ContentOf(t)[k]) else None
  {
    if t.Nil? {
    } else {
      Split(t, k);
      if Less(k, t.key) {
        SearchIsLookup(t.left, k);
      } else if Less(t.key, k) {
        SearchIsLookup(t.right, k);
      }
    }
  }

  lemma {:induction false} StoredBounds(t: Tree, k: Bytes, e: Entry, j: Bytes)
    ensures Above(Stored(t, k, e), j) <==> Above(t, j)
    ensures Below(Stored(t, k, e), j) <==> Below(t, j)
  {
    if t.Nil? {
    } else {
      StoredBounds(t.left, k, e, j);
      StoredBounds(t.right, k, e, j);
    }
  }

  lemma {:induction false} StoredExact(t: Tree, k: Bytes, e: Entry)
    requires Exact(t)
    ensures Exact(Stored(t, k, e)) && H(Stored(t, k, e)) == H(t)
  {
    if t.Nil? {
    } else {
      StoredExact(t.left, k, e);
      StoredExact(t.right, k, e);
    }
  }

  lemma {:induction false} StoredShape(t: Tree, k: Bytes, e: Entry)
    requires Avl(t)
    ensures Avl(Stored(t, k, e)) && H(Stored(t, k, e)) == H(t)
  {
    if t.Nil? {
    } else {
      StoredShape(t.left, k, e);
      StoredShape(t.right, k, e);
      StoredBounds(t.left, k, e, t.key);
      StoredBounds(t.right, k, e, t.key);
    }
  }

  function Overwrite(m: Content, k: Bytes, e: Entry): Content {
    if k in m then m[k := e] else m
  }

  lemma OverwriteInside(a: Content, j: Bytes, f: Entry, b: Content, k: Bytes, e: Entry)
    ensures k != j && k !in b ==> Overwrite(a, k, e) + map[j := f] + b == Overwrite(a + map[j := f] + b, k, e)
    ensures k != j && k !in a ==> a + map[j := f] + Overwrite(b, k, e) == Overwrite(a + map[j := f] + b, k, e)
    ensures k == j && k !in b ==> a + map[j := e] + b == Overwrite(a + map[j := f] + b, k, e)
  {
  }

  /** Overwriting a found entry changes that entry and nothing else. */
  lemma {:induction false} StoredContent(t: Tree, k: Bytes, e: Entry)
    requires Ordered(t)
    ensures ContentOf(Stored(t, k, e)) == Overwrite(ContentOf(t), k, e)
  {
    if t.Nil? {
    } else {
      Split(t, k);
      OverwriteInside(ContentOf(t.left), t.key, t.entry, ContentOf(t.right), k, e);
      if Less(k, t.key) {
        StoredContent(t.left, k, e);
      } else if Less(t.key, k) {
        StoredContent(t.right, k, e);
      }
    }
  }

  lemma SubContent(t: Tree, k: Bytes)
    requires t.Node? && Ordered(t)
    ensures ContentOf(t)[t.key] == t.entry
    ensures k in ContentOf(t.left) ==> ContentOf(t)[k] == ContentOf(t.left)[k]
    ensures k in ContentOf(t.right) ==> ContentOf(t)[k] == ContentOf(t.right)[k]
  {
    LessTrichotomy(t.key, t.key);
    Split(t, t.key);
    Split(t, k);
  }

  lemma {:induction false} FindByTidFinds(t: Tree, id: i64)
    requires Ordered(t)
    ensures match FindByTid(t, id)
            case None => forall k :: k in ContentOf(t) ==> ContentOf(t)[k].tx.tid != id
            case Some(tx) => tx.tid == id && exists k :: k in ContentOf(t) && ContentOf(t)[k].tx == tx
  {
    if t.Nil? {
    } else {
      FindByTidFinds(t.left, id);
      FindByTidFinds(t.right, id);
      forall k | k in ContentOf(t) { SubContent(t, k); }
      SubContent(t, t.key);
      match FindByTid(t, id) {
        case None =>
        case Some(tx) =>
          if t.entry.tx.tid == id {
            assert ContentOf(t)[t.key].tx == tx;
          } else if FindByTid(t.left, id).Some? {
            var k :| k in ContentOf(t.left) && ContentOf(t.left)[k].tx == tx;
            assert k in ContentOf(t) && ContentOf(t)[k].tx == tx;
          } else {
            var k :| k in ContentOf(t.right) && ContentOf(t.right)[k].tx == tx;
            assert k in ContentOf(t) && ContentOf(t)[k].tx == tx;
          }
      }
    }
  }

  /** The traversal is in strictly increasing key order. */
  lemma {:induction false} InOrderSorted(t: Tree, i: nat, j: nat)
    requires Ordered(t) && i < j < |InOrder(t)|
    ensures Less(InOrder(t)[i].0, InOrder(t)[j].0)
  {
    var n := |InOrder(t.left)|;
    if j < n {
      InOrderSorted(t.left, i, j);
    } else if i > n {
      InOrderSorted(t.right, i - n - 1, j - n - 1);
    } else {
      if i < n { InOrderBounds(t.left, t.key, i); }
      if j > n { InOrderBounds(t.right, t.key, j - n - 1); }
      if i < n < j { LessTransitive(InOrder(t)[i].0, t.key, InOrder(t)[j].0); }
    }
  }

  lemma {:induction false} InOrderBounds(t: Tree, k: Bytes, i: nat)
    requires i < |InOrder(t)|
    ensures Above(t, k) ==> Less(k, InOrder(t)[i].0)
    ensures Below(t, k) ==> Less(InOrder(t)[i].0, k)
  {
    var n := |InOrder(t.left)|;
    if i < n {
      InOrderBounds(t.left, k, i);
    } else if i > n {
      InOrderBounds(t.right, k, i - n - 1);
    }
  }

  /** The traversal lists exactly the content. */
  lemma {:induction false} InOrderComplete(t: Tree, k: Bytes, e: Entry)
    requires Ordered(t)
    ensures (k in ContentOf(t) && ContentOf(t)[k] == e) <==> (k, e) in InOrder(t)
  {
    if t.Nil? {
    } else {
      InOrderComplete(t.left, k, e);
      InOrderComplete(t.right, k, e);
      SubContent(t, k);
      Split(t, k);
      if (k, e) in InOrder(t.left) { assert k in ContentOf(t.left); }
      if (k, e) in InOrder(t.right) { assert k in ContentOf(t.right); }
    }
  }

  // ----- Height -----

  function Fib(n: nat): nat {
    if n < 2 then n else Fib(n - 1) + Fib(n - 2)
  }

  ghost function Size(t: Tree): nat {
    if t.Nil? then 0 else Size(t.left) + 1 + Size(t.right)
  }

  lemma {:induction false} FibGrows(m: nat, n: nat)
    requires 1 <= m <= n
    ensures Fib(m) <= Fib(n)
    decreases n
  {
    if m < n { FibGrows(m, n - 1); }
  }

  /** A tree of height h holds at least Fib(h + 2) - 1 nodes. */
  lemma {:induction false} SizeAtLeastFib(t: Tree)
    requires Exact(t) && Balanced(t)
    ensures Fib(H(t) + 2) <= Size(t) + 1
  {
    if t.Nil? {
    } else {
      SizeAtLeastFib(t.left);
      SizeAtLeastFib(t.right);
      var h := H(t);
      FibGrows(h, H(t.left) + 2);
      FibGrows(h, H(t.right) + 2);
    }
  }

  function Pow2(n: nat): nat {
    if n == 0 then 1 else 2 * Pow2(n - 1)
  }

  function Square(n: nat): nat {
    n * n
  }

  lemma SquareOfSum(a: nat, b: nat)
    requires b <= a
    ensures Square(a) + 2 * Square(b) <= Square(a + b)
  {
    assert b * b <= a * b;
    assert (a + b) * (a + b) == a * a + 2 * (a * b) + b * b;
  }

  lemma SquareGrows(a: nat, b: nat)
    requires a <= b
    ensures Square(a) <= Square(b)
  {
    assert a * a <= a * b <= b * b;
  }

  lemma {:induction false} FibSquared(n: nat)
    ensures Pow2(n) <= Square(Fib(n + 2))
    decreases n
  {
    if n >= 2 {
      FibSquared(n - 1);
      FibSquared(n - 2);
      FibGrows(n, n + 1);
      SquareOfSum(Fib(n + 1), Fib(n));
      hide Square;
    }
  }

  /** So the height is at most 2 log2(size + 1). */
  lemma {:induction false} HeightIsLogarithmic(t: Tree)
    requires Exact(t) && Balanced(t)
    ensures Pow2(H(t)) <= Square(Size(t) + 1)
  {
    hide Square;
    SizeAtLeastFib(t);
    FibSquared(H(t));
    SquareGrows(Fib(H(t) + 2), Size(t) + 1);
  }

  // ----- Whole runs -----

  datatype TreeOp = AddOp(k: Bytes, tx: Tx) | RemoveOp(k: Bytes)

  function TreeRun(ops: seq<TreeOp>): (t: Tree)
    ensures Exact(t)
  {
    if ops == [] then Nil
    else
      match ops[|ops| - 1]
      case AddOp(k, tx) => Add(TreeRun(ops[..|ops| - 1]), k, tx)
      case RemoveOp(k) => Remove(TreeRun(ops[..|ops| - 1]), k)
  }

  function MapRun(ops: seq<TreeOp>): Content {
    if ops == [] then map[]
    else
      match ops[|ops| - 1]
      case AddOp(k, tx) => Put(MapRun(ops[..|ops| - 1]), k, tx)
      case RemoveOp(k) => MapRun(ops[..|ops| - 1]) - {k}
  }

  lemma EmptyTree()
    ensures Avl(Nil) && ContentOf(Nil) == map[]
  {
  }

  /** After any sequence of additions and removals the tree is a balanced map of what they leave. */
  lemma {:induction false} TreeRunIsMapRun(ops: seq<TreeOp>, k: Bytes)
    ensures Avl(TreeRun(ops)) && ContentOf(TreeRun(ops)) == MapRun(ops)
    ensures Search(TreeRun(ops), k) == if k in MapRun(ops) then Some(MapRun(ops)[k]) else None
    ensures Pow2(H(TreeRun(ops))) <= Square(Size(TreeRun(ops)) + 1)
  {
    hide Add;
    hide Remove;
    hide Search;
    hide ContentOf;
    hide Ordered;
    hide Exact;
    hide Balanced;
    hide Size;
    hide Square;
    hide Pow2;
    hide H;
    hide Put;
    if ops == [] {
      EmptyTree();
    } else {
      TreeRunIsMapRun(ops[..|ops| - 1], k);
      match ops[|ops| - 1] {
        case AddOp(j, tx) => AddCorrect(TreeRun(ops[..|ops| - 1]), j, tx);
        case RemoveOp(j) => RemoveCorrect(TreeRun(ops[..|ops| - 1]), j);
      }
    }
    SearchIsLookup(TreeRun(ops), k);
    HeightIsLogarithmic(TreeRun(ops));
  }
}
