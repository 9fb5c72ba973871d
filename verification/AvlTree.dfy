/** The height-balanced search tree, as linked nodes updated in place (internal/index/avl.go). */
module AvlTree {
  import opened Basics
  import opened Transactions
  import opened DomainIndex
  import opened AvlModel

  class AvlNode {
    var key: Bytes
    var entry: Entry
    var height: int
    var left: AvlNode?
    var right: AvlNode?
    ghost var repr: set<AvlNode>
    ghost var model: Tree

    ghost predicate Valid()
      reads this, repr
      ensures Valid() ==> this in repr && model.Node?
      decreases repr
    {
      && this in repr
      && (left != null ==> left in repr && left.repr <= repr && this !in left.repr && left.Valid())
      && (right != null ==> right in repr && right.repr <= repr && this !in right.repr && right.Valid())
      && ReprOf(left) !! ReprOf(right)
      && model == Node(ModelOf(left), key, entry, height, ModelOf(right))
    }

    static ghost function ModelOf(n: AvlNode?): Tree
      reads n
    {
      if n == null then Nil else n.model
    }

    static ghost function ReprOf(n: AvlNode?): set<AvlNode>
      reads n
    {
      if n == null then {} else n.repr
    }

    static ghost predicate Ok(n: AvlNode?)
      reads n, ReprOf(n)
    {
      n != null ==> n.Valid()
    }

    constructor Leaf(key: Bytes, tx: Tx)
      ensures Valid() && fresh(repr)
      ensures model == Fixed(Nil, key, Entry(tx, None, 0), Nil)
    {
      this.key, entry, height, left, right := key, Entry(tx, None, 0), 1, null, null;
      repr := {this};
      model := Fixed(Nil, key, Entry(tx, None, 0), Nil);
    }

    static function GetHeight(n: AvlNode?): (h: int)
      requires Ok(n)
      reads n, ReprOf(n)
      ensures h == H(ModelOf(n))
    {
      if n == null then 0 else n.height
    }

    /** Two subtrees that this node may have as its children. */
    ghost predicate Fits(l: AvlNode?, r: AvlNode?)
      reads l, r, ReprOf(l), ReprOf(r)
    {
      Ok(l) && Ok(r) && this !in ReprOf(l) && this !in ReprOf(r) && ReprOf(l) !! ReprOf(r)
    }

    /** New children, followed by recalculateHeight. */
    method Relink(l: AvlNode?, r: AvlNode?)
      requires Fits(l, r)
      modifies this
      ensures Valid() && left == l && right == r
      ensures repr == {this} + ReprOf(l) + ReprOf(r)
      ensures model == Fixed(ModelOf(l), old(key), old(entry), ModelOf(r))
    {
      height := 1 + Max(GetHeight(l), GetHeight(r));
      left, right := l, r;
      repr := {this} + ReprOf(l) + ReprOf(r);
      model := Node(ModelOf(l), key, entry, height, ModelOf(r));
    }

    method RotateLeft() returns (newRoot: AvlNode)
      requires Valid() && right != null
      modifies this, right
      ensures newRoot.Valid() && newRoot.repr <= old(repr)
      ensures newRoot.model == RotatedLeft(old(model))
    {
      newRoot := right;
      Relink(left, newRoot.left);
      newRoot.Relink(this, newRoot.right);
    }

    method RotateRight() returns (newRoot: AvlNode)
      requires Valid() && left != null
      modifies this, left
      ensures newRoot.Valid() && newRoot.repr <= old(repr)
      ensures newRoot.model == RotatedRight(old(model))
    {
      newRoot := left;
      Relink(newRoot.right, right);
      newRoot.Relink(newRoot.left, this);
    }

    method FixRightHeavy() returns (r: AvlNode)
      requires Valid() && Exact(model)
      modifies repr
      ensures r.Valid() && r.repr <= old(repr) && r.model == RightHeavyFix(old(model))
    {
      if GetHeight(left) > GetHeight(right) {
        r := RotateRight();
      } else {
        r := this;
      }
    }

    method FixLeftHeavy() returns (l: AvlNode)
      requires Valid() && Exact(model)
      modifies repr
      ensures l.Valid() && l.repr <= old(repr) && l.model == LeftHeavyFix(old(model))
    {
      if GetHeight(right) > GetHeight(left) {
        l := RotateLeft();
      } else {
        l := this;
      }
    }

    method TurnLeft(l: AvlNode?, r: AvlNode) returns (root: AvlNode)
      requires Fits(l, r) && Exact(r.model)
      modifies this, r.repr
      ensures root.Valid() && root.repr <= {this} + old(ReprOf(l) + ReprOf(r))
      ensures root.model == RotatedLeft(Fixed(old(ModelOf(l)), old(key), old(entry), RightHeavyFix(old(r.model))))
    {
      var r' := r.FixRightHeavy();
      Relink(l, r');
      root := RotateLeft();
    }

    method TurnRight(l: AvlNode, r: AvlNode?) returns (root: AvlNode)
      requires Fits(l, r) && Exact(l.model)
      modifies this, l.repr
      ensures root.Valid() && root.repr <= {this} + old(ReprOf(l) + ReprOf(r))
      ensures root.model == RotatedRight(Fixed(LeftHeavyFix(old(l.model)), old(key), old(entry), old(ModelOf(r))))
    {
      var l' := l.FixLeftHeavy();
      Relink(l', r);
      root := RotateRight();
    }

    /** rebalanceTree on a node with new children. */
    method Rebalance(l: AvlNode?, r: AvlNode?) returns (root: AvlNode)
      requires Fits(l, r) && Exact(ModelOf(l)) && Exact(ModelOf(r))
      modifies this, ReprOf(l), ReprOf(r)
      ensures root.Valid() && root.repr <= {this} + old(ReprOf(l) + ReprOf(r))
      ensures root.model == Rebalanced(old(ModelOf(l)), old(key), old(entry), old(ModelOf(r)))
    {
      if GetHeight(l) - GetHeight(r) == -2 {
        root := TurnLeft(l, r);
      } else if GetHeight(l) - GetHeight(r) == 2 {
        root := TurnRight(l, r);
      } else {
        Relink(l, r);
        root := this;
      }
    }

    static method AddTo(n: AvlNode?, k: Bytes, tx: Tx) returns (root: AvlNode)
      requires Ok(n) && Exact(ModelOf(n))
      modifies ReprOf(n)
      ensures root.Valid() && fresh(root.repr - old(ReprOf(n)))
      ensures root.model == Add(old(ModelOf(n)), k, tx)
      decreases ReprOf(n), 1
    {
      if n == null {
        root := new AvlNode.Leaf(k, tx);
      } else if Less(k, n.key) {
        root := n.AddLeft(k, tx);
      } else if Less(n.key, k) {
        root := n.AddRight(k, tx);
      } else {
        n.entry := n.entry.(tx := tx);
        root := n.Rebalance(n.left, n.right);
      }
    }

    method AddLeft(k: Bytes, tx: Tx) returns (root: AvlNode)
      requires Valid() && Exact(model) && Less(k, key)
      modifies repr
      ensures root.Valid() && fresh(root.repr - old(repr))
      ensures root.model == Add(old(model), k, tx)
      decreases repr, 0
    {
      var l := AddTo(left, k, tx);
      root := Rebalance(l, right);
    }

    method AddRight(k: Bytes, tx: Tx) returns (root: AvlNode)
      requires Valid() && Exact(model) && !Less(k, key) && Less(key, k)
      modifies repr
      ensures root.Valid() && fresh(root.repr - old(repr))
      ensures root.model == Add(old(model), k, tx)
      decreases repr, 0
    {
      var r := AddTo(right, k, tx);
      root := Rebalance(left, r);
    }

    function FindSmallest(): (m: AvlNode)
      requires Valid()
      reads this, repr
      ensures m in repr && m.key == Smallest(model).key && m.entry == Smallest(model).entry
      decreases repr
    {
      if left != null then left.FindSmallest() else this
    }

    static method RemoveFrom(n: AvlNode?, k: Bytes) returns (root: AvlNode?)
      requires Ok(n) && Exact(ModelOf(n))
      modifies ReprOf(n)
      ensures Ok(root) && ReprOf(root) <= old(ReprOf(n))
      ensures ModelOf(root) == Remove(old(ModelOf(n)), k)
      decreases ReprOf(n), 1
    {
      if n == null {
        root := null;
      } else if Less(k, n.key) {
        root := n.RemoveLeft(k);
      } else if Less(n.key, k) {
        root := n.RemoveRight(k);
      } else if n.left != null && n.right != null {
        root := n.RemoveHere(k);
      } else if n.left != null {
        root := n.left.RebalanceAgain();
      } else if n.right != null {
        root := n.right.RebalanceAgain();
      } else {
        root := null;
      }
    }

    method RemoveLeft(k: Bytes) returns (root: AvlNode)
      requires Valid() && Exact(model) && Less(k, key)
      modifies repr
      ensures root.Valid() && root.repr <= old(repr)
      ensures root.model == Remove(old(model), k)
      decreases repr, 0
    {
      var l := RemoveFrom(left, k);
      root := Rebalance(l, right);
    }

    method RemoveRight(k: Bytes) returns (root: AvlNode)
      requires Valid() && Exact(model) && !Less(k, key) && Less(key, k)
      modifies repr
      ensures root.Valid() && root.repr <= old(repr)
      ensures root.model == Remove(old(model), k)
      decreases repr, 0
    {
      var r := RemoveFrom(right, k);
      root := Rebalance(left, r);
    }

    /** A node with two children takes over its successor's key, value and metadata. */
    method RemoveHere(k: Bytes) returns (root: AvlNode)
      requires Valid() && Exact(model) && !Less(k, key) && !Less(key, k) && left != null && right != null
      modifies repr
      ensures root.Valid() && root.repr <= old(repr)
      ensures root.model == Remove(old(model), k)
      decreases repr, 0
    {
      var m := right.FindSmallest();
      var successor, taken := m.key, m.entry;
      var r := RemoveFrom(right, successor);
      key, entry := successor, taken;
      root := Rebalance(left, r);
    }

    method RebalanceAgain() returns (root: AvlNode)
      requires Valid() && Exact(model)
      modifies repr
      ensures root.Valid() && root.repr <= old(repr)
      ensures root.model == Again(old(model))
    {
      root := Rebalance(left, right);
    }

    static function SearchFrom(n: AvlNode?, k: Bytes): (r: AvlNode?)
      requires Ok(n)
      reads n, ReprOf(n)
      ensures r == null <==> Search(ModelOf(n), k).None?
      ensures r != null ==> r in ReprOf(n) && Search(ModelOf(n), k) == Some(r.entry)
      decreases ReprOf(n)
    {
      if n == null then null
      else if Less(k, n.key) then SearchFrom(n.left, k)
      else if Less(n.key, k) then SearchFrom(n.right, k)
      else n
    }

    static function FindNodeByTxID(n: AvlNode?, id: i64): (r: AvlNode?)
      requires Ok(n)
      reads n, ReprOf(n)
      ensures r == null <==> FindByTid(ModelOf(n), id).None?
      ensures r != null ==> r in ReprOf(n) && FindByTid(ModelOf(n), id) == Some(r.entry.tx)
      decreases ReprOf(n)
    {
      if n == null then null
      else if n.entry.tx.tid == id then n
      else
        var l := FindNodeByTxID(n.left, id);
        if l != null then l else FindNodeByTxID(n.right, id)
    }

    /** Writes the entry of the node that the search finds; the nodes above it change in ghost state only. */
    static method StoreAt(n: AvlNode?, k: Bytes, e: Entry)
      requires Ok(n)
      modifies ReprOf(n)
      ensures Ok(n) && ReprOf(n) == old(ReprOf(n))
      ensures ModelOf(n) == Stored(old(ModelOf(n)), k, e)
      decreases ReprOf(n)
    {
      if n == null {
        return;
      }
      if Less(k, n.key) {
        StoreAt(n.left, k, e);
      } else if Less(n.key, k) {
        StoreAt(n.right, k, e);
      } else {
        n.entry := e;
      }
      n.model := Node(ModelOf(n.left), n.key, n.entry, n.height, ModelOf(n.right));
    }
  }

  class AVLTree {
    var root: AvlNode?
    ghost var repr: set<AvlNode>

    ghost predicate Valid()
      reads this, repr
    {
      && (root != null ==> root in repr && root.repr <= repr && root.Valid())
      && Exact(AvlNode.ModelOf(root))
    }

    /** The tree that the nodes hold. */
    ghost function Model(): Tree
      requires Valid()
      reads this, repr
    {
      AvlNode.ModelOf(root)
    }

    constructor ()
      ensures Valid() && fresh(repr) && Model() == Nil
    {
      root := null;
      repr := {};
    }

    method Add(k: Bytes, tx: Tx)
      requires Valid()
      modifies this, repr
      ensures Valid() && fresh(repr - old(repr))
      ensures Model() == AvlModel.Add(old(Model()), k, tx)
    {
      root := AvlNode.AddTo(root, k, tx);
      repr := root.repr;
    }

    method Remove(k: Bytes)
      requires Valid()
      modifies this, repr
      ensures Valid() && fresh(repr - old(repr))
      ensures Model() == AvlModel.Remove(old(Model()), k)
    {
      root := AvlNode.RemoveFrom(root, k);
      repr := AvlNode.ReprOf(root);
    }

    /** What Search finds under k; the entry is the node's value and metadata. */
    method Search(k: Bytes) returns (e: Option<Entry>)
      requires Valid()
      ensures e == AvlModel.Search(Model(), k)
    {
      var node := AvlNode.SearchFrom(root, k);
      if node == null {
        return None;
      }
      e := Some(node.entry);
    }

    method FindNodeByTxID(id: i64) returns (tx: Option<Tx>)
      requires Valid()
      ensures tx == FindByTid(Model(), id)
    {
      var node := AvlNode.FindNodeByTxID(root, id);
      if node == null {
        return None;
      }
      tx := Some(node.entry.tx);
    }

    /** Overwrites the entry of the node that Search finds under k, if any. */
    method Store(k: Bytes, e: Entry)
      requires Valid()
      modifies this, repr
      ensures Valid() && repr == old(repr)
      ensures Model() == Stored(old(Model()), k, e)
    {
      StoredExact(Model(), k, e);
      AvlNode.StoreAt(root, k, e);
    }
  }
}
