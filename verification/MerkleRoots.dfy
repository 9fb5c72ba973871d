/**
 * When the root that proofs are built against is the root in the block header: NewMerkleTree pads only the
 * leaves (internal/blockchain/merkle_tree.go:25-43), GenerateMerkleProof every level
 * (internal/blockchain/block.go:1172-1178).
 */
module MerkleRoots {
  import opened Basics
  import opened Merkle

  function Pow2(k: nat): (r: nat)
    ensures r > 0
  {
    if k == 0 then 1 else 2 * Pow2(k - 1)
  }

  /** n is 2^k with k at least 1, or 2^k - 1 with k at least 2. */
  ghost predicate Fits(n: nat) {
    exists k: nat :: (k >= 1 && n == Pow2(k)) || (k >= 2 && n == Pow2(k) - 1)
  }

  // ----- The roots agree -----

  lemma {:induction false} PowerTree(l: seq<Term>, k: nat)
    requires |l| == Pow2(k)
    ensures DroppingTree(l) == ProofTree(l)
    decreases k
  {
    if k == 0 {
    } else {
      assert Pad(l) == l;
      PowerTree(Paired(l), k - 1);
    }
  }

  lemma PadLeaves(data: seq<Bytes>)
    ensures Leaves(Pad(data)) == Pad(Leaves(data))
  {
  }

  lemma PaddedTree(l: seq<Term>)
    requires |l| > 1
    ensures ProofTree(Pad(l)) == ProofTree(l)
  {
    hide ProofTree;
    LevelUp(l);
    LevelUp(Pad(l));
    assert Pad(Pad(l)) == Pad(l);
  }

  lemma TreesAgree(data: seq<Bytes>)
    requires Fits(|data|)
    ensures data != [] && DroppingTree(Leaves(Pad(data))) == ProofTree(Leaves(data))
  {
    hide ProofTree;
    hide DroppingTree;
    var k: nat :| (k >= 1 && |data| == Pow2(k)) || (k >= 2 && |data| == Pow2(k) - 1);
    assert Pow2(k) % 2 == 0;
    assert k >= 2 ==> Pow2(k) == 4 * Pow2(k - 2);
    PadLeaves(data);
    PowerTree(Leaves(Pad(data)), k);
    PaddedTree(Leaves(data));
  }

  // ----- The roots differ -----

  /** The length of the leftmost branch. */
  function Depth(t: Term): nat {
    match t
    case Leaf(_) => 0
    case Node(l, _) => 1 + Depth(l)
  }

  /** The number of levels above n nodes when odd levels lose their last element. */
  function DroppedLevels(n: nat): nat {
    if n <= 1 then 0 else 1 + DroppedLevels(n / 2)
  }

  lemma {:induction false} ProofDepth(l: seq<Term>)
    requires l != []
    ensures Depth(ProofTree(l)) == Depth(l[0]) + Levels(|l|)
    decreases |l|
  {
    if |l| > 1 {
      assert |Paired(Pad(l))| == (|l| + 1) / 2;
      ProofDepth(Paired(Pad(l)));
    }
  }

  lemma {:induction false} DroppedDepth(l: seq<Term>)
    requires l != []
    ensures Depth(DroppingTree(l)) == Depth(l[0]) + DroppedLevels(|l|)
    decreases |l|
  {
    if |l| > 1 { DroppedDepth(Paired(l)); }
  }

  lemma {:induction false} LevelsBound(n: nat)
    requires n > 0
    ensures n <= Pow2(Levels(n)) && (n > 1 ==> Pow2(Levels(n) - 1) < n)
  {
    if n > 1 {
      LevelsBound((n + 1) / 2);
    }
  }

  lemma {:induction false} DroppedLevelsBound(n: nat)
    requires n > 0
    ensures Pow2(DroppedLevels(n)) <= n < 2 * Pow2(DroppedLevels(n))
  {
    if n > 1 { DroppedLevelsBound(n / 2); }
  }

  lemma SameLevels(n: nat)
    requires n > 0 && Levels(n) == DroppedLevels(n + n % 2)
    ensures Fits(n)
  {
    var k := Levels(n);
    SmallLevels(n);
    LevelsBound(n);
    DroppedLevelsBound(n + n % 2);
    hide Levels;
    hide DroppedLevels;
    hide Pow2;
    assert n == Pow2(k) || n == Pow2(k) - 1;
  }

  /** A single transaction is padded to two, so its header has a level more than its proof. */
  lemma SmallLevels(n: nat)
    requires n > 0 && Levels(n) == DroppedLevels(n + n % 2)
    ensures n >= 2 && Levels(n) >= 1 && (n > 2 ==> Levels(n) >= 2) && Pow2(1) == 2
  {
    assert Levels(1) == 0 && DroppedLevels(2) == 1 + DroppedLevels(1);
    if n > 2 { assert Levels((n + 1) / 2) >= 1; }
  }

  lemma TreesDiffer(data: seq<Bytes>)
    requires data != [] && !Fits(|data|)
    ensures DroppingTree(Leaves(Pad(data))) != ProofTree(Leaves(data))
  {
    hide ProofTree;
    hide DroppingTree;
    ProofDepth(Leaves(data));
    DroppedDepth(Leaves(Pad(data)));
    if Levels(|data|) == DroppedLevels(|data| + |data| % 2) { SameLevels(|data|); }
  }

  /** No leaf of the tree is as long as two digests. */
  predicate LeavesOk(t: Term) {
    match t
    case Leaf(d) => |d| != 64
    case Node(l, r) => LeavesOk(l) && LeavesOk(r)
  }

  /** Every string that is hashed when the tree is evaluated. */
  function Inputs(h: Hash, t: Term): set<Bytes> {
    match t
    case Leaf(d) => {d}
    case Node(l, r) => Inputs(h, l) + Inputs(h, r) + {Eval(h, l) + Eval(h, r)}
  }

  /** Evaluating the two trees hashes two different strings to one digest. */
  ghost predicate TreesClash(h: Hash, s: Term, t: Term) {
    exists x, y :: x in Inputs(h, s) && y in Inputs(h, t) && Clash(h, x, y)
  }

  /** The string hashed last. */
  function Top(h: Hash, t: Term): (x: Bytes)
    ensures x in Inputs(h, t) && Eval(h, t) == h(x)
  {
    match t
    case Leaf(d) => d
    case Node(l, r) => Eval(h, l) + Eval(h, r)
  }

  /** Different trees have different roots, unless their evaluations clash. */
  lemma {:induction false} EvalInjective(h: Hash, s: Term, t: Term)
    requires Sized(h) && LeavesOk(s) && LeavesOk(t) && Eval(h, s) == Eval(h, t)
    ensures s == t || TreesClash(h, s, t)
  {
    if Top(h, s) != Top(h, t) {
      assert Clash(h, Top(h, s), Top(h, t));
    } else {
      if s.Node? { NodeInput(h, s); }
      if t.Node? { NodeInput(h, t); }
      if s.Node? && t.Node? {
        SameHalves(h, s, t);
        EvalInjective(h, s.left, t.left);
        EvalInjective(h, s.right, t.right);
        if TreesClash(h, s.left, t.left) {
          ClashAbove(h, s, s.left, t, t.left);
        } else if TreesClash(h, s.right, t.right) {
          ClashAbove(h, s, s.right, t, t.right);
        }
      }
    }
  }

  lemma SameHalves(h: Hash, s: Term, t: Term)
    requires Sized(h) && s.Node? && t.Node? && Top(h, s) == Top(h, t)
    ensures Eval(h, s.left) == Eval(h, t.left) && Eval(h, s.right) == Eval(h, t.right)
  {
    EvalSized(h, s.left);
    EvalSized(h, s.right);
    EvalSized(h, t.left);
    EvalSized(h, t.right);
    JoinedInjective(Eval(h, s.left), Eval(h, s.right), Eval(h, t.left), Eval(h, t.right), true);
  }

  lemma ClashAbove(h: Hash, s: Term, s': Term, t: Term, t': Term)
    requires Inputs(h, s') <= Inputs(h, s) && Inputs(h, t') <= Inputs(h, t) && TreesClash(h, s', t')
    ensures TreesClash(h, s, t)
  {
    var x, y :| x in Inputs(h, s') && y in Inputs(h, t') && Clash(h, x, y);
    assert x in Inputs(h, s) && y in Inputs(h, t);
  }

  lemma NodeInput(h: Hash, t: Term)
    requires Sized(h) && t.Node?
    ensures |Eval(h, t.left) + Eval(h, t.right)| == 64
  {
    EvalSized(h, t.left);
    EvalSized(h, t.right);
  }

  lemma {:induction false} ProofLeavesOk(l: seq<Term>)
    requires l != [] && forall i :: 0 <= i < |l| ==> LeavesOk(l[i])
    ensures LeavesOk(ProofTree(l))
    decreases |l|
  {
    if |l| > 1 { ProofLeavesOk(Paired(Pad(l))); }
  }

  lemma {:induction false} DroppingLeavesOk(l: seq<Term>)
    requires l != [] && forall i :: 0 <= i < |l| ==> LeavesOk(l[i])
    ensures LeavesOk(DroppingTree(l))
    decreases |l|
  {
    if |l| > 1 { DroppingLeavesOk(Paired(l)); }
  }

  // ----- Main results -----

  /** Computing the header's root and the proofs' root of a block clashes. */
  ghost predicate RootsClash(h: Hash, data: seq<Bytes>)
    requires data != []
  {
    TreesClash(h, DroppingTree(Leaves(Pad(data))), ProofTree(Leaves(data)))
  }

  /** For these numbers of transactions the two roots are equal whatever the hash function. */
  lemma RootsAgree(h: Hash, data: seq<Bytes>)
    requires Fits(|data|)
    ensures data != [] && ProofRoot(h, data) == BlockRoot(h, data)
  {
    hide ProofTree;
    hide DroppingTree;
    hide Fits;
    TreesAgree(data);
  }

  /**
   * The proofs of a block have the root of its header exactly for those numbers of transactions, unless computing the
   * two roots hashes two different strings to one digest.
   */
  lemma RootsAgreeIff(h: Hash, data: seq<Bytes>)
    requires Sized(h) && data != [] && forall i :: 0 <= i < |data| ==> |data[i]| != 64
    ensures (ProofRoot(h, data) == BlockRoot(h, data) <==> Fits(|data|)) || RootsClash(h, data)
  {
    hide ProofTree;
    hide DroppingTree;
    hide Fits;
    hide TreesClash;
    if Fits(|data|) {
      RootsAgree(h, data);
    } else if ProofRoot(h, data) == BlockRoot(h, data) {
      TreesDiffer(data);
      ProofLeavesOk(Leaves(data));
      DroppingLeavesOk(Leaves(Pad(data)));
      EvalInjective(h, DroppingTree(Leaves(Pad(data))), ProofTree(Leaves(data)));
    }
  }

  // ----- A light client puts the header's root into the proof -----

  /** Positions below 2^k with the same k directions are one position. */
  lemma {:induction false} DirectionsNamePosition(i: nat, j: nat, k: nat)
    requires Ancestor(i, k) == Ancestor(j, k) && forall l :: 0 <= l < k ==> IsLeft(i, l) == IsLeft(j, l)
    ensures i == j
  {
    if k == 0 {
    } else {
      assert IsLeft(i, k - 1) == IsLeft(j, k - 1);
      DirectionsNamePosition(i, j, k - 1);
    }
  }

  lemma {:induction false} AncestorHalves(i: nat, k: nat)
    requires k > 0
    ensures Ancestor(i, k) == Ancestor(i / 2, k - 1)
  {
    if k > 1 { AncestorHalves(i, k - 1); }
  }

  lemma {:induction false} TopAncestor(i: nat, n: nat)
    requires i < n
    ensures Ancestor(i, Levels(n)) == 0
  {
    if n > 1 {
      TopAncestor(i / 2, (n + 1) / 2);
      AncestorHalves(i, Levels(n));
    }
  }

  /** The directions of a transaction's proof. */
  predicate Spells(p: MerkleProof, n: nat, i: nat) {
    && |p.path| == Levels(n) <= |p.directions|
    && forall j :: 0 <= j < Levels(n) ==> p.directions[j] == IsLeft(i, j)
  }

  /** The directions of a proof belong to one transaction only. */
  lemma OnePosition(p: MerkleProof, n: nat, i: nat, j: nat)
    requires i < n && j < n && Spells(p, n, i) && Spells(p, n, j)
    ensures i == j
  {
    TopAncestor(i, n);
    TopAncestor(j, n);
    forall l | 0 <= l < Levels(n) ensures IsLeft(i, l) == IsLeft(j, l) {
      assert p.directions[l] == IsLeft(i, l) && p.directions[l] == IsLeft(j, l);
    }
    DirectionsNamePosition(i, j, Levels(n));
  }

  /** The generated proof, its root replaced by the header's, still verifies exactly when the roots agree. */
  lemma LightClientAccepts(h: Hash, data: seq<Bytes>, p: MerkleProof)
    requires Sized(h) && data != [] && forall i :: 0 <= i < |data| ==> |data[i]| != 64
    requires Verifies(h, p) && p.root == ProofRoot(h, data)
    ensures (Verifies(h, p.(root := BlockRoot(h, data))) <==> Fits(|data|)) || RootsClash(h, data)
  {
    hide ProofRoot;
    hide BlockRoot;
    hide Fits;
    hide RootsClash;
    RootsAgreeIff(h, data);
  }

  /**
   * What a light client accepts at the position of transaction i of such a block is that transaction's hash, unless the
   * accepted path and the generated one hash, on some level, two different strings to one digest.
   */
  lemma LightClientSound(h: Hash, data: seq<Bytes>, i: nat, honest: MerkleProof, p: MerkleProof)
    requires Sized(h) && Fits(|data|) && i < |data|
    requires Verifies(h, honest) && honest.root == ProofRoot(h, data) && honest.txHash == h(data[i])
    requires Hashes(honest.path)
    requires Spells(honest, |data|, i)
    requires Verifies(h, p) && p.root == BlockRoot(h, data) && |p.txHash| == 32 && Hashes(p.path)
    requires Spells(p, |data|, i)
    ensures p.txHash == h(data[i]) || PathsClash(h, p.txHash, p.path, honest.txHash, honest.path, p.directions)
  {
    hide ProofRoot;
    hide BlockRoot;
    hide Fits;
    hide PathsClash;
    RootsAgree(h, data);
    assert p.directions[..|p.path|] == honest.directions[..|honest.path|];
    SameLeaf(h, p, honest);
  }
}
