/**
 * Merkle trees and proofs (internal/blockchain/merkle_tree.go, internal/blockchain/block.go:1150-1238).
 * Trees are compared as terms; `h` is SHA-256.
 */
module Merkle {
  import opened Basics

  datatype MerkleProof = MerkleProof(txHash: Bytes, path: seq<Bytes>, directions: seq<bool>, root: Bytes)

  type Hash = Bytes -> Bytes

  /** Two different inputs with one digest. */
  predicate Clash(h: Hash, x: Bytes, y: Bytes) {
    x != y && h(x) == h(y)
  }

  // ----- Trees as terms -----

  datatype Term = Leaf(data: Bytes) | Node(left: Term, right: Term)

  function Eval(h: Hash, t: Term): Bytes {
    match t
    case Leaf(d) => h(d)
    case Node(l, r) => h(Eval(h, l) + Eval(h, r))
  }

  function EvalAll(h: Hash, l: seq<Term>): (r: seq<Bytes>)
    ensures |r| == |l| && forall i :: 0 <= i < |l| ==> r[i] == Eval(h, l[i])
  {
    seq(|l|, i requires 0 <= i < |l| => Eval(h, l[i]))
  }

  function Leaves(data: seq<Bytes>): (r: seq<Term>)
    ensures |r| == |data| && forall i :: 0 <= i < |data| ==> r[i] == Leaf(data[i])
  {
    seq(|data|, i requires 0 <= i < |data| => Leaf(data[i]))
  }

  /** An odd level repeats its last element. */
  function Pad<T>(l: seq<T>): seq<T> {
    if |l| % 2 != 0 then l + [l[|l| - 1]] else l
  }

  /** Neighbours joined; the last element of an odd level is dropped. */
  function Paired(l: seq<Term>): (r: seq<Term>)
    ensures |r| == |l| / 2 && forall i :: 0 <= i < |r| ==> r[i] == Node(l[2 * i], l[2 * i + 1])
  {
    seq(|l| / 2, i requires 0 <= i < |l| / 2 => Node(l[2 * i], l[2 * i + 1]))
  }

  /** The tree that a proof is built from: every odd level is padded. */
  function ProofTree(l: seq<Term>): Term
    requires l != []
    decreases |l|
  {
    if |l| == 1 then l[0] else ProofTree(Paired(Pad(l)))
  }

  /** The tree above an even number of leaves, where a level that becomes odd loses its last element. */
  function DroppingTree(l: seq<Term>): Term
    requires l != []
    decreases |l|
  {
    if |l| == 1 then l[0] else DroppingTree(Paired(l))
  }

  /** The root of the proofs of a block. */
  function ProofRoot(h: Hash, data: seq<Bytes>): Bytes
    requires data != []
  {
    Eval(h, ProofTree(Leaves(data)))
  }

  /** The root in the header of a block: only the leaf level is padded. */
  function BlockRoot(h: Hash, data: seq<Bytes>): Bytes
    requires data != []
  {
    Eval(h, DroppingTree(Leaves(Pad(data))))
  }

  // ----- The loops -----

  /** One level up. */
  method NextLevel(h: Hash, level: seq<Bytes>, ghost terms: seq<Term>) returns (next: seq<Bytes>)
    requires level == EvalAll(h, terms)
    ensures next == EvalAll(h, Paired(terms))
  {
    next := [];
    var i := 0;
    while i < |level| - 1
      invariant i == 2 * |next| && |next| <= |level| / 2
      invariant forall j :: 0 <= j < |next| ==> next[j] == Eval(h, Paired(terms)[j])
    {
      next := next + [h(level[i] + level[i + 1])];
      i := i + 2;
    }
  }

  method HashAll(h: Hash, data: seq<Bytes>) returns (level: seq<Bytes>)
    ensures level == EvalAll(h, Leaves(data))
  {
    level := [];
    for i := 0 to |data|
      invariant |level| == i && forall j :: 0 <= j < i ==> level[j] == h(data[j])
    {
      level := level + [h(data[i])];
    }
  }

  /** None is the nil tree of an empty list. */
  method NewMerkleTree(h: Hash, data: seq<Bytes>) returns (root: Option<Bytes>)
    ensures root == if data == [] then None else Some(BlockRoot(h, data))
  {
    if |data| == 0 {
      return None;
    }
    var level := HashAll(h, Pad(data));
    ghost var terms := Leaves(Pad(data));
    while |level| > 1
      invariant terms != [] && level == EvalAll(h, terms)
      invariant DroppingTree(terms) == DroppingTree(Leaves(Pad(data)))
    {
      level := NextLevel(h, level, terms);
      terms := Paired(terms);
    }
    root := Some(level[0]);
  }

  /** What is hashed on the step from a node to its parent, with the sibling on the right or on the left. */
  function Joined(current: Bytes, sibling: Bytes, right: bool): Bytes {
    if right then current + sibling else sibling + current
  }

  function Join(h: Hash, current: Bytes, sibling: Bytes, right: bool): Bytes {
    h(Joined(current, sibling, right))
  }

  /** Where a proof path leads. */
  function Climb(h: Hash, leaf: Bytes, path: seq<Bytes>, directions: seq<bool>): Bytes
    requires |path| <= |directions|
  {
    if path == [] then leaf
    else
      var n := |path| - 1;
      Join(h, Climb(h, leaf, path[..n], directions), path[n], directions[n])
  }

  predicate Verifies(h: Hash, p: MerkleProof) {
    |p.path| <= |p.directions| && Climb(h, p.txHash, p.path, p.directions) == p.root
  }

  /** None is the panic on a proof with fewer directions than siblings. */
  method VerifyMerkleProof(h: Hash, proof: Option<MerkleProof>) returns (ok: Option<bool>)
    ensures proof.None? ==> ok == Some(false)
    ensures proof.Some? && |proof.value.path| <= |proof.value.directions| ==> ok == Some(Verifies(h, proof.value))
    ensures proof.Some? && |proof.value.path| > |proof.value.directions| ==> ok == None
  {
    if proof.None? {
      return Some(false);
    }
    var p := proof.value;
    var current := p.txHash;
    for i := 0 to |p.path|
      invariant i <= |p.directions| && current == Climb(h, p.txHash, p.path[..i], p.directions)
    {
      if i >= |p.directions| {
        return None;
      }
      assert p.path[..i + 1][..i] == p.path[..i];
      current := Join(h, current, p.path[i], p.directions[i]);
    }
    assert p.path[..|p.path|] == p.path;
    ok := Some(current == p.root);
  }

  /** The number of levels above n leaves when every odd level is padded. */
  function Levels(n: nat): nat {
    if n <= 1 then 0 else 1 + Levels((n + 1) / 2)
  }

  /** The position, on level j, of the node above leaf i. */
  function Ancestor(i: nat, j: nat): nat {
    if j == 0 then i else Ancestor(i, j - 1) / 2
  }

  /** Whether that node is a left child. */
  predicate IsLeft(i: nat, j: nat) {
    Ancestor(i, j) % 2 == 0
  }

  /** Every digest is 32 bytes long. */
  ghost predicate Sized(h: Hash) {
    forall a :: |h(a)| == 32
  }

  predicate Hashes(l: seq<Bytes>) {
    forall i :: 0 <= i < |l| ==> |l[i]| == 32
  }

  lemma EvalSized(h: Hash, t: Term)
    requires Sized(h)
    ensures |Eval(h, t)| == 32
  {
  }

  /** The path so far leads to `hash` and spells the position of leaf i. */
  ghost predicate Reaches(h: Hash, leaf: Bytes, path: seq<Bytes>, directions: seq<bool>, i: nat, hash: Bytes) {
    && |path| == |directions|
    && Climb(h, leaf, path, directions) == hash
    && (forall j :: 0 <= j < |path| ==> directions[j] == IsLeft(i, j))
    && (Sized(h) ==> Hashes(path))
  }

  /**
   * A proof for every transaction of a block: it verifies, its root is the root of the padded tree, it
   * names the transaction's hash, and its directions spell the transaction's position.
   */
  method GenerateMerkleProof(h: Hash, data: seq<Bytes>, txIndex: int) returns (p: Option<MerkleProof>)
    ensures p.Some? <==> 0 <= txIndex < |data|
    ensures p.Some? ==>
              && Verifies(h, p.value)
              && p.value.txHash == h(data[txIndex])
              && p.value.root == ProofRoot(h, data)
              && |p.value.path| == |p.value.directions| == Levels(|data|)
              && (forall j :: 0 <= j < Levels(|data|) ==> p.value.directions[j] == IsLeft(txIndex, j))
              && (Sized(h) ==> Hashes(p.value.path))
  {
    hide Eval;
    hide ProofTree;
    hide Levels;
    hide Climb;
    hide Ancestor;
    hide IsLeft;
    if txIndex < 0 || txIndex >= |data| {
      return None;
    }
    var level := HashAll(h, data);
    ghost var terms := Leaves(data);
    var txHash := level[txIndex];
    var path, directions, index := [], [], txIndex;
    LoopStart(h, data, txIndex);
    while |level| > 1
      invariant 0 <= index < |level| && level == EvalAll(h, terms)
      invariant ProofTree(terms) == ProofTree(Leaves(data))
      invariant |path| + Levels(|level|) == Levels(|data|)
      invariant index == Ancestor(txIndex, |path|)
      invariant Reaches(h, txHash, path, directions, txIndex, level[index])
    {
      LevelUp(terms);
      level, path, directions := Ascend(h, txHash, level, terms, path, directions, index, txIndex);
      terms := Paired(Pad(terms));
      index := index / 2;
    }
    LoopEnd(terms);
    p := Some(MerkleProof(txHash, path, directions, level[0]));
  }

  lemma LoopStart(h: Hash, data: seq<Bytes>, i: nat)
    requires i < |data|
    ensures Reaches(h, h(data[i]), [], [], i, h(data[i])) && Ancestor(i, 0) == i
    ensures Eval(h, Leaves(data)[i]) == h(data[i])
  {
  }

  lemma LevelUp(l: seq<Term>)
    requires |l| > 1
    ensures ProofTree(l) == ProofTree(Paired(Pad(l))) && Levels(|l|) == 1 + Levels(|Paired(Pad(l))|)
  {
    assert |Paired(Pad(l))| == (|l| + 1) / 2;
  }

  lemma LoopEnd(l: seq<Term>)
    requires |l| == 1
    ensures ProofTree(l) == l[0] && Levels(1) == 0
  {
  }

  /** One turn of the proof loop: record the sibling, then build the next level. */
  method Ascend(h: Hash, ghost leaf: Bytes, level: seq<Bytes>, ghost terms: seq<Term>, path: seq<Bytes>,
                directions: seq<bool>,
                index: nat, ghost i: nat)
    returns (level': seq<Bytes>, path': seq<Bytes>, directions': seq<bool>)
    requires index < |level| && |level| > 1 && level == EvalAll(h, terms)
    requires index == Ancestor(i, |path|) && Reaches(h, leaf, path, directions, i, level[index])
    ensures level' == EvalAll(h, Paired(Pad(terms))) && index / 2 < |level'|
    ensures |path'| == |path| + 1 && index / 2 == Ancestor(i, |path'|)
    ensures Reaches(h, leaf, path', directions', i, level'[index / 2])
  {
    hide Eval;
    hide Reaches;
    hide ProofTree;
    var padded := Pad(level);
    PadEval(h, terms);
    var sibling;
    if index % 2 == 0 {
      sibling := padded[index + 1];
      path', directions' := path + [sibling], directions + [true];
    } else {
      sibling := padded[index - 1];
      path', directions' := path + [sibling], directions + [false];
    }
    if Sized(h) { EvalSized(h, Pad(terms)[if index % 2 == 0 then index + 1 else index - 1]); }
    ReachesNext(h, leaf, path, directions, i, level[index], sibling);
    ParentOf(h, Pad(terms), index);
    level' := NextLevel(h, padded, Pad(terms));
  }

  lemma ReachesNext(h: Hash, leaf: Bytes, path: seq<Bytes>, directions: seq<bool>, i: nat, hash: Bytes, sibling: Bytes)
    requires Reaches(h, leaf, path, directions, i, hash) && (Sized(h) ==> |sibling| == 32)
    ensures var left := Ancestor(i, |path|) % 2 == 0;
            Reaches(h, leaf, path + [sibling], directions + [left], i, Join(h, hash, sibling, left))
    ensures Ancestor(i, |path| + 1) == Ancestor(i, |path|) / 2
  {
    ClimbOn(h, leaf, path, directions, sibling, Ancestor(i, |path|) % 2 == 0);
  }

  lemma ParentOf(h: Hash, l: seq<Term>, i: nat)
    requires i < |l| && |l| % 2 == 0
    ensures var sibling := if i % 2 == 0 then l[i + 1] else l[i - 1];
            Join(h, Eval(h, l[i]), Eval(h, sibling), i % 2 == 0) == Eval(h, Paired(l)[i / 2])
  {
  }

  lemma PadEval(h: Hash, terms: seq<Term>)
    ensures Pad(EvalAll(h, terms)) == EvalAll(h, Pad(terms))
  {
  }

  lemma ClimbOn(h: Hash, leaf: Bytes, path: seq<Bytes>, directions: seq<bool>, sibling: Bytes, right: bool)
    requires |path| == |directions|
    ensures Climb(h, leaf, path + [sibling], directions + [right]) ==
            Join(h, Climb(h, leaf, path, directions), sibling, right)
  {
    assert (path + [sibling])[..|path|] == path;
    ClimbPrefix(h, leaf, path, directions, directions + [right]);
  }

  lemma {:induction false} ClimbPrefix(h: Hash, leaf: Bytes, path: seq<Bytes>, d: seq<bool>, d': seq<bool>)
    requires |path| <= |d| && |path| <= |d'| && d[..|path|] == d'[..|path|]
    ensures Climb(h, leaf, path, d) == Climb(h, leaf, path, d')
  {
    if path == [] {
    } else {
      var n := |path| - 1;
      assert d[..n] == d[..|path|][..n] && d'[..n] == d'[..|path|][..n];
      assert d[n] == d[..|path|][n] && d'[n] == d'[..|path|][n];
      ClimbPrefix(h, leaf, path[..n], d, d');
    }
  }

  // ----- Proofs bind their leaf -----

  lemma JoinedInjective(a: Bytes, s: Bytes, b: Bytes, t: Bytes, right: bool)
    requires |a| == |b| == |s| == |t| == 32 && Joined(a, s, right) == Joined(b, t, right)
    ensures a == b && s == t
  {
    var x, y := Joined(a, s, right), Joined(b, t, right);
    assert x[..32] == (if right then a else s) && y[..32] == (if right then b else t);
    assert x[32..] == (if right then s else a) && y[32..] == (if right then t else b);
  }

  /** The string that a proof path hashes on its way from level i to level i + 1. */
  function HashedAt(h: Hash, leaf: Bytes, path: seq<Bytes>, directions: seq<bool>, i: nat): Bytes
    requires i < |path| <= |directions|
  {
    Joined(Climb(h, leaf, path[..i], directions), path[i], directions[i])
  }

  /** On some level the two paths hash different strings to one digest. */
  ghost predicate PathsClash(h: Hash, a: Bytes, p: seq<Bytes>, b: Bytes, q: seq<Bytes>, d: seq<bool>)
    requires |p| == |q| <= |d|
  {
    exists i :: 0 <= i < |p| && Clash(h, HashedAt(h, a, p, d, i), HashedAt(h, b, q, d, i))
  }

  /** Equal ends reached by equal directions: the same start and the same siblings, or a clash on the way. */
  lemma {:induction false} ClimbInjective(h: Hash, a: Bytes, p: seq<Bytes>, b: Bytes, q: seq<Bytes>, d: seq<bool>)
    requires Sized(h) && |a| == |b| == 32 && Hashes(p) && Hashes(q) && |p| == |q| <= |d|
    requires Climb(h, a, p, d) == Climb(h, b, q, d)
    ensures (a == b && p == q) || PathsClash(h, a, p, b, q, d)
  {
    if p == [] {
    } else {
      var n := |p| - 1;
      var p', q' := p[..n], q[..n];
      if HashedAt(h, a, p, d, n) == HashedAt(h, b, q, d, n) {
        JoinedInjective(Climb(h, a, p', d), p[n], Climb(h, b, q', d), q[n], d[n]);
        ClimbInjective(h, a, p', b, q', d);
        if i :| 0 <= i < n && Clash(h, HashedAt(h, a, p', d, i), HashedAt(h, b, q', d, i)) {
          assert p'[..i] == p[..i] && q'[..i] == q[..i];
          assert Clash(h, HashedAt(h, a, p, d, i), HashedAt(h, b, q, d, i));
        } else {
          assert p == p' + [p[n]] && q == q' + [q[n]];
        }
      } else {
        assert Clash(h, HashedAt(h, a, p, d, n), HashedAt(h, b, q, d, n));
      }
    }
  }

  /**
   * Two verifying proofs of 32-byte hashes with equal directions and root have the same leaf and the same path, unless
   * on some level the two strings that they hash are different and share their digest.
   */
  lemma SameLeaf(h: Hash, p: MerkleProof, q: MerkleProof)
    requires Sized(h) && Verifies(h, p) && Verifies(h, q) && p.root == q.root
    requires |p.path| == |q.path| && p.directions[..|p.path|] == q.directions[..|q.path|]
    requires |p.txHash| == |q.txHash| == 32 && Hashes(p.path) && Hashes(q.path)
    ensures || (p.txHash == q.txHash && p.path == q.path)
            || PathsClash(h, p.txHash, p.path, q.txHash, q.path, p.directions)
  {
    ClimbPrefix(h, q.txHash, q.path, q.directions, p.directions);
    ClimbInjective(h, p.txHash, p.path, q.txHash, q.path, p.directions);
  }
}
