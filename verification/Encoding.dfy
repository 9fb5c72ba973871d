/** Fixed-width integers and the length-prefixed commit preimage (utils.go:15-23, transaction.go:273-281). */
module Encoding {
  import opened Basics

  /** The n low-order bytes of x, most significant first. */
  function BigEndian(x: nat, n: nat): (r: Bytes)
    ensures |r| == n
  {
    if n == 0 then [] else BigEndian(x / 256, n - 1) + [x % 256]
  }

  /** IntToByteArr: eight bytes, two's complement. */
  function IntToByteArr(x: int): (r: Bytes)
    ensures |r| == 8
  {
    BigEndian(x % TWO64, 8)
  }

  function Pow256(n: nat): nat {
    if n == 0 then 1 else 256 * Pow256(n - 1)
  }

  /** The number that bytes stand for, the first byte weighing most. */
  function Decoded(s: Bytes): nat {
    if s == [] then 0 else 256 * Decoded(s[..|s| - 1]) + s[|s| - 1]
  }

  lemma {:induction false} BigEndianDecoded(x: nat, n: nat)
    requires x < Pow256(n)
    ensures Decoded(BigEndian(x, n)) == x
  {
    if n == 0 {
    } else {
      BigEndianDecoded(x / 256, n - 1);
      var r := BigEndian(x, n);
      assert r[..n - 1] == BigEndian(x / 256, n - 1) && r[n - 1] == x % 256;
    }
  }

  /** The eight bytes of a number read back, most significant first, as the number modulo 2^64. */
  lemma IntToByteArrDecoded(x: int)
    ensures Decoded(IntToByteArr(x)) == x % TWO64
  {
    assert Pow256(8) == TWO64 by {
      assert Pow256(4) == 0x1_0000_0000;
    }
    BigEndianDecoded(x % TWO64, 8);
  }

  /** So eight bytes fix a number modulo 2^64. */
  lemma IntToByteArrBinds(x: int, y: int)
    requires IntToByteArr(x) == IntToByteArr(y)
    ensures x % TWO64 == y % TWO64
  {
    IntToByteArrDecoded(x);
    IntToByteArrDecoded(y);
  }

  lemma IntToByteArrInjective(x: i64, y: i64)
    requires IntToByteArr(x) == IntToByteArr(y)
    ensures x == y
  {
    IntToByteArrBinds(x, y);
  }

  lemma Uint64Injective(x: u64, y: u64)
    requires IntToByteArr(x) == IntToByteArr(y)
    ensures x == y
  {
    IntToByteArrBinds(x, y);
  }

  /** A byte string with its length in front. */
  function Prefixed(s: Bytes): Bytes {
    IntToByteArr(|s|) + s
  }

  function CommitPreimage(domain: Name, salt: Bytes, owner: Key): Bytes {
    Prefixed(domain) + Prefixed(salt) + Prefixed(owner)
  }

  /** Go slices are shorter than 2^63 bytes. */
  predicate Sized(s: Bytes) {
    |s| < TWO63
  }

  /** A length-prefixed field can be split off the front in only one way. */
  lemma PrefixedUnique(a: Bytes, b: Bytes, x: Bytes, y: Bytes)
    requires Sized(a) && Sized(b) && Prefixed(a) + x == Prefixed(b) + y
    ensures a == b && x == y
  {
    var s, t := Prefixed(a) + x, Prefixed(b) + y;
    assert s[..8] == IntToByteArr(|a|) && t[..8] == IntToByteArr(|b|);
    IntToByteArrInjective(|a|, |b|);
    assert a == s[8..8 + |a|] && b == t[8..8 + |b|];
    assert x == s[8 + |a|..] && y == t[8 + |b|..];
  }

  /** The preimage fixes the domain, the salt and the key. */
  lemma CommitPreimageInjective(d: Name, s: Bytes, k: Key, d': Name, s': Bytes, k': Key)
    requires Sized(d) && Sized(s) && Sized(k) && Sized(d') && Sized(s') && Sized(k')
    requires CommitPreimage(d, s, k) == CommitPreimage(d', s', k')
    ensures d == d' && s == s' && k == k'
  {
    hide Prefixed;
    assert CommitPreimage(d, s, k) == Prefixed(d) + (Prefixed(s) + Prefixed(k));
    assert CommitPreimage(d', s', k') == Prefixed(d') + (Prefixed(s') + Prefixed(k'));
    PrefixedUnique(d, d', Prefixed(s) + Prefixed(k), Prefixed(s') + Prefixed(k'));
    PrefixedUnique(s, s', Prefixed(k), Prefixed(k'));
    assert Prefixed(k) == Prefixed(k) + [] && Prefixed(k') == Prefixed(k') + [];
    PrefixedUnique(k, k', [], []);
  }

  /** So where the digest separates two preimages, the commit hashes agree exactly when all three fields do. */
  lemma CommitHashBinds(sha: Bytes -> Bytes, d: Name, s: Bytes, k: Key, d': Name, s': Bytes, k': Key)
    requires Sized(d) && Sized(s) && Sized(k) && Sized(d') && Sized(s') && Sized(k')
    requires CommitPreimage(d, s, k) != CommitPreimage(d', s', k') ==>
               sha(CommitPreimage(d, s, k)) != sha(CommitPreimage(d', s', k'))
    ensures sha(CommitPreimage(d, s, k)) == sha(CommitPreimage(d', s', k')) <==> d == d' && s == s' && k == k'
  {
    hide CommitPreimage;
    if CommitPreimage(d, s, k) == CommitPreimage(d', s', k') {
      CommitPreimageInjective(d, s, k, d', s', k');
    }
  }
}
