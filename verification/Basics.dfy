/** Machine integers, byte strings and their order, shared by every other module. */
module Basics {

  const TWO63: int := 0x8000_0000_0000_0000
  const TWO64: int := 0x1_0000_0000_0000_0000

  type byte = b: int | 0 <= b < 256
  type u64 = x: int | 0 <= x < 0x1_0000_0000_0000_0000
  type i64 = x: int | -0x8000_0000_0000_0000 <= x < 0x8000_0000_0000_0000

  /** Go byte slices and Go strings alike. */
  type Bytes = seq<byte>
  /** A public key.  Ledger and stake entries are keyed by its hexadecimal form, which is injective. */
  type Key = Bytes
  /** A domain name. */
  type Name = Bytes

  datatype Option<+T> = None | Some(value: T)

  /** uint64 addition, with its wrap-around. */
  function Add64(a: u64, b: u64): (r: u64)
    ensures a + b < TWO64 <==> r == a + b
  {
    if a + b < TWO64 then a + b else a + b - TWO64
  }

  /** uint64 subtraction, with its wrap-around. */
  function Sub64(a: u64, b: u64): (r: u64)
    ensures b <= a <==> r == a - b
  {
    if b <= a then a - b else a - b + TWO64
  }

  /** The int64 that has the same low 64 bits as x. */
  function ToI64(x: int): (r: i64)
    ensures -TWO63 <= x < TWO63 ==> r == x
    ensures (x - r) % TWO64 == 0
  {
    var m := x % TWO64;
    if m < TWO63 then m else m - TWO64
  }

  /** Go's `<` on strings: lexicographic on bytes. */
  predicate Less(a: Bytes, b: Bytes) {
    b != [] && (a == [] || a[0] < b[0] || (a[0] == b[0] && Less(a[1..], b[1..])))
  }

  lemma {:induction false} LessTrichotomy(a: Bytes, b: Bytes)
    ensures Less(a, b) || Less(b, a) || a == b
    ensures !(Less(a, b) && Less(b, a))
    ensures !(Less(a, b) && a == b)
  {
    if a != [] && b != [] {
      LessTrichotomy(a[1..], b[1..]);
      assert a == [a[0]] + a[1..] && b == [b[0]] + b[1..];
    }
  }

  lemma {:induction false} LessTransitive(a: Bytes, b: Bytes, c: Bytes)
    requires Less(a, b) && Less(b, c)
    ensures Less(a, c)
  {
    if a != [] && b != [] && c != [] && a[0] == b[0] && b[0] == c[0] {
      LessTransitive(a[1..], b[1..], c[1..]);
    }
  }
}
