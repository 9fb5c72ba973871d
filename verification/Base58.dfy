/** Base58 (internal/blockchain/utils.go:59-118). */
module Base58 {
  import opened Basics

  // ----- Positional numbers -----

  type Base = b: int | b == 58 || b == 256 witness 58

  predicate AreDigits(b: Base, ds: seq<int>) {
    forall i :: 0 <= i < |ds| ==> 0 <= ds[i] < b
  }

  /** The number that digits stand for, most significant first. */
  function Value(b: Base, ds: seq<int>): int {
    if ds == [] then 0 else b * Value(b, ds[..|ds| - 1]) + ds[|ds| - 1]
  }

  /** The digits of a number, without leading zeros; none for 0. */
  function Digits(b: Base, n: nat): seq<int> {
    if n == 0 then [] else Digits(b, n / b) + [n % b]
  }

  function Stripped(ds: seq<int>): seq<int> {
    if ds != [] && ds[0] == 0 then Stripped(ds[1..]) else ds
  }

  lemma {:induction false} DigitsOk(b: Base, n: nat)
    ensures AreDigits(b, Digits(b, n))
    ensures n > 0 ==> Digits(b, n) != [] && Digits(b, n)[0] > 0
  {
    if n == 0 {
    } else {
      DigitsOk(b, n / b);
      if n / b == 0 { assert n % b == n; }
    }
  }

  lemma {:induction false} ValueOfDigits(b: Base, n: nat)
    ensures Value(b, Digits(b, n)) == n
  {
    if n == 0 {
    } else {
      ValueOfDigits(b, n / b);
      assert Digits(b, n)[..|Digits(b, n)| - 1] == Digits(b, n / b);
    }
  }

  lemma {:induction false} ValueNonNegative(b: Base, ds: seq<int>)
    requires AreDigits(b, ds)
    ensures Value(b, ds) >= 0
  {
    if ds == [] {
    } else {
      ValueNonNegative(b, ds[..|ds| - 1]);
    }
  }

  lemma LastDigit(b: Base, v: nat, d: nat)
    requires d < b
    ensures (b * v + d) / b == v && (b * v + d) % b == d
  {
    if b == 58 {
      assert (58 * v + d) / 58 == v;
    } else {
      assert (256 * v + d) / 256 == v;
    }
  }

  /** A digit string that does not start with zero is the only one for its number. */
  lemma {:induction false} DigitsOfValue(b: Base, ds: seq<int>)
    requires AreDigits(b, ds) && (ds == [] || ds[0] > 0)
    ensures Value(b, ds) >= 0 && Digits(b, Value(b, ds)) == ds
  {
    if ds == [] {
    } else {
      var p, d := ds[..|ds| - 1], ds[|ds| - 1];
      ValueNonNegative(b, p);
      DigitsOfValue(b, p);
      LastDigit(b, Value(b, p), d);
      if p == [] {
        assert Value(b, ds) == d;
      } else {
        assert p == Digits(b, Value(b, p)) && Value(b, p) > 0;
      }
      assert ds == p + [d];
    }
  }

  lemma {:induction false} ZeroInFront(b: Base, ds: seq<int>)
    ensures Value(b, [0] + ds) == Value(b, ds)
  {
    var all := [0] + ds;
    if ds == [] {
      assert all[..0] == [];
    } else {
      assert all[..|all| - 1] == [0] + ds[..|ds| - 1];
      ZeroInFront(b, ds[..|ds| - 1]);
    }
  }

  lemma {:induction false} ValueOfStripped(b: Base, ds: seq<int>)
    requires AreDigits(b, ds)
    ensures Value(b, Stripped(ds)) == Value(b, ds)
    ensures AreDigits(b, Stripped(ds)) && (Stripped(ds) == [] || Stripped(ds)[0] > 0)
  {
    if ds != [] && ds[0] == 0 {
      ValueOfStripped(b, ds[1..]);
      ZeroInFront(b, ds[1..]);
      assert ds == [0] + ds[1..];
    }
  }

  /** Turning digits into a number and back only loses leading zeros. */
  lemma RoundTrip(b: Base, ds: seq<int>)
    requires AreDigits(b, ds)
    ensures Value(b, ds) >= 0 && Digits(b, Value(b, ds)) == Stripped(ds) && AreDigits(b, Stripped(ds))
  {
    ValueOfStripped(b, ds);
    DigitsOfValue(b, Stripped(ds));
  }

  lemma {:induction false} StrippedShorter(ds: seq<int>)
    ensures |Stripped(ds)| <= |ds| && (Stripped(ds) == ds <==> ds == [] || ds[0] != 0)
  {
    if ds != [] && ds[0] == 0 { StrippedShorter(ds[1..]); }
  }

  // ----- The alphabet -----

  /** Digits, then capitals without I and O, then small letters without l. */
  function Letter(d: int): byte
    requires 0 <= d < 58
  {
    if d < 9 then 49 + d
    else if d < 17 then 56 + d
    else if d < 22 then 57 + d
    else if d < 33 then 58 + d
    else if d < 44 then 64 + d
    else 65 + d
  }

  /** bytes.IndexByte on the alphabet, from position i: -1 when the byte is not there. */
  function IndexFrom(c: byte, i: nat): int
    requires i <= 58
    decreases 58 - i
  {
    if i == 58 then -1 else if Letter(i) == c then i else IndexFrom(c, i + 1)
  }

  function IndexByte(c: byte): int {
    IndexFrom(c, 0)
  }

  lemma {:induction false} IndexOfLetter(d: nat, i: nat)
    requires i <= d < 58
    ensures IndexFrom(Letter(d), i) == d
    decreases d - i
  {
    if i < d { IndexOfLetter(d, i + 1); }
  }

  lemma {:induction false} IndexRange(c: byte, i: nat)
    requires i <= 58
    ensures IndexFrom(c, i) == -1 || (i <= IndexFrom(c, i) < 58 && Letter(IndexFrom(c, i)) == c)
    decreases 58 - i
  {
    if i < 58 { IndexRange(c, i + 1); }
  }

  function Letters(ds: seq<int>): (r: Bytes)
    requires AreDigits(58, ds)
    ensures |r| == |ds| && forall i :: 0 <= i < |ds| ==> r[i] == Letter(ds[i])
  {
    seq(|ds|, i requires 0 <= i < |ds| => Letter(ds[i]))
  }

  function Indices(s: Bytes): (r: seq<int>)
    ensures |r| == |s| && forall i :: 0 <= i < |s| ==> r[i] == IndexByte(s[i])
  {
    seq(|s|, i requires 0 <= i < |s| => IndexByte(s[i]))
  }

  lemma IndicesOfLetters(ds: seq<int>)
    requires AreDigits(58, ds)
    ensures Indices(Letters(ds)) == ds
  {
    forall i | 0 <= i < |ds| ensures Indices(Letters(ds))[i] == ds[i] {
      IndexOfLetter(ds[i], 0);
    }
  }

  // ----- The loops -----

  function Mirror<T>(s: seq<T>): (r: seq<T>)
    ensures |r| == |s| && forall i :: 0 <= i < |s| ==> r[i] == s[|s| - 1 - i]
  {
    seq(|s|, i requires 0 <= i < |s| => s[|s| - 1 - i])
  }

  method ReverseBytes(data: array<byte>)
    modifies data
    ensures data[..] == Mirror(old(data[..]))
  {
    var i, j := 0, data.Length - 1;
    while i < j
      invariant 0 <= i <= data.Length && j == data.Length - 1 - i && i <= j + 2
      invariant forall k :: i <= k <= j ==> data[k] == old(data[k])
      invariant forall k :: 0 <= k < i ==> data[k] == old(data[data.Length - 1 - k])
      invariant forall k :: j < k < data.Length ==> data[k] == old(data[data.Length - 1 - k])
    {
      data[i], data[j] := data[j], data[i];
      i, j := i + 1, j - 1;
    }
  }

  /** One letter in front for one zero byte in front, then the digits of the number. */
  function Encoded(x: Bytes): Bytes
    requires x != []
  {
    ValueNonNegative(256, x);
    DigitsOk(58, Value(256, x));
    (if x[0] == 0 then [Letter(0)] else []) + Letters(Digits(58, Value(256, x)))
  }

  /** The division loop: the letters of the digits, least significant first. */
  method DivModLetters(v: nat) returns (result: Bytes)
    ensures AreDigits(58, Digits(58, v)) && Mirror(result) == Letters(Digits(58, v))
  {
    DigitsOk(58, v);
    result := [];
    var n := v;
    while n != 0
      invariant AreDigits(58, Digits(58, n))
      invariant Letters(Digits(58, v)) == Letters(Digits(58, n)) + Mirror(result)
      decreases n
    {
      hide Letter;
      DigitsOk(58, n / 58);
      assert Letters(Digits(58, n)) == Letters(Digits(58, n / 58)) + [Letter(n % 58)];
      assert Mirror(result + [Letter(n % 58)]) == [Letter(n % 58)] + Mirror(result);
      result := result + [Letter(n % 58)];
      n := n / 58;
    }
  }

  method Base58Encode(input: Bytes) returns (r: Bytes)
    requires input != []
    ensures r == Encoded(input)
  {
    hide Digits;
    hide Value;
    hide Letter;
    ValueNonNegative(256, input);
    var n := SetBytes(input);
    var result := DivModLetters(n);
    if input[0] == 0 {
      assert Mirror(result + [Letter(0)]) == [Letter(0)] + Mirror(result);
      result := result + [Letter(0)];
    }
    var buffer := new byte[|result|](i requires 0 <= i < |result| => result[i]);
    assert buffer[..] == result;
    ReverseBytes(buffer);
    r := buffer[..];
  }

  /** big.Int.SetBytes. */
  method SetBytes(input: Bytes) returns (n: int)
    ensures n == Value(256, input)
  {
    n := 0;
    for i := 0 to |input|
      invariant n == Value(256, input[..i])
    {
      assert input[..i + 1][..i] == input[..i];
      n := 256 * n + input[i];
    }
    assert input[..|input|] == input;
  }

  function Abs(n: int): nat {
    if n >= 0 then n else -n
  }

  lemma BytesOk(n: nat)
    ensures AreDigits(256, Digits(256, n))
  {
    DigitsOk(256, n);
  }

  /** big.Int.Bytes: the absolute value, without leading zeros. */
  function BytesOf(n: int): Bytes {
    BytesOk(Abs(n));
    Digits(256, Abs(n))
  }

  /** A byte that is not in the alphabet counts as -1. */
  function Decoded(s: Bytes): Bytes
    requires s != []
  {
    (if s[0] == Letter(0) then [0] else []) + BytesOf(Value(58, Indices(s)))
  }

  method Base58Decode(input: Bytes) returns (r: Bytes)
    requires input != []
    ensures r == Decoded(input)
  {
    var n := 0;
    for i := 0 to |input|
      invariant n == Value(58, Indices(input)[..i])
    {
      assert Indices(input)[..i + 1][..i] == Indices(input)[..i];
      n := n * 58 + IndexByte(input[i]);
    }
    assert Indices(input)[..|input|] == Indices(input);
    r := BytesOf(n);
    if input[0] == Letter(0) {
      r := [0] + r;
    }
  }

  // ----- Round trips -----

  /** What decoding reads from an encoding. */
  lemma EncodedIndices(x: Bytes)
    requires x != []
    ensures Value(256, x) >= 0
    ensures Indices(Encoded(x)) == (if x[0] == 0 then [0] else []) + Digits(58, Value(256, x))
    ensures Encoded(x) != [] && (Encoded(x)[0] == Letter(0) <==> x[0] == 0)
  {
    hide Value;
    hide Digits;
    hide IndexFrom;
    ValueNonNegative(256, x);
    var ds := Digits(58, Value(256, x));
    DigitsOk(58, Value(256, x));
    if x[0] == 0 {
      assert Encoded(x) == Letters([0] + ds);
      IndicesOfLetters([0] + ds);
    } else {
      NonZero(x);
      LetterZero(ds[0]);
      assert Encoded(x) == Letters(ds);
      IndicesOfLetters(ds);
    }
  }

  /** Encoding and decoding keeps the number and one leading zero at most. */
  lemma DecodedEncoded(x: Bytes)
    requires x != []
    ensures Encoded(x) != []
    ensures Decoded(Encoded(x)) == (if x[0] == 0 then [0] else []) + Stripped(x)
  {
    hide Value;
    hide Digits;
    hide IndexFrom;
    hide Letter;
    hide Encoded;
    EncodedIndices(x);
    RoundTrip(256, x);
    ValueOfDigits(58, Value(256, x));
    ZeroInFront(58, Digits(58, Value(256, x)));
    assert [] + Digits(58, Value(256, x)) == Digits(58, Value(256, x));
  }

  lemma NonZero(x: Bytes)
    requires x != [] && x[0] != 0
    ensures Value(256, x) > 0
  {
    DigitsOfValue(256, x);
  }

  /** The round trip gives back exactly the byte strings with at most one leading zero. */
  lemma DecodeInvertsEncodeIff(x: Bytes)
    requires x != []
    ensures Encoded(x) != [] && (Decoded(Encoded(x)) == x <==> !(|x| >= 2 && x[0] == 0 && x[1] == 0))
  {
    hide Encoded;
    hide Decoded;
    DecodedEncoded(x);
    StrippedShorter(x);
    if x[0] == 0 {
      StrippedShorter(x[1..]);
      assert x == [0] + x[1..];
    }
  }

  predicate InAlphabet(s: Bytes) {
    forall i :: 0 <= i < |s| ==> IndexByte(s[i]) >= 0
  }

  lemma LettersOfIndices(s: Bytes)
    requires InAlphabet(s)
    ensures AreDigits(58, Indices(s)) && Letters(Indices(s)) == s
  {
    forall i | 0 <= i < |s| ensures 0 <= IndexByte(s[i]) < 58 && Letter(IndexByte(s[i])) == s[i] {
      IndexRange(s[i], 0);
    }
  }

  /** The other way round, for text in the alphabet: exactly the texts with at most one leading "1". */
  lemma EncodeInvertsDecodeIff(s: Bytes)
    requires s != [] && InAlphabet(s)
    ensures Decoded(s) != []
    ensures Encoded(Decoded(s)) == s <==> !(|s| >= 2 && s[0] == Letter(0) && s[1] == Letter(0))
  {
    hide Value;
    hide Digits;
    hide IndexFrom;
    LettersOfIndices(s);
    var ds := Indices(s);
    RoundTrip(58, ds);
    StrippedShorter(ds);
    var v := Value(58, ds);
    BytesOk(v);
    DigitsOk(256, v);
    ValueOfDigits(256, v);
    LetterZero(ds[0]);
    ZeroInFront(256, Digits(256, v));
    if ds[0] == 0 {
      assert Decoded(s) == [0] + Digits(256, v);
      StrippedShorter(ds[1..]);
      assert ds == [0] + ds[1..];
      assert Encoded(Decoded(s)) == Letters([0] + Stripped(ds));
      SameLetters([0] + Stripped(ds), ds);
      if |s| >= 2 { LetterZero(ds[1]); }
    } else {
      assert v > 0 by { DigitsOfValue(58, ds); NoDigits(58); }
      assert Decoded(s) == Digits(256, v);
      assert Encoded(Decoded(s)) == Letters(ds);
    }
  }

  lemma NoDigits(b: Base)
    ensures Digits(b, 0) == []
  {
  }

  lemma LetterZero(d: int)
    requires 0 <= d < 58
    ensures Letter(d) == Letter(0) <==> d == 0
  {
  }

  lemma SameLetters(ds: seq<int>, es: seq<int>)
    requires AreDigits(58, ds) && AreDigits(58, es)
    ensures Letters(ds) == Letters(es) <==> ds == es
  {
    IndicesOfLetters(ds);
    IndicesOfLetters(es);
  }
}
