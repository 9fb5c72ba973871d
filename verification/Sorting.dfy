/** Sorting under a total order: the result is determined by the multiset of the elements. */
module Sorting {

  /** Exactly one of a < b, b < a and a == b, and < is transitive. */
  ghost predicate TotalOrder<T(!new)>(less: (T, T) -> bool) {
    && (forall a, b :: less(a, b) || less(b, a) || a == b)
    && (forall a, b :: less(a, b) ==> !less(b, a) && a != b)
    && (forall a, b, c :: less(a, b) && less(b, c) ==> less(a, c))
  }

  /** An order in which different elements may be equal in rank. */
  ghost predicate WeakOrder<T(!new)>(less: (T, T) -> bool) {
    && (forall a, b :: less(a, b) ==> !less(b, a))
    && (forall a, b, c :: less(a, c) ==> less(a, b) || less(b, c))
  }

  lemma TotalIsWeak<T(!new)>(less: (T, T) -> bool)
    requires TotalOrder(less)
    ensures WeakOrder(less)
  {
    forall a, b, c | less(a, c) ensures less(a, b) || less(b, c) {
      assert less(a, b) || less(b, a) || a == b;
    }
  }

  ghost predicate Sorted<T>(less: (T, T) -> bool, s: seq<T>) {
    forall i, j :: 0 <= i < j < |s| ==> !less(s[j], s[i])
  }

  ghost predicate Permutation<T>(s: seq<T>, r: seq<T>) {
    multiset(s) == multiset(r)
  }

  lemma HeadIsLeast<T(!new)>(less: (T, T) -> bool, s: seq<T>, x: T)
    requires TotalOrder(less) && Sorted(less, s) && x in s
    ensures !less(x, s[0])
  {
    var i :| 0 <= i < |s| && s[i] == x;
    if i > 0 { assert !less(s[i], s[0]); }
  }

  lemma TailMultiset<T>(s: seq<T>)
    requires s != []
    ensures multiset(s[1..]) == multiset(s) - multiset{s[0]}
  {
    assert s == [s[0]] + s[1..];
  }

  lemma SameHead<T(!new)>(less: (T, T) -> bool, s: seq<T>, r: seq<T>)
    requires TotalOrder(less) && Sorted(less, s) && Sorted(less, r) && Permutation(s, r) && s != [] && r != []
    ensures s[0] == r[0]
  {
    assert s[0] in multiset(r) && r[0] in multiset(s);
    HeadIsLeast(less, r, s[0]);
    HeadIsLeast(less, s, r[0]);
    hide Sorted;
  }

  /** Two sorted permutations of the same elements are the same sequence. */
  lemma {:induction false} SortedUnique<T(!new)>(less: (T, T) -> bool, s: seq<T>, r: seq<T>)
    requires TotalOrder(less) && Sorted(less, s) && Sorted(less, r) && Permutation(s, r)
    ensures s == r
  {
    hide TotalOrder;
    assert |multiset(s)| == |multiset(r)|;
    if s == [] {
    } else {
      SameHead(less, s, r);
      TailMultiset(s);
      TailMultiset(r);
      SortedUnique(less, s[1..], r[1..]);
      assert s == [s[0]] + s[1..] && r == [r[0]] + r[1..];
    }
  }

  // ----- Insertion sort -----

  function Insert<T>(less: (T, T) -> bool, s: seq<T>, x: T): (r: seq<T>)
    ensures |r| == |s| + 1
  {
    if s == [] || !less(x, s[|s| - 1]) then s + [x] else Insert(less, s[..|s| - 1], x) + [s[|s| - 1]]
  }

  function Sort<T>(less: (T, T) -> bool, s: seq<T>): (r: seq<T>)
    ensures |r| == |s|
  {
    if s == [] then [] else Insert(less, Sort(less, s[..|s| - 1]), s[|s| - 1])
  }

  lemma {:induction false} InsertPermutes<T>(less: (T, T) -> bool, s: seq<T>, x: T)
    ensures multiset(Insert(less, s, x)) == multiset(s) + multiset{x}
  {
    if s != [] && less(x, s[|s| - 1]) {
      InsertPermutes(less, s[..|s| - 1], x);
      assert s == s[..|s| - 1] + [s[|s| - 1]];
    }
  }

  lemma {:induction false} InsertSorted<T(!new)>(less: (T, T) -> bool, s: seq<T>, x: T)
    requires WeakOrder(less) && Sorted(less, s)
    ensures Sorted(less, Insert(less, s, x))
  {
    if s == [] {
    } else if less(x, s[|s| - 1]) {
      var p, last := s[..|s| - 1], s[|s| - 1];
      InsertSorted(less, p, x);
      InsertPermutes(less, p, x);
      var r := Insert(less, p, x);
      forall i | 0 <= i < |r| ensures !less(last, r[i]) {
        assert r[i] in multiset(r);
        if r[i] != x { assert r[i] in multiset(p); }
      }
    } else {
      forall i | 0 <= i < |s| ensures !less(x, s[i]) {
        if i < |s| - 1 { assert !less(s[|s| - 1], s[i]); }
      }
    }
  }

  /** Sorting sorts. */
  lemma {:induction false} SortSorted<T(!new)>(less: (T, T) -> bool, s: seq<T>)
    requires WeakOrder(less)
    ensures Sorted(less, Sort(less, s))
  {
    if s == [] {
    } else {
      SortSorted(less, s[..|s| - 1]);
      InsertSorted(less, Sort(less, s[..|s| - 1]), s[|s| - 1]);
    }
  }

  /** Whatever the order, sorting permutes. */
  lemma {:induction false} SortPermutes<T>(less: (T, T) -> bool, s: seq<T>)
    ensures Permutation(Sort(less, s), s)
  {
    if s == [] {
    } else {
      var p := s[..|s| - 1];
      SortPermutes(less, p);
      InsertPermutes(less, Sort(less, p), s[|s| - 1]);
      assert s == p + [s[|s| - 1]];
    }
  }

  lemma SortCorrect<T(!new)>(less: (T, T) -> bool, s: seq<T>)
    requires TotalOrder(less)
    ensures Sorted(less, Sort(less, s)) && Permutation(Sort(less, s), s)
  {
    TotalIsWeak(less);
    SortSorted(less, s);
    SortPermutes(less, s);
  }

  /** Whatever a sorting algorithm returns, it returns this. */
  lemma SortIsCanonical<T(!new)>(less: (T, T) -> bool, s: seq<T>, r: seq<T>)
    requires TotalOrder(less) && Permutation(s, r)
    ensures Sort(less, s) == Sort(less, r)
    ensures Sorted(less, r) ==> Sort(less, s) == r
  {
    hide Sorted;
    hide TotalOrder;
    SortCorrect(less, s);
    SortCorrect(less, r);
    SortedUnique(less, Sort(less, s), Sort(less, r));
    if Sorted(less, r) { SortedUnique(less, Sort(less, s), r); }
  }

  // ----- In place -----

  /** Where the insertion loop stops is where the element belongs. */
  lemma {:induction false} InsertAt<T>(less: (T, T) -> bool, s: seq<T>, x: T, j: nat)
    requires j <= |s| && (forall m :: j <= m < |s| ==> less(x, s[m])) && (j == 0 || !less(x, s[j - 1]))
    ensures Insert(less, s, x) == s[..j] + [x] + s[j..]
  {
    if j < |s| {
      var p, last := s[..|s| - 1], s[|s| - 1];
      assert Insert(less, s, x) == Insert(less, p, x) + [last];
      InsertAt(less, p, x, j);
      hide Insert;
      Regrouped(s, x, j);
    } else {
      assert s[..j] == s;
    }
  }

  lemma Regrouped<T>(s: seq<T>, x: T, j: nat)
    requires j < |s|
    ensures var p, last := s[..|s| - 1], s[|s| - 1]; p[..j] + [x] + p[j..] + [last] == s[..j] + [x] + s[j..]
  {
    var p, last := s[..|s| - 1], s[|s| - 1];
    assert p[..j] == s[..j] && p[j..] + [last] == s[j..];
  }

  /** Moves element i down to its place among the sorted elements before it. */
  method InsertInPlace<T>(a: array<T>, less: (T, T) -> bool, i: nat)
    requires i < a.Length
    modifies a
    ensures a[..i + 1] == Insert(less, old(a[..i]), old(a[i])) && a[i + 1..] == old(a[i + 1..])
  {
    ghost var s := a[..i];
    var x := a[i];
    var j := i;
    while j > 0 && less(x, a[j - 1])
      invariant 0 <= j <= i && a[..j] == s[..j] && a[j] == x && a[j + 1..i + 1] == s[j..]
      invariant a[i + 1..] == old(a[i + 1..])
      invariant forall m :: j <= m < i ==> less(x, s[m])
    {
      assert a[j - 1] == a[..j][j - 1] == s[j - 1];
      ghost var before := a[..];
      a[j], a[j - 1] := a[j - 1], x;
      j := j - 1;
      assert a[..j] == before[..j] == s[..j];
      assert a[j + 1..i + 1] == [s[j]] + before[j + 2..i + 1];
      assert a[i + 1..] == before[i + 1..];
    }
    assert j > 0 ==> a[j - 1] == a[..j][j - 1] == s[j - 1];
    InsertAt(less, s, x, j);
    assert a[..i + 1] == a[..j] + [a[j]] + a[j + 1..i + 1];
  }

  /** sort.Slice: the library promises a sorted permutation, and under a total order there is only one. */
  method SortSlice<T>(a: array<T>, less: (T, T) -> bool)
    modifies a
    ensures a[..] == Sort(less, old(a[..]))
  {
    hide Insert;
    ghost var s := a[..];
    for i := 0 to a.Length
      invariant a[..i] == Sort(less, s[..i]) && a[i..] == s[i..]
    {
      assert s[..i + 1][..i] == s[..i];
      assert a[i] == a[i..][0] == s[i];
      assert a[i + 1..] == a[i..][1..] == s[i + 1..];
      InsertInPlace(a, less, i);
    }
    assert a[..] == a[..a.Length] && s[..a.Length] == s;
  }
}
