/**
 Sorting by a comparator, known only by its specification: the result is some sorted
 permutation. Also the lexicographic order of strings.
 */
module Sorting {

  /** Byte-wise lexicographic order, as `std::string::operator<`. */
  predicate Less(a: string, b: string) {
    if b == "" then false
    else if a == "" then true
    else if a[0] != b[0] then a[0] < b[0]
    else Less(a[1..], b[1..])
  }

  lemma {:induction false} LessTotal(a: string, b: string)
    ensures a == b || Less(a, b) || Less(b, a)
    ensures !(Less(a, b) && Less(b, a)) && !Less(a, a)
  {
    if a != "" && b != "" && a[0] == b[0] {
      LessTotal(a[1..], b[1..]);
      assert a == [a[0]] + a[1..] && b == [b[0]] + b[1..];
    }
    LessIrreflexive(a);
  }

  lemma {:induction false} LessIrreflexive(a: string)
    ensures !Less(a, a)
  {
    if a != "" { LessIrreflexive(a[1..]); }
  }

  lemma {:induction false} LessTransitive(a: string, b: string, c: string)
    requires Less(a, b) && Less(b, c)
    ensures Less(a, c)
  {
    if a != "" && a[0] == b[0] && b[0] == c[0] {
      LessTransitive(a[1..], b[1..], c[1..]);
    }
  }

  lemma LessIsTotalOrder()
    ensures forall a, b :: a == b || Less(a, b) || Less(b, a)
    ensures forall a, b :: !(Less(a, b) && Less(b, a))
    ensures forall a, b, c :: Less(a, b) && Less(b, c) ==> Less(a, c)
  {
    forall a, b ensures (a == b || Less(a, b) || Less(b, a)) && !(Less(a, b) && Less(b, a)) {
      LessTotal(a, b);
    }
    forall a, b, c | Less(a, b) && Less(b, c) ensures Less(a, c) {
      LessTransitive(a, b, c);
    }
  }

  /** `less` orders the values, up to ties. */
  ghost predicate StrictWeakOrder<T(!new)>(less: (T, T) -> bool) {
    && (forall a, b :: less(a, b) ==> !less(b, a))
    && (forall a, b, c :: !less(b, a) && !less(c, b) ==> !less(c, a))
  }

  ghost predicate Sorted<T>(xs: seq<T>, less: (T, T) -> bool) {
    forall i, j :: 0 <= i < j < |xs| ==> !less(xs[j], xs[i])
  }

  /** Equal-ranking values are equal. */
  ghost predicate NoTies<T>(xs: seq<T>, less: (T, T) -> bool) {
    forall i, j :: 0 <= i < |xs| && 0 <= j < |xs| ==> less(xs[i], xs[j]) || less(xs[j], xs[i]) || xs[i] == xs[j]
  }

  ghost predicate SortedPermutation<T>(xs: seq<T>, ys: seq<T>, less: (T, T) -> bool) {
    Sorted(ys, less) && multiset(xs) == multiset(ys)
  }

  method Sort<T(!new)>(xs: seq<T>, less: (T, T) -> bool) returns (ys: seq<T>)
    requires StrictWeakOrder(less)
    ensures SortedPermutation(xs, ys, less)
  {
    ys := [];
    var i := 0;
    while i < |xs|
      invariant 0 <= i <= |xs|
      invariant SortedPermutation(xs[..i], ys, less)
    {
      assert xs[..i + 1] == xs[..i] + [xs[i]];
      ys := Insert(ys, xs[i], less);
      i := i + 1;
    }
    assert xs[..i] == xs;
  }

  method Insert<T(!new)>(xs: seq<T>, x: T, less: (T, T) -> bool) returns (ys: seq<T>)
    requires StrictWeakOrder(less) && Sorted(xs, less)
    ensures Sorted(ys, less) && multiset(ys) == multiset(xs) + multiset{x}
  {
    var k := |xs|;
    while k > 0 && less(x, xs[k - 1])
      invariant 0 <= k <= |xs|
      invariant forall i :: k <= i < |xs| ==> less(x, xs[i])
    {
      k := k - 1;
    }
    ys := xs[..k] + [x] + xs[k..];
    assert xs == xs[..k] + xs[k..];
    InsertedIsSorted(xs, x, k, less);
  }

  lemma InsertedIsSorted<T(!new)>(xs: seq<T>, x: T, k: nat, less: (T, T) -> bool)
    requires StrictWeakOrder(less) && Sorted(xs, less) && k <= |xs|
    requires forall i :: k <= i < |xs| ==> less(x, xs[i])
    requires k > 0 ==> !less(x, xs[k - 1])
    ensures Sorted(xs[..k] + [x] + xs[k..], less)
  {
    var ys := xs[..k] + [x] + xs[k..];
    forall i, j | 0 <= i < j < |ys| ensures !less(ys[j], ys[i]) {
      if j == k {
        assert i < k - 1 ==> !less(xs[k - 1], xs[i]);
      } else if i == k {
        assert less(x, xs[j - 1]);
      }
    }
  }

  lemma FirstsAgree<T(!new)>(xs: seq<T>, ys: seq<T>, less: (T, T) -> bool)
    requires NoTies(xs, less) && xs != [] && ys != []
    requires Sorted(xs, less) && Sorted(ys, less)
    requires ys[0] in xs && xs[0] in ys
    ensures xs[0] == ys[0]
  {
    var i :| 0 <= i < |xs| && xs[i] == ys[0];
    var j :| 0 <= j < |ys| && ys[j] == xs[0];
    assert i > 0 ==> !less(xs[i], xs[0]);
    assert j > 0 ==> !less(ys[j], ys[0]);
  }

  /** Without ties there is one sorted permutation. */
  lemma {:induction false} SortedIsUnique<T(!new)>(xs: seq<T>, ys: seq<T>, less: (T, T) -> bool)
    requires StrictWeakOrder(less) && NoTies(xs, less)
    requires Sorted(xs, less) && Sorted(ys, less) && multiset(xs) == multiset(ys)
    ensures xs == ys
  {
    SameElements(xs, ys);
    if xs != [] {
      FirstsAgree(xs, ys, less);
      assert xs == [xs[0]] + xs[1..] && ys == [ys[0]] + ys[1..];
      assert multiset(xs[1..]) == multiset(xs) - multiset{xs[0]};
      assert multiset(ys[1..]) == multiset(ys) - multiset{ys[0]};
      SortedIsUnique(xs[1..], ys[1..], less);
    }
  }

  /** Sorting what is already sorted, without ties, changes nothing. */
  lemma SortedStays<T(!new)>(xs: seq<T>, ys: seq<T>, less: (T, T) -> bool)
    requires StrictWeakOrder(less) && NoTies(xs, less) && Sorted(xs, less)
    requires SortedPermutation(xs, ys, less)
    ensures ys == xs
  {
    SortedIsUnique(xs, ys, less);
  }

  lemma SameElements<T>(xs: seq<T>, ys: seq<T>)
    requires multiset(xs) == multiset(ys)
    ensures |xs| == |ys| && forall x :: x in xs <==> x in ys
  {
    assert |multiset(xs)| == |xs| && |multiset(ys)| == |ys|;
    forall x ensures x in xs <==> x in ys {
      assert x in multiset(xs) <==> x in xs;
      assert x in multiset(ys) <==> x in ys;
    }
  }

  // ---- Permutations and distinct elements ----

  lemma TwoOccurrences<T>(xs: seq<T>, i: nat, j: nat)
    requires i < j < |xs| && xs[i] == xs[j]
    ensures multiset(xs)[xs[i]] >= 2
  {
    assert xs == xs[..j] + xs[j..];
    assert xs[i] in multiset(xs[..j]) by { assert xs[..j][i] == xs[i]; }
    assert xs[j] in multiset(xs[j..]) by { assert xs[j..][0] == xs[j]; }
  }

  lemma {:induction false} OccursTwice<T>(xs: seq<T>, x: T)
    requires multiset(xs)[x] >= 2
    ensures exists i, j :: 0 <= i < j < |xs| && xs[i] == x && xs[j] == x
  {
    assert xs != [];
    assert xs == [xs[0]] + xs[1..];
    if xs[0] == x {
      assert multiset(xs[1..])[x] >= 1;
      assert x in xs[1..];
      var k :| 0 <= k < |xs| - 1 && xs[1..][k] == x;
      assert xs[0] == x && xs[k + 1] == x;
    } else {
      OccursTwice(xs[1..], x);
      var i, j :| 0 <= i < j < |xs[1..]| && xs[1..][i] == x && xs[1..][j] == x;
      assert xs[i + 1] == x && xs[j + 1] == x;
    }
  }

  /** Elements with pairwise different keys keep them under permutation. */
  lemma PermutedKeysDiffer<T>(xs: seq<T>, ys: seq<T>, key: T -> string)
    requires multiset(xs) == multiset(ys)
    requires forall i, j :: 0 <= i < j < |xs| ==> key(xs[i]) != key(xs[j])
    ensures forall i, j :: 0 <= i < j < |ys| ==> key(ys[i]) != key(ys[j])
  {
    forall i, j | 0 <= i < j < |ys| ensures key(ys[i]) != key(ys[j]) {
      if ys[i] == ys[j] {
        TwoOccurrences(ys, i, j);
        OccursTwice(xs, ys[i]);
        assert false;
      } else {
        SameElements(xs, ys);
        assert ys[i] in xs && ys[j] in xs;
        var a :| 0 <= a < |xs| && xs[a] == ys[i];
        var b :| 0 <= b < |xs| && xs[b] == ys[j];
        assert a < b || b < a;
      }
    }
  }
}
