/** What the program's rankings rely on sort.Slice for: under a strict total
    order there is exactly one sorted arrangement, whatever order came in. */
module Sorting {
  type Less<!T> = (T, T) -> bool  // a comparison

  ghost predicate Asymmetric<T(!new)>(less: Less<T>) {
    forall a, b :: less(a, b) ==> !less(b, a)
  }

  ghost predicate Transitive<T(!new)>(less: Less<T>) {
    forall a, b, c :: less(a, b) && less(b, c) ==> less(a, c)
  }

  ghost predicate Comparable<T(!new)>(less: Less<T>, s: seq<T>) {
    forall i, j :: 0 <= i < |s| && 0 <= j < |s| && i != j ==> less(s[i], s[j]) || less(s[j], s[i])
  }

  predicate Sorted<T>(less: Less<T>, s: seq<T>) {
    forall i, j :: 0 <= i < j < |s| ==> less(s[i], s[j])
  }

  predicate SameElements<T(==)>(a: seq<T>, b: seq<T>) {
    (forall x :: x in a ==> x in b) && (forall x :: x in b ==> x in a)
  }

  lemma TailElements<T(!new)>(less: Less<T>, s: seq<T>)
    requires Asymmetric(less) && Sorted(less, s) && s != []
    ensures Sorted(less, s[1..])
    ensures forall x :: x in s[1..] <==> x in s && x != s[0]
  {
    forall x | x in s && x != s[0]
      ensures x in s[1..]
    {
      var i :| 0 <= i < |s| && s[i] == x;
      assert s[1..][i - 1] == x;
    }
  }

  lemma {:induction false} SortedUnique<T(!new)>(less: Less<T>, a: seq<T>, b: seq<T>)
    requires Asymmetric(less) && Sorted(less, a) && Sorted(less, b) && SameElements(a, b)
    ensures a == b
  {
    if |a| == 0 {
      assert forall i :: 0 <= i < |b| ==> b[i] in a;
    } else {
      assert a[0] in a && a[0] in b;
      assert b[0] in b && b[0] in a;
      assert a[0] == b[0];
      TailElements(less, a);
      TailElements(less, b);
      SortedUnique(less, a[1..], b[1..]);
      assert a == [a[0]] + a[1..] && b == [b[0]] + b[1..];
    }
  }

  /** Stands for sort.Slice on a slice whose elements the order tells apart. */
  method SortSlice<T(!new)>(less: Less<T>, s: seq<T>) returns (r: seq<T>)
    requires Transitive(less) && Comparable(less, s)
    ensures Sorted(less, r) && SameElements(r, s) && |r| == |s|
  {
    r := [];
    for n := 0 to |s|
      invariant Sorted(less, r) && |r| == n && SameElements(r, s[..n])
    {
      var i := 0;
      while i < |r| && less(r[i], s[n])
        invariant 0 <= i <= |r|
        invariant forall j :: 0 <= j < i ==> less(r[j], s[n])
      {
        i := i + 1;
      }
      InsertSorted(less, s, n, r, i);
      r := r[..i] + [s[n]] + r[i..];
    }
    assert s[..|s|] == s;
  }

  lemma InsertSorted<T(!new)>(less: Less<T>, s: seq<T>, n: nat, r: seq<T>, i: nat)
    requires Transitive(less) && Comparable(less, s)
    requires n < |s| && i <= |r| && Sorted(less, r) && SameElements(r, s[..n])
    requires forall j :: 0 <= j < i ==> less(r[j], s[n])
    requires i < |r| ==> !less(r[i], s[n])
    ensures Sorted(less, r[..i] + [s[n]] + r[i..])
    ensures SameElements(r[..i] + [s[n]] + r[i..], s[..n + 1])
  {
    assert forall j :: i <= j < |r| ==> less(s[n], r[j]) by {
      if i < |r| {
        assert r[i] in r && r[i] in s[..n];
        var m :| 0 <= m < n && s[..n][m] == r[i];
        assert less(s[m], s[n]) || less(s[n], s[m]);
      }
    }
    var grown := r[..i] + [s[n]] + r[i..];
    assert s[..n + 1] == s[..n] + [s[n]];
    assert r == r[..i] + r[i..];
    forall x
      ensures x in grown <==> x in s[..n + 1]
    {
      assert x in r <==> x in r[..i] || x in r[i..];
      assert x in grown <==> x in r[..i] || x == s[n] || x in r[i..];
    }
  }
}
