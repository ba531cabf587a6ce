/** Insertion sort by any total preorder, for the places where the program sorts or the database orders. */
module Sorting {

  ghost predicate TotalPreorder<T(!new)>(leq: (T, T) -> bool)
  {
    && (forall a, b :: leq(a, b) || leq(b, a))
    && (forall a, b, c :: leq(a, b) && leq(b, c) ==> leq(a, c))
  }

  ghost predicate SortedBy<T>(s: seq<T>, leq: (T, T) -> bool)
  {
    forall i, j :: 0 <= i < j < |s| ==> leq(s[i], s[j])
  }

  lemma InsertedIsSorted<T(!new)>(s: seq<T>, x: T, i: nat, leq: (T, T) -> bool)
    requires TotalPreorder(leq) && SortedBy(s, leq) && i <= |s|
    requires forall k :: 0 <= k < i ==> leq(s[k], x)
    requires i < |s| ==> leq(x, s[i])
    ensures SortedBy(s[..i] + [x] + s[i..], leq)
  {
    forall k | i <= k < |s| ensures leq(x, s[k]) {
      if i < k {
        assert leq(s[i], s[k]);
      }
    }
  }

  lemma InsertedIsPermutation<T>(s: seq<T>, x: T, i: nat)
    requires i <= |s|
    ensures multiset(s[..i] + [x] + s[i..]) == multiset(s) + multiset{x}
  {
    assert s == s[..i] + s[i..];
  }

  /** Put one element behind everything that does not have to come after it. */
  method Insert<T(!new)>(s: seq<T>, x: T, leq: (T, T) -> bool) returns (r: seq<T>)
    requires TotalPreorder(leq) && SortedBy(s, leq)
    ensures SortedBy(r, leq) && multiset(r) == multiset(s) + multiset{x}
  {
    var i := 0;
    while i < |s| && leq(s[i], x)
      invariant 0 <= i <= |s|
      invariant forall k :: 0 <= k < i ==> leq(s[k], x)
    {
      i := i + 1;
    }
    InsertedIsSorted(s, x, i, leq);
    InsertedIsPermutation(s, x, i);
    r := s[..i] + [x] + s[i..];
  }

  method Sort<T(!new)>(s: seq<T>, leq: (T, T) -> bool) returns (r: seq<T>)
    requires TotalPreorder(leq)
    ensures SortedBy(r, leq) && multiset(r) == multiset(s)
  {
    r := [];
    for i := 0 to |s|
      invariant SortedBy(r, leq) && multiset(r) == multiset(s[..i])
    {
      assert s[..i + 1] == s[..i] + [s[i]];
      r := Insert(r, s[i], leq);
    }
    assert s[..|s|] == s;
  }

  /** A permutation has the same length and the same members. */
  lemma SameContents<T>(s: seq<T>, r: seq<T>)
    requires multiset(r) == multiset(s)
    ensures |r| == |s| && forall x :: x in r <==> x in s
  {
    assert |multiset(r)| == |multiset(s)|;
    forall x ensures x in r <==> x in s {
      assert x in multiset(r) <==> x in multiset(s);
    }
  }

  lemma {:induction false} AtMostOnce<T>(s: seq<T>, x: T)
    requires forall i, j :: 0 <= i < j < |s| ==> s[i] != s[j]
    ensures multiset(s)[x] <= 1
    decreases |s|
  {
    if |s| > 0 {
      var front := s[..|s| - 1];
      assert s == front + [s[|s| - 1]];
      AtMostOnce(front, x);
      if x == s[|s| - 1] {
        assert x !in front;
      }
    }
  }

  /** A permutation of a list without repetitions has none either. */
  lemma StaysDistinct<T>(s: seq<T>, r: seq<T>)
    requires forall i, j :: 0 <= i < j < |s| ==> s[i] != s[j]
    requires multiset(r) == multiset(s)
    ensures forall i, j :: 0 <= i < j < |r| ==> r[i] != r[j]
  {
    forall i, j | 0 <= i < j < |r| ensures r[i] != r[j] {
      AtMostOnce(s, r[j]);
      assert r == r[..j] + [r[j]] + r[j + 1..];
      assert r[i] in r[..j];
      assert multiset(r)[r[j]] >= multiset(r[..j])[r[j]] + 1;
    }
  }

  // ------------------------------------------------------------------ sets in order

  lemma {:induction false} Slot<T(!new)>(s: seq<T>, x: T, leq: (T, T) -> bool) returns (i: nat)
    requires TotalPreorder(leq) && SortedBy(s, leq)
    ensures i <= |s| && (forall k :: 0 <= k < i ==> leq(s[k], x)) && (i < |s| ==> leq(x, s[i]))
    decreases |s|
  {
    i := |s|;
    if |s| > 0 && !leq(s[|s| - 1], x) {
      i := Slot(s[..|s| - 1], x, leq);
    }
  }

  /** Any finite set can be listed in order, each element once. */
  lemma {:induction false} InOrder<T(!new)>(s: set<T>, leq: (T, T) -> bool) returns (r: seq<T>)
    requires TotalPreorder(leq)
    ensures SortedBy(r, leq) && |r| == |s| && forall x :: x in r <==> x in s
    ensures forall i, j :: 0 <= i < j < |r| ==> r[i] != r[j]
    decreases |s|
  {
    if s == {} {
      r := [];
    } else {
      var x :| x in s;
      var rest := InOrder(s - {x}, leq);
      var i := Slot(rest, x, leq);
      r := rest[..i] + [x] + rest[i..];
      InsertedIsSorted(rest, x, i, leq);
      InsertedIsPermutation(rest, x, i);
      SameContents([x] + rest, r);
      StaysDistinct([x] + rest, r);
    }
  }
}
