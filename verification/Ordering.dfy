/** Lexicographic order on strings, sorted sequences of ids, and the rows of a keyed map in id order. */
module Ordering {
  import opened Sorting

  predicate Less(a: string, b: string)
  {
    if |b| == 0 then false
    else if |a| == 0 then true
    else a[0] < b[0] || (a[0] == b[0] && Less(a[1..], b[1..]))
  }

  predicate Leq(a: string, b: string)
  {
    a == b || Less(a, b)
  }

  lemma {:induction false} LessTotal(a: string, b: string)
    ensures Less(a, b) || a == b || Less(b, a)
    ensures !(Less(a, b) && Less(b, a)) && !Less(a, a)
    decreases |a|
  {
    if |a| > 0 {
      LessTotal(a[1..], a[1..]);
      if |b| > 0 {
        LessTotal(a[1..], b[1..]);
        assert a == [a[0]] + a[1..] && b == [b[0]] + b[1..];
      }
    }
  }

  lemma {:induction false} LessTransitive(a: string, b: string, c: string)
    requires Less(a, b) && Less(b, c)
    ensures Less(a, c)
    decreases |a|
  {
    if |a| > 0 && a[0] == b[0] && b[0] == c[0] {
      LessTransitive(a[1..], b[1..], c[1..]);
    }
  }

  predicate StrictlySorted(ids: seq<string>)
  {
    forall i, j :: 0 <= i < j < |ids| ==> Less(ids[i], ids[j])
  }

  lemma LeqIsTotalPreorder()
    ensures TotalPreorder(Leq)
  {
    forall a, b ensures Leq(a, b) || Leq(b, a) {
      LessTotal(a, b);
    }
    forall a, b, c | Leq(a, b) && Leq(b, c) ensures Leq(a, c) {
      if a != b && b != c {
        LessTransitive(a, b, c);
      }
    }
  }

  // ------------------------------------------------------------------ a map in key order

  ghost predicate IsLeast(k: string, s: set<string>)
  {
    k in s && forall x :: x in s ==> Leq(k, x)
  }

  lemma {:induction false} LeastExists(s: set<string>) returns (k: string)
    requires s != {}
    ensures IsLeast(k, s)
    decreases |s|
  {
    var c :| c in s;
    if s == {c} {
      k := c;
    } else {
      var m := LeastExists(s - {c});
      LessTotal(c, m);
      k := if Less(c, m) then c else m;
      forall x | x in s ensures Leq(k, x) {
        if x != c {
          assert x in s - {c};
          if Less(c, m) && x != m {
            LessTransitive(c, m, x);
          }
        }
      }
    }
  }

  ghost function Least(s: set<string>): (k: string)
    requires s != {}
    ensures IsLeast(k, s)
  {
    assert exists k :: IsLeast(k, s) by {
      var k := LeastExists(s);
    }
    var k :| IsLeast(k, s);
    k
  }

  lemma LeastUnique(j: string, k: string, s: set<string>)
    requires IsLeast(j, s) && IsLeast(k, s)
    ensures j == k
  {
    LessTotal(j, k);
  }

  /** The keys of a map in ascending order. */
  ghost function KeysInOrder(s: set<string>): seq<string>
    decreases |s|
  {
    if s == {} then [] else [Least(s)] + KeysInOrder(s - {Least(s)})
  }

  lemma {:induction false} KeysInOrderSorted(s: set<string>)
    ensures StrictlySorted(KeysInOrder(s))
    ensures forall k :: k in s <==> k in KeysInOrder(s)
    decreases |s|
  {
    if s != {} {
      var rest := KeysInOrder(s - {Least(s)});
      KeysInOrderSorted(s - {Least(s)});
      forall j | 0 <= j < |rest| ensures Less(Least(s), rest[j]) {
        assert rest[j] in s - {Least(s)};
      }
    }
  }

  /** A strictly sorted sequence is determined by its members. */
  lemma {:induction false} SortedIsKeysInOrder(ids: seq<string>, s: set<string>)
    requires StrictlySorted(ids) && forall k :: k in s <==> k in ids
    ensures ids == KeysInOrder(s)
    decreases |ids|
  {
    if |ids| > 0 {
      assert ids[0] in s;
      forall x | x in s ensures Leq(ids[0], x) { }
      LeastUnique(ids[0], Least(s), s);
      var rest := ids[1..];
      assert ids == [ids[0]] + rest;
      if ids[0] in rest {
        LessTotal(ids[0], ids[0]);
      }
      SortedIsKeysInOrder(rest, s - {ids[0]});
    } else {
      assert s == {};
    }
  }

  // ------------------------------------------------------------------ what the order is

  /** At the first difference the smaller character decides; a proper prefix comes first. */
  predicate DiffersAt(a: string, b: string, n: nat)
  {
    n <= |a| && n < |b| && a[..n] == b[..n] && (n == |a| || a[n] < b[n])
  }

  lemma OneMoreInFront(a: string, b: string, n: nat)
    requires |a| > 0 && |b| > 0 && a[0] == b[0]
    ensures DiffersAt(a[1..], b[1..], n) <==> DiffersAt(a, b, n + 1)
  {
    if n < |a| && n + 1 < |b| {
      assert a[..n + 1] == [a[0]] + a[1..][..n];
      assert b[..n + 1] == [b[0]] + b[1..][..n];
    }
  }

  lemma {:induction false} LessIsLexicographic(a: string, b: string)
    ensures Less(a, b) <==> exists n: nat :: DiffersAt(a, b, n)
    decreases |a|
  {
    if |a| > 0 && |b| > 0 && a[0] == b[0] {
      LessIsLexicographic(a[1..], b[1..]);
      if Less(a, b) {
        var n: nat :| DiffersAt(a[1..], b[1..], n);
        OneMoreInFront(a, b, n);
      }
      forall n: nat | DiffersAt(a, b, n) ensures Less(a, b) {
        OneMoreInFront(a, b, n - 1);
      }
    } else if |b| > 0 && (|a| == 0 || a[0] < b[0]) {
      assert DiffersAt(a, b, 0);
    }
  }

  /** The smaller character at the first difference decides, and a proper prefix comes first. */
  lemma LessMeans(a: string, b: string, n: nat)
    requires n <= |a| && n < |b| && a[..n] == b[..n] && (n == |a| || a[n] < b[n])
    ensures Less(a, b) && !Less(b, a)
  {
    assert DiffersAt(a, b, n);
    LessIsLexicographic(a, b);
    LessTotal(a, b);
  }
}
