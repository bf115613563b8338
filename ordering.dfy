/**
 * Python's ordering of strings (code point by code point, a proper prefix
 * first) and the `sorted` built-in over strings.
 */
module Ordering {

  /** `a <= b` on Python strings. */
  predicate LessEq(a: string, b: string)
    decreases |a|
  {
    |a| == 0 || (|b| > 0 && (a[0] < b[0] || (a[0] == b[0] && LessEq(a[1..], b[1..]))))
  }

  lemma {:induction false} LessEqReflexive(a: string)
    ensures LessEq(a, a)
    decreases |a|
  {
    if |a| > 0 {
      LessEqReflexive(a[1..]);
    }
  }

  lemma {:induction false} LessEqAntisymmetric(a: string, b: string)
    requires LessEq(a, b) && LessEq(b, a)
    ensures a == b
    decreases |a|
  {
    if |a| > 0 && |b| > 0 {
      LessEqAntisymmetric(a[1..], b[1..]);
      assert a == [a[0]] + a[1..];
      assert b == [b[0]] + b[1..];
    }
  }

  lemma {:induction false} LessEqTransitive(a: string, b: string, c: string)
    requires LessEq(a, b) && LessEq(b, c)
    ensures LessEq(a, c)
    decreases |a|
  {
    if |a| > 0 && |b| > 0 && |c| > 0 && a[0] == b[0] == c[0] {
      LessEqTransitive(a[1..], b[1..], c[1..]);
    }
  }

  lemma {:induction false} LessEqTotal(a: string, b: string)
    ensures LessEq(a, b) || LessEq(b, a)
    decreases |a|
  {
    if |a| > 0 && |b| > 0 && a[0] == b[0] {
      LessEqTotal(a[1..], b[1..]);
    }
  }

  /** The sequence is in ascending order. */
  predicate Sorted(s: seq<string>) {
    forall i, j :: 0 <= i < j < |s| ==> LessEq(s[i], s[j])
  }

  /** Ascending and without repetitions: the sorted keys of a dictionary. */
  predicate StrictlySorted(s: seq<string>) {
    Sorted(s) && forall i, j :: 0 <= i < j < |s| ==> s[i] != s[j]
  }

  /** Every element of `s` is at least `lo`. */
  predicate Above(lo: string, s: seq<string>) {
    forall y :: y in s ==> LessEq(lo, y)
  }

  lemma SortedCons(x: string, s: seq<string>)
    requires Sorted(s) && Above(x, s)
    ensures Sorted([x] + s)
  {
    var r := [x] + s;
    forall i, j | 0 <= i < j < |r| ensures LessEq(r[i], r[j]) {
      if i > 0 {
        assert r[i] == s[i - 1] && r[j] == s[j - 1];
      } else {
        assert r[j] == s[j - 1] && r[j] in s;
      }
    }
  }

  lemma AboveSorted(x: string, s: seq<string>)
    requires Sorted(s) && s != [] && LessEq(x, s[0])
    ensures Above(x, s)
  {
    forall y | y in s ensures LessEq(x, y) {
      var j :| 0 <= j < |s| && s[j] == y;
      if j > 0 { LessEqTransitive(x, s[0], y); }
    }
  }

  lemma AboveMultiset(lo: string, s: seq<string>, t: seq<string>, x: string)
    requires Above(lo, s) && LessEq(lo, x)
    requires multiset(t) == multiset(s) + multiset{x}
    ensures Above(lo, t)
  {
    forall y | y in t ensures LessEq(lo, y) {
      assert y in multiset(t);
      if y != x {
        assert y in multiset(s);
      }
    }
  }

  /** Inserts `x` into the ascending sequence `s`. */
  function Insert(x: string, s: seq<string>): (r: seq<string>)
    requires Sorted(s)
    ensures Sorted(r)
    ensures multiset(r) == multiset(s) + multiset{x}
    decreases |s|
  {
    if s == [] then [x]
    else if LessEq(x, s[0]) then
      AboveSorted(x, s);
      SortedCons(x, s);
      [x] + s
    else
      var t := Insert(x, s[1..]);
      LessEqTotal(x, s[0]);
      SortedCons(s[0], s[1..]);
      assert s == [s[0]] + s[1..];
      AboveMultiset(s[0], s[1..], t, x);
      SortedCons(s[0], t);
      [s[0]] + t
  }

  /** Python's `sorted` on a list of strings. */
  function Sort(s: seq<string>): (r: seq<string>)
    ensures Sorted(r)
    ensures multiset(r) == multiset(s)
    decreases |s|
  {
    if s == [] then []
    else
      assert s == [s[0]] + s[1..];
      Insert(s[0], Sort(s[1..]))
  }

  lemma {:induction false} MinExists(s: set<string>)
    requires s != {}
    ensures exists m :: m in s && forall y :: y in s ==> LessEq(m, y)
    decreases |s|
  {
    var x :| x in s;
    if s == {x} {
      LessEqReflexive(x);
      assert forall y :: y in s ==> y == x;
    } else {
      MinExists(s - {x});
      var m :| m in s - {x} && forall y :: y in s - {x} ==> LessEq(m, y);
      LessEqTotal(x, m);
      if LessEq(m, x) {
        assert forall y :: y in s ==> LessEq(m, y);
      } else {
        LessEqReflexive(x);
        forall y | y in s ensures LessEq(x, y) {
          if y != x { LessEqTransitive(x, m, y); }
        }
      }
    }
  }

  /** The least string of a non-empty set. */
  function Min(s: set<string>): (m: string)
    requires s != {}
    ensures m in s
    ensures forall y :: y in s ==> LessEq(m, y)
  {
    MinExists(s);
    assert forall a, b :: a in s && b in s && LessEq(a, b) && LessEq(b, a) ==> a == b by {
      forall a, b | a in s && b in s && LessEq(a, b) && LessEq(b, a) ensures a == b {
        LessEqAntisymmetric(a, b);
      }
    }
    var m :| m in s && forall y :: y in s ==> LessEq(m, y);
    m
  }

  /** `sorted(s)` for a set of distinct strings, such as the keys of a dictionary. */
  function SortedSet(s: set<string>): (r: seq<string>)
    ensures StrictlySorted(r)
    ensures forall x :: x in r <==> x in s
    ensures |r| == |s|
    decreases |s|
  {
    if s == {} then []
    else
      var m := Min(s);
      var rest := SortedSet(s - {m});
      SortedCons(m, rest);
      [m] + rest
  }

  lemma SortedHeadLeast(s: seq<string>, y: string)
    requires Sorted(s) && y in s
    ensures LessEq(s[0], y)
  {
    if y == s[0] {
      LessEqReflexive(y);
    } else {
      var j :| 0 < j < |s| && s[j] == y;
    }
  }

  lemma MultisetTail(s: seq<string>)
    requires s != []
    ensures multiset(s[1..]) == multiset(s) - multiset{s[0]}
  {
    assert s == [s[0]] + s[1..];
  }

  /**
   * A sorted sequence is determined by its multiset of elements, so any
   * sorting procedure agrees with Python's `sorted` on strings.
   */
  lemma {:induction false} SortedUnique(a: seq<string>, b: seq<string>)
    requires Sorted(a) && Sorted(b)
    requires multiset(a) == multiset(b)
    ensures a == b
    decreases |a|
  {
    assert |a| == |multiset(a)| == |multiset(b)| == |b|;
    if a != [] {
      assert a[0] in multiset(b) && b[0] in multiset(a);
      SortedHeadLeast(b, a[0]);
      SortedHeadLeast(a, b[0]);
      LessEqAntisymmetric(a[0], b[0]);
      MultisetTail(a);
      MultisetTail(b);
      SortedUnique(a[1..], b[1..]);
      assert a == [a[0]] + a[1..] && b == [b[0]] + b[1..];
    }
  }

  /** Strictly sorted sequences with the same elements are equal. */
  lemma StrictlySortedUnique(a: seq<string>, b: seq<string>)
    requires StrictlySorted(a) && StrictlySorted(b)
    requires forall x :: x in a <==> x in b
    ensures a == b
  {
    DistinctMultiset(a);
    DistinctMultiset(b);
    assert multiset(a) == multiset(b) by {
      forall x ensures multiset(a)[x] == multiset(b)[x] {
        if x in a { assert x in multiset(a) && x in multiset(b); }
      }
    }
    SortedUnique(a, b);
  }

  lemma {:induction false} DistinctMultiset(s: seq<string>)
    requires forall i, j :: 0 <= i < j < |s| ==> s[i] != s[j]
    ensures forall x :: multiset(s)[x] == if x in s then 1 else 0
    decreases |s|
  {
    if s != [] {
      DistinctMultiset(s[1..]);
      assert s == [s[0]] + s[1..];
      assert s[0] !in s[1..];
      forall x ensures multiset(s)[x] == if x in s then 1 else 0 {
        assert multiset(s) == multiset{s[0]} + multiset(s[1..]);
      }
    }
  }
}
