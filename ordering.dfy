/**
 * Python's ordering of str values (code point by code point, a proper prefix first) and
 * sorted() on a list of strings, written as an insertion sort.
 */
module Ordering {

  /** a <= b on Python strings. */
  predicate Le(a: string, b: string): (r: bool)
    ensures a <= b ==> r
    decreases |a|
  {
    a == [] || (b != [] && (a[0] < b[0] || (a[0] == b[0] && Le(a[1..], b[1..]))))
  }

  lemma {:induction false} LeReflexive(a: string)
    ensures Le(a, a)
    decreases |a|
  {
    if a != [] { LeReflexive(a[1..]); }
  }

  lemma {:induction false} LeTotal(a: string, b: string)
    ensures Le(a, b) || Le(b, a)
    decreases |a|
  {
    if a != [] && b != [] && a[0] == b[0] { LeTotal(a[1..], b[1..]); }
  }

  lemma {:induction false} LeAntisymmetric(a: string, b: string)
    requires Le(a, b) && Le(b, a)
    ensures a == b
    decreases |a|
  {
    if a != [] {
      LeAntisymmetric(a[1..], b[1..]);
      assert a == [a[0]] + a[1..] && b == [b[0]] + b[1..];
    }
  }

  lemma {:induction false} LeTransitive(a: string, b: string, c: string)
    requires Le(a, b) && Le(b, c)
    ensures Le(a, c)
    decreases |a|
  {
    if a != [] && a[0] == b[0] && b[0] == c[0] { LeTransitive(a[1..], b[1..], c[1..]); }
  }

  /** Every earlier element is at most every later one. */
  predicate Sorted(s: seq<string>)
  {
    forall i, j :: 0 <= i < j < |s| ==> Le(s[i], s[j])
  }

  /** y is at most every element of s. */
  predicate Below(y: string, s: seq<string>)
  {
    forall j :: 0 <= j < |s| ==> Le(y, s[j])
  }

  lemma SortedCons(y: string, s: seq<string>)
    requires Sorted(s) && Below(y, s)
    ensures Sorted([y] + s)
  {
    var r := [y] + s;
    forall i, j | 0 <= i < j < |r| ensures Le(r[i], r[j]) {
      if i > 0 { assert r[i] == s[i - 1] && r[j] == s[j - 1]; }
      else { assert r[j] == s[j - 1]; }
    }
  }

  lemma SortedTail(s: seq<string>)
    requires Sorted(s) && s != []
    ensures Sorted(s[1..]) && Below(s[0], s[1..])
  {
    assert forall j :: 0 <= j < |s[1..]| ==> s[1..][j] == s[j + 1];
  }

  lemma BelowTransitive(x: string, y: string, s: seq<string>)
    requires Le(x, y) && Below(y, s)
    ensures Below(x, s)
  {
    forall j | 0 <= j < |s| ensures Le(x, s[j]) { LeTransitive(x, y, s[j]); }
  }

  /** A lower bound of s and of x is a lower bound of every arrangement of s plus x. */
  lemma BelowArrangement(y: string, s: seq<string>, x: string, t: seq<string>)
    requires Below(y, s) && Le(y, x)
    requires multiset(t) == multiset(s) + multiset{x}
    ensures Below(y, t)
  {
    forall j | 0 <= j < |t| ensures Le(y, t[j]) {
      assert t[j] in multiset(t);
      if t[j] != x {
        assert t[j] in multiset(s);
        var k :| 0 <= k < |s| && s[k] == t[j];
      }
    }
  }

  /** Insertion of x before the first element that is not smaller than it. */
  function Insert(x: string, s: seq<string>): (r: seq<string>)
    requires Sorted(s)
    ensures Sorted(r)
    ensures multiset(r) == multiset(s) + multiset{x}
  {
    if s == [] then [x]
    else
      SortedTail(s);
      assert s == [s[0]] + s[1..];
      if Le(x, s[0]) then
        LeReflexive(s[0]);
        assert Below(s[0], s);
        BelowTransitive(x, s[0], s);
        SortedCons(x, s);
        [x] + s
      else
        LeTotal(x, s[0]);
        var t := Insert(x, s[1..]);
        BelowArrangement(s[0], s[1..], x, t);
        SortedCons(s[0], t);
        [s[0]] + t
  }

  /** sorted(s). */
  function Sort(s: seq<string>): (r: seq<string>)
    ensures Sorted(r)
    ensures multiset(r) == multiset(s)
    ensures |r| == |s|
  {
    if s == [] then []
    else
      assert s == [s[0]] + s[1..];
      var r := Insert(s[0], Sort(s[1..]));
      assert |r| == |multiset(r)|;
      r
  }

  /** The first element of a sorted sequence is at most every element. */
  lemma SortedHeadLe(a: seq<string>, x: string)
    requires Sorted(a) && x in multiset(a)
    ensures Le(a[0], x)
  {
    var i :| 0 <= i < |a| && a[i] == x;
    if i == 0 { LeReflexive(x); }
  }

  lemma SameTails(a: seq<string>, b: seq<string>)
    requires a != [] && b != [] && a[0] == b[0] && multiset(a) == multiset(b)
    ensures multiset(a[1..]) == multiset(b[1..])
  {
    assert a == [a[0]] + a[1..] && b == [b[0]] + b[1..];
    assert multiset(a[1..]) == multiset(a) - multiset{a[0]};
    assert multiset(b[1..]) == multiset(b) - multiset{b[0]};
  }

  /** Any sorted arrangement of a multiset is the same sequence: the sorted order is unique. */
  lemma {:induction false} SortedUnique(a: seq<string>, b: seq<string>)
    requires Sorted(a) && Sorted(b)
    requires multiset(a) == multiset(b)
    ensures a == b
    decreases |a|
  {
    assert |a| == |multiset(a)| == |multiset(b)| == |b|;
    if a != [] {
      SortedHeadLe(a, b[0]);
      SortedHeadLe(b, a[0]);
      LeAntisymmetric(a[0], b[0]);
      SameTails(a, b);
      SortedTail(a);
      SortedTail(b);
      SortedUnique(a[1..], b[1..]);
      assert a == [a[0]] + a[1..] && b == [b[0]] + b[1..];
    }
  }
}
