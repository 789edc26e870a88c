/** Python's sorted(set): the elements of a set in increasing order. */
module Sorting {
  import opened Prelude

  ghost predicate StrictTotal<T(!new)>(less: (T, T) -> bool) {
    && (forall x :: !less(x, x))
    && (forall x, y :: less(x, y) || less(y, x) || x == y)
    && (forall x, y, z :: less(x, y) && less(y, z) ==> less(x, z))
  }

  predicate Increasing<T>(less: (T, T) -> bool, s: seq<T>) {
    forall i, j :: 0 <= i < j < |s| ==> less(s[i], s[j])
  }

  predicate IsLeast<T(==,!new)>(less: (T, T) -> bool, s: set<T>, m: T) {
    m in s && forall x :: x in s ==> x == m || less(m, x)
  }

  lemma {:induction false} LeastExists<T(!new)>(less: (T, T) -> bool, s: set<T>) returns (m: T)
    requires StrictTotal(less) && s != {}
    ensures IsLeast(less, s, m)
    decreases |s|
  {
    var x := Pick(s);
    if s - {x} == {} {
      assert s == {x};
      m := x;
    } else {
      var k := LeastExists(less, s - {x});
      m := if less(k, x) then k else x;
      forall y | y in s ensures y == m || less(m, y) {
        assert y == x || y in s - {x};
      }
    }
  }

  function Least<T(==,!new)>(less: (T, T) -> bool, s: set<T>): (m: T)
    requires StrictTotal(less) && s != {}
    ensures IsLeast(less, s, m)
  {
    assert exists m :: IsLeast(less, s, m) by {
      var m := LeastExists(less, s);
    }
    var m :| IsLeast(less, s, m);
    m
  }

  function Sorted<T(==,!new)>(less: (T, T) -> bool, s: set<T>): (r: seq<T>)
    requires StrictTotal(less)
    ensures ToSet(r) == s
    ensures Increasing(less, r)
    decreases |s|
  {
    if s == {} then []
    else
      var m := Least(less, s);
      var rest := Sorted(less, s - {m});
      SortedStep(less, s, m, rest);
      [m] + rest
  }

  lemma SortedStep<T(!new)>(less: (T, T) -> bool, s: set<T>, m: T, rest: seq<T>)
    requires IsLeast(less, s, m)
    requires ToSet(rest) == s - {m} && Increasing(less, rest)
    ensures ToSet([m] + rest) == s && Increasing(less, [m] + rest)
  {
    var r := [m] + rest;
    forall x ensures x in ToSet(r) <==> x in s {
      assert x in r <==> x == m || x in rest;
      assert x in rest <==> x in ToSet(rest);
    }
    forall j | 0 <= j < |rest| ensures less(m, rest[j]) {
      assert rest[j] in ToSet(rest);
    }
  }

  lemma EmptyList<T>(s: seq<T>)
    ensures ToSet(s) == {} <==> s == []
  {
    if s != [] {
      assert s[0] in ToSet(s);
    }
  }

  lemma FirstIsLeast<T(!new)>(less: (T, T) -> bool, s: seq<T>)
    requires StrictTotal(less) && Increasing(less, s) && s != []
    ensures IsLeast(less, ToSet(s), s[0])
    ensures ToSet(s[1..]) == ToSet(s) - {s[0]}
  {
    forall x ensures x in s[1..] <==> x in s && x != s[0] {
      if x in s[1..] {
        var i :| 0 <= i < |s[1..]| && s[1..][i] == x;
        assert less(s[0], s[i + 1]);
      }
      assert x in s <==> x == s[0] || x in s[1..];
    }
  }

  /** Two increasing lists with the same elements are the same list. */
  lemma {:induction false} IncreasingUnique<T(!new)>(less: (T, T) -> bool, a: seq<T>, b: seq<T>)
    requires StrictTotal(less) && Increasing(less, a) && Increasing(less, b)
    requires ToSet(a) == ToSet(b)
    ensures a == b
  {
    EmptyList(a);
    EmptyList(b);
    if a != [] {
      FirstIsLeast(less, a);
      FirstIsLeast(less, b);
      assert a[0] == b[0];
      IncreasingUnique(less, a[1..], b[1..]);
      assert a == [a[0]] + a[1..] && b == [b[0]] + b[1..];
    }
  }

  /** sorted(set(s)) == s holds exactly for increasing lists. */
  lemma SortedIffIncreasing<T(!new)>(less: (T, T) -> bool, s: seq<T>)
    requires StrictTotal(less)
    ensures Sorted(less, ToSet(s)) == s <==> Increasing(less, s)
  {
    if Increasing(less, s) {
      IncreasingUnique(less, Sorted(less, ToSet(s)), s);
    }
  }

  predicate IntLess(x: int, y: int) {
    x < y
  }

  lemma IntOrder()
    ensures StrictTotal(IntLess)
  {
  }

  /** Strings compare character by character, a prefix before its extensions. */
  predicate StringLess(a: string, b: string) {
    if b == "" then false
    else if a == "" then true
    else a[0] < b[0] || (a[0] == b[0] && StringLess(a[1..], b[1..]))
  }

  lemma {:induction false} StringLessTotal(a: string, b: string)
    ensures StringLess(a, b) || StringLess(b, a) || a == b
    ensures !StringLess(a, a)
  {
    if a != "" {
      StringLessTotal(a[1..], if b == "" then "" else b[1..]);
      if b != "" && a[0] == b[0] && a[1..] == b[1..] {
        assert a == [a[0]] + a[1..] && b == [b[0]] + b[1..];
      }
    }
  }

  lemma {:induction false} StringLessTransitive(a: string, b: string, c: string)
    requires StringLess(a, b) && StringLess(b, c)
    ensures StringLess(a, c)
  {
    if a != "" && a[0] == b[0] == c[0] {
      StringLessTransitive(a[1..], b[1..], c[1..]);
    }
  }

  lemma StringOrder()
    ensures StrictTotal(StringLess)
  {
    forall x: string, y: string ensures StringLess(x, y) || StringLess(y, x) || x == y {
      StringLessTotal(x, y);
    }
    forall x: string ensures !StringLess(x, x) {
      StringLessTotal(x, x);
    }
    forall x: string, y: string, z: string | StringLess(x, y) && StringLess(y, z) ensures StringLess(x, z) {
      StringLessTransitive(x, y, z);
    }
  }
}
