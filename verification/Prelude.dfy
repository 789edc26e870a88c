/** Option and a few sequence helpers used throughout the project. */
module Prelude {

  datatype Option<+T> = None | Some(value: T) {

    /** Python's `value or default`, where None is the only falsy value of interest. */
    function GetOr(default: T): T {
      if Some? then value else default
    }
  }

  /** None for a missing or empty string, the falsy ones. */
  function Truthy(x: Option<string>): Option<string> {
    if x == Some("") then None else x
  }

  /** `a or b`: the first when it is a non-empty string, else the second as it is. */
  function Or(a: Option<string>, b: Option<string>): Option<string> {
    if Truthy(a).Some? then a else b
  }

  /** f over every element, in order. */
  function Map<T, U>(f: T -> U, s: seq<T>): (r: seq<U>)
    ensures |r| == |s|
    ensures forall i :: 0 <= i < |s| ==> r[i] == f(s[i])
  {
    seq(|s|, i requires 0 <= i < |s| => f(s[i]))
  }

  datatype Result<+T, +E> = Ok(value: T) | Err(error: E)

  function Filter<T(!new)>(keep: T -> bool, s: seq<T>): (r: seq<T>)
    ensures forall x :: x in r <==> x in s && keep(x)
    ensures |r| <= |s|
  {
    if s == [] then []
    else if keep(s[0]) then [s[0]] + Filter(keep, s[1..])
    else Filter(keep, s[1..])
  }

  lemma {:induction false} FilterAppend<T(!new)>(keep: T -> bool, s: seq<T>, x: T)
    ensures Filter(keep, s + [x]) == Filter(keep, s) + (if keep(x) then [x] else [])
  {
    if s == [] {
      assert s + [x] == [x];
    } else {
      assert (s + [x])[1..] == s[1..] + [x];
      FilterAppend(keep, s[1..], x);
    }
  }

  lemma FilterEmpty<T(!new)>(keep: T -> bool, s: seq<T>)
    ensures Filter(keep, s) == [] <==> forall x :: x in s ==> !keep(x)
  {
    var r := Filter(keep, s);
    if r != [] {
      assert r[0] in r;
    } else {
      forall x | x in s ensures !keep(x) {
        assert x !in r;
      }
    }
  }

  lemma {:induction false} FilterWhole<T(!new)>(keep: T -> bool, s: seq<T>)
    ensures |Filter(keep, s)| == |s| <==> forall x :: x in s ==> keep(x)
  {
    if s != [] {
      FilterWhole(keep, s[1..]);
      assert forall x :: x in s <==> x == s[0] || x in s[1..];
    }
  }

  ghost predicate Distinct<T>(s: seq<T>) {
    forall i, j :: 0 <= i < j < |s| ==> s[i] != s[j]
  }

  lemma {:induction false} FilterFixed<T(!new)>(keep: T -> bool, s: seq<T>)
    requires forall x :: x in s ==> keep(x)
    ensures Filter(keep, s) == s
  {
    if s != [] {
      FilterFixed(keep, s[1..]);
    }
  }

  lemma Pick<T>(s: set<T>) returns (x: T)
    requires s != {}
    ensures x in s
  {
    x :| x in s;
  }

  lemma DistinctAppend<T>(s: seq<T>, x: T)
    ensures Distinct(s + [x]) <==> Distinct(s) && x !in s
  {
    var r := s + [x];
    assert forall i :: 0 <= i < |s| ==> r[i] == s[i];
    assert r[|s|] == x;
    if Distinct(r) {
      assert forall i :: 0 <= i < |s| ==> r[i] != r[|s|];
    }
  }

  function ToSet<T(==)>(s: seq<T>): (r: set<T>) {
    set x | x in s
  }

  /** Keep the first occurrence of each element, as Python's list(dict.fromkeys(s)). */
  function Dedupe<T(==,!new)>(s: seq<T>): (r: seq<T>)
    ensures forall x :: x in r <==> x in s
    ensures Distinct(r)
    ensures r == [] <==> s == []
  {
    if s == [] then []
    else
      var last := s[|s| - 1];
      var rest := Dedupe(s[..|s| - 1]);
      if last in rest then rest else rest + [last]
  }

  ghost predicate AllUpTo<T>(s: seq<T>, good: T -> bool, n: nat)
    requires n < |s|
  {
    forall i :: 0 <= i <= n ==> good(s[i])
  }

  /** What holds first, and of each element when it holds of all before it, holds of all. */
  lemma {:induction false} HoldsThroughout<T>(s: seq<T>, good: T -> bool, n: nat)
    requires n < |s| && good(s[0])
    requires forall k :: 0 <= k < n && AllUpTo(s, good, k) ==> good(s[k + 1])
    ensures AllUpTo(s, good, n)
  {
    if n > 0 {
      HoldsThroughout(s, good, n - 1);
      assert AllUpTo(s, good, n - 1);
    }
  }
}
