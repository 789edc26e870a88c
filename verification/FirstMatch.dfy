/** The first element of a list that a test picks out, and the verdict on it. */
module FirstMatch {
  import opened Prelude

  function Verdict<T, V>(named: T -> bool, check: T -> Option<V>, s: seq<T>): Option<V> {
    if s == [] then None
    else if named(s[0]) then check(s[0])
    else Verdict(named, check, s[1..])
  }

  /** The first picked element lies before index root and is refused. */
  ghost predicate RefusedBefore<T, V>(named: T -> bool, check: T -> Option<V>, s: seq<T>, root: nat)
    requires root <= |s|
  {
    exists i :: 0 <= i < root && named(s[i]) && check(s[i]).Some? && forall j :: 0 <= j < i ==> !named(s[j])
  }

  /** When element root is picked and accepted, only an earlier element can have the list refused. */
  lemma {:induction false} RefusedOnlyBefore<T, V>(named: T -> bool, check: T -> Option<V>, s: seq<T>, root: nat)
    requires root < |s| && named(s[root]) && check(s[root]).None?
    ensures Verdict(named, check, s).Some? <==> RefusedBefore(named, check, s, root)
  {
    if root > 0 && !named(s[0]) {
      RefusedOnlyBefore(named, check, s[1..], root - 1);
      if RefusedBefore(named, check, s, root) {
        var i :| 0 <= i < root && named(s[i]) && check(s[i]).Some? && forall j :: 0 <= j < i ==> !named(s[j]);
        assert s[1..][i - 1] == s[i];
        assert forall j :: 0 <= j < i - 1 ==> s[1..][j] == s[j + 1];
      }
      if RefusedBefore(named, check, s[1..], root - 1) {
        var i :| 0 <= i < root - 1 && named(s[1..][i]) && check(s[1..][i]).Some? && forall j :: 0 <= j < i ==> !named(s[1..][j]);
        assert s[i + 1] == s[1..][i];
        forall j | 0 <= j < i + 1 ensures !named(s[j]) {
          if j > 0 { assert s[j] == s[1..][j - 1]; }
        }
      }
    }
  }

  lemma SamePrefix<T, V>(named: T -> bool, check: T -> Option<V>, a: seq<T>, b: seq<T>, root: nat)
    requires root <= |a| && root <= |b| && forall i :: 0 <= i < root ==> a[i] == b[i]
    ensures RefusedBefore(named, check, a, root) <==> RefusedBefore(named, check, b, root)
  {
  }
}
