/** Lists gathered from pairs of elements, and why their contents do not depend on the order of the elements. */
module PairLists {

  /** What x gives against every element of a list. */
  function Against<T(!new), F>(f: (T, T) -> seq<F>, x: T, others: seq<T>): seq<F> {
    if others == [] then []
    else Against(f, x, others[..|others| - 1]) + f(x, others[|others| - 1])
  }

  /** Every element against the elements after it. */
  function Pairs<T(!new), F>(f: (T, T) -> seq<F>, items: seq<T>): seq<F> {
    if items == [] then []
    else Against(f, items[0], items[1..]) + Pairs(f, items[1..])
  }

  /** Every element of one list against every element of another. */
  function Cross<T(!new), F>(f: (T, T) -> seq<F>, lefts: seq<T>, rights: seq<T>): seq<F> {
    if lefts == [] then []
    else Cross(f, lefts[..|lefts| - 1], rights) + Against(f, lefts[|lefts| - 1], rights)
  }

  // ---------------------------------------------------------------- the loops

  method AgainstLoop<T(!new), F>(f: (T, T) -> seq<F>, x: T, others: seq<T>, before: seq<F>) returns (found: seq<F>)
    ensures found == before + Against(f, x, others)
  {
    found := before;
    var i := 0;
    while i < |others|
      invariant 0 <= i <= |others|
      invariant found == before + Against(f, x, others[..i])
    {
      assert others[..i + 1][..i] == others[..i];
      found := found + f(x, others[i]);
      i := i + 1;
    }
    assert others[..|others|] == others;
  }

  lemma PairsFrom<T(!new), F>(f: (T, T) -> seq<F>, items: seq<T>, i: nat)
    requires i < |items|
    ensures Pairs(f, items[i..]) == Against(f, items[i], items[i + 1..]) + Pairs(f, items[i + 1..])
  {
    assert items[i..][1..] == items[i + 1..];
  }

  method PairsLoop<T(!new), F>(f: (T, T) -> seq<F>, items: seq<T>) returns (found: seq<F>)
    ensures found == Pairs(f, items)
  {
    found := [];
    var i := 0;
    while i < |items|
      invariant 0 <= i <= |items|
      invariant found + Pairs(f, items[i..]) == Pairs(f, items)
    {
      PairsFrom(f, items, i);
      found := AgainstLoop(f, items[i], items[i + 1..], found);
      i := i + 1;
    }
  }

  method CrossLoop<T(!new), F>(f: (T, T) -> seq<F>, lefts: seq<T>, rights: seq<T>, before: seq<F>) returns (found: seq<F>)
    ensures found == before + Cross(f, lefts, rights)
  {
    found := before;
    var i := 0;
    while i < |lefts|
      invariant 0 <= i <= |lefts|
      invariant found == before + Cross(f, lefts[..i], rights)
    {
      assert lefts[..i + 1][..i] == lefts[..i];
      found := AgainstLoop(f, lefts[i], rights, found);
      i := i + 1;
    }
    assert lefts[..|lefts|] == lefts;
  }

  // ---------------------------------------------------------------- where an entry comes from

  lemma {:induction false} AgainstOrigin<T(!new), F>(f: (T, T) -> seq<F>, x: T, others: seq<T>, e: F)
    ensures e in Against(f, x, others) <==> exists j :: 0 <= j < |others| && e in f(x, others[j])
  {
    if others != [] {
      var init := others[..|others| - 1];
      AgainstOrigin(f, x, init, e);
      assert forall j :: 0 <= j < |init| ==> others[j] == init[j];
    }
  }

  /** The entry comes from two elements at different places of the list. */
  ghost predicate FromPair<T(!new), F>(f: (T, T) -> seq<F>, items: seq<T>, e: F) {
    exists i, j :: 0 <= i < j < |items| && e in f(items[i], items[j])
  }

  ghost predicate FromBoth<T(!new), F>(f: (T, T) -> seq<F>, lefts: seq<T>, rights: seq<T>, e: F) {
    exists i, j :: 0 <= i < |lefts| && 0 <= j < |rights| && e in f(lefts[i], rights[j])
  }

  lemma {:induction false} PairsOrigin<T(!new), F>(f: (T, T) -> seq<F>, items: seq<T>, e: F)
    ensures e in Pairs(f, items) <==> FromPair(f, items, e)
  {
    if items != [] {
      var rest := items[1..];
      AgainstOrigin(f, items[0], rest, e);
      PairsOrigin(f, rest, e);
      if FromPair(f, items, e) {
        var i, j :| 0 <= i < j < |items| && e in f(items[i], items[j]);
        assert items[j] == rest[j - 1];
        if i > 0 {
          assert items[i] == rest[i - 1];
        }
      }
      if FromPair(f, rest, e) {
        var i, j :| 0 <= i < j < |rest| && e in f(rest[i], rest[j]);
        assert items[i + 1] == rest[i] && items[j + 1] == rest[j];
      }
      if j :| 0 <= j < |rest| && e in f(items[0], rest[j]) {
        assert items[j + 1] == rest[j];
      }
    }
  }

  lemma FromBothLast<T(!new), F>(f: (T, T) -> seq<F>, lefts: seq<T>, rights: seq<T>, e: F)
    requires lefts != []
    ensures FromBoth(f, lefts, rights, e)
      <==> FromBoth(f, lefts[..|lefts| - 1], rights, e) || exists j :: 0 <= j < |rights| && e in f(lefts[|lefts| - 1], rights[j])
  {
    var init := lefts[..|lefts| - 1];
    if FromBoth(f, lefts, rights, e) {
      var i, j :| 0 <= i < |lefts| && 0 <= j < |rights| && e in f(lefts[i], rights[j]);
      if i < |init| {
        assert e in f(init[i], rights[j]);
      }
    }
    if FromBoth(f, init, rights, e) {
      var i, j :| 0 <= i < |init| && 0 <= j < |rights| && e in f(init[i], rights[j]);
      assert e in f(lefts[i], rights[j]);
    }
  }

  lemma {:induction false} CrossOrigin<T(!new), F>(f: (T, T) -> seq<F>, lefts: seq<T>, rights: seq<T>, e: F)
    ensures e in Cross(f, lefts, rights) <==> FromBoth(f, lefts, rights, e)
  {
    if lefts != [] {
      var init := lefts[..|lefts| - 1];
      CrossOrigin(f, init, rights, e);
      AgainstOrigin(f, lefts[|lefts| - 1], rights, e);
      FromBothLast(f, lefts, rights, e);
    }
  }

  // ---------------------------------------------------------------- order independence

  /** The bag of entries, each seen through shape, which may forget some of it. */
  ghost function Shapes<F, S>(shape: F -> S, es: seq<F>): (r: multiset<S>)
    ensures |r| == |es|
  {
    if es == [] then multiset{} else multiset{shape(es[0])} + Shapes(shape, es[1..])
  }

  lemma {:induction false} ShapesAppend<F, S>(shape: F -> S, a: seq<F>, b: seq<F>)
    ensures Shapes(shape, a + b) == Shapes(shape, a) + Shapes(shape, b)
  {
    if a == [] {
      assert a + b == b;
    } else {
      assert (a + b)[1..] == a[1..] + b;
      ShapesAppend(shape, a[1..], b);
    }
  }

  /** The two orders of a pair of elements of items give the same bag. */
  ghost predicate Symmetric<T(!new), F, S>(f: (T, T) -> seq<F>, shape: F -> S, items: seq<T>) {
    forall x, y :: x in items && y in items ==> Shapes(shape, f(x, y)) == Shapes(shape, f(y, x))
  }

  lemma {:induction false} AgainstSplit<T(!new), F, S>(f: (T, T) -> seq<F>, shape: F -> S, x: T, a: seq<T>, b: seq<T>)
    ensures Shapes(shape, Against(f, x, a + b)) == Shapes(shape, Against(f, x, a)) + Shapes(shape, Against(f, x, b))
  {
    if b == [] {
      assert a + b == a;
    } else {
      var last, init := b[|b| - 1], b[..|b| - 1];
      assert (a + b)[..|a + b| - 1] == a + init;
      AgainstSplit(f, shape, x, a, init);
      ShapesAppend(shape, Against(f, x, a + init), f(x, last));
      ShapesAppend(shape, Against(f, x, init), f(x, last));
    }
  }

  lemma {:induction false} CrossSplit<T(!new), F, S>(f: (T, T) -> seq<F>, shape: F -> S, a: seq<T>, b: seq<T>, r: seq<T>)
    ensures Shapes(shape, Cross(f, a + b, r)) == Shapes(shape, Cross(f, a, r)) + Shapes(shape, Cross(f, b, r))
  {
    if b == [] {
      assert a + b == a;
    } else {
      var last, init := b[|b| - 1], b[..|b| - 1];
      assert (a + b)[..|a + b| - 1] == a + init;
      CrossSplit(f, shape, a, init, r);
      ShapesAppend(shape, Cross(f, a + init, r), Against(f, last, r));
      ShapesAppend(shape, Cross(f, init, r), Against(f, last, r));
    }
  }

  /** s with its element i moved to the front. */
  ghost function Fronted<T>(s: seq<T>, i: nat): (r: seq<T>)
    requires i < |s|
    ensures multiset(r) == multiset(s)
  {
    assert s == s[..i] + [s[i]] + s[i + 1..];
    [s[i]] + (s[..i] + s[i + 1..])
  }

  /** The part before element i, the element, and the part after it. */
  lemma Cut<T>(s: seq<T>, i: nat) returns (a: seq<T>, b: seq<T>, c: seq<T>)
    requires i < |s|
    ensures s == a + (b + c) && Fronted(s, i) == b + (a + c)
  {
    a, b, c := s[..i], [s[i]], s[i + 1..];
  }

  /** Where the first element of s sits in a reordering of s. */
  lemma Matching<T>(s: seq<T>, t: seq<T>) returns (i: nat)
    requires s != [] && multiset(s) == multiset(t)
    ensures i < |t| && t[i] == s[0]
    ensures multiset(s[1..]) == multiset(Fronted(t, i)[1..])
  {
    assert s[0] in multiset(t);
    i :| 0 <= i < |t| && t[i] == s[0];
    TailBag(s);
    TailBag(Fronted(t, i));
  }

  lemma TailBag<T>(s: seq<T>)
    requires s != []
    ensures multiset(s[1..]) == multiset(s) - multiset{s[0]}
  {
    assert s == [s[0]] + s[1..];
  }

  lemma NoneReordered<T>(t: seq<T>)
    ensures multiset(t) == multiset{} <==> t == []
  {
    if t != [] {
      assert t[0] in multiset(t);
    }
  }

  lemma {:induction false} AgainstFronted<T(!new), F, S>(f: (T, T) -> seq<F>, shape: F -> S, x: T, s: seq<T>, i: nat)
    requires i < |s|
    ensures Shapes(shape, Against(f, x, s)) == Shapes(shape, Against(f, x, Fronted(s, i)))
  {
    var a, b, c := Cut(s, i);
    AgainstMoved(f, shape, x, a, b, c);
  }

  lemma AgainstMoved<T(!new), F, S>(f: (T, T) -> seq<F>, shape: F -> S, x: T, a: seq<T>, b: seq<T>, c: seq<T>)
    ensures Shapes(shape, Against(f, x, a + (b + c))) == Shapes(shape, Against(f, x, b + (a + c)))
  {
    AgainstSplit(f, shape, x, a, b + c);
    AgainstSplit(f, shape, x, b, c);
    AgainstSplit(f, shape, x, b, a + c);
    AgainstSplit(f, shape, x, a, c);
  }

  lemma {:induction false} AgainstReordered<T(!new), F, S>(f: (T, T) -> seq<F>, shape: F -> S, x: T, s: seq<T>, t: seq<T>)
    requires multiset(s) == multiset(t)
    ensures Shapes(shape, Against(f, x, s)) == Shapes(shape, Against(f, x, t))
  {
    if s == [] {
      NoneReordered(t);
    } else {
      var i := Matching(s, t);
      var u := Fronted(t, i)[1..];
      AgainstFronted(f, shape, x, t, i);
      AgainstReordered(f, shape, x, s[1..], u);
      assert s == [s[0]] + s[1..] && Fronted(t, i) == [s[0]] + u;
      AgainstSplit(f, shape, x, [s[0]], s[1..]);
      AgainstSplit(f, shape, x, [s[0]], u);
    }
  }

  lemma PairsCons<T(!new), F, S>(f: (T, T) -> seq<F>, shape: F -> S, a: T, s: seq<T>)
    ensures Shapes(shape, Pairs(f, [a] + s)) == Shapes(shape, Against(f, a, s)) + Shapes(shape, Pairs(f, s))
  {
    assert ([a] + s)[1..] == s;
    ShapesAppend(shape, Against(f, a, s), Pairs(f, s));
  }

  lemma AgainstOne<T(!new), F>(f: (T, T) -> seq<F>, x: T, y: T)
    ensures Against(f, x, [y]) == f(x, y)
  {
    assert [y][..0] == [];
    assert Against(f, x, []) == [];
  }

  lemma FirstTwoSwapped<T(!new), F, S>(f: (T, T) -> seq<F>, shape: F -> S, a: T, b: T, u: seq<T>)
    requires Shapes(shape, f(a, b)) == Shapes(shape, f(b, a))
    ensures Shapes(shape, Pairs(f, [a] + ([b] + u))) == Shapes(shape, Pairs(f, [b] + ([a] + u)))
  {
    PairsCons(f, shape, a, [b] + u);
    PairsCons(f, shape, b, u);
    PairsCons(f, shape, b, [a] + u);
    PairsCons(f, shape, a, u);
    AgainstSplit(f, shape, a, [b], u);
    AgainstSplit(f, shape, b, [a], u);
    AgainstOne(f, a, b);
    AgainstOne(f, b, a);
  }

  lemma FrontedTail<T>(s: seq<T>, i: nat)
    requires 0 < i < |s|
    ensures s[1..][i - 1] == s[i]
    ensures Fronted(s[1..], i - 1) == [s[i]] + (s[1..i] + s[i + 1..])
    ensures Fronted(s, i) == [s[i]] + ([s[0]] + (s[1..i] + s[i + 1..]))
    ensures s == [s[0]] + s[1..]
  {
    assert s[1..][..i - 1] == s[1..i];
    assert s[1..][i..] == s[i + 1..];
    assert s[..i] == [s[0]] + s[1..i];
  }

  lemma {:induction false} PairsFrontedStep<T(!new), F, S>(f: (T, T) -> seq<F>, shape: F -> S, s: seq<T>, i: nat)
    requires 0 < i < |s| && Shapes(shape, f(s[0], s[i])) == Shapes(shape, f(s[i], s[0]))
    requires Shapes(shape, Pairs(f, s[1..])) == Shapes(shape, Pairs(f, Fronted(s[1..], i - 1)))
    ensures Shapes(shape, Pairs(f, s)) == Shapes(shape, Pairs(f, Fronted(s, i)))
  {
    var a, b, u := s[0], s[i], s[1..i] + s[i + 1..];
    FrontedTail(s, i);
    PairsCons(f, shape, a, s[1..]);
    AgainstFronted(f, shape, a, s[1..], i - 1);
    PairsCons(f, shape, a, [b] + u);
    FirstTwoSwapped(f, shape, a, b, u);
  }

  lemma {:induction false} PairsFronted<T(!new), F, S>(f: (T, T) -> seq<F>, shape: F -> S, s: seq<T>, i: nat)
    requires i < |s| && Symmetric(f, shape, s)
    ensures Shapes(shape, Pairs(f, s)) == Shapes(shape, Pairs(f, Fronted(s, i)))
  {
    if i == 0 {
      assert Fronted(s, i) == s;
    } else {
      PairsFronted(f, shape, s[1..], i - 1);
      PairsFrontedStep(f, shape, s, i);
    }
  }

  lemma SymmetricReordered<T(!new), F, S>(f: (T, T) -> seq<F>, shape: F -> S, s: seq<T>, t: seq<T>)
    requires multiset(s) == multiset(t) && Symmetric(f, shape, s)
    ensures Symmetric(f, shape, t)
  {
    forall x | x in t ensures x in s {
      assert x in multiset(t);
    }
  }

  /** Reordering the list reorders what its pairs give, up to what shape forgets. */
  lemma {:induction false} PairsReordered<T(!new), F, S>(f: (T, T) -> seq<F>, shape: F -> S, s: seq<T>, t: seq<T>)
    requires multiset(s) == multiset(t) && Symmetric(f, shape, s)
    ensures Shapes(shape, Pairs(f, s)) == Shapes(shape, Pairs(f, t))
  {
    if s == [] {
      NoneReordered(t);
    } else {
      var i := Matching(s, t);
      var u := Fronted(t, i)[1..];
      SymmetricReordered(f, shape, s, t);
      PairsFronted(f, shape, t, i);
      PairsReordered(f, shape, s[1..], u);
      AgainstReordered(f, shape, s[0], s[1..], u);
      assert s == [s[0]] + s[1..] && Fronted(t, i) == [s[0]] + u;
      PairsCons(f, shape, s[0], s[1..]);
      PairsCons(f, shape, s[0], u);
    }
  }

  lemma CrossFronted<T(!new), F, S>(f: (T, T) -> seq<F>, shape: F -> S, s: seq<T>, i: nat, r: seq<T>)
    requires i < |s|
    ensures Shapes(shape, Cross(f, s, r)) == Shapes(shape, Cross(f, Fronted(s, i), r))
  {
    var a, b, c := Cut(s, i);
    CrossMoved(f, shape, a, b, c, r);
  }

  lemma CrossMoved<T(!new), F, S>(f: (T, T) -> seq<F>, shape: F -> S, a: seq<T>, b: seq<T>, c: seq<T>, r: seq<T>)
    ensures Shapes(shape, Cross(f, a + (b + c), r)) == Shapes(shape, Cross(f, b + (a + c), r))
  {
    CrossSplit(f, shape, a, b + c, r);
    CrossSplit(f, shape, b, c, r);
    CrossSplit(f, shape, b, a + c, r);
    CrossSplit(f, shape, a, c, r);
  }

  lemma {:induction false} CrossReorderedLeft<T(!new), F, S>(f: (T, T) -> seq<F>, shape: F -> S, s: seq<T>, t: seq<T>, r: seq<T>)
    requires multiset(s) == multiset(t)
    ensures Shapes(shape, Cross(f, s, r)) == Shapes(shape, Cross(f, t, r))
  {
    if s == [] {
      NoneReordered(t);
    } else {
      var i := Matching(s, t);
      var u := Fronted(t, i)[1..];
      CrossFronted(f, shape, t, i, r);
      CrossReorderedLeft(f, shape, s[1..], u, r);
      assert s == [s[0]] + s[1..] && Fronted(t, i) == [s[0]] + u;
      CrossSplit(f, shape, [s[0]], s[1..], r);
      CrossSplit(f, shape, [s[0]], u, r);
    }
  }

  lemma {:induction false} CrossReorderedRight<T(!new), F, S>(f: (T, T) -> seq<F>, shape: F -> S, lefts: seq<T>, r: seq<T>, q: seq<T>)
    requires multiset(r) == multiset(q)
    ensures Shapes(shape, Cross(f, lefts, r)) == Shapes(shape, Cross(f, lefts, q))
  {
    if lefts != [] {
      var init, last := lefts[..|lefts| - 1], lefts[|lefts| - 1];
      CrossReorderedRight(f, shape, init, r, q);
      AgainstReordered(f, shape, last, r, q);
      ShapesAppend(shape, Cross(f, init, r), Against(f, last, r));
      ShapesAppend(shape, Cross(f, init, q), Against(f, last, q));
    }
  }

  lemma CrossReordered<T(!new), F, S>(f: (T, T) -> seq<F>, shape: F -> S, s: seq<T>, t: seq<T>, r: seq<T>, q: seq<T>)
    requires multiset(s) == multiset(t) && multiset(r) == multiset(q)
    ensures Shapes(shape, Cross(f, s, r)) == Shapes(shape, Cross(f, t, q))
  {
    CrossReorderedLeft(f, shape, s, t, r);
    CrossReorderedRight(f, shape, t, r, q);
  }
}
