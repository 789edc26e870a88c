/** ASCII forms of the Python string operations the project relies on. */
module Text {
  import opened Prelude

  /** Characters str.strip() removes. */
  predicate Space(c: char) {
    c == ' ' || 9 <= c as int <= 13 || 28 <= c as int <= 31
  }

  /** Characters that end a line for str.splitlines(). */
  predicate Boundary(c: char) {
    10 <= c as int <= 13 || 28 <= c as int <= 30
  }

  const CR: char := '\r'
  const LF: char := '\n'

  function LowerChar(c: char): char {
    if 'A' <= c <= 'Z' then (c as int + 32) as char else c
  }

  /** lower() and casefold() agree on ASCII. */
  function Lower(s: string): (r: string)
    ensures |r| == |s|
  {
    seq(|s|, i requires 0 <= i < |s| => LowerChar(s[i]))
  }

  function Strip(s: string): (r: string)
    ensures forall c :: c in r ==> c in s
    ensures r != "" ==> !Space(r[0]) && !Space(r[|r| - 1])
    ensures s != "" && !Space(s[0]) && !Space(s[|s| - 1]) ==> r == s
    ensures |r| <= |s|
  {
    if s == "" then ""
    else if Space(s[0]) then Strip(s[1..])
    else if Space(s[|s| - 1]) then Strip(s[..|s| - 1])
    else s
  }

  /** Index of the first character c, or the length when there is none. */
  function Find(s: string, c: char): (k: nat)
    ensures k <= |s|
    ensures c !in s[..k]
    ensures forall i :: 0 <= i < k ==> s[i] != c
    ensures k < |s| ==> s[k] == c
  {
    if s == "" || s[0] == c then 0
    else
      var k := Find(s[1..], c);
      assert s[..k + 1] == [s[0]] + s[1..][..k];
      k + 1
  }

  /** s.split(c, 1)[0] */
  function Before(s: string, c: char): (r: string)
    ensures c !in r
    ensures forall x :: x in r ==> x in s
    ensures c !in s ==> r == s
  {
    s[..Find(s, c)]
  }

  function LineEnd(s: string): (k: nat)
    ensures k <= |s|
    ensures forall i :: 0 <= i < k ==> !Boundary(s[i])
    ensures k < |s| ==> Boundary(s[k])
  {
    if s == "" || Boundary(s[0]) then 0 else LineEnd(s[1..]) + 1
  }

  /** str.splitlines(): a carriage return and the line feed after it end one line. */
  function SplitLines(s: string): (r: seq<string>)
    ensures forall l :: l in r ==> forall c :: c in l ==> !Boundary(c)
    decreases |s|
  {
    if s == "" then []
    else
      var k := LineEnd(s);
      if k == |s| then [s]
      else
        var next := if s[k] == CR && k + 1 < |s| && s[k + 1] == LF then k + 2 else k + 1;
        [s[..k]] + SplitLines(s[next..])
  }

  /** "\n".join(lines) + "\n", for one or more lines. */
  function Unlines(lines: seq<string>): string {
    if lines == [] then "" else lines[0] + [LF] + Unlines(lines[1..])
  }

  predicate OneLine(s: string) {
    forall c :: c in s ==> !Boundary(c)
  }

  lemma Sliced(a: string, c: char, b: string)
    ensures
      var s := a + [c] + b;
      && |s| == |a| + 1 + |b| && s[|a|] == c
      && s[..|a|] == a && s[|a| + 1..] == b
      && (forall i :: 0 <= i < |a| ==> s[i] == a[i])
  {
  }

  lemma FirstBoundary(line: string, rest: string)
    requires OneLine(line)
    ensures LineEnd(line + [LF] + rest) == |line|
  {
    var s := line + [LF] + rest;
    Sliced(line, LF, rest);
    forall i | 0 <= i < |line| ensures !Boundary(s[i]) {
      assert line[i] in line;
    }
  }

  lemma SplitFirst(line: string, rest: string)
    requires OneLine(line)
    ensures SplitLines(line + [LF] + rest) == [line] + SplitLines(rest)
  {
    Sliced(line, LF, rest);
    FirstBoundary(line, rest);
  }

  /** Splitting undoes joining. */
  lemma {:induction false} SplitJoined(lines: seq<string>)
    requires forall l :: l in lines ==> OneLine(l)
    ensures SplitLines(Unlines(lines)) == lines
  {
    if lines != [] {
      SplitFirst(lines[0], Unlines(lines[1..]));
      SplitJoined(lines[1..]);
    }
  }

  /** s.split(c) for one separator character: one more piece than there are separators. */
  function Split(s: string, c: char): (r: seq<string>)
    ensures |r| >= 1
    ensures forall p :: p in r ==> c !in p && forall x :: x in p ==> x in s
    ensures c !in s ==> r == [s]
    decreases |s|
  {
    var k := Find(s, c);
    if k == |s| then [s] else [s[..k]] + Split(s[k + 1..], c)
  }

  /** c.join(pieces) */
  function Join(pieces: seq<string>, c: char): string {
    if pieces == [] then ""
    else if |pieces| == 1 then pieces[0]
    else pieces[0] + [c] + Join(pieces[1..], c)
  }

  lemma FindIn(first: string, c: char, rest: string)
    requires c !in first
    ensures Find(first + [c] + rest, c) == |first|
  {
    Sliced(first, c, rest);
    assert forall i :: 0 <= i < |first| ==> first[i] in first;
  }

  lemma SplitOne(first: string, c: char, rest: string)
    requires c !in first
    ensures Split(first + [c] + rest, c) == [first] + Split(rest, c)
  {
    FindIn(first, c, rest);
    Sliced(first, c, rest);
  }

  /** Splitting undoes joining on one or more pieces without the separator. */
  lemma {:induction false} SplitJoin(pieces: seq<string>, c: char)
    requires pieces != [] && forall p :: p in pieces ==> c !in p
    ensures Split(Join(pieces, c), c) == pieces
  {
    if |pieces| > 1 {
      SplitOne(pieces[0], c, Join(pieces[1..], c));
      SplitJoin(pieces[1..], c);
      assert pieces == [pieces[0]] + pieces[1..];
    }
  }

  lemma JoinCons(first: string, c: char, rest: seq<string>)
    requires rest != []
    ensures Join([first] + rest, c) == first + [c] + Join(rest, c)
  {
    assert ([first] + rest)[1..] == rest;
  }

  lemma AtFind(s: string, c: char)
    ensures
      var k := Find(s, c);
      k < |s| ==> s == s[..k] + [c] + s[k + 1..]
  {
    if Find(s, c) < |s| {
      CutAt(s, Find(s, c));
    }
  }

  lemma CutAt(s: string, k: nat)
    requires k < |s|
    ensures s == s[..k] + [s[k]] + s[k + 1..]
  {
  }

  /** Joining undoes splitting. */
  lemma {:induction false} JoinSplit(s: string, c: char)
    ensures Join(Split(s, c), c) == s
    decreases |s|
  {
    var k := Find(s, c);
    if k < |s| {
      AtFind(s, c);
      JoinSplit(s[k + 1..], c);
      JoinCons(s[..k], c, Split(s[k + 1..], c));
    }
  }

  predicate RealPart(part: string) {
    part != "" && part != "."
  }

  /** The components of a POSIX path: what lies between slashes, without the empty ones and ".". */
  function PathParts(path: string): seq<string> {
    Filter(RealPart, Split(path, '/'))
  }

  /** The path PurePosixPath prints: its components joined, or "." when there are none. */
  function PosixPath(path: string): string {
    if PathParts(path) == [] then "." else Join(PathParts(path), '/')
  }

  /** Printing a path keeps its components. */
  lemma PartsOfPosix(path: string)
    ensures PathParts(PosixPath(path)) == PathParts(path)
  {
    var parts := PathParts(path);
    if parts == [] {
      assert PosixPath(path) == ".";
      assert Split(".", '/') == ["."];
      assert Filter(RealPart, ["."]) == [];
    } else {
      SplitJoin(parts, '/');
      FilterWhole(RealPart, parts);
      FilterFixed(RealPart, parts);
    }
  }

  lemma {:induction false} JoinLength(pieces: seq<string>, c: char)
    ensures |Join(Filter(RealPart, pieces), c)| <= |Join(pieces, c)|
  {
    if pieces != [] {
      JoinLength(pieces[1..], c);
    }
  }

  /** Printing a path never makes it longer. */
  lemma PosixShorter(path: string)
    requires path != ""
    ensures |PosixPath(path)| <= |path|
  {
    JoinLength(Split(path, '/'), '/');
    JoinSplit(path, '/');
  }
}
