/** Which dirty paths of a repository may be committed (git_dirty_paths.py). */
module GitDirtyPaths {
  import opened Prelude
  import opened Text

  // ---------------------------------------------------------------- one path

  function Slashed(s: string): (r: string)
    ensures |r| == |s|
    ensures '\\' !in r
  {
    seq(|s|, i requires 0 <= i < |s| => if s[i] == '\\' then '/' else s[i])
  }

  function DropDots(s: string): (r: string)
    ensures !("./" <= r)
    ensures |r| <= |s|
    ensures !("./" <= s) ==> r == s
  {
    if "./" <= s then DropDots(s[2..]) else s
  }

  function StripSlashes(s: string): (r: string)
    ensures r != "" ==> r[0] != '/' && r[|r| - 1] != '/'
    ensures s != "" && s[0] != '/' && s[|s| - 1] != '/' ==> r == s
    ensures |r| <= |s|
  {
    if s == "" then ""
    else if s[0] == '/' then StripSlashes(s[1..])
    else if s[|s| - 1] == '/' then StripSlashes(s[..|s| - 1])
    else s
  }

  predicate Drive(s: string) {
    |s| >= 2 && ('A' <= s[0] <= 'Z' || 'a' <= s[0] <= 'z') && s[1] == ':'
  }

  predicate Forbidden(part: string) {
    part == ".." || Lower(part) == ".git"
  }

  predicate UnsafeRepositoryPath(path: string) {
    path == "" || exists part :: part in PathParts(path) && Forbidden(part)
  }

  predicate IsInfrastructureIgnored(path: string) {
    var parts := PathParts(path);
    && parts != []
    && (parts[|parts| - 1] == ".coverage" || exists part :: part in parts && part in {".venv", "__pycache__", ".pytest_cache"})
  }

  function Bare(path: string): string {
    StripSlashes(DropDots(Strip(Slashed(path))))
  }

  function NormalizedPath(path: string): Option<string> {
    var raw := Bare(path);
    if raw == "" || Drive(raw) || UnsafeRepositoryPath(PosixPath(raw)) then None else Some(PosixPath(raw))
  }

  method NormalizeRepositoryPath(path: string) returns (r: Option<string>)
    ensures r == NormalizedPath(path)
  {
    var raw := Strip(Slashed(path));
    ghost var start := raw;
    while "./" <= raw
      invariant DropDots(raw) == DropDots(start)
      decreases |raw|
    {
      raw := raw[2..];
    }
    raw := StripSlashes(raw);
    if raw == "" || Drive(raw) {
      return None;
    }
    var normalized := PosixPath(raw);
    return if UnsafeRepositoryPath(normalized) then None else Some(normalized);
  }

  /** A normalised path is its components joined: none is empty, ".", ".." or any spelling of .git. */
  lemma NormalizedShape(path: string)
    requires NormalizedPath(path).Some?
    ensures
      var n := NormalizedPath(path).value;
      && n == PosixPath(n)
      && PathParts(n) == PathParts(Bare(path))
      && (forall part :: part in PathParts(n) ==> RealPart(part) && !Forbidden(part))
  {
    PartsOfPosix(Bare(path));
  }

  /** A Latin letter and a colon. */
  predicate StartsWithDrive(s: string) {
    1 < |s| && s[1] == ':' && Letter(s[0])
  }

  predicate Letter(c: char) {
    'a' <= LowerChar(c) <= 'z'
  }

  /** A path is refused exactly when nothing is left of it, a drive letter leads, or a component is ".." or .git in any spelling. */
  lemma RefusedIff(path: string)
    ensures
      var raw := Bare(path);
      NormalizedPath(path).None? <==>
        raw == "" || StartsWithDrive(raw) || exists part :: part in PathParts(raw) && (part == ".." || Lower(part) == ".git")
  {
    PartsOfPosix(Bare(path));
    PosixNotEmpty(Bare(path));
    assert Drive(Bare(path)) <==> StartsWithDrive(Bare(path));
    assert forall part :: Forbidden(part) <==> part == ".." || Lower(part) == ".git";
  }

  lemma PosixNotEmpty(path: string)
    ensures PosixPath(path) != ""
  {
    var parts := PathParts(path);
    if parts != [] {
      assert parts[0] in parts;
      JoinStart(parts, '/');
    }
  }

  /** Component i is a virtual environment or a cache, or is the last one and a coverage file. */
  predicate InfrastructureAt(parts: seq<string>, i: nat)
    requires i < |parts|
  {
    parts[i] == ".venv" || parts[i] == "__pycache__" || parts[i] == ".pytest_cache" || (i + 1 == |parts| && parts[i] == ".coverage")
  }

  /** Infrastructure is what lies in a virtual environment or a cache, and a coverage file. */
  lemma InfrastructureIff(path: string)
    ensures IsInfrastructureIgnored(path) <==> exists i: nat :: i < |PathParts(path)| && InfrastructureAt(PathParts(path), i)
  {
    var parts := PathParts(path);
    if IsInfrastructureIgnored(path) {
      if parts[|parts| - 1] == ".coverage" {
        assert InfrastructureAt(parts, |parts| - 1);
      } else {
        var part :| part in parts && part in {".venv", "__pycache__", ".pytest_cache"};
        var i :| 0 <= i < |parts| && parts[i] == part;
        assert InfrastructureAt(parts, i);
      }
    }
    if i: nat :| i < |parts| && InfrastructureAt(parts, i) {
      assert parts[i] in parts;
    }
  }

  /** Equal components mean equal strings, so comparing normalised strings compares paths. */
  lemma NormalizedInjective(a: string, b: string)
    requires NormalizedPath(a).Some? && NormalizedPath(b).Some?
    ensures NormalizedPath(a) == NormalizedPath(b)
      <==> PathParts(NormalizedPath(a).value) == PathParts(NormalizedPath(b).value)
  {
    NormalizedShape(a);
    NormalizedShape(b);
  }

  lemma BareShorter(path: string)
    ensures |Bare(path)| <= |Strip(Slashed(path))| <= |path|
  {
  }

  lemma {:induction false} JoinedChars(pieces: seq<string>, sep: char, c: char)
    requires c != sep && forall p :: p in pieces ==> c !in p
    ensures c !in Join(pieces, sep)
  {
    if |pieces| > 1 {
      JoinedChars(pieces[1..], sep, c);
    }
  }

  lemma {:induction false} JoinStart(pieces: seq<string>, sep: char)
    requires pieces != [] && |pieces[0]| > 0
    ensures Join(pieces, sep) != "" && Join(pieces, sep)[0] == pieces[0][0]
  {
  }

  function LastOf(s: string): char
    requires s != ""
  {
    s[|s| - 1]
  }

  lemma {:induction false} JoinEnd(pieces: seq<string>, sep: char)
    requires pieces != [] && |pieces[|pieces| - 1]| > 0
    ensures Join(pieces, sep) != "" && LastOf(Join(pieces, sep)) == LastOf(pieces[|pieces| - 1])
  {
    if |pieces| > 1 {
      JoinEnd(pieces[1..], sep);
    }
  }

  /** No backslash can survive in a normalised path, and it neither starts with "./" nor touches a slash at either end. */
  lemma NormalizedEnds(path: string)
    requires NormalizedPath(path).Some?
    ensures
      var n := NormalizedPath(path).value;
      n != "" && n[0] != '/' && n[|n| - 1] != '/' && !("./" <= n) && Slashed(n) == n
  {
    NormalizedShape(path);
    var n := NormalizedPath(path).value;
    var parts := PathParts(n);
    NoBackslash(path);
    if parts != [] {
      assert parts[0] in parts && parts[|parts| - 1] in parts;
      JoinStart(parts, '/');
      JoinEnd(parts, '/');
      assert parts[0] in Split(n, '/') && parts[|parts| - 1] in Split(n, '/');
      if "./" <= n {
        DotHead(parts);
      }
    }
  }

  lemma DotHead(parts: seq<string>)
    requires parts != [] && forall p :: p in parts ==> RealPart(p) && '/' !in p
    ensures !("./" <= Join(parts, '/'))
  {
    var s := Join(parts, '/');
    assert parts[0] in parts;
    if |parts| == 1 {
      assert s == parts[0];
      assert |s| >= 2 ==> s[1] in s;
    } else if |parts[0]| == 1 {
      assert s[0] == parts[0][0];
      assert parts[0] == [parts[0][0]];
    } else {
      assert s[1] == parts[0][1] && parts[0][1] in parts[0];
    }
  }

  lemma NoBackslash(path: string)
    requires NormalizedPath(path).Some?
    ensures '\\' !in NormalizedPath(path).value
    ensures Slashed(NormalizedPath(path).value) == NormalizedPath(path).value
  {
    var n := NormalizedPath(path).value;
    BareChars(path);
    assert '\\' !in Bare(path);
    forall p | p in PathParts(Bare(path)) ensures '\\' !in p {
      assert p in Split(Bare(path), '/');
    }
    JoinedChars(PathParts(Bare(path)), '/', '\\');
    forall i | 0 <= i < |n| ensures Slashed(n)[i] == n[i] {
      assert n[i] in n;
    }
  }

  lemma {:induction false} DropDotsChars(s: string, c: char)
    requires c in DropDots(s)
    ensures c in s
    decreases |s|
  {
    if "./" <= s {
      DropDotsChars(s[2..], c);
    }
  }

  lemma {:induction false} StripSlashesChars(s: string, c: char)
    requires c in StripSlashes(s)
    ensures c in s
    decreases |s|
  {
    if s != "" {
      if s[0] == '/' {
        StripSlashesChars(s[1..], c);
      } else if s[|s| - 1] == '/' {
        StripSlashesChars(s[..|s| - 1], c);
      }
    }
  }

  lemma BareChars(path: string)
    ensures forall c :: c in Bare(path) ==> c in Slashed(path)
  {
    var s := Strip(Slashed(path));
    forall c | c in Bare(path) ensures c in Slashed(path) {
      StripSlashesChars(DropDots(s), c);
      DropDotsChars(s, c);
    }
  }

  lemma StripLonger(s: string)
    ensures Strip(s) != s ==> |Strip(s)| < |s|
  {
  }

  lemma NormalizedShorter(path: string)
    requires NormalizedPath(path).Some?
    ensures |NormalizedPath(path).value| <= |Strip(Slashed(path))|
  {
    BareShorter(path);
    PosixShorter(Bare(path));
  }

  lemma TrimmedAgain(path: string, n: string)
    requires NormalizedPath(path) == Some(n) && Strip(n) == n
    ensures NormalizedPath(n) == Some(n) <==> !Drive(n)
  {
    NormalizedEnds(path);
    assert Bare(n) == n;
    NormalizedShape(path);
  }

  lemma BlankAgain(path: string, n: string)
    requires NormalizedPath(path) == Some(n) && Strip(n) != n
    ensures NormalizedPath(n) != Some(n)
  {
    NormalizedEnds(path);
    StripLonger(n);
    if NormalizedPath(n).Some? {
      NormalizedShorter(n);
    }
  }

  /** Normalising again changes nothing exactly when no blank is left at an end and no drive letter came to the front. */
  lemma NormalizeAgain(path: string)
    requires NormalizedPath(path).Some?
    ensures
      var n := NormalizedPath(path).value;
      NormalizedPath(n) == Some(n) <==> Strip(n) == n && !Drive(n)
  {
    var n := NormalizedPath(path).value;
    if Strip(n) == n {
      TrimmedAgain(path, n);
    } else {
      BlankAgain(path, n);
    }
  }

  lemma Dotted(rest: string)
    ensures PathParts("." + ['/'] + rest) == PathParts(rest)
  {
    SplitOne(".", '/', rest);
    assert (["."] + Split(rest, '/'))[1..] == Split(rest, '/');
  }

  /** A safe path that starts with a drive letter, as PurePosixPath prints it. */
  predicate OnDrive(path: string) {
    Drive(path) && PosixPath(path) == path && !UnsafeRepositoryPath(path)
    && '\\' !in path && path[|path| - 1] != '/' && !Space(path[|path| - 1])
  }

  /** Nothing to strip at either end. */
  predicate Trimmed(s: string) {
    s != "" && '\\' !in s && s[0] != '/' && !Space(s[0]) && s[|s| - 1] != '/' && !Space(s[|s| - 1])
  }

  lemma SlashedFixed(s: string)
    requires '\\' !in s
    ensures Slashed(s) == s
  {
    assert forall i :: 0 <= i < |s| ==> s[i] in s;
  }

  lemma BareTrimmed(s: string)
    requires Trimmed(s) && !("./" <= s)
    ensures Bare(s) == s
  {
    SlashedFixed(s);
  }

  lemma BareSlashed(s: string)
    requires Trimmed(s)
    ensures Bare(['/'] + s) == s
  {
    var path := ['/'] + s;
    SlashedFixed(path);
    assert path[0] == '/' && path[|path| - 1] == s[|s| - 1] && path[1..] == s;
    assert Strip(path) == path && DropDots(path) == path;
    assert StripSlashes(path) == StripSlashes(s);
  }

  lemma OnDriveBare(path: string)
    requires OnDrive(path)
    ensures Bare(path) == path && Bare(['/'] + ("." + ['/'] + path)) == "." + ['/'] + path
  {
    BareTrimmed(path);
    var bare := "." + ['/'] + path;
    assert bare[0] == '.' && bare[|bare| - 1] == path[|path| - 1];
    BareSlashed(bare);
  }

  /** Every such path is refused, and accepted once "/./" hides the drive letter: normalised twice, it is refused after all. */
  lemma HiddenDrive(path: string)
    requires OnDrive(path)
    ensures NormalizedPath(path).None? && NormalizedPath(['/'] + ("." + ['/'] + path)) == Some(path)
  {
    OnDriveBare(path);
    Dotted(path);
    assert PosixPath("." + ['/'] + path) == PosixPath(path);
  }

  lemma DriveExists()
    ensures OnDrive("C:x")
  {
    SinglePart("C:x");
    assert Lower("C:x") != ".git";
  }

  /** A blank behind a slash is kept the first time and cut the second. */
  lemma HiddenBlank()
    ensures NormalizedPath("a /") == Some("a ") && NormalizedPath("a ") == Some("a")
  {
    var path := "a /";
    SlashedFixed(path);
    assert Strip(path) == path && DropDots(path) == path;
    assert StripSlashes(path) == StripSlashes(path[..2]) && path[..2] == "a ";
    SinglePart("a ");
    SlashedFixed("a ");
    assert "a "[..1] == "a";
    SinglePart("a");
  }

  lemma SinglePart(part: string)
    requires RealPart(part) && '/' !in part
    ensures PathParts(part) == [part] && PosixPath(part) == part
  {
    assert Split(part, '/') == [part];
    assert Filter(RealPart, [part]) == [part];
  }

  // ---------------------------------------------------------------- the file system, as answers it may give

  /** One path below a directory: where it resolves to, relative to the root, unless that is outside; and whether it is a file. */
  datatype Found = Found(resolved: Option<string>, isFile: bool)

  /** isDir answers is_dir(); walk gives what lies below a directory, None when it resolves outside the root or is none. */
  datatype World = World(isDir: string -> bool, walk: string -> Option<seq<Found>>)

  predicate Kept(e: Found) {
    e.resolved.Some? && e.isFile && !IsInfrastructureIgnored(e.resolved.value)
  }

  predicate Refused(e: Found) {
    e.resolved.None? || UnsafeRepositoryPath(e.resolved.value)
  }

  function KeptFiles(entries: seq<Found>): (r: set<string>)
    ensures forall f :: f in r <==> exists e :: e in entries && Kept(e) && e.resolved == Some(f)
  {
    set e | e in entries && Kept(e) :: e.resolved.value
  }

  /** None as soon as one entry leads outside the root or to an unsafe path; else the files that are not infrastructure. */
  function Gathered(entries: seq<Found>): (r: Option<set<string>>) {
    if exists e :: e in entries && Refused(e) then None else Some(KeptFiles(entries))
  }

  function Expanded(world: World, directory: string): (r: Option<set<string>>) {
    var normalized := NormalizedPath(directory);
    if normalized.None? || world.walk(normalized.value).None? then None
    else Gathered(world.walk(normalized.value).value)
  }

  lemma KeptOneMore(entries: seq<Found>, e: Found)
    ensures KeptFiles(entries + [e]) == KeptFiles(entries) + if Kept(e) then {e.resolved.value} else {}
  {
  }

  method Gather(entries: seq<Found>) returns (r: Option<set<string>>)
    ensures r == Gathered(entries)
  {
    var files: set<string> := {};
    var i := 0;
    while i < |entries|
      invariant 0 <= i <= |entries|
      invariant forall e :: e in entries[..i] ==> !Refused(e)
      invariant files == KeptFiles(entries[..i])
    {
      var e := entries[i];
      assert entries[..i + 1] == entries[..i] + [e];
      KeptOneMore(entries[..i], e);
      if Refused(e) {
        return None;
      }
      if Kept(e) {
        files := files + {e.resolved.value};
      }
      i := i + 1;
    }
    assert entries[..|entries|] == entries;
    return Some(files);
  }

  method ExpandDirectoryFiles(world: World, directory: string) returns (r: Option<set<string>>)
    ensures r == Expanded(world, directory)
  {
    var normalized := NormalizeRepositoryPath(directory);
    if normalized.None? {
      return None;
    }
    var entries := world.walk(normalized.value);
    if entries.None? {
      return None;
    }
    r := Gather(entries.value);
  }

  // ---------------------------------------------------------------- classification

  datatype Changes = Changes(staged: seq<string>, modified: seq<string>, deleted: seq<string>, untracked: seq<string>)

  datatype Classification = Classification(accepted: set<string>, ignored: set<string>, unrelated: set<string>)

  datatype Verdict = Accept(files: set<string>) | Ignore(path: string) | Unrelated(path: string)

  function AllowedPaths(allowlist: seq<string>): (r: set<string>)
    ensures forall n :: n in r <==> exists p :: p in allowlist && NormalizedPath(p) == Some(n)
  {
    set p | p in allowlist && NormalizedPath(p).Some? :: NormalizedPath(p).value
  }

  function JudgeTracked(allowed: set<string>, raw: string): Verdict {
    var changed := NormalizedPath(raw);
    if changed.None? then Unrelated(Slashed(raw))
    else if IsInfrastructureIgnored(changed.value) then Ignore(changed.value)
    else if changed.value in allowed then Accept({changed.value})
    else Unrelated(changed.value)
  }

  predicate DirectoryLike(world: World, raw: string, changed: string) {
    "/" == LastChar(Strip(Slashed(raw))) || world.isDir(changed)
  }

  function LastChar(s: string): string {
    if s == "" then "" else [s[|s| - 1]]
  }

  function JudgeUntracked(world: World, allowed: set<string>, path: string): Verdict {
    var raw := Strip(Slashed(path));
    var changed := NormalizedPath(raw);
    if changed.None? then Unrelated(Slashed(path))
    else if IsInfrastructureIgnored(changed.value) then Ignore(changed.value)
    else if changed.value in allowed then Accept({changed.value})
    else if DirectoryLike(world, path, changed.value)
            && Expanded(world, changed.value).Some? && Expanded(world, changed.value).value <= allowed
    then Accept(Expanded(world, changed.value).value)
    else Unrelated(changed.value)
  }

  lemma EndsWithSlash(text: string)
    ensures "/" == LastChar(text) <==> text != "" && text[|text| - 1] == '/'
  {
    if text != "" {
      assert LastChar(text)[0] == text[|text| - 1];
    }
  }

  lemma JudgedDirectory(world: World, allowed: set<string>, path: string, changed: string)
    requires NormalizedPath(Strip(Slashed(path))) == Some(changed) && !IsInfrastructureIgnored(changed) && changed !in allowed
    ensures JudgeUntracked(world, allowed, path)
      == if DirectoryLike(world, path, changed) && Expanded(world, changed).Some? && Expanded(world, changed).value <= allowed
         then Accept(Expanded(world, changed).value) else Unrelated(changed)
  {
  }

  /** An untracked path that is not allow-listed itself is accepted as a directory, written or being one, of allow-listed files. */
  lemma DirectoryAcceptedIff(world: World, allowed: set<string>, path: string, raw: string, changed: string)
    requires raw == Strip(Slashed(path)) && NormalizedPath(raw) == Some(changed)
    requires !IsInfrastructureIgnored(changed) && changed !in allowed
    ensures
      var files := Expanded(world, changed);
      var covered := ((raw != "" && raw[|raw| - 1] == '/') || world.isDir(changed)) && files.Some? && files.value <= allowed;
      JudgeUntracked(world, allowed, path) == if covered then Accept(files.value) else Unrelated(changed)
  {
    EndsWithSlash(raw);
    JudgedDirectory(world, allowed, path, changed);
  }

  function Add(c: Classification, v: Verdict): Classification {
    match v
    case Accept(files) => c.(accepted := c.accepted + files)
    case Ignore(path) => c.(ignored := c.ignored + {path})
    case Unrelated(path) => c.(unrelated := c.unrelated + {path})
  }

  function Collect(judge: string -> Verdict, paths: seq<string>, c: Classification): Classification {
    if paths == [] then c
    else Add(Collect(judge, paths[..|paths| - 1], c), judge(paths[|paths| - 1]))
  }

  method CollectLoop(judge: string -> Verdict, paths: seq<string>, before: Classification) returns (c: Classification)
    ensures c == Collect(judge, paths, before)
  {
    c := before;
    var i := 0;
    while i < |paths|
      invariant 0 <= i <= |paths|
      invariant c == Collect(judge, paths[..i], before)
    {
      assert paths[..i + 1][..i] == paths[..i];
      c := Add(c, judge(paths[i]));
      i := i + 1;
    }
    assert paths[..|paths|] == paths;
  }

  function Tracked(allowed: set<string>): string -> Verdict {
    (raw: string) => JudgeTracked(allowed, raw)
  }

  function Untracked(world: World, allowed: set<string>): string -> Verdict {
    (raw: string) => JudgeUntracked(world, allowed, raw)
  }

  function Classified(world: World, status: Changes, allowlist: seq<string>): Classification {
    var allowed := AllowedPaths(allowlist);
    var c := Collect(Tracked(allowed), status.staged, Classification({}, {}, {}));
    var d := Collect(Tracked(allowed), status.modified, c);
    var e := Collect(Tracked(allowed), status.deleted, d);
    Collect(Untracked(world, allowed), status.untracked, e)
  }

  method ClassifyDirtyPaths(world: World, status: Changes, allowlist: seq<string>) returns (c: Classification)
    ensures c == Classified(world, status, allowlist)
  {
    var allowed := AllowedPaths(allowlist);
    c := CollectLoop(Tracked(allowed), status.staged, Classification({}, {}, {}));
    c := CollectLoop(Tracked(allowed), status.modified, c);
    c := CollectLoop(Tracked(allowed), status.deleted, c);
    c := CollectLoop(Untracked(world, allowed), status.untracked, c);
  }

  ghost predicate Gives(judge: string -> Verdict, paths: seq<string>, v: Verdict) {
    exists p :: p in paths && v == judge(p)
  }

  ghost predicate Accepts(judge: string -> Verdict, paths: seq<string>, f: string) {
    exists v: Verdict :: v.Accept? && f in v.files && Gives(judge, paths, v)
  }

  lemma GivesLast(judge: string -> Verdict, paths: seq<string>, v: Verdict)
    requires paths != []
    ensures Gives(judge, paths, v) <==> Gives(judge, paths[..|paths| - 1], v) || v == judge(paths[|paths| - 1])
  {
    assert paths == paths[..|paths| - 1] + [paths[|paths| - 1]];
  }

  lemma AcceptsLast(judge: string -> Verdict, paths: seq<string>, f: string)
    requires paths != []
    ensures
      var v := judge(paths[|paths| - 1]);
      Accepts(judge, paths, f) <==> Accepts(judge, paths[..|paths| - 1], f) || (v.Accept? && f in v.files)
  {
    GivesLast(judge, paths, judge(paths[|paths| - 1]));
    if Accepts(judge, paths, f) {
      var v: Verdict :| v.Accept? && f in v.files && Gives(judge, paths, v);
      GivesLast(judge, paths, v);
    }
    if Accepts(judge, paths[..|paths| - 1], f) {
      var v: Verdict :| v.Accept? && f in v.files && Gives(judge, paths[..|paths| - 1], v);
      GivesLast(judge, paths, v);
    }
  }

  /** What a pass over some paths adds to the three sets, one path f at a time. */
  lemma {:induction false} Collected(judge: string -> Verdict, paths: seq<string>, c: Classification, f: string)
    ensures
      var r := Collect(judge, paths, c);
      && (f in r.accepted <==> f in c.accepted || Accepts(judge, paths, f))
      && (f in r.ignored <==> f in c.ignored || Gives(judge, paths, Ignore(f)))
      && (f in r.unrelated <==> f in c.unrelated || Gives(judge, paths, Unrelated(f)))
  {
    if paths != [] {
      Collected(judge, paths[..|paths| - 1], c, f);
      AcceptsLast(judge, paths, f);
      GivesLast(judge, paths, Ignore(f));
      GivesLast(judge, paths, Unrelated(f));
    }
  }

  /** Some reported path got this verdict. */
  ghost predicate Judged(world: World, status: Changes, allowed: set<string>, v: Verdict) {
    || Gives(Tracked(allowed), status.staged, v)
    || Gives(Tracked(allowed), status.modified, v)
    || Gives(Tracked(allowed), status.deleted, v)
    || Gives(Untracked(world, allowed), status.untracked, v)
  }

  ghost predicate AcceptedBySome(world: World, status: Changes, allowed: set<string>, f: string) {
    || Accepts(Tracked(allowed), status.staged, f)
    || Accepts(Tracked(allowed), status.modified, f)
    || Accepts(Tracked(allowed), status.deleted, f)
    || Accepts(Untracked(world, allowed), status.untracked, f)
  }

  /** The three sets hold what the verdicts say, and nothing else. */
  lemma ClassifiedMembers(world: World, status: Changes, allowlist: seq<string>, f: string)
    ensures
      var allowed := AllowedPaths(allowlist);
      var c := Classified(world, status, allowlist);
      && (f in c.accepted <==> AcceptedBySome(world, status, allowed, f))
      && (f in c.ignored <==> Judged(world, status, allowed, Ignore(f)))
      && (f in c.unrelated <==> Judged(world, status, allowed, Unrelated(f)))
  {
    var allowed := AllowedPaths(allowlist);
    var c := Collect(Tracked(allowed), status.staged, Classification({}, {}, {}));
    var d := Collect(Tracked(allowed), status.modified, c);
    var e := Collect(Tracked(allowed), status.deleted, d);
    Collected(Tracked(allowed), status.staged, Classification({}, {}, {}), f);
    Collected(Tracked(allowed), status.modified, c, f);
    Collected(Tracked(allowed), status.deleted, d, f);
    Collected(Untracked(world, allowed), status.untracked, e, f);
  }

  /** Fit to be committed: allow-listed, not infrastructure, and free of ".." and ".git" components. */
  ghost predicate Committable(allowed: set<string>, f: string) {
    f in allowed && !IsInfrastructureIgnored(f) && !UnsafeRepositoryPath(f)
  }

  lemma NormalizedSafe(path: string)
    requires NormalizedPath(path).Some?
    ensures !UnsafeRepositoryPath(NormalizedPath(path).value)
  {
  }

  /** What every verdict promises about its paths. */
  ghost predicate Sound(allowed: set<string>, v: Verdict) {
    match v
    case Accept(files) => forall f :: f in files ==> Committable(allowed, f)
    case Ignore(path) => IsInfrastructureIgnored(path)
    case Unrelated(_) => true
  }

  lemma OneSound(allowed: set<string>, n: string)
    requires n in allowed && !IsInfrastructureIgnored(n) && !UnsafeRepositoryPath(n)
    ensures Sound(allowed, Accept({n}))
  {
  }

  lemma TrackedSound(allowed: set<string>, p: string)
    ensures Sound(allowed, JudgeTracked(allowed, p))
  {
    var changed := NormalizedPath(p);
    if changed.Some? && !IsInfrastructureIgnored(changed.value) && changed.value in allowed {
      NormalizedSafe(p);
      OneSound(allowed, changed.value);
    }
  }

  lemma GatheredSound(entries: seq<Found>)
    requires Gathered(entries).Some?
    ensures forall f :: f in Gathered(entries).value ==> !IsInfrastructureIgnored(f) && !UnsafeRepositoryPath(f)
  {
    forall f | f in Gathered(entries).value ensures !IsInfrastructureIgnored(f) && !UnsafeRepositoryPath(f) {
      var e :| e in entries && Kept(e) && e.resolved == Some(f);
      assert !Refused(e);
    }
  }

  lemma ExpandedSound(world: World, allowed: set<string>, directory: string)
    requires Expanded(world, directory).Some? && Expanded(world, directory).value <= allowed
    ensures Sound(allowed, Accept(Expanded(world, directory).value))
  {
    GatheredSound(world.walk(NormalizedPath(directory).value).value);
  }

  lemma UntrackedSound(world: World, allowed: set<string>, p: string)
    ensures Sound(allowed, JudgeUntracked(world, allowed, p))
  {
    var raw := Strip(Slashed(p));
    var changed := NormalizedPath(raw);
    if changed.Some? && !IsInfrastructureIgnored(changed.value) {
      if changed.value in allowed {
        NormalizedSafe(raw);
        OneSound(allowed, changed.value);
      } else if Expanded(world, changed.value).Some? && Expanded(world, changed.value).value <= allowed {
        ExpandedSound(world, allowed, changed.value);
      }
    }
  }

  lemma GivenSound(world: World, allowed: set<string>, paths: seq<string>, v: Verdict)
    ensures Gives(Tracked(allowed), paths, v) ==> Sound(allowed, v)
    ensures Gives(Untracked(world, allowed), paths, v) ==> Sound(allowed, v)
  {
    if Gives(Tracked(allowed), paths, v) {
      var p :| p in paths && v == Tracked(allowed)(p);
      TrackedSound(allowed, p);
    }
    if Gives(Untracked(world, allowed), paths, v) {
      var p :| p in paths && v == Untracked(world, allowed)(p);
      UntrackedSound(world, allowed, p);
    }
  }

  lemma AcceptsSound(world: World, allowed: set<string>, paths: seq<string>, f: string)
    ensures Accepts(Tracked(allowed), paths, f) ==> Committable(allowed, f)
    ensures Accepts(Untracked(world, allowed), paths, f) ==> Committable(allowed, f)
  {
    if Accepts(Tracked(allowed), paths, f) {
      var v: Verdict :| v.Accept? && f in v.files && Gives(Tracked(allowed), paths, v);
      GivenSound(world, allowed, paths, v);
    }
    if Accepts(Untracked(world, allowed), paths, f) {
      var v: Verdict :| v.Accept? && f in v.files && Gives(Untracked(world, allowed), paths, v);
      GivenSound(world, allowed, paths, v);
    }
  }

  /** Every accepted path is allow-listed, safe and no infrastructure; nothing is both accepted and ignored. */
  lemma AcceptedAreCommittable(world: World, status: Changes, allowlist: seq<string>)
    ensures
      var c := Classified(world, status, allowlist);
      && (forall f :: f in c.accepted ==> Committable(AllowedPaths(allowlist), f))
      && (forall f :: f in c.ignored ==> IsInfrastructureIgnored(f))
      && c.accepted !! c.ignored
  {
    var allowed := AllowedPaths(allowlist);
    var c := Classified(world, status, allowlist);
    forall f | f in c.accepted ensures Committable(allowed, f) {
      ClassifiedMembers(world, status, allowlist, f);
      AcceptsSound(world, allowed, status.staged, f);
      AcceptsSound(world, allowed, status.modified, f);
      AcceptsSound(world, allowed, status.deleted, f);
      AcceptsSound(world, allowed, status.untracked, f);
    }
    forall f | f in c.ignored ensures IsInfrastructureIgnored(f) {
      ClassifiedMembers(world, status, allowlist, f);
      GivenSound(world, allowed, status.staged, Ignore(f));
      GivenSound(world, allowed, status.modified, Ignore(f));
      GivenSound(world, allowed, status.deleted, Ignore(f));
      GivenSound(world, allowed, status.untracked, Ignore(f));
    }
  }

  /** The path itself is allow-listed or infrastructure. */
  ghost predicate Covered(allowed: set<string>, path: string) {
    NormalizedPath(path).Some? && (IsInfrastructureIgnored(NormalizedPath(path).value) || NormalizedPath(path).value in allowed)
  }

  /** Or it is an untracked directory whose files, apart from infrastructure, are all allow-listed. */
  ghost predicate CoveredDirectory(world: World, allowed: set<string>, path: string) {
    var changed := NormalizedPath(Strip(Slashed(path)));
    && changed.Some? && DirectoryLike(world, path, changed.value)
    && Expanded(world, changed.value).Some? && Expanded(world, changed.value).value <= allowed
  }

  lemma StrippedSame(path: string)
    ensures NormalizedPath(Strip(Slashed(path))) == NormalizedPath(path)
  {
    var raw := Strip(Slashed(path));
    assert Slashed(raw) == raw by {
      forall i | 0 <= i < |raw| ensures raw[i] != '\\' {
        assert raw[i] in raw;
      }
    }
    assert Strip(raw) == raw;
  }

  lemma UnrelatedTracked(allowed: set<string>, path: string)
    ensures JudgeTracked(allowed, path).Unrelated? <==> !Covered(allowed, path)
  {
  }

  lemma UnrelatedUntracked(world: World, allowed: set<string>, path: string)
    ensures JudgeUntracked(world, allowed, path).Unrelated? <==> !Covered(allowed, path) && !CoveredDirectory(world, allowed, path)
  {
    StrippedSame(path);
  }

  ghost predicate AllCovered(world: World, status: Changes, allowed: set<string>) {
    && (forall p :: p in status.staged ==> Covered(allowed, p))
    && (forall p :: p in status.modified ==> Covered(allowed, p))
    && (forall p :: p in status.deleted ==> Covered(allowed, p))
    && (forall p :: p in status.untracked ==> Covered(allowed, p) || CoveredDirectory(world, allowed, p))
  }

  lemma NoneUnrelatedIn(judge: string -> Verdict, paths: seq<string>)
    ensures (forall f :: !Gives(judge, paths, Unrelated(f))) <==> forall p :: p in paths ==> !judge(p).Unrelated?
  {
    if forall f :: !Gives(judge, paths, Unrelated(f)) {
      forall p | p in paths ensures !judge(p).Unrelated? {
        if judge(p).Unrelated? {
          assert Gives(judge, paths, Unrelated(judge(p).path));
        }
      }
    }
  }

  lemma NoneUnrelatedTracked(allowed: set<string>, paths: seq<string>)
    ensures (forall f :: !Gives(Tracked(allowed), paths, Unrelated(f))) <==> forall p :: p in paths ==> Covered(allowed, p)
  {
    NoneUnrelatedIn(Tracked(allowed), paths);
    forall p ensures Tracked(allowed)(p).Unrelated? <==> !Covered(allowed, p) {
      UnrelatedTracked(allowed, p);
    }
  }

  lemma NoneUnrelatedUntracked(world: World, allowed: set<string>, paths: seq<string>)
    ensures (forall f :: !Gives(Untracked(world, allowed), paths, Unrelated(f)))
      == (forall p :: p in paths ==> Covered(allowed, p) || CoveredDirectory(world, allowed, p))
  {
    NoneUnrelatedIn(Untracked(world, allowed), paths);
    forall p ensures Untracked(world, allowed)(p).Unrelated? <==> !Covered(allowed, p) && !CoveredDirectory(world, allowed, p) {
      UnrelatedUntracked(world, allowed, p);
    }
  }

  /** Nothing is reported unrelated exactly when every changed path is covered. */
  lemma NothingUnrelatedMeans(world: World, status: Changes, allowlist: seq<string>)
    ensures Classified(world, status, allowlist).unrelated == {} <==> AllCovered(world, status, AllowedPaths(allowlist))
  {
    var allowed := AllowedPaths(allowlist);
    forall f ensures f in Classified(world, status, allowlist).unrelated <==> Judged(world, status, allowed, Unrelated(f)) {
      ClassifiedMembers(world, status, allowlist, f);
    }
    NoneUnrelatedTracked(allowed, status.staged);
    NoneUnrelatedTracked(allowed, status.modified);
    NoneUnrelatedTracked(allowed, status.deleted);
    NoneUnrelatedUntracked(world, allowed, status.untracked);
  }

  /** Below a covered directory, every file that is not infrastructure is allow-listed, and nothing escapes or is unsafe. */
  lemma DirectoryFilesCovered(world: World, allowed: set<string>, path: string, e: Found)
    requires CoveredDirectory(world, allowed, path)
    requires NormalizedPath(path).Some?
    requires
      var directory := NormalizedPath(NormalizedPath(path).value);
      directory.Some? && world.walk(directory.value).Some? && e in world.walk(directory.value).value
    ensures e.resolved.Some? && !UnsafeRepositoryPath(e.resolved.value)
    ensures e.isFile ==> IsInfrastructureIgnored(e.resolved.value) || e.resolved.value in allowed
  {
    StrippedSame(path);
    var entries := world.walk(NormalizedPath(NormalizedPath(path).value).value).value;
    assert !Refused(e);
    if Kept(e) {
      assert e.resolved.value in KeptFiles(entries);
    }
  }

  /** Allow-listing more never makes a path unrelated that was not. */
  lemma UnrelatedShrinks(world: World, status: Changes, fewer: seq<string>, more: seq<string>)
    requires forall p :: p in fewer ==> p in more
    requires Classified(world, status, fewer).unrelated == {}
    ensures Classified(world, status, more).unrelated == {}
  {
    NothingUnrelatedMeans(world, status, fewer);
    NothingUnrelatedMeans(world, status, more);
    assert AllowedPaths(fewer) <= AllowedPaths(more);
  }
}
