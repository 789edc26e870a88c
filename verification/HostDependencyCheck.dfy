/** The Host's own look at requirements content (host.py), and how it agrees with the normaliser. */
module HostDependencyCheck {
  import opened Prelude
  import opened Text
  import opened DependencyPolicy
  import FirstMatch

  const BLOCKED_FASTAPI: string := "fastapi[standard]>=0.139.2,<0.140"

  datatype Violation = Violation(expected: string, received: string)

  predicate MentionsFastapi(line: string) {
    "fastapi" <= Lower(line)
  }

  /** validate_fastapi_dependency_policy, branch by branch; None means accepted. */
  function HostViolation(content: string): Option<Violation> {
    var lines := Lines(content);
    var lowered := Folded(lines);
    var fastapi := Filter(MentionsFastapi, lines);
    if fastapi == [] then None
    else if Lower(FASTAPI.line) in lowered && Lower(PYTEST.line) in lowered then None
    else if Lower(fastapi[0]) == BLOCKED_FASTAPI || fastapi[0] != FASTAPI.line then Some(Violation(FASTAPI.line, fastapi[0]))
    else if Lower(PYTEST.line) !in lowered then Some(Violation(PYTEST.line, ""))
    else None
  }

  /** The Host accepts exactly the contents that mention no FastAPI at all or carry both pinned lines. */
  lemma HostAcceptsIff(content: string)
    ensures
      var lines := Lines(content);
      HostViolation(content).None? == (
        || (forall l :: l in lines ==> !MentionsFastapi(l))
        || (Lower(FASTAPI.line) in Folded(lines) && Lower(PYTEST.line) in Folded(lines)))
  {
    var lines := Lines(content);
    FilterEmpty(MentionsFastapi, lines);
    var fastapi := Filter(MentionsFastapi, lines);
    if fastapi != [] && fastapi[0] == FASTAPI.line {
      assert fastapi[0] in fastapi;
      var i :| 0 <= i < |lines| && lines[i] == fastapi[0];
      assert Folded(lines)[i] == Lower(FASTAPI.line);
    }
  }

  /** What the Host asks for: its FastAPI line while the first mention is another one, and then pytest. */
  lemma ViolationNames(content: string)
    requires HostViolation(content).Some?
    ensures
      var mentions := Filter(MentionsFastapi, Lines(content));
      && mentions != []
      && (mentions[0] != FASTAPI.line ==> HostViolation(content).value == Violation(FASTAPI.line, mentions[0]))
      && (mentions[0] == FASTAPI.line ==> HostViolation(content).value == Violation(PYTEST.line, ""))
  {
    var mentions := Filter(MentionsFastapi, Lines(content));
    if mentions != [] && mentions[0] == FASTAPI.line {
      PinnedIsNotBlocked();
      PinnedIsFolded(content);
    }
  }

  lemma PinnedIsNotBlocked()
    ensures Lower(FASTAPI.line) != BLOCKED_FASTAPI
  {
    assert |FASTAPI.line| != |BLOCKED_FASTAPI|;
  }

  lemma PinnedIsFolded(content: string)
    requires Filter(MentionsFastapi, Lines(content)) != [] && Filter(MentionsFastapi, Lines(content))[0] == FASTAPI.line
    ensures Lower(FASTAPI.line) in Folded(Lines(content))
  {
    var lines, mentions := Lines(content), Filter(MentionsFastapi, Lines(content));
    assert mentions[0] in mentions;
    var i :| 0 <= i < |lines| && lines[i] == mentions[0];
    assert Folded(lines)[i] == Lower(FASTAPI.line);
  }

  /** What the validator accepts, the Host accepts. */
  lemma {:induction false} ValidIsHostAccepted(files: seq<File>)
    requires Errors(Some(FASTAPI_POLICY), files) == []
    ensures
      var k := Requirements(files);
      k < |files| && HostViolation(files[k].content).None?
  {
    ValidMeansConforming(FASTAPI_POLICY, files);
    var k := Requirements(files);
    assert FASTAPI in FASTAPI_POLICY.required && PYTEST in FASTAPI_POLICY.required;
    HostAcceptsIff(files[k].content);
  }

  /** The Host accepts the content of every normalised requirements file. */
  lemma {:induction false} NormalizedIsHostAccepted(files: seq<File>)
    ensures
      var r := Normalized(Some(FASTAPI_POLICY), files);
      var k := Requirements(files);
      k < |r| && HostViolation(r[k].content).None?
  {
    FastapiPolicyWellFormed();
    NormalizedIsValid(FASTAPI_POLICY, files);
    NormalizedFile(FASTAPI_POLICY, files);
    ValidIsHostAccepted(Normalized(Some(FASTAPI_POLICY), files));
  }

  /** Path(p).name on a POSIX system: the last component that is neither empty nor ".". */
  function BaseName(path: string): string {
    var parts := PathParts(path);
    if parts == [] then "" else parts[|parts| - 1]
  }

  predicate NamedRequirements(f: File) {
    Lower(BaseName(f.path)) == "requirements.txt"
  }

  function FileViolation(f: File): Option<Violation> {
    HostViolation(f.content)
  }

  /** dependency_policy_for_project_files: the first file whose base name matches decides, in any directory. */
  function ProjectViolation(files: seq<File>): Option<Violation> {
    FirstMatch.Verdict(NamedRequirements, FileViolation, files)
  }

  lemma {:induction false} LowerHasSlash(s: string)
    ensures '/' in Lower(s) <==> '/' in s
  {
    forall i | 0 <= i < |s| ensures Lower(s)[i] == '/' <==> s[i] == '/' {
    }
    if '/' in s {
      var i :| 0 <= i < |s| && s[i] == '/';
      assert Lower(s)[i] == '/';
    }
  }

  /** A root requirements file is its own base name. */
  lemma RootIsNamed(f: File)
    requires IsRequirements(f)
    ensures NamedRequirements(f)
  {
    RootUnslashed(f);
    assert Split(f.path, '/') == [f.path];
    assert Filter(RealPart, [f.path]) == [f.path];
  }

  lemma RootUnslashed(f: File)
    requires IsRequirements(f)
    ensures '/' !in f.path && RealPart(f.path)
  {
    assert |f.path| == |"requirements.txt"| > 1;
    assert '/' !in "requirements.txt";
    LowerHasSlash(f.path);
  }

  /** A nested requirements file ahead of the root one, whose own content the Host would refuse. */
  ghost predicate Shadowed(files: seq<File>) {
    FirstMatch.RefusedBefore(NamedRequirements, FileViolation, files, Requirements(files))
  }

  /** The Host accepts the whole normalised list exactly when no refused nested requirements file comes first. */
  lemma ProjectAcceptedIff(files: seq<File>)
    ensures ProjectViolation(Normalized(Some(FASTAPI_POLICY), files)).None? <==> !Shadowed(files)
  {
    var r := Normalized(Some(FASTAPI_POLICY), files);
    var root := Requirements(files);
    assert root < |r| && IsRequirements(r[root]) by { NormalizedFile(FASTAPI_POLICY, files); }
    NormalizedIsHostAccepted(files);
    RootIsNamed(r[root]);
    FirstMatch.RefusedOnlyBefore(NamedRequirements, FileViolation, r, root);
    OthersUntouched(Some(FASTAPI_POLICY), files);
    FirstMatch.SamePrefix(NamedRequirements, FileViolation, r, files, root);
  }

  lemma FirstFileShadows(first: File, rest: seq<File>)
    requires NamedRequirements(first) && !IsRequirements(first) && HostViolation(first.content).Some?
    ensures ProjectViolation(Normalized(Some(FASTAPI_POLICY), [first] + rest)).Some?
  {
    var files := [first] + rest;
    assert files[0] == first && Requirements(files) > 0;
    assert FileViolation(files[0]).Some?;
    ProjectAcceptedIff(files);
  }

  lemma SlashedIsNotRoot(f: File)
    requires '/' in f.path
    ensures !IsRequirements(f)
  {
    LowerHasSlash(f.path);
    assert '/' !in "requirements.txt";
  }

  /** A nested requirements file that only names FastAPI makes the Host refuse the normalised list. */
  lemma NestedFileRefused(directory: string, rest: seq<File>)
    requires '/' !in directory
    ensures
      var nested := File(directory + "/" + "requirements.txt", "fastapi");
      ProjectViolation(Normalized(Some(FASTAPI_POLICY), [nested] + rest)).Some?
  {
    var nested := File(directory + "/" + "requirements.txt", "fastapi");
    assert nested.path[|directory|] == '/';
    SlashedIsNotRoot(nested);
    NestedName(directory);
    assert NamedRequirements(nested) by { LowerOfName(); }
    BareNameRefused();
    FirstFileShadows(nested, rest);
  }

  lemma LowerOfName()
    ensures Lower("requirements.txt") == "requirements.txt"
  {
  }

  lemma TwoParts(a: string, b: string)
    requires '/' !in a && '/' !in b && RealPart(b)
    ensures BaseName(a + "/" + b) == b
  {
    var pieces := [a, b];
    assert pieces[1..] == [b];
    assert Join(pieces, '/') == a + ['/'] + b;
    assert ['/'] == "/";
    SplitJoin(pieces, '/');
    assert Filter(RealPart, [b]) == [b];
  }

  lemma NestedName(directory: string)
    requires '/' !in directory
    ensures BaseName(directory + "/" + "requirements.txt") == "requirements.txt"
  {
    assert '/' !in "requirements.txt";
    TwoParts(directory, "requirements.txt");
  }

  lemma OneBareLine(line: string)
    requires line != "" && (forall i :: 0 <= i < |line| ==> line[i] != '#' && !Space(line[i]))
    ensures Lines(line) == [line]
  {
    assert LineEnd(line) == |line|;
    assert SplitLines(line) == [line];
    assert '#' !in line;
    assert Before(line, '#') == line;
    assert [line][..0] == [];
    assert Trimmed([]) == [];
  }

  lemma MissingPytestRefused(content: string, line: string)
    requires Lines(content) == [line] && MentionsFastapi(line) && |line| != |PYTEST.line|
    ensures HostViolation(content).Some?
  {
    assert line in Lines(content);
    assert Folded([line]) == [Lower(line)];
    HostAcceptsIff(content);
  }

  lemma LowerCaseOnly(s: string)
    requires forall i :: 0 <= i < |s| ==> 'a' <= s[i] <= 'z'
    ensures Lower(s) == s
    ensures s != "" ==> Lines(s) == [s]
  {
    if s != "" {
      OneBareLine(s);
    }
  }

  lemma BareNameRefused()
    ensures HostViolation("fastapi").Some?
  {
    var name := "fastapi";
    LowerCaseOnly(name);
    MissingPytestRefused(name, name);
  }
}
