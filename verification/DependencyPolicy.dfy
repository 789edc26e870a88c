/** Normalising and validating requirements files (policies/dependencies.py). */
module DependencyPolicy {
  import opened Prelude
  import opened Text

  datatype File = File(path: string, content: string)

  /** A controlled dependency and the one line it may have. */
  datatype Pin = Pin(name: string, line: string)

  datatype Policy = Policy(required: seq<Pin>, optional: seq<Pin>) {
    function All(): seq<Pin> {
      required + optional
    }
  }

  const FASTAPI: Pin := Pin("fastapi", "fastapi" + "[standard]==0.139.0")
  const PYTEST: Pin := Pin("pytest", "pytest" + ">=8,<9")
  const HTTPX: Pin := Pin("httpx", "httpx" + ">=0.23,<1")
  const UVICORN: Pin := Pin("uvicorn", "uvicorn" + ">=0.17,<1")
  const FASTAPI_POLICY: Policy := Policy([FASTAPI, PYTEST], [HTTPX, UVICORN])

  function DependencyPolicyFor(framework: string): Option<Policy> {
    if Lower(Strip(framework)) == "fastapi" then Some(FASTAPI_POLICY) else None
  }

  /** There is a policy for FastAPI, in any case and with blanks around it, and for nothing else. */
  lemma PolicyForFastapiOnly(framework: string)
    ensures DependencyPolicyFor(framework).Some? <==> Lower(Strip(framework)) == "fastapi"
    ensures DependencyPolicyFor(framework).Some? ==> DependencyPolicyFor(framework).value == FASTAPI_POLICY
  {
  }

  // ---------------------------------------------------------------- lines

  /** One raw line without its comment and surrounding blanks. */
  function Trim(raw: string): (r: string)
    ensures '#' !in r
    ensures OneLine(raw) ==> OneLine(r)
    ensures r != "" ==> !Space(r[0]) && !Space(r[|r| - 1])
  {
    Strip(Before(raw, '#'))
  }

  /** A line that trimming leaves alone and that is not dropped. */
  predicate Clean(line: string) {
    line != "" && OneLine(line) && Trim(line) == line
  }

  function Trimmed(raw: seq<string>): seq<string> {
    if raw == [] then []
    else
      var last := Trim(raw[|raw| - 1]);
      Trimmed(raw[..|raw| - 1]) + (if last == "" then [] else [last])
  }

  function Lines(content: string): seq<string> {
    Trimmed(SplitLines(content))
  }

  method RequirementLines(content: string) returns (lines: seq<string>)
    ensures lines == Lines(content)
  {
    lines := [];
    var raw := SplitLines(content);
    var i := 0;
    while i < |raw|
      invariant 0 <= i <= |raw|
      invariant lines == Trimmed(raw[..i])
    {
      assert raw[..i + 1][..i] == raw[..i];
      var line := Trim(raw[i]);
      if line != "" {
        lines := lines + [line];
      }
      i := i + 1;
    }
    assert raw[..|raw|] == raw;
  }

  lemma {:induction false} TrimmedClean(raw: seq<string>)
    requires forall l :: l in raw ==> OneLine(l)
    ensures forall l :: l in Trimmed(raw) ==> Clean(l)
  {
    if raw != [] {
      TrimmedClean(raw[..|raw| - 1]);
      TrimTwice(raw[|raw| - 1]);
    }
  }

  lemma TrimTwice(raw: string)
    ensures Trim(Trim(raw)) == Trim(raw)
  {
    var r := Trim(raw);
    assert Before(r, '#') == r;
  }

  lemma {:induction false} TrimmedFixed(lines: seq<string>)
    requires forall l :: l in lines ==> Clean(l)
    ensures Trimmed(lines) == lines
  {
    if lines != [] {
      var front, last := lines[..|lines| - 1], lines[|lines| - 1];
      assert lines == front + [last] && last in lines;
      TrimmedFixed(front);
      TrimmedExtended(front, last);
    }
  }

  lemma TrimmedExtended(front: seq<string>, last: string)
    ensures Trimmed(front + [last]) == Trimmed(front) + if Trim(last) == "" then [] else [Trim(last)]
  {
    assert (front + [last])[..|front|] == front;
  }

  /** Reading back what was joined: requirement_lines undoes the newline join on clean lines. */
  lemma LinesUndoJoin(lines: seq<string>)
    requires forall l :: l in lines ==> Clean(l)
    ensures Lines(Unlines(lines)) == lines
  {
    SplitJoined(lines);
    TrimmedFixed(lines);
  }

  /** Everything read from any content is clean, so joining and reading again gives the same lines. */
  lemma LinesStable(content: string)
    ensures forall l :: l in Lines(content) ==> Clean(l)
    ensures Lines(Unlines(Lines(content))) == Lines(content)
  {
    TrimmedClean(SplitLines(content));
    LinesUndoJoin(Lines(content));
  }

  // ---------------------------------------------------------------- names

  predicate NameChar(c: char) {
    'A' <= c <= 'Z' || 'a' <= c <= 'z' || '0' <= c <= '9' || c == '_' || c == '.' || c == '-'
  }

  function NameEnd(s: string): (k: nat)
    ensures k <= |s|
    ensures forall i :: 0 <= i < k ==> NameChar(s[i])
    ensures k < |s| ==> !NameChar(s[k])
  {
    if s == "" || !NameChar(s[0]) then 0 else NameEnd(s[1..]) + 1
  }

  function NameCase(c: char): char {
    if c == '_' then '-' else LowerChar(c)
  }

  /** The longest leading run of name characters, in lower case with dashes for underscores. */
  function ExtractDependencyName(line: string): (name: string)
    ensures |name| <= |line|
  {
    var s := Trim(line);
    assert |s| <= |line| by { StripShorter(line); }
    var k := NameEnd(s);
    seq(k, i requires 0 <= i < k => NameCase(s[i]))
  }

  lemma StripShorter(line: string)
    ensures |Trim(line)| <= |line|
  {
  }

  // ---------------------------------------------------------------- well-formed policies

  function Folded(lines: seq<string>): (r: seq<string>)
    ensures |r| == |lines|
  {
    seq(|lines|, i requires 0 <= i < |lines| => Lower(lines[i]))
  }

  function PinLines(pins: seq<Pin>): (r: seq<string>)
    ensures |r| == |pins|
  {
    seq(|pins|, i requires 0 <= i < |pins| => pins[i].line)
  }

  ghost predicate Readable(p: Pin) {
    Clean(p.line) && ExtractDependencyName(p.line) == p.name
  }

  /** No two pins share a name or, up to case, a line. */
  ghost predicate Apart(pins: seq<Pin>) {
    forall i, j :: 0 <= i < j < |pins| ==> pins[i].name != pins[j].name && Lower(pins[i].line) != Lower(pins[j].line)
  }

  /** What the shipped tables satisfy and the proofs use: clean lines, each naming its own key, no two alike. */
  ghost predicate WellFormed(policy: Policy) {
    && (forall p :: p in policy.All() ==> Readable(p))
    && Apart(policy.All())
  }

  // ---------------------------------------------------------------- normalising

  predicate IsRequirements(f: File) {
    Lower(f.path) == "requirements.txt"
  }

  /** Index of the first requirements file, or the length when there is none. */
  function Requirements(files: seq<File>): (k: nat)
    ensures k <= |files|
    ensures forall i :: 0 <= i < k ==> !IsRequirements(files[i])
    ensures k < |files| ==> IsRequirements(files[k])
  {
    if files == [] || IsRequirements(files[0]) then 0 else Requirements(files[1..]) + 1
  }

  /** Whether the content has a line for this dependency. */
  ghost predicate Names(content: string, name: string) {
    exists l :: l in Lines(content) && ExtractDependencyName(l) == name
  }

  function NamesIn(lines: seq<string>): (r: set<string>)
    ensures forall n :: n in r <==> exists l :: l in lines && ExtractDependencyName(l) == n
  {
    set l | l in lines :: ExtractDependencyName(l)
  }

  function NamedBy(names: set<string>): Pin -> bool {
    (p: Pin) => p.name in names
  }

  /** The required pins, then the optional ones the old content named. */
  function Chosen(policy: Policy, names: set<string>): seq<Pin> {
    policy.required + Filter(NamedBy(names), policy.optional)
  }

  function NormalContent(policy: Policy, content: string): string {
    Unlines(PinLines(Chosen(policy, NamesIn(Lines(content)))))
  }

  function Normalized(policy: Option<Policy>, files: seq<File>): seq<File> {
    if policy.None? then files
    else
      var k := Requirements(files);
      if k == |files| then files + [File("requirements.txt", Unlines(PinLines(policy.value.required)))]
      else files[k := files[k].(content := NormalContent(policy.value, files[k].content))]
  }

  method NormalizeDependencyFile(policy: Option<Policy>, files: seq<File>) returns (r: seq<File>)
    ensures r == Normalized(policy, files)
  {
    if policy.None? {
      return files;
    }
    var k := Requirements(files);
    if k == |files| {
      return files + [File("requirements.txt", Unlines(PinLines(policy.value.required)))];
    }
    var lines := RequirementLines(files[k].content);
    var present := PresentOptional(set p | p in policy.value.optional :: p.name, lines);
    SameChoice(policy.value.optional, present, NamesIn(lines));
    var content := Unlines(PinLines(Chosen(policy.value, present)));
    return files[k := files[k].(content := content)];
  }

  lemma NamesExtended(lines: seq<string>, i: nat)
    requires i < |lines|
    ensures NamesIn(lines[..i + 1]) == NamesIn(lines[..i]) + {ExtractDependencyName(lines[i])}
  {
    assert lines[..i + 1] == lines[..i] + [lines[i]];
  }

  lemma MeetExtended(a: set<string>, name: string, optional: set<string>)
    ensures (a + {name}) * optional == a * optional + if name in optional then {name} else {}
  {
  }

  /** The scan for optional names. */
  method PresentOptional(optional: set<string>, lines: seq<string>) returns (present: set<string>)
    ensures present == NamesIn(lines) * optional
  {
    present := {};
    var i := 0;
    while i < |lines|
      invariant 0 <= i <= |lines|
      invariant present == NamesIn(lines[..i]) * optional
    {
      var name := ExtractDependencyName(lines[i]);
      NamesExtended(lines, i);
      MeetExtended(NamesIn(lines[..i]), name, optional);
      if name in optional {
        present := present + {name};
      }
      i := i + 1;
    }
    assert lines[..|lines|] == lines;
  }

  lemma {:induction false} SameChoice(pins: seq<Pin>, a: set<string>, b: set<string>)
    requires forall p :: p in pins ==> (p.name in a <==> p.name in b)
    ensures Filter(NamedBy(a), pins) == Filter(NamedBy(b), pins)
  {
    if pins != [] {
      SameChoice(pins[1..], a, b);
    }
  }

  // ---------------------------------------------------------------- validating

  datatype DependencyError =
    | MissingFile
    | MissingRequired(line: string)
    | IncompatibleVersion(line: string)
    | Unsupported(line: string)
    | Duplicate(line: string)

  function ControlledNames(policy: Policy): set<string> {
    set p | p in policy.All() :: p.name
  }

  function AllowedLines(policy: Policy): set<string> {
    set p | p in policy.All() :: Lower(p.line)
  }

  function RequiredErrors(pins: seq<Pin>, lines: seq<string>): seq<DependencyError> {
    if pins == [] then []
    else
      var p := pins[|pins| - 1];
      RequiredErrors(pins[..|pins| - 1], lines)
      + if Lower(p.line) in Folded(lines) then []
        else if p.name in NamesIn(lines) then [IncompatibleVersion(p.line)]
        else [MissingRequired(p.line)]
  }

  function LineErrors(policy: Policy, lines: seq<string>): seq<DependencyError> {
    if lines == [] then []
    else
      var line := lines[|lines| - 1];
      LineErrors(policy, lines[..|lines| - 1])
      + if Lower(line) in AllowedLines(policy) then []
        else if ExtractDependencyName(line) in ControlledNames(policy) then [IncompatibleVersion(line)]
        else [Unsupported(line)]
  }

  function DuplicateErrors(folded: seq<string>): seq<DependencyError> {
    if folded == [] then []
    else
      var init, line := folded[..|folded| - 1], folded[|folded| - 1];
      DuplicateErrors(init) + if line in init then [Duplicate(line)] else []
  }

  function Errors(policy: Option<Policy>, files: seq<File>): seq<DependencyError> {
    if policy.None? then []
    else
      var k := Requirements(files);
      if k == |files| then [MissingFile]
      else
        var lines := Lines(files[k].content);
        Dedupe(RequiredErrors(policy.value.required, lines) + LineErrors(policy.value, lines) + DuplicateErrors(Folded(lines)))
  }

  // ---------------------------------------------------------------- which errors are reported

  /** A required line is missing, with another line for its dependency or without one. */
  ghost predicate RequiredMissing(pins: seq<Pin>, lines: seq<string>, e: DependencyError) {
    exists p :: p in pins && Lower(p.line) !in Folded(lines)
      && e == (if p.name in NamesIn(lines) then IncompatibleVersion(p.line) else MissingRequired(p.line))
  }

  /** A line nobody allows, of a dependency that is controlled or of one that is not. */
  ghost predicate NotAllowed(policy: Policy, lines: seq<string>, e: DependencyError) {
    exists l :: l in lines && Lower(l) !in AllowedLines(policy)
      && e == (if ExtractDependencyName(l) in ControlledNames(policy) then IncompatibleVersion(l) else Unsupported(l))
  }

  ghost predicate WrittenTwice(folded: seq<string>, e: DependencyError) {
    exists i, j :: 0 <= i < j < |folded| && folded[i] == folded[j] && e == Duplicate(folded[j])
  }

  lemma {:induction false} RequiredErrorIff(pins: seq<Pin>, lines: seq<string>, e: DependencyError)
    ensures e in RequiredErrors(pins, lines) <==> RequiredMissing(pins, lines, e)
  {
    if pins != [] {
      var init, last := pins[..|pins| - 1], pins[|pins| - 1];
      assert pins == init + [last];
      RequiredErrorIff(init, lines, e);
    }
  }

  lemma {:induction false} LineErrorIff(policy: Policy, lines: seq<string>, e: DependencyError)
    ensures e in LineErrors(policy, lines) <==> NotAllowed(policy, lines, e)
  {
    if lines != [] {
      var init, last := lines[..|lines| - 1], lines[|lines| - 1];
      assert lines == init + [last];
      LineErrorIff(policy, init, e);
    }
  }

  lemma {:induction false} DuplicateErrorIff(folded: seq<string>, e: DependencyError)
    ensures e in DuplicateErrors(folded) <==> WrittenTwice(folded, e)
  {
    if folded != [] {
      var init, last := folded[..|folded| - 1], folded[|folded| - 1];
      assert folded == init + [last];
      DuplicateErrorIff(init, e);
      if last in init {
        var i :| 0 <= i < |init| && init[i] == last;
        assert folded[i] == folded[|init|];
      }
    }
  }

  /** Every error of a file list if and only if: no requirements file, a required line missing, a line not allowed, a line twice. */
  lemma {:induction false} ErrorsIff(policy: Policy, files: seq<File>, e: DependencyError)
    ensures Requirements(files) == |files| ==> (e in Errors(Some(policy), files) <==> e == MissingFile)
    ensures Requirements(files) < |files| ==>
      var lines := Lines(files[Requirements(files)].content);
      (e in Errors(Some(policy), files)
       <==> RequiredMissing(policy.required, lines, e) || NotAllowed(policy, lines, e) || WrittenTwice(Folded(lines), e))
  {
    var k := Requirements(files);
    if k < |files| {
      var lines := Lines(files[k].content);
      RequiredErrorIff(policy.required, lines, e);
      LineErrorIff(policy, lines, e);
      DuplicateErrorIff(Folded(lines), e);
    }
  }

  // ---------------------------------------------------------------- the checks as the source runs them

  method CheckRequired(pins: seq<Pin>, lines: seq<string>) returns (errors: seq<DependencyError>)
    ensures errors == RequiredErrors(pins, lines)
  {
    errors := [];
    var i := 0;
    while i < |pins|
      invariant 0 <= i <= |pins|
      invariant errors == RequiredErrors(pins[..i], lines)
    {
      assert pins[..i + 1][..i] == pins[..i];
      if Lower(pins[i].line) !in Folded(lines) {
        errors := errors + [if pins[i].name in NamesIn(lines) then IncompatibleVersion(pins[i].line) else MissingRequired(pins[i].line)];
      }
      i := i + 1;
    }
    assert pins[..|pins|] == pins;
  }

  method CheckLines(policy: Policy, lines: seq<string>) returns (errors: seq<DependencyError>)
    ensures errors == LineErrors(policy, lines)
  {
    errors := [];
    var i := 0;
    while i < |lines|
      invariant 0 <= i <= |lines|
      invariant errors == LineErrors(policy, lines[..i])
    {
      assert lines[..i + 1][..i] == lines[..i];
      if Lower(lines[i]) !in AllowedLines(policy) {
        var known := ExtractDependencyName(lines[i]) in ControlledNames(policy);
        errors := errors + [if known then IncompatibleVersion(lines[i]) else Unsupported(lines[i])];
      }
      i := i + 1;
    }
    assert lines[..|lines|] == lines;
  }

  method CheckDuplicates(folded: seq<string>) returns (errors: seq<DependencyError>)
    ensures errors == DuplicateErrors(folded)
  {
    errors := [];
    var seen: set<string> := {};
    var i := 0;
    while i < |folded|
      invariant 0 <= i <= |folded|
      invariant seen == ToSet(folded[..i])
      invariant errors == DuplicateErrors(folded[..i])
    {
      assert folded[..i + 1][..i] == folded[..i];
      assert folded[..i + 1] == folded[..i] + [folded[i]];
      if folded[i] in seen {
        errors := errors + [Duplicate(folded[i])];
      }
      seen := seen + {folded[i]};
      i := i + 1;
    }
    assert folded[..|folded|] == folded;
  }

  method ValidateDependencyFile(policy: Option<Policy>, files: seq<File>) returns (errors: seq<DependencyError>)
    ensures errors == Errors(policy, files)
  {
    if policy.None? {
      return [];
    }
    var k := Requirements(files);
    if k == |files| {
      return [MissingFile];
    }
    var lines := RequirementLines(files[k].content);
    var missing := CheckRequired(policy.value.required, lines);
    var wrong := CheckLines(policy.value, lines);
    var repeated := CheckDuplicates(Folded(lines));
    return Dedupe(missing + wrong + repeated);
  }

  /** What validation demands of the lines of the requirements file. */
  ghost predicate Conforms(policy: Policy, lines: seq<string>) {
    && (forall p :: p in policy.required ==> Lower(p.line) in Folded(lines))
    && (forall l :: l in lines ==> Lower(l) in AllowedLines(policy))
    && Distinct(Folded(lines))
  }

  lemma {:induction false} NoRequiredErrors(pins: seq<Pin>, lines: seq<string>)
    ensures RequiredErrors(pins, lines) == [] <==> forall p :: p in pins ==> Lower(p.line) in Folded(lines)
  {
    if pins != [] {
      NoRequiredErrors(pins[..|pins| - 1], lines);
      assert pins == pins[..|pins| - 1] + [pins[|pins| - 1]];
    }
  }

  lemma {:induction false} NoLineErrors(policy: Policy, lines: seq<string>)
    ensures LineErrors(policy, lines) == [] <==> forall l :: l in lines ==> Lower(l) in AllowedLines(policy)
  {
    if lines != [] {
      NoLineErrors(policy, lines[..|lines| - 1]);
      assert lines == lines[..|lines| - 1] + [lines[|lines| - 1]];
    }
  }

  lemma {:induction false} NoDuplicateErrors(folded: seq<string>)
    ensures DuplicateErrors(folded) == [] <==> Distinct(folded)
  {
    if folded != [] {
      var init, last := folded[..|folded| - 1], folded[|folded| - 1];
      NoDuplicateErrors(init);
      assert folded == init + [last];
      DistinctAppend(init, last);
    }
  }

  /** No error is reported exactly when there is a requirements file and its lines conform. */
  lemma {:induction false} ValidMeansConforming(policy: Policy, files: seq<File>)
    ensures
      var k := Requirements(files);
      Errors(Some(policy), files) == [] <==> k < |files| && Conforms(policy, Lines(files[k].content))
  {
    var k := Requirements(files);
    if k < |files| {
      var lines := Lines(files[k].content);
      NoRequiredErrors(policy.required, lines);
      NoLineErrors(policy, lines);
      NoDuplicateErrors(Folded(lines));
    }
  }

  // ---------------------------------------------------------------- normalising, then validating

  lemma ApartWithout(a: seq<Pin>, p: Pin, b: seq<Pin>)
    requires Apart(a + ([p] + b))
    ensures Apart(a + b)
  {
    var whole, less := a + ([p] + b), a + b;
    assert forall i :: 0 <= i < |a| ==> less[i] == whole[i];
    assert forall i :: |a| <= i < |less| ==> less[i] == whole[i + 1];
  }

  lemma {:induction false} ApartChosen(a: seq<Pin>, keep: Pin -> bool, b: seq<Pin>)
    requires Apart(a + b)
    ensures Apart(a + Filter(keep, b))
    decreases b
  {
    if b != [] {
      var p, rest := b[0], b[1..];
      assert b == [p] + rest;
      if keep(p) {
        assert a + b == (a + [p]) + rest;
        ApartChosen(a + [p], keep, rest);
        assert (a + [p]) + Filter(keep, rest) == a + Filter(keep, b);
      } else {
        ApartWithout(a, p, rest);
        ApartChosen(a, keep, rest);
      }
    }
  }

  lemma ApartFolded(pins: seq<Pin>)
    requires Apart(pins)
    ensures Distinct(Folded(PinLines(pins)))
  {
    assert forall i :: 0 <= i < |pins| ==> Folded(PinLines(pins))[i] == Lower(pins[i].line);
  }

  lemma ChosenLines(policy: Policy, names: set<string>)
    requires WellFormed(policy)
    ensures Lines(Unlines(PinLines(Chosen(policy, names)))) == PinLines(Chosen(policy, names))
    ensures Conforms(policy, PinLines(Chosen(policy, names)))
  {
    var pins := Chosen(policy, names);
    var lines := PinLines(pins);
    forall l | l in lines ensures Clean(l) && Lower(l) in AllowedLines(policy) {
      var i :| 0 <= i < |lines| && lines[i] == l;
      assert pins[i] in policy.All();
    }
    LinesUndoJoin(lines);
    ApartChosen(policy.required, NamedBy(names), policy.optional);
    ApartFolded(pins);
    forall p | p in policy.required ensures Lower(p.line) in Folded(lines) {
      var i :| 0 <= i < |policy.required| && policy.required[i] == p;
      assert Folded(lines)[i] == Lower(p.line);
    }
  }

  lemma {:induction false} NothingNamed(pins: seq<Pin>)
    ensures Filter(NamedBy({}), pins) == []
  {
    if pins != [] {
      NothingNamed(pins[1..]);
    }
  }

  /** The names whose optional pins the new content carries. */
  function KeptNames(files: seq<File>): set<string> {
    var k := Requirements(files);
    if k == |files| then {} else NamesIn(Lines(files[k].content))
  }

  /** Where the requirements file is after normalising, and what it holds. */
  lemma NormalizedFile(policy: Policy, files: seq<File>)
    ensures
      var r := Normalized(Some(policy), files);
      var k := Requirements(files);
      && Requirements(r) == k < |r|
      && r[k].content == Unlines(PinLines(Chosen(policy, KeptNames(files))))
  {
    var r := Normalized(Some(policy), files);
    var k := Requirements(files);
    if k == |files| {
      NothingNamed(policy.optional);
      assert Chosen(policy, {}) == policy.required;
      assert Lower("requirements.txt") == "requirements.txt";
    }
    FirstRequirements(r, k);
  }

  lemma {:induction false} FirstRequirements(files: seq<File>, k: nat)
    requires k < |files| && IsRequirements(files[k])
    requires forall i :: 0 <= i < k ==> !IsRequirements(files[i])
    ensures Requirements(files) == k
  {
  }

  /** A normalised list is always valid, whatever the files were. */
  lemma NormalizedIsValid(policy: Policy, files: seq<File>)
    requires WellFormed(policy)
    ensures Errors(Some(policy), Normalized(Some(policy), files)) == []
  {
    NormalizedFile(policy, files);
    ChosenLines(policy, KeptNames(files));
    ValidMeansConforming(policy, Normalized(Some(policy), files));
  }

  /** Only the requirements file changes, in place; it is appended when there was none. */
  lemma OthersUntouched(policy: Option<Policy>, files: seq<File>)
    ensures
      var r := Normalized(policy, files);
      var k := Requirements(files);
      && (forall i :: 0 <= i < |files| && i != k ==> r[i] == files[i])
      && (forall i :: 0 <= i < |files| ==> r[i].path == files[i].path)
      && |r| == |files| + if policy.Some? && k == |files| then 1 else 0
  {
  }

  lemma SamePin(policy: Policy, p: Pin, q: Pin)
    requires WellFormed(policy) && p in policy.All() && q in policy.All()
    requires p.line == q.line || p.name == q.name
    ensures p == q
  {
    var i :| 0 <= i < |policy.All()| && policy.All()[i] == p;
    var j :| 0 <= j < |policy.All()| && policy.All()[j] == q;
  }

  /** No pin is both required and optional. */
  lemma OnlyOnce(policy: Policy)
    requires WellFormed(policy)
    ensures forall i, j :: 0 <= i < |policy.required| && 0 <= j < |policy.optional| ==> policy.required[i] != policy.optional[j]
  {
    var r := |policy.required|;
    assert forall i :: 0 <= i < r ==> policy.All()[i] == policy.required[i];
    assert forall j :: 0 <= j < |policy.optional| ==> policy.All()[r + j] == policy.optional[j];
  }

  lemma LineOfChosen(policy: Policy, names: set<string>, p: Pin)
    requires WellFormed(policy) && p in policy.All()
    ensures p.line in PinLines(Chosen(policy, names)) <==> p in policy.required || p.name in names
  {
    var pins := Chosen(policy, names);
    if p in pins {
      var i :| 0 <= i < |pins| && pins[i] == p;
      assert PinLines(pins)[i] == p.line;
    }
    if p.line in PinLines(pins) {
      var i :| 0 <= i < |pins| && PinLines(pins)[i] == p.line;
      assert pins[i] in pins && pins[i] in policy.All();
      SamePin(policy, pins[i], p);
    }
    OnlyOnce(policy);
  }

  /** A pin's line is in the result exactly when the pin is required or the input named it. */
  lemma OptionalKeptIffNamed(policy: Policy, files: seq<File>, p: Pin)
    requires WellFormed(policy) && p in policy.All()
    ensures
      var k := Requirements(files);
      var r := Normalized(Some(policy), files);
      && k < |r|
      && ((p.line in Lines(r[k].content)) == (p in policy.required || (k < |files| && Names(files[k].content, p.name))))
  {
    NormalizedFile(policy, files);
    ChosenLines(policy, KeptNames(files));
    LineOfChosen(policy, KeptNames(files), p);
  }

  /** Normalising twice is normalising once. */
  lemma NormalizeIdempotent(policy: Option<Policy>, files: seq<File>)
    requires policy.Some? ==> WellFormed(policy.value)
    ensures Normalized(policy, Normalized(policy, files)) == Normalized(policy, files)
  {
    if policy.Some? {
      var r := Normalized(policy, files);
      var k := Requirements(files);
      var names := KeptNames(files);
      NormalizedFile(policy.value, files);
      ChosenLines(policy.value, names);
      NamesOfChosen(policy.value, names);
      SameChoice(policy.value.optional, NamesIn(Lines(r[k].content)), names);
      assert r[k := r[k]] == r;
    }
  }

  lemma ChosenNamed(policy: Policy, names: set<string>, p: Pin)
    requires WellFormed(policy) && p in policy.optional && p.name in names
    ensures p.name in NamesIn(PinLines(Chosen(policy, names)))
  {
    var pins := Chosen(policy, names);
    var lines := PinLines(pins);
    assert p in pins;
    var i :| 0 <= i < |pins| && pins[i] == p;
    assert lines[i] == p.line && lines[i] in lines;
    assert p in policy.All() && Readable(p);
  }

  lemma NamedChosen(policy: Policy, names: set<string>, p: Pin)
    requires WellFormed(policy) && p in policy.optional && p.name in NamesIn(PinLines(Chosen(policy, names)))
    ensures p.name in names
  {
    var pins := Chosen(policy, names);
    var lines := PinLines(pins);
    var l :| l in lines && ExtractDependencyName(l) == p.name;
    var i :| 0 <= i < |lines| && lines[i] == l;
    assert pins[i] in policy.All() && pins[i].name == p.name;
    SamePin(policy, pins[i], p);
    OnlyOnce(policy);
  }

  /** Reading the chosen lines back names the required pins and the chosen optional ones. */
  lemma NamesOfChosen(policy: Policy, names: set<string>)
    requires WellFormed(policy)
    ensures forall p :: p in policy.optional ==>
      (p.name in NamesIn(PinLines(Chosen(policy, names))) <==> p.name in names)
  {
    var named := NamesIn(PinLines(Chosen(policy, names)));
    forall p | p in policy.optional ensures p.name in named <==> p.name in names {
      if p.name in names {
        ChosenNamed(policy, names, p);
      } else if p.name in named {
        NamedChosen(policy, names, p);
      }
    }
  }

  // ---------------------------------------------------------------- the shipped table

  predicate Plain(s: string) {
    forall i :: 0 <= i < |s| ==> s[i] != '#' && !Space(s[i])
  }

  predicate NameLike(s: string) {
    forall i :: 0 <= i < |s| ==> NameChar(s[i]) && NameCase(s[i]) == s[i]
  }

  lemma NamedLine(p: Pin, suffix: string)
    requires NameLike(p.name) && Plain(suffix) && suffix != "" && !NameChar(suffix[0])
    requires p.line == p.name + suffix
    ensures Readable(p)
  {
    assert '#' !in p.line;
    assert Before(p.line, '#') == p.line;
    assert Trim(p.line) == p.line;
    assert p.line[|p.name|] == suffix[0];
    assert NameEnd(p.line) == |p.name|;
  }

  predicate StartsWith(p: Pin, c: char) {
    p.name != "" && p.line != "" && p.name[0] == c && LowerChar(p.line[0]) == c
  }

  lemma Starts(p: Pin, suffix: string, c: char)
    requires p.name != "" && p.name[0] == c && 'a' <= c <= 'z' && p.line == p.name + suffix
    ensures StartsWith(p, c)
  {
  }

  lemma ShippedNames()
    ensures NameLike("fastapi") && NameLike("pytest") && NameLike("httpx") && NameLike("uvicorn")
  {
  }

  lemma ShippedSuffixes()
    ensures Plain("[standard]==0.139.0") && Plain(">=8,<9") && Plain(">=0.23,<1") && Plain(">=0.17,<1")
  {
  }

  lemma FastapiReadable()
    ensures Readable(FASTAPI) && StartsWith(FASTAPI, 'f')
  {
    ShippedNames();
    ShippedSuffixes();
    ShippedLine("fastapi", "[standard]==0.139.0", 'f');
  }

  lemma PytestReadable()
    ensures Readable(PYTEST) && StartsWith(PYTEST, 'p')
  {
    ShippedNames();
    ShippedSuffixes();
    ShippedLine("pytest", ">=8,<9", 'p');
  }

  lemma HttpxReadable()
    ensures Readable(HTTPX) && StartsWith(HTTPX, 'h')
  {
    ShippedNames();
    ShippedSuffixes();
    ShippedLine("httpx", ">=0.23,<1", 'h');
  }

  lemma UvicornReadable()
    ensures Readable(UVICORN) && StartsWith(UVICORN, 'u')
  {
    ShippedNames();
    ShippedSuffixes();
    ShippedLine("uvicorn", ">=0.17,<1", 'u');
  }

  lemma ShippedLine(name: string, suffix: string, c: char)
    requires NameLike(name) && Plain(suffix) && suffix != "" && !NameChar(suffix[0])
    requires name != "" && name[0] == c && 'a' <= c <= 'z'
    ensures Readable(Pin(name, name + suffix)) && StartsWith(Pin(name, name + suffix), c)
  {
    NamedLine(Pin(name, name + suffix), suffix);
    Starts(Pin(name, name + suffix), suffix, c);
  }

  lemma InitialsApart(a: Pin, b: Pin, x: char, y: char)
    requires StartsWith(a, x) && StartsWith(b, y) && x != y
    ensures a.name != b.name && Lower(a.line) != Lower(b.line)
  {
    assert Lower(a.line)[0] != Lower(b.line)[0];
  }

  lemma FourApart(a: Pin, b: Pin, c: Pin, d: Pin)
    requires StartsWith(a, 'f') && StartsWith(b, 'p') && StartsWith(c, 'h') && StartsWith(d, 'u')
    ensures Apart([a, b, c, d])
  {
    InitialsApart(a, b, 'f', 'p');
    InitialsApart(a, c, 'f', 'h');
    InitialsApart(a, d, 'f', 'u');
    InitialsApart(b, c, 'p', 'h');
    InitialsApart(b, d, 'p', 'u');
    InitialsApart(c, d, 'h', 'u');
  }

  lemma OneOfFour<T>(a: T, b: T, c: T, d: T, x: T)
    requires x in [a, b] + [c, d]
    ensures x == a || x == b || x == c || x == d
  {
  }

  lemma FourWellFormed(a: Pin, b: Pin, c: Pin, d: Pin)
    requires Apart([a, b, c, d])
    requires Readable(a) && Readable(b) && Readable(c) && Readable(d)
    ensures WellFormed(Policy([a, b], [c, d]))
  {
    var policy := Policy([a, b], [c, d]);
    assert policy.All() == [a, b, c, d];
    forall p | p in policy.All() ensures Readable(p) {
      OneOfFour(a, b, c, d, p);
    }
  }

  lemma FastapiPolicyWellFormed()
    ensures WellFormed(FASTAPI_POLICY)
  {
    FastapiReadable();
    PytestReadable();
    HttpxReadable();
    UvicornReadable();
    FourApart(FASTAPI, PYTEST, HTTPX, UVICORN);
    FourWellFormed(FASTAPI, PYTEST, HTTPX, UVICORN);
  }

  /** For every framework and every list of files, normalising and then validating reports nothing. */
  lemma NormalizeThenValidate(framework: string, files: seq<File>)
    ensures
      var policy := DependencyPolicyFor(framework);
      && Errors(policy, Normalized(policy, files)) == []
      && Normalized(policy, Normalized(policy, files)) == Normalized(policy, files)
  {
    var policy := DependencyPolicyFor(framework);
    FastapiPolicyWellFormed();
    NormalizeIdempotent(policy, files);
    if policy.Some? {
      NormalizedIsValid(FASTAPI_POLICY, files);
    }
  }
}
