/** Staged rollout: stage parsing, treated workflows and record splitting (graph/planner_policy_rollout.py). */
module PolicyRollout {
  import opened Prelude
  import opened Sorting
  import opened Text

  // ---------------------------------------------------------------- reading numbers

  predicate DigitChar(c: char) {
    '0' <= c <= '9'
  }

  function DigitOf(c: char): nat
    requires DigitChar(c)
  {
    c as int - '0' as int
  }

  /** Digits with single underscores between them. */
  function DigitsValue(s: string): Option<nat> {
    if s == "" || !DigitChar(s[|s| - 1]) then None
    else if |s| == 1 then Some(DigitOf(s[0]))
    else
      var rest := DigitsValue(if s[|s| - 2] == '_' then s[..|s| - 2] else s[..|s| - 1]);
      if rest.None? then None else Some(10 * rest.value + DigitOf(s[|s| - 1]))
  }

  /** int(text) for a text without blanks at its ends; None for the ValueError. */
  function ParseInt(text: string): Option<int> {
    var signed := text != "" && (text[0] == '-' || text[0] == '+');
    var digits := DigitsValue(if signed then text[1..] else text);
    if digits.None? then None
    else
      var n: int := digits.value;
      Some(if signed && text[0] == '-' then -n else n)
  }

  // ---------------------------------------------------------------- stages

  /** One piece of the setting: blank, not an integer, or a number. */
  datatype Piece = Blank | NotAnInteger | Number(n: int)

  function Read(text: string): Piece {
    var stripped := Strip(text);
    if stripped == "" then Blank
    else match ParseInt(stripped)
      case None => NotAnInteger
      case Some(n) => Number(n)
  }

  const DEFAULT_STAGES: seq<int> := [10, 25, 50, 100]

  /** The setting, piece by piece. */
  function Pieces(raw: string): seq<Piece> {
    Map(Read, Split(raw, ','))
  }

  /** The numbers among the pieces, in order. */
  function Numbers(pieces: seq<Piece>): seq<int> {
    if pieces == [] then []
    else
      var last := pieces[|pieces| - 1];
      var rest := Numbers(pieces[..|pieces| - 1]);
      if last.Number? then rest + [last.n] else rest
  }

  predicate Readable(p: Piece) {
    p.Blank? || (p.Number? && 1 <= p.n <= 100)
  }

  predicate AllReadable(pieces: seq<Piece>) {
    forall i :: 0 <= i < |pieces| ==> Readable(pieces[i])
  }

  /** Stages a rollout may run through: strictly increasing percentages that end with everybody. */
  predicate ValidStages(stages: seq<int>) {
    && stages != []
    && Increasing(IntLess, stages)
    && (forall i :: 0 <= i < |stages| ==> 1 <= stages[i] <= 100)
    && stages[|stages| - 1] == 100
  }

  /** Nothing written means the defaults; any other text is accepted exactly when its pieces are readable and say a list of stages. */
  function ParsedStages(raw: string): (r: Option<seq<int>>)
    ensures r.Some? ==> ValidStages(r.value)
  {
    var pieces := Pieces(raw);
    if raw == "" then Some(DEFAULT_STAGES)
    else if AllReadable(pieces) && ValidStages(Numbers(pieces)) then Some(Numbers(pieces))
    else None
  }

  /** None stands for the ValueError; without a value the environment decides, and without either nothing is written. */
  method ParseRolloutStages(value: Option<string>, environment: Option<string>) returns (r: Option<seq<int>>)
    ensures r == ParsedStages(value.GetOr(environment.GetOr("")))
    ensures r.Some? ==> ValidStages(r.value)
  {
    var raw := value.GetOr(environment.GetOr(""));
    if raw == "" {
      return Some(DEFAULT_STAGES);
    }
    var stages := CollectStages(Pieces(raw));
    if stages.None? {
      return None;
    }
    var accepted := AreStages(stages.value);
    return if accepted then stages else None;
  }

  /** The test on the finished list. */
  method AreStages(stages: seq<int>) returns (accepted: bool)
    requires forall i :: 0 <= i < |stages| ==> 1 <= stages[i] <= 100
    ensures accepted == ValidStages(stages)
  {
    IntOrder();
    SortedIffIncreasing(IntLess, stages);
    return stages != [] && Sorted(IntLess, ToSet(stages)) == stages && stages[|stages| - 1] == 100;
  }

  /** The loop over the pieces: blanks are skipped, anything unreadable raises. */
  method CollectStages(pieces: seq<Piece>) returns (r: Option<seq<int>>)
    ensures r.Some? <==> AllReadable(pieces)
    ensures r.Some? ==> r.value == Numbers(pieces) && forall j :: 0 <= j < |r.value| ==> 1 <= r.value[j] <= 100
  {
    var stages: seq<int> := [];
    var i := 0;
    while i < |pieces|
      invariant 0 <= i <= |pieces|
      invariant stages == Numbers(pieces[..i])
      invariant forall j :: 0 <= j < i ==> Readable(pieces[j])
      invariant forall j :: 0 <= j < |stages| ==> 1 <= stages[j] <= 100
    {
      assert pieces[..i + 1][..i] == pieces[..i];
      match pieces[i] {
        case Blank =>
        case NotAnInteger => return None;
        case Number(n) =>
          if n <= 0 || n > 100 {
            return None;
          }
          stages := stages + [n];
      }
      i := i + 1;
    }
    assert pieces[..|pieces|] == pieces;
    return Some(stages);
  }

  // ---------------------------------------------------------------- what is accepted, on the text

  /** Positive percentages, each larger than the one before, up to 100. */
  lemma ValidStagesIff(stages: seq<int>)
    ensures ValidStages(stages) <==>
      && stages != [] && stages[0] >= 1 && stages[|stages| - 1] == 100
      && forall i, j :: 0 <= i < j < |stages| ==> stages[i] < stages[j]
  {
    if stages != [] && stages[0] >= 1 && stages[|stages| - 1] == 100
       && forall i, j :: 0 <= i < j < |stages| ==> stages[i] < stages[j]
    {
      forall i | 0 <= i < |stages| ensures 1 <= stages[i] <= 100 {
        assert i > 0 ==> stages[0] < stages[i];
        assert i < |stages| - 1 ==> stages[i] < stages[|stages| - 1];
      }
    }
  }

  lemma {:induction false} NumbersMeant(pieces: seq<Piece>, n: int)
    ensures n in Numbers(pieces) <==> Number(n) in pieces
  {
    if pieces != [] {
      var front, last := pieces[..|pieces| - 1], pieces[|pieces| - 1];
      NumbersMeant(front, n);
      assert pieces == front + [last];
    }
  }

  /** A part of the text between two commas, blank or a percentage. */
  predicate Acceptable(part: string) {
    Strip(part) == "" || (ParseInt(Strip(part)).Some? && 1 <= ParseInt(Strip(part)).value <= 100)
  }

  /** A setting with a part that is neither blank nor a percentage is refused. */
  lemma OnePartRefuses(raw: string, part: string)
    requires raw != "" && part in Split(raw, ',') && !Acceptable(part)
    ensures ParsedStages(raw).None?
  {
    var parts := Split(raw, ',');
    var i :| 0 <= i < |parts| && parts[i] == part;
    assert Pieces(raw)[i] == Read(part);
    assert !Readable(Pieces(raw)[i]);
  }

  /** Of an accepted setting every part is blank or a percentage, and the stages are the numbers written, whatever blank parts stand between. */
  lemma {:induction false} AcceptedText(raw: string, n: int)
    requires raw != "" && ParsedStages(raw).Some?
    ensures forall part :: part in Split(raw, ',') ==> Acceptable(part)
    ensures n in ParsedStages(raw).value <==> exists part :: part in Split(raw, ',') && ParseInt(Strip(part)) == Some(n)
  {
    forall part | part in Split(raw, ',') ensures Acceptable(part) {
      if !Acceptable(part) {
        OnePartRefuses(raw, part);
      }
    }
    var parts := Split(raw, ',');
    NumbersMeant(Pieces(raw), n);
    if Number(n) in Pieces(raw) {
      var i :| 0 <= i < |parts| && Pieces(raw)[i] == Number(n);
      assert parts[i] in parts;
    }
    if part :| part in parts && ParseInt(Strip(part)) == Some(n) {
      var i :| 0 <= i < |parts| && parts[i] == part;
      assert Pieces(raw)[i] == Number(n);
    }
  }

  /** And any other list of acceptable parts is accepted as soon as its numbers are stages. */
  lemma AcceptedIff(raw: string)
    requires raw != ""
    ensures ParsedStages(raw).Some? <==> (forall part :: part in Split(raw, ',') ==> Acceptable(part)) && ValidStages(Numbers(Pieces(raw)))
  {
    var parts := Split(raw, ',');
    if forall part :: part in parts ==> Acceptable(part) {
      forall i | 0 <= i < |parts| ensures Readable(Pieces(raw)[i]) {
        assert parts[i] in parts;
      }
    } else {
      var part :| part in parts && !Acceptable(part);
      OnePartRefuses(raw, part);
    }
  }

  // ---------------------------------------------------------------- writing stages and reading them back

  function Decimal(n: nat): (s: string)
    ensures s != "" && forall i :: 0 <= i < |s| ==> DigitChar(s[i])
  {
    if n < 10 then [('0' as int + n) as char] else Decimal(n / 10) + [('0' as int + n % 10) as char]
  }

  lemma {:induction false} DecimalDigits(n: nat)
    ensures DigitsValue(Decimal(n)) == Some(n)
  {
    if n >= 10 {
      DecimalDigits(n / 10);
      var s, front := Decimal(n), Decimal(n / 10);
      assert s[..|s| - 1] == front;
      assert DigitChar(s[|s| - 2]);
    }
  }

  /** str(n) */
  function Written(n: int): string {
    if n < 0 then "-" + Decimal(-n) else Decimal(n)
  }

  lemma ParseDecimal(n: nat)
    ensures ParseInt(Decimal(n)) == Some(n)
  {
    DecimalDigits(n);
    assert DigitChar(Decimal(n)[0]);
  }

  lemma ParseNegative(n: int)
    requires n < 0
    ensures ParseInt(Written(n)) == Some(n)
  {
    DecimalDigits(-n);
    ParseMinus(Decimal(-n), -n);
  }

  lemma ParseMinus(digits: string, n: nat)
    requires DigitsValue(digits) == Some(n)
    ensures ParseInt("-" + digits).Some? && ParseInt("-" + digits).value + n == 0
  {
    assert ("-" + digits)[1..] == digits;
  }

  lemma UnstrippedRead(text: string)
    requires text != "" && !Space(text[0]) && !Space(text[|text| - 1]) && ParseInt(text).Some?
    ensures Read(text) == Number(ParseInt(text).value)
  {
    assert Strip(text) == text;
  }

  lemma WrittenEnds(n: int)
    ensures
      var text := Written(n);
      text != "" && !Space(text[0]) && !Space(text[|text| - 1]) && ',' !in text
  {
    var s := Decimal(if n < 0 then -n else n);
    assert DigitChar(s[0]) && DigitChar(s[|s| - 1]);
    assert Written(n)[|Written(n)| - 1] == s[|s| - 1];
  }

  lemma WrittenRead(n: int)
    ensures Read(Written(n)) == Number(n) && ',' !in Written(n)
  {
    WrittenEnds(n);
    if n < 0 {
      ParseNegative(n);
    } else {
      ParseDecimal(n);
    }
    UnstrippedRead(Written(n));
  }

  function AllWritten(stages: seq<int>): (texts: seq<string>)
    ensures |texts| == |stages|
    ensures forall i :: 0 <= i < |stages| ==> texts[i] == Written(stages[i])
  {
    Map(Written, stages)
  }

  function AsPieces(stages: seq<int>): (pieces: seq<Piece>) {
    Map(n => Number(n), stages)
  }

  lemma {:induction false} NumbersOfStages(stages: seq<int>)
    ensures Numbers(AsPieces(stages)) == stages
  {
    if stages != [] {
      var front := stages[..|stages| - 1];
      NumbersOfStages(front);
      assert AsPieces(stages)[..|stages| - 1] == AsPieces(front);
      assert stages == front + [stages[|stages| - 1]];
    }
  }

  lemma WrittenPieces(stages: seq<int>)
    requires stages != []
    ensures Pieces(Join(AllWritten(stages), ',')) == AsPieces(stages)
    ensures Join(AllWritten(stages), ',') != ""
  {
    var texts := AllWritten(stages);
    assert texts[0] == Written(stages[0]) != "";
    forall i | 0 <= i < |stages| ensures Read(texts[i]) == Number(stages[i]) && ',' !in texts[i] {
      WrittenRead(stages[i]);
    }
    SplitJoin(texts, ',');
  }

  /** A list of integers written with commas in between is read back as that list, if it is one of stages, and refused otherwise; the empty one means the defaults. */
  lemma StagesRoundTrip(stages: seq<int>)
    ensures ParsedStages(Join(AllWritten(stages), ','))
      == if stages == [] then Some(DEFAULT_STAGES) else if ValidStages(stages) then Some(stages) else None
  {
    if stages != [] {
      WrittenPieces(stages);
      NumbersOfStages(stages);
    }
  }

  // ---------------------------------------------------------------- treated workflows

  function StableRolloutBucket(digest: string -> nat, workflowId: string, policyKey: string, rolloutId: string): (r: nat)
    ensures r < 100
  {
    digest(workflowId + "\0" + policyKey + "\0" + rolloutId) % 100
  }

  predicate IsWorkflowInRollout(digest: string -> nat, workflowId: string, policyKey: string, rolloutId: string, percentage: int) {
    StableRolloutBucket(digest, workflowId, policyKey, rolloutId) < percentage
  }

  ghost function Treated(digest: string -> nat, policyKey: string, rolloutId: string, percentage: int): iset<string> {
    iset w: string | IsWorkflowInRollout(digest, w, policyKey, rolloutId, percentage)
  }

  /** Along any parsed list a workflow once treated stays treated, and the last stage treats every workflow. */
  lemma StagesGrow(digest: string -> nat, policyKey: string, rolloutId: string, stages: seq<int>, i: nat, j: nat, workflowId: string)
    requires ValidStages(stages)
    requires i <= j < |stages|
    ensures Treated(digest, policyKey, rolloutId, stages[i]) <= Treated(digest, policyKey, rolloutId, stages[j])
    ensures workflowId in Treated(digest, policyKey, rolloutId, stages[|stages| - 1])
  {
    assert stages[i] <= stages[j] by {
      if i < j { assert stages[i] < stages[j]; }
    }
  }

  /** Each percent adds the workflows of one bucket: nobody at zero, bucket p between p and p + 1. */
  lemma EachPercentOneBucket(digest: string -> nat, policyKey: string, rolloutId: string, p: nat, workflowId: string)
    ensures workflowId !in Treated(digest, policyKey, rolloutId, 0)
    ensures
      (workflowId in Treated(digest, policyKey, rolloutId, p + 1) && workflowId !in Treated(digest, policyKey, rolloutId, p))
      <==> digest(workflowId + "\0" + policyKey + "\0" + rolloutId) % 100 == p
  {
  }

  // ---------------------------------------------------------------- splitting records

  datatype Assignment = Assignment(rolloutId: string, treatment: Option<bool>)

  datatype Record = Record(workflowId: string, assignments: seq<Assignment>)

  /** The first assignment of the record to this rollout. */
  function AssignmentFor(assignments: seq<Assignment>, rolloutId: string): (r: Option<Assignment>)
    ensures r.Some? ==> r.value in assignments && r.value.rolloutId == rolloutId
    ensures r.None? <==> forall a :: a in assignments ==> a.rolloutId != rolloutId
  {
    if assignments == [] then None
    else if assignments[0].rolloutId == rolloutId then Some(assignments[0])
    else AssignmentFor(assignments[1..], rolloutId)
  }

  datatype Side = Treatment | Control | Neither

  /** Treated means the assignment says so; an assigned record that is not treated is control. */
  function SideOf(r: Record, rolloutId: string): Side {
    var assignment := AssignmentFor(r.assignments, rolloutId);
    if assignment.None? then Neither
    else if assignment.value.treatment == Some(true) then Treatment
    else Control
  }

  function Sides(rolloutId: string): Record -> Side {
    (r: Record) => SideOf(r, rolloutId)
  }

  function On(sides: Record -> Side, side: Side): Record -> bool {
    (r: Record) => sides(r) == side
  }

  function Assigned(sides: Record -> Side): Record -> bool {
    (r: Record) => sides(r) != Neither
  }

  lemma FilterPrefix(keep: Record -> bool, records: seq<Record>, i: nat)
    requires i < |records|
    ensures Filter(keep, records[..i + 1]) == Filter(keep, records[..i]) + if keep(records[i]) then [records[i]] else []
  {
    assert records[..i + 1] == records[..i] + [records[i]];
    FilterAppend(keep, records[..i], records[i]);
  }

  method SplitBy(sides: Record -> Side, records: seq<Record>) returns (treatment: seq<Record>, control: seq<Record>)
    ensures treatment == Filter(On(sides, Treatment), records)
    ensures control == Filter(On(sides, Control), records)
  {
    treatment, control := [], [];
    var i := 0;
    while i < |records|
      invariant 0 <= i <= |records|
      invariant treatment == Filter(On(sides, Treatment), records[..i])
      invariant control == Filter(On(sides, Control), records[..i])
    {
      var record := records[i];
      FilterPrefix(On(sides, Treatment), records, i);
      FilterPrefix(On(sides, Control), records, i);
      match sides(record) {
        case Treatment => treatment := treatment + [record];
        case Control => control := control + [record];
        case Neither =>
      }
      i := i + 1;
    }
    assert records[..|records|] == records;
  }

  /** Both sides in input order; SplitPartition says that together they are the assigned records. */
  method SplitRolloutRecords(records: seq<Record>, rolloutId: string) returns (treatment: seq<Record>, control: seq<Record>)
    ensures treatment == Filter(On(Sides(rolloutId), Treatment), records)
    ensures control == Filter(On(Sides(rolloutId), Control), records)
  {
    treatment, control := SplitBy(Sides(rolloutId), records);
  }

  /** Splitting puts every record assigned to the rollout, counted with repetition, on exactly one side. */
  lemma {:induction false} SplitPartition(sides: Record -> Side, records: seq<Record>)
    ensures
      var treatment, control := Filter(On(sides, Treatment), records), Filter(On(sides, Control), records);
      && multiset(treatment) + multiset(control) == multiset(Filter(Assigned(sides), records))
      && (forall r :: r in treatment ==> r !in control)
  {
    if records != [] {
      SplitPartition(sides, records[1..]);
    }
  }

  /** A record is assigned exactly when one of its assignments names the rollout; the first such one decides its side. */
  lemma AssignedMeans(r: Record, rolloutId: string)
    ensures Assigned(Sides(rolloutId))(r) <==> exists a :: a in r.assignments && a.rolloutId == rolloutId
  {
  }

  /** The first of the record's assignments to the rollout stands at i. */
  predicate FirstAssignedAt(r: Record, rolloutId: string, i: nat) {
    && i < |r.assignments| && r.assignments[i].rolloutId == rolloutId
    && forall j :: 0 <= j < i ==> r.assignments[j].rolloutId != rolloutId
  }

  lemma {:induction false} FirstFound(assignments: seq<Assignment>, rolloutId: string, i: nat)
    requires i < |assignments| && assignments[i].rolloutId == rolloutId
    requires forall j :: 0 <= j < i ==> assignments[j].rolloutId != rolloutId
    ensures AssignmentFor(assignments, rolloutId) == Some(assignments[i])
  {
    if i > 0 {
      FirstFound(assignments[1..], rolloutId, i - 1);
    }
  }

  lemma {:induction false} FirstExists(assignments: seq<Assignment>, rolloutId: string) returns (i: nat)
    requires exists a :: a in assignments && a.rolloutId == rolloutId
    ensures i < |assignments| && assignments[i].rolloutId == rolloutId
    ensures forall j :: 0 <= j < i ==> assignments[j].rolloutId != rolloutId
  {
    if assignments[0].rolloutId == rolloutId {
      i := 0;
    } else {
      i := FirstExists(assignments[1..], rolloutId);
      i := i + 1;
    }
  }

  /** A record is treated exactly when its first assignment to the rollout says so, and control when that one does not. */
  lemma SideIff(r: Record, rolloutId: string)
    ensures SideOf(r, rolloutId) == Treatment <==>
      exists i: nat :: FirstAssignedAt(r, rolloutId, i) && r.assignments[i].treatment == Some(true)
    ensures SideOf(r, rolloutId) == Control <==>
      exists i: nat :: FirstAssignedAt(r, rolloutId, i) && r.assignments[i].treatment != Some(true)
  {
    forall i: nat | FirstAssignedAt(r, rolloutId, i) ensures AssignmentFor(r.assignments, rolloutId) == Some(r.assignments[i]) {
      FirstFound(r.assignments, rolloutId, i);
    }
    if exists a :: a in r.assignments && a.rolloutId == rolloutId {
      var i := FirstExists(r.assignments, rolloutId);
      assert FirstAssignedAt(r, rolloutId, i);
    }
  }
}
