/** Hash-bucket allocation of workflows to experiment arms (graph/planner_policy_experiment.py). */
module ExperimentAllocation {
  import opened Prelude

  const BUCKETS: nat := 10000

  /** A dictionary value of the allocation: a number, or something isinstance rejects (bool, string, None). */
  datatype Weight = Number(value: real) | NotANumber

  /** One arm of the allocation, in dictionary order. */
  datatype Arm = Arm(id: string, weight: Weight)

  function Arms(allocation: seq<Arm>): set<string> {
    set i | 0 <= i < |allocation| :: allocation[i].id
  }

  /** A dictionary holds each key once. */
  ghost predicate IsDictionary(allocation: seq<Arm>) {
    forall i, j :: 0 <= i < j < |allocation| ==> allocation[i].id != allocation[j].id
  }

  /** int(value): truncation, which is the floor on the accepted non-negative numbers. */
  function Whole(w: Weight): int {
    if w.NotANumber? then 0
    else if w.value >= 0.0 then w.value.Floor
    else -(-w.value).Floor
  }

  predicate Acceptable(w: Weight) {
    w.Number? && w.value >= 0.0
  }

  /** int() cuts towards zero, and only a number that is not negative is acceptable: zero is, true and "20" are not. */
  lemma WeightsMean(w: Weight)
    ensures Acceptable(w) <==> w.Number? && !(w.value < 0.0)
    ensures w.Number? && w.value >= 0.0 ==> Whole(w) as real <= w.value < Whole(w) as real + 1.0
    ensures w.Number? && w.value <= 0.0 ==> Whole(w) as real - 1.0 < w.value <= Whole(w) as real
  {
  }

  function Total(allocation: seq<Arm>): int {
    if allocation == [] then 0 else Total(allocation[..|allocation| - 1]) + Whole(allocation[|allocation| - 1].weight)
  }

  ghost predicate ValidAllocation(allocation: seq<Arm>, variants: set<string>) {
    && Arms(allocation) == {"control"} + variants
    && (forall i :: 0 <= i < |allocation| ==> Acceptable(allocation[i].weight))
    && Total(allocation) == 100
  }

  /** Raises unless the keys are control plus the variants, every value is a non-negative number and they total 100. */
  method ValidateAllocation(allocation: seq<Arm>, variants: set<string>) returns (ok: bool)
    ensures ok <==> ValidAllocation(allocation, variants)
  {
    if Arms(allocation) != {"control"} + variants {
      return false;
    }
    var total := 0;
    var i := 0;
    while i < |allocation|
      invariant 0 <= i <= |allocation|
      invariant total == Total(allocation[..i])
      invariant forall j :: 0 <= j < i ==> Acceptable(allocation[j].weight)
    {
      if !Acceptable(allocation[i].weight) {
        return false;
      }
      assert allocation[..i + 1][..i] == allocation[..i];
      total := total + Whole(allocation[i].weight);
      i := i + 1;
    }
    assert allocation[..|allocation|] == allocation;
    return total == 100;
  }

  /** First bucket past the first i arms: the value of the source's cursor after i turns. */
  function Cursor(allocation: seq<Arm>, i: nat): int
    requires i <= |allocation|
  {
    100 * Total(allocation[..i])
  }

  /** The cursor once arm i has been counted: the first bucket past its range. */
  function End(allocation: seq<Arm>, i: nat): int
    requires i < |allocation|
  {
    Cursor(allocation, i + 1)
  }

  /** The arm whose range of buckets holds this one; None is the fall-through after the loop. */
  function Slot(allocation: seq<Arm>, bucket: int): (r: Option<nat>)
    ensures r.Some? ==> r.value < |allocation| && bucket < End(allocation, r.value)
    ensures r.Some? ==> forall j :: 0 <= j < r.value ==> End(allocation, j) <= bucket
    ensures r.None? ==> forall j :: 0 <= j < |allocation| ==> End(allocation, j) <= bucket
  {
    SlotFrom(allocation, bucket, 0)
  }

  function SlotFrom(allocation: seq<Arm>, bucket: int, i: nat): (r: Option<nat>)
    requires i <= |allocation|
    requires forall j :: 0 <= j < i ==> End(allocation, j) <= bucket
    ensures r.Some? ==> i <= r.value < |allocation| && bucket < End(allocation, r.value)
    ensures r.Some? ==> forall j :: 0 <= j < r.value ==> End(allocation, j) <= bucket
    ensures r.None? ==> forall j :: 0 <= j < |allocation| ==> End(allocation, j) <= bucket
    decreases |allocation| - i
  {
    if i == |allocation| then None
    else if bucket < End(allocation, i) then Some(i)
    else SlotFrom(allocation, bucket, i + 1)
  }

  /** The bucket of a workflow, from the leading digits of an opaque digest. */
  function ExperimentBucket(digest: string -> nat, experimentId: string, workflowId: string, policyKey: string): (r: nat)
    ensures r < BUCKETS
  {
    digest(experimentId + "\0" + workflowId + "\0" + policyKey) % BUCKETS
  }

  method AssignExperimentVariant(digest: string -> nat, experimentId: string, workflowId: string, policyKey: string,
                                 allocation: seq<Arm>) returns (arm: string)
    ensures
      var slot := Slot(allocation, ExperimentBucket(digest, experimentId, workflowId, policyKey));
      arm == if slot.Some? then allocation[slot.value].id else "control"
  {
    var bucket := ExperimentBucket(digest, experimentId, workflowId, policyKey);
    var cursor := 0;
    var i := 0;
    while i < |allocation|
      invariant 0 <= i <= |allocation|
      invariant cursor == Cursor(allocation, i)
      invariant forall j :: 0 <= j < i ==> End(allocation, j) <= bucket
    {
      assert allocation[..i + 1][..i] == allocation[..i];
      cursor := cursor + Whole(allocation[i].weight) * 100;
      if bucket < cursor {
        SlotUnique(allocation, bucket, i);
        return allocation[i].id;
      }
      i := i + 1;
    }
    return "control";
  }

  lemma SlotUnique(allocation: seq<Arm>, bucket: int, i: nat)
    requires i < |allocation| && bucket < End(allocation, i)
    requires forall j :: 0 <= j < i ==> End(allocation, j) <= bucket
    ensures Slot(allocation, bucket) == Some(i)
  {
  }

  lemma {:induction false} CursorMonotone(allocation: seq<Arm>, i: nat, j: nat)
    requires forall k :: 0 <= k < |allocation| ==> Acceptable(allocation[k].weight)
    requires i <= j <= |allocation|
    ensures 0 <= Cursor(allocation, i) <= Cursor(allocation, j)
    decreases j
  {
    if j > 0 {
      assert allocation[..j][..j - 1] == allocation[..j - 1];
      if i < j {
        CursorMonotone(allocation, i, j - 1);
      } else {
        CursorMonotone(allocation, i - 1, j - 1);
      }
    }
  }

  /** Arm i owns exactly the buckets between the cursor before it and the cursor after it. */
  lemma SlotRange(allocation: seq<Arm>, variants: set<string>, bucket: nat, i: nat)
    requires ValidAllocation(allocation, variants)
    requires i < |allocation|
    ensures Slot(allocation, bucket) == Some(i) <==> Cursor(allocation, i) <= bucket < Cursor(allocation, i + 1)
  {
    if Cursor(allocation, i) <= bucket < Cursor(allocation, i + 1) {
      forall j | 0 <= j < i ensures End(allocation, j) <= bucket {
        CursorMonotone(allocation, j + 1, i);
      }
      SlotUnique(allocation, bucket, i);
    }
    if Slot(allocation, bucket) == Some(i) && i > 0 {
      assert End(allocation, i - 1) <= bucket;
      assert Cursor(allocation, i) == End(allocation, i - 1);
    }
  }

  /** Every bucket below 10000 lands in an arm, so the fallback after the loop is unreachable. */
  lemma FallbackUnreachable(allocation: seq<Arm>, variants: set<string>, bucket: nat)
    requires ValidAllocation(allocation, variants) && bucket < BUCKETS
    ensures Slot(allocation, bucket).Some?
  {
    assert allocation[..|allocation|] == allocation;
    assert allocation != [];
    assert End(allocation, |allocation| - 1) == BUCKETS;
  }

  /** The buckets an arm receives, by the arm's key. */
  function Received(allocation: seq<Arm>, id: string): set<nat> {
    set b: nat | 0 <= b < BUCKETS && Slot(allocation, b).Some? && allocation[Slot(allocation, b).value].id == id
  }

  lemma {:induction false} IntervalSize(s: set<nat>, lo: nat, hi: nat)
    requires lo <= hi
    requires forall b :: b in s <==> lo <= b < hi
    ensures |s| == hi - lo
    decreases hi
  {
    if lo < hi {
      IntervalSize(s - {hi - 1}, lo, hi - 1);
    } else {
      assert s == {};
    }
  }

  /** Each arm receives exactly one hundred buckets for every whole percent: none for zero percent. */
  lemma ArmShare(allocation: seq<Arm>, variants: set<string>, i: nat)
    requires IsDictionary(allocation) && ValidAllocation(allocation, variants)
    requires i < |allocation|
    ensures |Received(allocation, allocation[i].id)| == 100 * Whole(allocation[i].weight)
  {
    var lo, hi := Cursor(allocation, i), Cursor(allocation, i + 1);
    CursorMonotone(allocation, i, i + 1);
    CursorMonotone(allocation, i + 1, |allocation|);
    assert allocation[..|allocation|] == allocation;
    assert allocation[..i + 1][..i] == allocation[..i];
    forall b: nat ensures b in Received(allocation, allocation[i].id) <==> lo <= b < hi {
      SlotRange(allocation, variants, b, i);
    }
    IntervalSize(Received(allocation, allocation[i].id), lo, hi);
  }

  /** The arms share the buckets: none is lost and none is given twice. */
  lemma ArmsPartition(allocation: seq<Arm>, variants: set<string>, bucket: nat)
    requires IsDictionary(allocation) && ValidAllocation(allocation, variants) && bucket < BUCKETS
    ensures exists id :: id in {"control"} + variants && bucket in Received(allocation, id)
    ensures forall a, b :: bucket in Received(allocation, a) && bucket in Received(allocation, b) ==> a == b
  {
    FallbackUnreachable(allocation, variants, bucket);
    var i := Slot(allocation, bucket).value;
    assert allocation[i].id in Arms(allocation);
    assert bucket in Received(allocation, allocation[i].id);
  }
}
