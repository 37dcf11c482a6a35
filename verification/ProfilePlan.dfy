/** examples/offline_profile.py: from a plan of how many requests each engine step
    processes to output lengths of the requests, and back. */
module ProfilePlan {
  import opened Options

  datatype Result<T> = Ok(value: T) | AssertionError | IndexError

  /** An insertion-ordered dictionary from output length to number of requests. */
  datatype Item = Item(length: int, requests: int)
  type OutputLengths = seq<Item>

  ghost function Total(ol: OutputLengths): int {
    if ol == [] then 0 else Total(ol[..|ol| - 1]) + ol[|ol| - 1].requests
  }

  /** The number of requests that are still running in step `length` (counted from 1). */
  ghost function AtLeast(ol: OutputLengths, length: int): int {
    if ol == [] then 0
    else AtLeast(ol[..|ol| - 1], length) + if ol[|ol| - 1].length >= length then ol[|ol| - 1].requests else 0
  }

  /** Each step i processes exactly the requests whose output length exceeds i. */
  ghost predicate Reproduces(ol: OutputLengths, steps: seq<int>) {
    forall i :: 0 <= i < |steps| ==> AtLeast(ol, i + 1) == steps[i]
  }

  /** The plans that can be honoured: everybody takes part in the first step and nobody
      joins later. */
  ghost predicate IsPlan(batchSize: int, steps: seq<int>) {
    && steps != [] && steps[0] == batchSize
    && (forall i :: 0 <= i < |steps| ==> steps[i] >= 0)
    && (forall i, j :: 0 <= i < j < |steps| ==> steps[i] >= steps[j])
  }

  /** Distinct lengths between lo + 1 and hi, latest step first, with at least one request each. */
  ghost predicate WellFormed(ol: OutputLengths, lo: int, hi: int) {
    && (forall k :: 0 <= k < |ol| ==> lo < ol[k].length <= hi && ol[k].requests > 0)
    && (forall j, k :: 0 <= j < k < |ol| ==> ol[j].length > ol[k].length)
  }

  lemma {:induction false} AtLeastBounds(ol: OutputLengths, lo: int, hi: int, length: int)
    requires forall k :: 0 <= k < |ol| ==> lo < ol[k].length <= hi && ol[k].requests > 0
    ensures 0 <= AtLeast(ol, length + 1) <= AtLeast(ol, length) <= Total(ol)
    ensures length <= lo + 1 ==> AtLeast(ol, length) == Total(ol)
    ensures length > hi ==> AtLeast(ol, length) == 0
  {
    if ol != [] {
      AtLeastBounds(ol[..|ol| - 1], lo, hi, length);
    }
  }

  /** The state after the steps from `pos` on have been handled. */
  ghost predicate Assigned(ol: OutputLengths, steps: seq<int>, pos: nat) {
    && pos <= |steps|
    && WellFormed(ol, pos, |steps|)
    && Total(ol) == Done(steps, pos)
    && forall i :: pos <= i < |steps| ==> AtLeast(ol, i + 1) == steps[i]
  }

  /** The number of requests assigned so far. */
  ghost function Done(steps: seq<int>, pos: nat): int {
    if pos < |steps| then steps[pos] else 0
  }

  lemma AddItem(ol: OutputLengths, pos: int, n: int, length: int)
    ensures AtLeast(ol + [Item(pos, n)], length) == AtLeast(ol, length) + if pos >= length then n else 0
    ensures Total(ol + [Item(pos, n)]) == Total(ol) + n
  {
    assert (ol + [Item(pos, n)])[..|ol|] == ol;
  }

  lemma AssignStep(ol: OutputLengths, steps: seq<int>, pos: nat)
    requires Assigned(ol, steps, pos) && pos > 0 && steps[pos - 1] >= Total(ol)
    ensures var n := steps[pos - 1] - Total(ol);
            Assigned(if n > 0 then ol + [Item(pos, n)] else ol, steps, pos - 1)
  {
    hide AtLeast, Total;
    var n := steps[pos - 1] - Total(ol);
    var next := if n > 0 then ol + [Item(pos, n)] else ol;
    AtLeastBounds(ol, pos, |steps|, pos);
    AddItem(ol, pos, n, pos);
    forall i | pos - 1 <= i < |steps|
      ensures AtLeast(next, i + 1) == steps[i]
    {
      AddItem(ol, pos, n, i + 1);
    }
  }

  lemma DoneBounds(ol: OutputLengths, steps: seq<int>, pos: nat)
    requires Assigned(ol, steps, pos)
    ensures Total(ol) == Done(steps, pos) >= 0
  {
    AtLeastBounds(ol, pos, |steps|, 0);
  }

  /** What a plan needs of the steps before `pos` and after it. */
  lemma StopsEarly(ol: OutputLengths, steps: seq<int>, pos: nat, batchSize: int)
    requires Assigned(ol, steps, pos) && steps != [] && steps[0] == batchSize && Total(ol) == batchSize
    ensures IsPlan(batchSize, steps) <==> Reproduces(ol, steps)
    ensures WellFormed(ol, 0, |steps|)
  {
    hide AtLeast, Total;
    if IsPlan(batchSize, steps) {
      forall i | 0 <= i < |steps|
        ensures AtLeast(ol, i + 1) == steps[i]
      {
        if i < pos {
          AtLeastBounds(ol, pos, |steps|, i + 1);
          assert pos < |steps| ==> steps[0] >= steps[i] >= steps[pos];
        }
      }
    }
    if Reproduces(ol, steps) {
      forall i, j | 0 <= i <= j < |steps|
        ensures steps[i] >= steps[j] >= 0
      {
        AtLeastBounds(ol, pos, |steps|, j + 1);
        AtLeastFalls(ol, pos, |steps|, i + 1, j + 1);
      }
    }
  }

  lemma {:induction false} AtLeastFalls(ol: OutputLengths, lo: int, hi: int, l: int, m: int)
    requires forall k :: 0 <= k < |ol| ==> lo < ol[k].length <= hi && ol[k].requests > 0
    requires l <= m
    ensures AtLeast(ol, l) >= AtLeast(ol, m)
  {
    if ol != [] {
      AtLeastFalls(ol[..|ol| - 1], lo, hi, l, m);
    }
  }

  /** `compute_request_output_lengths`.  It succeeds with output lengths that reproduce
      the steps exactly when the steps form a plan. */
  method ComputeRequestOutputLengths(batchSize: int, steps: seq<int>) returns (r: Result<OutputLengths>)
    ensures r.IndexError? <==> steps == []
    ensures r.Ok? ==> WellFormed(r.value, 0, |steps|) && Total(r.value) == batchSize
    ensures IsPlan(batchSize, steps) <==> r.Ok? && Reproduces(r.value, steps)
  {
    if steps == [] {
      return IndexError;
    }
    if steps[0] != batchSize {
      return AssertionError;
    }
    hide Assigned, IsPlan, Reproduces, WellFormed, AtLeast, Total, Done;
    var ol: OutputLengths := [];
    NothingAssigned(steps);
    var numAssigned, outputLength := 0, |steps|;
    while outputLength > 0 && numAssigned != batchSize
      invariant 0 <= outputLength <= |steps|
      invariant Assigned(ol, steps, outputLength) && numAssigned == Total(ol)
    {
      DoneBounds(ol, steps, outputLength);
      if !(numAssigned < batchSize) {
        NotAPlan(steps, outputLength, batchSize);
        return AssertionError;
      }
      var numUnassigned := steps[outputLength - 1] - numAssigned;
      if !(numUnassigned >= 0) {
        NotAPlan(steps, outputLength, batchSize);
        return AssertionError;
      }
      AssignStep(ol, steps, outputLength);
      AddItem(ol, outputLength, numUnassigned, 0);
      if numUnassigned > 0 {
        ol := ol + [Item(outputLength, numUnassigned)];
        numAssigned := numAssigned + numUnassigned;
      }
      outputLength := outputLength - 1;
    }
    AllAssigned(ol, steps, outputLength, batchSize);
    StopsEarly(ol, steps, outputLength, batchSize);
    r := Ok(ol);
  }

  lemma NothingAssigned(steps: seq<int>)
    ensures Assigned([], steps, |steps|) && Total([]) == 0
  {
  }

  lemma AllAssigned(ol: OutputLengths, steps: seq<int>, pos: nat, batchSize: int)
    requires Assigned(ol, steps, pos) && steps != [] && steps[0] == batchSize
    requires pos == 0 || Total(ol) == batchSize
    ensures Total(ol) == batchSize
  {
  }

  lemma NotAPlan(steps: seq<int>, pos: nat, batchSize: int)
    requires 0 < pos <= |steps| && steps[0] == batchSize
    requires Done(steps, pos) > batchSize || steps[pos - 1] < Done(steps, pos)
    ensures !IsPlan(batchSize, steps)
  {
  }

  // ----- the plans

  /** `determine_requests_per_step`: all steps alike, or dropping a fixed number of
      requests per step after the first decode step and ending with one request. */
  method DetermineRequestsPerStep(batchSize: int, numSteps: Option<int>, completePerStep: Option<int>)
    returns (r: Result<seq<int>>)
    ensures r.Ok? || r.AssertionError?
    ensures r.AssertionError? <==>
            !(numSteps.Some? && numSteps.value != 0) && !(completePerStep.Some? && completePerStep.value > 0)
    ensures r.Ok? && batchSize >= 1 ==> r.value == [] || IsPlan(batchSize, r.value)
    ensures r.Ok? && r.value == [] ==> numSteps.Some? && numSteps.value < 0
    ensures numSteps.Some? && numSteps.value > 0 ==> r == Ok(seq(numSteps.value, _ => batchSize))
    ensures r.Ok? && !(numSteps.Some? && numSteps.value != 0) && batchSize >= 1 ==>
              DropsTo(r.value, batchSize, completePerStep.value)
  {
    if numSteps.Some? && numSteps.value != 0 {
      return Ok(seq(if numSteps.value > 0 then numSteps.value else 0, _ => batchSize));
    }
    if !(completePerStep.Some? && completePerStep.value > 0) {
      return AssertionError;
    }
    var drop := completePerStep.value;
    var steps := [batchSize, batchSize];
    var running := batchSize - drop;
    while running > 0
      invariant |steps| >= 2 && steps[1] == batchSize && running == steps[|steps| - 1] - drop
      invariant batchSize >= 1 ==> IsPlan(batchSize, steps) && steps[|steps| - 1] >= 1
      invariant forall i :: 1 <= i < |steps| - 1 ==> StepDown(steps, i, drop)
      decreases running
    {
      ghost var was := steps;
      steps := steps + [running];
      running := running - drop;
      forall i | 1 <= i < |steps| - 1
        ensures StepDown(steps, i, drop)
      {
        assert i < |was| - 1 ==> StepDown(was, i, drop);
      }
    }
    ghost var was := steps;
    if steps[|steps| - 1] != 1 {
      steps := steps + [1];
    }
    forall i | 1 <= i < |steps| - 2
      ensures StepDown(steps, i, drop)
    {
      assert StepDown(was, i, drop);
    }
    r := Ok(steps);
  }

  ghost predicate StepDown(steps: seq<int>, i: nat, drop: int)
    requires i + 1 < |steps|
  {
    steps[i + 1] == steps[i] - drop
  }

  /** Two full steps, then `drop` requests fewer per step, and one request at the end. */
  ghost predicate DropsTo(steps: seq<int>, batchSize: int, drop: int) {
    && |steps| >= 2 && steps[0] == steps[1] == batchSize && steps[|steps| - 1] == 1
    && (forall i :: 1 <= i < |steps| - 2 ==> StepDown(steps, i, drop))
    && (|steps| >= 3 ==> StepDown(steps, |steps| - 2, drop) || steps[|steps| - 2] <= drop)
  }

  // ----- handing out the lengths

  ghost function CountAtLeast(lengths: seq<int>, length: int): nat {
    if lengths == [] then 0
    else CountAtLeast(lengths[..|lengths| - 1], length) + if lengths[|lengths| - 1] >= length then 1 else 0
  }

  /** The generator in `add_requests`: every length as often as the dictionary says. */
  method GenerateOutputLengths(ol: OutputLengths) returns (lengths: seq<int>)
    requires forall k :: 0 <= k < |ol| ==> ol[k].requests >= 0
    ensures |lengths| == Total(ol)
    ensures forall l :: CountAtLeast(lengths, l) == AtLeast(ol, l)
  {
    lengths := [];
    for k := 0 to |ol|
      invariant |lengths| == Total(ol[..k])
      invariant forall l :: CountAtLeast(lengths, l) == AtLeast(ol[..k], l)
    {
      ghost var before := lengths;
      for j := 0 to ol[k].requests
        invariant |lengths| == |before| + j
        invariant forall l :: CountAtLeast(lengths, l) == CountAtLeast(before, l) + if ol[k].length >= l then j else 0
      {
        ghost var was := lengths;
        lengths := lengths + [ol[k].length];
        assert lengths[..|was|] == was;
      }
      assert ol[..k + 1][..k] == ol[..k];
    }
    assert ol[..|ol|] == ol;
  }

  /** The two functions undo each other: for every batch size of at least one and both
      planning modes, `batchSize` lengths are handed out and step i of the plan runs
      exactly the requests whose length exceeds i. */
  method PlanAndAssign(batchSize: int, numSteps: Option<int>, completePerStep: Option<int>)
    returns (steps: seq<int>, lengths: seq<int>)
    requires batchSize >= 1
    requires (numSteps.Some? && numSteps.value > 0) ||
             (!(numSteps.Some? && numSteps.value != 0) && completePerStep.Some? && completePerStep.value > 0)
    ensures steps != [] && steps[0] == batchSize
    ensures |lengths| == batchSize
    ensures forall i :: 0 <= i < |steps| ==> CountAtLeast(lengths, i + 1) == steps[i]
  {
    var plan := DetermineRequestsPerStep(batchSize, numSteps, completePerStep);
    steps := plan.value;
    var ol := ComputeRequestOutputLengths(batchSize, steps);
    lengths := GenerateOutputLengths(ol.value);
  }
}
