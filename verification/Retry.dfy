/** Bounded whole-trajectory retries, and the filter that fails a batch on an exhausted one. */
module Retry {
  import opened Wrappers
  import opened JsonValues
  import Loop = AttemptLoop

  datatype Status = Pending | Completed | Truncated | Aborted

  /** The state of a sample that retries look at. */
  datatype View = View(status: Status, metadata: Option<map<string, Json>>)

  class Sample {
    const index: int
    var status: Status
    var metadata: Option<map<string, Json>>

    constructor (index: int, view: View)
      ensures this.index == index && Now() == view
    {
      this.index := index;
      status, metadata := view.status, view.metadata;
    }

    function Now(): View
      reads this
    {
      View(status, metadata)
    }
  }

  // ---------------------------------------------------------------- nested outputs

  /** A generator returns a sample or arbitrarily nested lists of samples. */
  datatype Tree<T> = Leaf(value: T) | Node(children: seq<Tree<T>>)

  function Leaves<T>(tree: Tree<T>): seq<T>
    decreases tree, 1
  {
    match tree
    case Leaf(value) => [value]
    case Node(children) => LeavesOfAll(children)
  }

  function LeavesOfAll<T>(trees: seq<Tree<T>>): seq<T>
    decreases trees, 0
  {
    if |trees| == 0 then [] else Leaves(trees[0]) + LeavesOfAll(trees[1..])
  }

  lemma {:induction false} InSomeTree<T>(trees: seq<Tree<T>>, x: T)
    ensures x in LeavesOfAll(trees) <==> exists i :: 0 <= i < |trees| && x in Leaves(trees[i])
  {
    if |trees| > 0 {
      InSomeTree(trees[1..], x);
      if i :| 0 <= i < |trees| && x in Leaves(trees[i]) {
        if i > 0 { assert trees[1..][i-1] == trees[i]; }
      }
      if i :| 0 <= i < |trees[1..]| && x in Leaves(trees[1..][i]) {
        assert trees[i+1] == trees[1..][i];
      }
    }
  }

  /** Leaves are listed in the order of the nesting. */
  lemma {:induction false} LeavesInOrder<T>(x: T, a: seq<Tree<T>>, b: seq<Tree<T>>)
    ensures Leaves(Leaf(x)) == [x] && Leaves(Tree<T>.Node([])) == []
    ensures Leaves(Node(a + b)) == Leaves(Node(a)) + Leaves(Node(b))
    ensures forall tree: Tree<T> :: Leaves(Node([tree])) == Leaves(tree)
  {
    forall tree: Tree<T> ensures Leaves(Node([tree])) == Leaves(tree) {
      assert [tree][0] == tree && [tree][1..] == [];
      assert LeavesOfAll([tree]) == Leaves([tree][0]) + LeavesOfAll([tree][1..]);
    }
    if |a| == 0 {
      assert a + b == b;
    } else {
      assert (a + b)[0] == a[0] && (a + b)[1..] == a[1..] + b;
      LeavesInOrder(x, a[1..], b);
      assert Leaves(Node(a)) == Leaves(a[0]) + Leaves(Node(a[1..]));
    }
  }

  // ---------------------------------------------------------------- judging an output

  predicate LeafFails(view: View) {
    view.status == Aborted || view.metadata == None || "exit_status" !in view.metadata.value ||
    !Truthy(view.metadata.value["exit_status"]) || view.metadata.value["exit_status"] == Str("error")
  }

  predicate OutputFails(views: seq<View>) {
    |views| == 0 || exists k :: 0 <= k < |views| && LeafFails(views[k])
  }

  /** A leaf that ran to its end and reports a status that is neither empty nor an error. */
  ghost predicate Reports(view: View) {
    && view.status != Aborted && view.metadata.Some? && "exit_status" in view.metadata.value
    && view.metadata.value["exit_status"]
       !in {Null, Bool(false), Num(0.0), Str(""), Arr([]), Obj(map[]), Str("error")}
  }

  ghost predicate AllReport(views: seq<View>) {
    |views| > 0 && forall k :: 0 <= k < |views| ==> Reports(views[k])
  }

  lemma LeafFailsExactly(view: View)
    ensures LeafFails(view) <==> !Reports(view)
  {
    if view.metadata.Some? && "exit_status" in view.metadata.value {
      var value := view.metadata.value["exit_status"];
      assert value.Arr? ==> (value.items == [] <==> |value.items| == 0);
      assert value.Obj? ==> (value.fields == map[] <==> |value.fields| == 0);
    }
  }

  /** An output is refused unless it has leaves and every one of them reports. */
  lemma OutputFailsExactly(views: seq<View>)
    ensures OutputFails(views) <==> !AllReport(views)
  {
    forall k | 0 <= k < |views| ensures LeafFails(views[k]) <==> !Reports(views[k]) {
      LeafFailsExactly(views[k]);
    }
    hide LeafFails, Reports;
  }

  datatype Reason =
    | NoAttempt | EmptyTrajectory | AbortedTrajectory
    | BadResult(status: Option<Json>)
    | Exception(text: string)

  function FirstFailure(views: seq<View>): (r: Option<Reason>)
    ensures r.Some? <==> exists k :: 0 <= k < |views| && LeafFails(views[k])
  {
    if |views| == 0 then None
    else if views[0].status == Aborted then
      assert LeafFails(views[0]);
      Some(AbortedTrajectory)
    else if LeafFails(views[0]) then
      Some(BadResult(if views[0].metadata.Some? && "exit_status" in views[0].metadata.value
                     then Some(views[0].metadata.value["exit_status"]) else None))
    else
      assert forall k :: 1 <= k < |views| ==> views[k] == views[1..][k-1];
      FirstFailure(views[1..])
  }

  /** The reason is that of the first failing leaf. */
  function FailureReason(views: seq<View>): (r: Option<Reason>)
    ensures r.Some? <==> OutputFails(views)
  {
    if |views| == 0 then Some(EmptyTrajectory) else FirstFailure(views)
  }

  function ExitStatus(view: View): Option<Json> {
    if view.metadata.Some? && "exit_status" in view.metadata.value then Some(view.metadata.value["exit_status"])
    else None
  }

  /** The reason for a refusal is the first leaf that does not report. */
  lemma {:induction false} ReasonIsFirst(views: seq<View>, k: nat)
    requires k < |views| && !Reports(views[k]) && forall j :: 0 <= j < k ==> Reports(views[j])
    ensures FailureReason(views)
         == Some(if views[k].status == Aborted then AbortedTrajectory else BadResult(ExitStatus(views[k])))
    ensures FailureReason([]) == Some(EmptyTrajectory)
  {
    LeafFailsExactly(views[0]);
    if k > 0 {
      assert forall j :: 0 <= j < k - 1 ==> views[1..][j] == views[j+1];
      ReasonIsFirst(views[1..], k - 1);
    }
  }

  // ---------------------------------------------------------------- the generator

  /** A leaf of the output: the sample the generator was given, or another one. */
  datatype LeafPlan = TheCopy | Other(index: int, view: View)

  datatype Ending = Returns(output: Tree<LeafPlan>) | Raises(text: string) | IsCancelled

  /** What one generator call does: how it leaves the sample it was given, and how it ends. */
  datatype Behavior = Behavior(leaves: View, ending: Ending)

  function PlannedView(plan: LeafPlan, copy: View): View {
    match plan case TheCopy => copy case Other(_, view) => view
  }

  function PlannedViews(plans: seq<LeafPlan>, copy: View): (r: seq<View>)
    ensures |r| == |plans| && forall k :: 0 <= k < |r| ==> r[k] == PlannedView(plans[k], copy)
  {
    seq(|plans|, k requires 0 <= k < |plans| => PlannedView(plans[k], copy))
  }

  /** The attempt ends with an output that is not accepted, or with an exception. */
  predicate AttemptFails(b: Behavior) {
    match b.ending
    case Returns(output) => OutputFails(PlannedViews(Leaves(output), b.leaves))
    case Raises(_) => true
    case IsCancelled => false
  }

  function ReasonOf(b: Behavior): Reason
    requires AttemptFails(b)
  {
    match b.ending
    case Returns(output) => FailureReason(PlannedViews(Leaves(output), b.leaves)).value
    case Raises(text) => Exception(text)
  }

  ghost predicate MatchesPlan(sample: Sample, plan: LeafPlan, copy: Sample)
    reads sample
  {
    match plan
    case TheCopy => sample == copy
    case Other(index, view) => sample.index == index && sample.Now() == view
  }

  ghost predicate Matches(samples: seq<Sample>, plans: seq<LeafPlan>, copy: Sample)
    reads samples
  {
    |samples| == |plans| && forall k :: 0 <= k < |plans| ==> MatchesPlan(samples[k], plans[k], copy)
  }

  lemma MatchesConcat(a: seq<Sample>, b: seq<Sample>, p: seq<LeafPlan>, q: seq<LeafPlan>, copy: Sample)
    requires Matches(a, p, copy) && Matches(b, q, copy)
    ensures Matches(a + b, p + q, copy)
  {
    hide MatchesPlan;
  }

  method Build(plan: Tree<LeafPlan>, copy: Sample) returns (output: Tree<Sample>)
    ensures Matches(Leaves(output), Leaves(plan), copy)
    ensures forall s :: s in Leaves(output) ==> s == copy || fresh(s)
    decreases plan, 1
  {
    match plan
    case Leaf(TheCopy) => output := Leaf(copy);
    case Leaf(Other(index, view)) =>
      var sample := new Sample(index, view);
      output := Leaf(sample);
    case Node(children) =>
      var built := BuildAll(children, copy);
      output := Node(built);
  }

  method BuildAll(plans: seq<Tree<LeafPlan>>, copy: Sample) returns (outputs: seq<Tree<Sample>>)
    ensures Matches(LeavesOfAll(outputs), LeavesOfAll(plans), copy)
    ensures forall s :: s in LeavesOfAll(outputs) ==> s == copy || fresh(s)
    decreases plans, 0
  {
    if |plans| == 0 {
      return [];
    }
    var first := Build(plans[0], copy);
    ghost var placed := Leaves(first);
    assert Matches(placed, Leaves(plans[0]), copy);
    var rest := BuildAll(plans[1..], copy);
    outputs := [first] + rest;
    assert outputs[0] == first && outputs[1..] == rest;
    forall k | 0 <= k < |placed| ensures MatchesPlan(placed[k], Leaves(plans[0])[k], copy) {
      assert placed[k] in placed;
    }
    MatchesConcat(Leaves(first), LeavesOfAll(rest), Leaves(plans[0]), LeavesOfAll(plans[1..]), copy);
  }

  ghost function Views(samples: seq<Sample>): (r: seq<View>)
    reads samples
    ensures |r| == |samples| && forall k :: 0 <= k < |r| ==> r[k] == samples[k].Now()
  {
    seq(|samples|, k requires 0 <= k < |samples| reads samples => samples[k].Now())
  }

  datatype CallResult = Output(samples: Tree<Sample>) | Exn(text: string) | CancelledCall

  /** The generator mutates the sample it is given, and may hand it back among its output. */
  method CallGenerator(copy: Sample, b: Behavior) returns (r: CallResult)
    modifies copy
    ensures r.CancelledCall? <==> b.ending == IsCancelled
    ensures r.Exn? <==> b.ending.Raises?
    ensures r.Exn? ==> r.text == b.ending.text
    ensures r.Output? ==> b.ending.Returns? && forall s :: s in Leaves(r.samples) ==> s == copy || fresh(s)
    ensures r.Output? ==> Views(Leaves(r.samples)) == PlannedViews(Leaves(b.ending.output), b.leaves)
  {
    copy.status, copy.metadata := b.leaves.status, b.leaves.metadata;
    match b.ending
    case IsCancelled => return CancelledCall;
    case Raises(text) => return Exn(text);
    case Returns(plan) =>
      var output := Build(plan, copy);
      r := Output(output);
      assert copy.Now() == b.leaves;
  }

  // ---------------------------------------------------------------- bounded retries

  datatype Generated = Finished(samples: Tree<Sample>) | Cancelled

  /** Everything outside the retry loop: what each call does, whether the run is aborted or the
      task cancelled when attempt `k` is about to start, and whether it is cancelled when the
      call of attempt `k` has returned (attempts count from zero here); and how a status reads in
      a failure text. */
  datatype World = World(
    call: nat -> Behavior, halted: nat -> bool, cancelled: nat -> bool, quote: Option<Json> -> string)

  predicate RetriesAfter(world: World, k: nat) {
    var behavior := world.call(k);
    AttemptFails(behavior) && (behavior.ending.Returns? ==> !world.cancelled(k))
  }

  predicate Succeeds(world: World, k: nat) {
    world.call(k).ending.Returns? && !world.cancelled(k) && !AttemptFails(world.call(k))
  }

  function EndOf(b: Behavior): Loop.CallEnd {
    match b.ending
    case Returns(_) => Loop.GaveOutput(!AttemptFails(b))
    case Raises(_) => Loop.Threw
    case IsCancelled => Loop.GotCancelled
  }

  /** What the attempt loop observes of the world up to some head and call. */
  function Seen(world: World, heads: nat, calls: nat): (h: Loop.History)
    ensures |h.heads| == heads && |h.calls| == calls
    ensures forall k :: 0 <= k < heads ==> h.heads[k] == world.halted(k)
    ensures forall k :: 0 <= k < calls ==> h.calls[k] == Loop.Return(EndOf(world.call(k)), world.cancelled(k))
  {
    Loop.History(seq(heads, k requires 0 <= k < heads => world.halted(k)),
                 seq(calls, k requires 0 <= k < calls => Loop.Return(EndOf(world.call(k)), world.cancelled(k))))
  }

  lemma SameMeaning(world: World, k: nat)
    ensures var r := Loop.Return(EndOf(world.call(k)), world.cancelled(k));
            (RetriesAfter(world, k) <==> Loop.MeaningOf(r) == Loop.Retries) &&
            (Succeeds(world, k) <==> Loop.MeaningOf(r) == Loop.Accepts)
  {
  }

  /** The loop ran on: `calls` calls, all of them to be retried. */
  ghost predicate RanOn(world: World, calls: nat) {
    forall k :: 0 <= k < calls ==> !world.halted(k) && RetriesAfter(world, k)
  }

  lemma LoopEndsAtHead(world: World, attempts: nat, calls: nat)
    requires RanOn(world, calls) && calls <= attempts
    ensures calls == attempts ==> Loop.Over(Seen(world, calls, calls), attempts, Loop.GaveUp)
    ensures calls < attempts && world.halted(calls) ==>
      Loop.Over(Seen(world, calls + 1, calls), attempts, Loop.WasCancelled)
  {
    hide RetriesAfter, EndOf;
    forall k | 0 <= k < calls ensures Loop.MeaningOf(Seen(world, calls, calls).calls[k]) == Loop.Retries {
      SameMeaning(world, k);
    }
    assert Loop.WentOn(Seen(world, calls, calls), calls, calls);
    assert calls < attempts && world.halted(calls) ==>
      Loop.OverAtHead(Seen(world, calls + 1, calls), attempts, Loop.WasCancelled);
  }

  lemma LoopEndsAfterCall(world: World, attempts: nat, calls: nat)
    requires RanOn(world, calls) && calls < attempts && !world.halted(calls)
    ensures Succeeds(world, calls) ==> Loop.Over(Seen(world, calls + 1, calls + 1), attempts, Loop.Succeeded)
    ensures !Succeeds(world, calls) && !RetriesAfter(world, calls) ==>
      Loop.Over(Seen(world, calls + 1, calls + 1), attempts, Loop.WasCancelled)
  {
    hide RetriesAfter, Succeeds, EndOf;
    var h := Seen(world, calls + 1, calls + 1);
    forall k | 0 <= k < calls ensures Loop.MeaningOf(h.calls[k]) == Loop.Retries {
      SameMeaning(world, k);
    }
    SameMeaning(world, calls);
    assert Loop.WentOn(h, calls + 1, calls);
  }

  ghost predicate GoodLeaf(sample: Sample, attempt: nat)
    reads sample
  {
    !LeafFails(sample.Now()) && "rollout_attempts" in sample.metadata.value &&
    sample.metadata.value["rollout_attempts"] == Num(attempt as real)
  }

  /** An accepted output: no leaf failed, and every leaf records the attempt. */
  ghost predicate GoodOutput(samples: Tree<Sample>, attempt: nat)
    reads Leaves(samples)
  {
    |Leaves(samples)| > 0 && forall s :: s in Leaves(samples) ==> GoodLeaf(s, attempt)
  }

  /** One aborted sample in the input's stead. */
  ghost predicate ExhaustedOutput(samples: Tree<Sample>, input: Sample, attempts: nat, failure: string)
    reads Leaves(samples), input
  {
    samples.Leaf? &&
    var sample := samples.value;
    assert sample in Leaves(samples);
    sample.index == input.index && sample.status == Aborted && sample.metadata.Some? &&
    var before, after := if input.metadata.Some? then input.metadata.value else map[], sample.metadata.value;
    && "rft_retry_exhausted" in after && after["rft_retry_exhausted"] == Bool(true)
    && "rollout_attempts" in after && after["rollout_attempts"] == Num(attempts as real)
    && "rollout_failure" in after && after["rollout_failure"] == Str(failure)
    && after - {"rft_retry_exhausted", "rollout_attempts", "rollout_failure"}
       == before - {"rft_retry_exhausted", "rollout_attempts", "rollout_failure"}
  }

  datatype Attempted = Accepted(samples: Tree<Sample>) | Rejected(why: Reason) | Stopped

  method ReadViews(samples: seq<Sample>) returns (views: seq<View>)
    ensures views == Views(samples)
  {
    views := [];
    for k := 0 to |samples|
      invariant views == Views(samples)[..k]
    {
      views := views + [samples[k].Now()];
    }
  }

  /** Record the attempt in every leaf of an accepted output. */
  method Mark(leaves: seq<Sample>, attempt: nat)
    requires !OutputFails(Views(leaves))
    modifies leaves
    ensures forall s :: s in leaves ==> GoodLeaf(s, attempt)
    ensures forall s :: s in leaves ==> s.status == old(s.status) && s.metadata.Some? && old(s.metadata).Some?
    ensures forall s :: s in leaves ==>
      s.metadata.value == old(s.metadata).value["rollout_attempts" := Num(attempt as real)]
  {
    assert forall s :: s in leaves ==> !LeafFails(s.Now()) by {
      forall s | s in leaves ensures !LeafFails(s.Now()) {
        var k :| 0 <= k < |leaves| && leaves[k] == s;
        assert !LeafFails(Views(leaves)[k]);
      }
    }
    for k := 0 to |leaves|
      invariant forall s :: s in leaves ==> s.status == old(s.status) && s.metadata.Some? && old(s.metadata).Some?
      invariant forall s :: s in leaves ==>
        s.metadata.value["rollout_attempts" := Num(attempt as real)]
          == old(s.metadata).value["rollout_attempts" := Num(attempt as real)]
      invariant forall s :: s in leaves[..k] ==>
        s.metadata.value == old(s.metadata).value["rollout_attempts" := Num(attempt as real)]
    {
      var sample := leaves[k];
      sample.metadata := Some(sample.metadata.value["rollout_attempts" := Num(attempt as real)]);
    }
    assert leaves[..|leaves|] == leaves;
  }

  /** One attempt, on a copy of the input made for it alone. */
  method Attempt(input: Sample, behavior: Behavior, cancelled: bool, attempt: nat) returns (r: Attempted)
    ensures r.Rejected? <==> AttemptFails(behavior) && (behavior.ending.Returns? ==> !cancelled)
    ensures r.Rejected? ==> r.why == ReasonOf(behavior)
    ensures r.Accepted? <==> behavior.ending.Returns? && !cancelled && !AttemptFails(behavior)
    ensures r.Accepted? ==> GoodOutput(r.samples, attempt) && forall s :: s in Leaves(r.samples) ==> fresh(s)
  {
    var copy := new Sample(input.index, input.Now());
    var result := CallGenerator(copy, behavior);
    match result
    case CancelledCall => return Stopped;
    case Exn(text) => return Rejected(Exception(text));
    case Output(samples) =>
      if cancelled {
        return Stopped;
      }
      var leaves := Leaves(samples);
      assert forall s :: s in leaves ==> fresh(s);
      forall k | 0 <= k < |leaves| ensures fresh(leaves[k]) {
        assert leaves[k] in leaves;
      }
      assert Views(leaves) == PlannedViews(Leaves(behavior.ending.output), behavior.leaves);
      var views := ReadViews(leaves);
      assert views == PlannedViews(Leaves(behavior.ending.output), behavior.leaves);
      var failure := FailureReason(views);
      assert failure.Some? ==> failure.value == ReasonOf(behavior);
      if failure == None {
        Mark(leaves, attempt);
        return Accepted(samples);
      }
      return Rejected(failure.value);
  }

  method Exhaust(input: Sample, attempts: nat, failure: string) returns (output: Tree<Sample>)
    ensures ExhaustedOutput(output, input, attempts, failure)
    ensures forall s :: s in Leaves(output) ==> fresh(s)
  {
    var before := if input.metadata.Some? then input.metadata.value else map[];
    var extra := map["rft_retry_exhausted" := Bool(true), "rollout_attempts" := Num(attempts as real),
                     "rollout_failure" := Str(failure)];
    var sample := new Sample(input.index, View(Aborted, Some(before + extra)));
    output := Leaf(sample);
  }

  function Describe(reason: Reason, quote: Option<Json> -> string): string {
    match reason
    case NoAttempt => "no attempt"
    case EmptyTrajectory => "empty trajectory"
    case AbortedTrajectory => "aborted trajectory"
    case BadResult(status) => "missing or failed RFT result: " + quote(status)
    case Exception(text) => text
  }

  /** What `Generate` can have left for one trajectory: an accepted output, or the aborted
      sample of an exhausted one. */
  ghost predicate Completed(output: Tree<Sample>, input: Sample, attempts: nat, exhausted: bool)
    reads Leaves(output), input
  {
    if exhausted then exists failure :: ExhaustedOutput(output, input, attempts, failure)
    else exists attempt :: 1 <= attempt <= attempts && GoodOutput(output, attempt)
  }

  /** The call comes back, uncancelled, with leaves that all report. */
  ghost predicate ReturnsAllReporting(world: World, k: nat) {
    var b := world.call(k);
    b.ending.Returns? && !world.cancelled(k) && AllReport(PlannedViews(Leaves(b.ending.output), b.leaves))
  }

  lemma SucceedsExactly(world: World, k: nat)
    ensures Succeeds(world, k) <==> ReturnsAllReporting(world, k)
    ensures !(Succeeds(world, k) && RetriesAfter(world, k))
  {
    var b := world.call(k);
    if b.ending.Returns? {
      OutputFailsExactly(PlannedViews(Leaves(b.ending.output), b.leaves));
    }
    hide OutputFails, AllReport;
  }

  lemma GoodLeavesReport(samples: Tree<Sample>, attempt: nat)
    requires GoodOutput(samples, attempt)
    ensures forall s :: s in Leaves(samples) ==> Reports(s.Now())
  {
    hide LeafFails, Reports;
    forall s | s in Leaves(samples) ensures Reports(s.Now()) {
      assert GoodLeaf(s, attempt);
      LeafFailsExactly(s.Now());
    }
  }

  /** The failure text an exhausted trajectory reports, from what its last call did. */
  lemma FailureText(b: Behavior, quote: Option<Json> -> string)
    requires AttemptFails(b)
    ensures b.ending.Raises? ==> Describe(ReasonOf(b), quote) == b.ending.text
    ensures b.ending.Returns? ==>
      var views := PlannedViews(Leaves(b.ending.output), b.leaves);
      && (|views| == 0 ==> Describe(ReasonOf(b), quote) == "empty trajectory")
      && forall k :: 0 <= k < |views| && !Reports(views[k]) && (forall j :: 0 <= j < k ==> Reports(views[j])) ==>
           Describe(ReasonOf(b), quote)
           == if views[k].status == Aborted then "aborted trajectory"
              else "missing or failed RFT result: " + quote(ExitStatus(views[k]))
  {
    hide Reports;
    if b.ending.Returns? {
      var views := PlannedViews(Leaves(b.ending.output), b.leaves);
      forall k | 0 <= k < |views| && !Reports(views[k]) && (forall j :: 0 <= j < k ==> Reports(views[j]))
        ensures FailureReason(views)
             == Some(if views[k].status == Aborted then AbortedTrajectory else BadResult(ExitStatus(views[k])))
      {
        ReasonIsFirst(views, k);
      }
      hide FailureReason, ExitStatus;
    }
  }

  lemma WaysOn(world: World, k: nat)
    ensures var b := world.call(k);
            (RetriesAfter(world, k) <==> AttemptFails(b) && (b.ending.Returns? ==> !world.cancelled(k))) &&
            (Succeeds(world, k) <==> b.ending.Returns? && !world.cancelled(k) && !AttemptFails(b)) &&
            !(Succeeds(world, k) && RetriesAfter(world, k))
  {
  }

  /** `Loop.Over`: the calls made and the way it ends are those of the attempt loop on what it
      observes. */
  ghost predicate RanTheLoop(world: World, attempts: nat, calls: nat, r: Generated) {
    match r
    case Finished(_) =>
      calls > 0 &&
      Loop.Over(Seen(world, calls, calls), attempts,
                if Succeeds(world, calls - 1) then Loop.Succeeded else Loop.GaveUp)
    case Cancelled =>
      || Loop.Over(Seen(world, calls, calls), attempts, Loop.WasCancelled)
      || Loop.Over(Seen(world, calls + 1, calls), attempts, Loop.WasCancelled)
  }

  /** The attempt loop. It modifies nothing that existed before the call, so in particular the
      input sample stays as it was for every attempt; all samples it returns are new. */
  method Generate(input: Sample, retries: nat, world: World) returns (r: Generated, calls: nat)
    ensures calls <= retries + 1
    ensures forall k :: 0 <= k < calls ==> !world.halted(k)
    ensures forall k :: 0 <= k < calls - 1 ==> RetriesAfter(world, k)
    ensures r.Finished? ==> calls > 0 && forall s :: s in Leaves(r.samples) ==> fresh(s)
    ensures r.Finished? <==>
      calls > 0 && (Succeeds(world, calls - 1) || (RetriesAfter(world, calls - 1) && calls == retries + 1))
    ensures r.Finished? && Succeeds(world, calls - 1) ==> GoodOutput(r.samples, calls)
    ensures r.Finished? && !Succeeds(world, calls - 1) ==>
      RetriesAfter(world, calls - 1) &&
      ExhaustedOutput(r.samples, input, retries + 1, Describe(ReasonOf(world.call(calls - 1)), world.quote))
    ensures r.Finished? ==> Completed(r.samples, input, retries + 1, !Succeeds(world, calls - 1))
    ensures RanTheLoop(world, retries + 1, calls, r)
    ensures r.Finished? && Succeeds(world, calls - 1) ==> forall s :: s in Leaves(r.samples) ==> Reports(s.Now())
    ensures forall k :: 0 <= k < calls && ReturnsAllReporting(world, k) ==>
      r.Finished? && k == calls - 1 && GoodOutput(r.samples, calls)
    ensures r.Cancelled? && calls <= retries && (calls == 0 || RetriesAfter(world, calls - 1)) ==> world.halted(calls)
  {
    hide AttemptFails, Describe, Loop.Over, Succeeds, RetriesAfter, GoodOutput, ExhaustedOutput, Reports,
      ReturnsAllReporting;
    var reason := NoAttempt;
    calls := 0;
    while calls < retries + 1
      invariant calls <= retries + 1
      invariant RanOn(world, calls)
      invariant forall k :: 0 <= k < calls ==> !ReturnsAllReporting(world, k)
      invariant calls > 0 ==> AttemptFails(world.call(calls - 1)) && reason == ReasonOf(world.call(calls - 1))
    {
      if world.halted(calls) {
        LoopEndsAtHead(world, retries + 1, calls);
        if calls > 0 { WaysOn(world, calls - 1); }
        return Cancelled, calls;
      }
      LoopEndsAfterCall(world, retries + 1, calls);
      var attempted := Attempt(input, world.call(calls), world.cancelled(calls), calls + 1);
      WaysOn(world, calls);
      SucceedsExactly(world, calls);
      calls := calls + 1;
      match attempted
      case Stopped => return Cancelled, calls;
      case Accepted(samples) =>
        GoodLeavesReport(samples, calls);
        return Finished(samples), calls;
      case Rejected(why) => reason := why;
    }
    LoopEndsAtHead(world, retries + 1, calls);
    WaysOn(world, calls - 1);
    var output := Exhaust(input, retries + 1, Describe(reason, world.quote));
    r := Finished(output);
  }

  // ---------------------------------------------------------------- the batch filter

  datatype FilterResult = Keep | RaisedAt(index: int)

  predicate AnyAborted(samples: seq<Sample>)
    reads samples
  {
    exists k :: 0 <= k < |samples| && samples[k].status == Aborted
  }

  /** Keeps a group, or raises at its first aborted sample. */
  method RequireCompleteGroup(group: Tree<Sample>) returns (r: FilterResult)
    ensures r == Keep <==> !AnyAborted(Leaves(group))
    ensures r.RaisedAt? ==> exists k ::
      0 <= k < |Leaves(group)| && Leaves(group)[k].status == Aborted && r.index == Leaves(group)[k].index &&
      forall j :: 0 <= j < k ==> Leaves(group)[j].status != Aborted
  {
    var samples := Leaves(group);
    for k := 0 to |samples|
      invariant forall j :: 0 <= j < k ==> samples[j].status != Aborted
    {
      if samples[k].status == Aborted {
        return RaisedAt(samples[k].index);
      }
    }
    return Keep;
  }

  /** A group of completed trajectories fails the batch exactly when one of them exhausted
      its attempts: nothing is silently replaced, and nothing good is thrown away. */
  lemma GroupFailsIffExhausted(outputs: seq<Tree<Sample>>, inputs: seq<Sample>, attempts: nat, exhausted: seq<bool>)
    requires |outputs| == |inputs| == |exhausted|
    requires forall i :: 0 <= i < |outputs| ==> Completed(outputs[i], inputs[i], attempts, exhausted[i])
    ensures AnyAborted(Leaves(Node(outputs))) <==> exists i :: 0 <= i < |exhausted| && exhausted[i]
  {
    var all := LeavesOfAll(outputs);
    if k :| 0 <= k < |all| && all[k].status == Aborted {
      InSomeTree(outputs, all[k]);
      var i :| 0 <= i < |outputs| && all[k] in Leaves(outputs[i]);
      assert Completed(outputs[i], inputs[i], attempts, exhausted[i]);
      assert exhausted[i];
    }
    if i :| 0 <= i < |exhausted| && exhausted[i] {
      assert Completed(outputs[i], inputs[i], attempts, exhausted[i]);
      var sample := outputs[i].value;
      InSomeTree(outputs, sample);
      var k :| 0 <= k < |all| && all[k] == sample;
    }
  }
}
