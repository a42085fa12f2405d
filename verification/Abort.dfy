/** Concurrent generation tasks under training calls, one of which may fail: a step machine in
    which everything a task or the trainer does between two awaits is one step. Tasks may outlive
    the training call they were started under. */
module Abort {
  import opened Wrappers
  import opened AttemptLoop

  type Task = nat

  datatype Result =
    | Success(attempt: nat)
    | Exhausted            // the aborted sample of a trajectory out of attempts
    | CancelledOut

  datatype Pc =
    | NotStarted
    | Awaiting(attempt: nat)      // a generator call
    | Ended(result: Result)

  datatype Trainer =
    | Training
    | Returned                          // until training is called again
    | Gathering(cancelled: set<Task>)   // awaiting the tasks it cancelled
    | Gathered
    | Interrupted                       // cancelled while gathering

  /** `listed` is the task set kept on the state; `calls` counts generator calls per task. */
  datatype State = State(
    pc: map<Task, Pc>, listed: set<Task>, calls: map<Task, nat>,
    cancelling: set<Task>, aborted: bool, trainer: Trainer)

  datatype Step =
    | Enter(t: Task)
    | CallReturns(t: Task, accepted: bool)
    | CallRaises(t: Task)
    | CallCancelled(t: Task)
    | Cancel(t: Task)                   // by anyone else
    | TrainCalled                       // once more, after the last call returned
    | TrainReturns
    | TrainRaises
    | GatherReturns
    | GatherInterrupted

  function Init(tasks: set<Task>): State {
    State(map t | t in tasks :: NotStarted, {}, map t | t in tasks :: 0, {}, false, Training)
  }

  predicate Enabled(s: State, step: Step) {
    match step
    case Enter(t) => t in s.pc && s.pc[t] == NotStarted
    case CallReturns(t, _) => t in s.pc && s.pc[t].Awaiting?
    case CallRaises(t) => t in s.pc && s.pc[t].Awaiting?
    case CallCancelled(t) => t in s.pc && s.pc[t].Awaiting?
    case Cancel(t) => t in s.pc && !s.pc[t].Ended?
    case TrainCalled => s.trainer == Returned
    case TrainReturns => s.trainer == Training
    case TrainRaises => s.trainer == Training
    case GatherReturns => s.trainer.Gathering? && forall t :: t in s.trainer.cancelled && t in s.pc ==> s.pc[t].Ended?
    case GatherInterrupted => s.trainer.Gathering?
  }

  /** Leaving through the `finally` block. */
  function End(s: State, t: Task, result: Result): State {
    s.(pc := s.pc[t := Ended(result)], listed := s.listed - {t})
  }

  /** The head of the attempt loop, with `k` attempts made. */
  function LoopHead(s: State, attempts: nat, t: Task, k: nat): State
    requires t in s.calls
  {
    if k >= attempts then End(s, t, Exhausted)
    else if s.aborted || t in s.cancelling then End(s, t, CancelledOut)
    else s.(pc := s.pc[t := Awaiting(k + 1)], calls := s.calls[t := s.calls[t] + 1])
  }

  function Do(s: State, attempts: nat, step: Step): State
    requires Enabled(s, step) && s.calls.Keys == s.pc.Keys
  {
    match step
    case Enter(t) => LoopHead(s.(listed := s.listed + {t}), attempts, t, 0)
    case CallReturns(t, accepted) =>
      if t in s.cancelling then End(s, t, CancelledOut)
      else if accepted then End(s, t, Success(s.pc[t].attempt))
      else LoopHead(s, attempts, t, s.pc[t].attempt)
    case CallRaises(t) => LoopHead(s, attempts, t, s.pc[t].attempt)
    case CallCancelled(t) => End(s, t, CancelledOut)
    case Cancel(t) => s.(cancelling := s.cancelling + {t})
    case TrainCalled => s.(trainer := Training)
    case TrainReturns => s.(trainer := Returned)
    case TrainRaises =>
      s.(aborted := true, cancelling := s.cancelling + s.listed, trainer := Gathering(s.listed))
    case GatherReturns => s.(trainer := Gathered)
    case GatherInterrupted => s.(trainer := Interrupted)
  }

  // ---------------------------------------------------------------- invariant

  ghost predicate TaskSound(s: State, attempts: nat, t: Task)
    requires t in s.pc && t in s.calls
  {
    match s.pc[t]
    case NotStarted => s.calls[t] == 0
    case Awaiting(k) => 1 <= k == s.calls[t] <= attempts
    case Ended(Success(k)) => 1 <= k == s.calls[t] <= attempts && t !in s.cancelling
    case Ended(Exhausted) => s.calls[t] == attempts
    case Ended(CancelledOut) => s.calls[t] <= attempts
  }

  ghost predicate Inv(s: State, attempts: nat) {
    && s.calls.Keys == s.pc.Keys
    && (forall t :: t in s.pc ==> TaskSound(s, attempts, t))
    && (forall t :: t in s.listed <==> t in s.pc && s.pc[t].Awaiting?)
    && (s.aborted <==> s.trainer.Gathering? || s.trainer == Gathered || s.trainer == Interrupted)
    && (s.aborted ==> s.listed <= s.cancelling)
    && (s.trainer.Gathering? ==> s.listed <= s.trainer.cancelled)
    && (s.trainer == Gathered ==> s.listed == {})
  }

  lemma InitInv(tasks: set<Task>, attempts: nat)
    ensures Inv(Init(tasks), attempts)
  {
  }

  lemma EndKeepsInv(s: State, attempts: nat, t: Task, result: Result)
    requires Inv(s, attempts) && t in s.pc && s.pc[t].Awaiting?
    requires result.Success? ==> t !in s.cancelling && result.attempt == s.pc[t].attempt
    requires result.Exhausted? ==> s.pc[t].attempt == attempts
    ensures Inv(End(s, t, result), attempts)
  {
    assert TaskSound(s, attempts, t);
  }

  lemma NextAttemptKeepsInv(s: State, attempts: nat, t: Task)
    requires Inv(s, attempts) && t in s.pc && s.pc[t].Awaiting?
    ensures Inv(LoopHead(s, attempts, t, s.pc[t].attempt), attempts)
  {
    assert TaskSound(s, attempts, t);
    if s.pc[t].attempt >= attempts {
      EndKeepsInv(s, attempts, t, Exhausted);
    } else if s.aborted || t in s.cancelling {
      EndKeepsInv(s, attempts, t, CancelledOut);
    } else {
      assert LoopHead(s, attempts, t, s.pc[t].attempt).listed == s.listed;
    }
  }

  lemma EnterKeepsInv(s: State, attempts: nat, t: Task)
    requires Inv(s, attempts) && t in s.pc && s.pc[t] == NotStarted
    ensures Inv(Do(s, attempts, Enter(t)), attempts)
  {
    assert TaskSound(s, attempts, t) && t !in s.listed;
    var s' := Do(s, attempts, Enter(t));
    assert s'.pc[t].Awaiting? || s'.listed == s.listed;
    forall u | u in s'.pc ensures TaskSound(s', attempts, u) {
      assert TaskSound(s, attempts, u);
    }
    hide TaskSound;
  }

  lemma TrainerKeepsInv(s: State, attempts: nat, step: Step)
    requires Inv(s, attempts) && Enabled(s, step)
    requires !step.Enter? && !step.CallReturns? && !step.CallRaises? && !step.CallCancelled?
    ensures Inv(Do(s, attempts, step), attempts)
  {
    var s' := Do(s, attempts, step);
    forall t | t in s.pc ensures TaskSound(s', attempts, t) {
      assert TaskSound(s, attempts, t);
    }
  }

  lemma StepKeepsInv(s: State, attempts: nat, step: Step)
    requires Inv(s, attempts) && Enabled(s, step)
    ensures Inv(Do(s, attempts, step), attempts)
  {
    match step
    case Enter(t) => EnterKeepsInv(s, attempts, t);
    case CallReturns(t, accepted) =>
      hide Inv, End, LoopHead;
      if t in s.cancelling {
        EndKeepsInv(s, attempts, t, CancelledOut);
      } else if accepted {
        EndKeepsInv(s, attempts, t, Success(s.pc[t].attempt));
      } else {
        NextAttemptKeepsInv(s, attempts, t);
      }
    case CallRaises(t) =>
      hide Inv, End, LoopHead;
      NextAttemptKeepsInv(s, attempts, t);
    case CallCancelled(t) =>
      hide Inv, End, LoopHead;
      EndKeepsInv(s, attempts, t, CancelledOut);
    case _ => TrainerKeepsInv(s, attempts, step);
  }

  // ---------------------------------------------------------------- all runs

  /** Where a sequence of steps leads, if each is possible in turn. */
  function Run(s: State, attempts: nat, steps: seq<Step>): (r: Option<State>)
    requires s.calls.Keys == s.pc.Keys
    ensures r.Some? ==> r.value.calls.Keys == r.value.pc.Keys
    decreases |steps|
  {
    if |steps| == 0 then Some(s)
    else if Enabled(s, steps[0]) then Run(Do(s, attempts, steps[0]), attempts, steps[1..])
    else None
  }

  lemma {:induction false} RunKeepsInv(s: State, attempts: nat, steps: seq<Step>)
    requires Inv(s, attempts)
    ensures Run(s, attempts, steps).Some? ==> Inv(Run(s, attempts, steps).value, attempts)
    decreases |steps|
  {
    if |steps| > 0 && Enabled(s, steps[0]) {
      StepKeepsInv(s, attempts, steps[0]);
      RunKeepsInv(Do(s, attempts, steps[0]), attempts, steps[1..]);
    }
  }

  ghost predicate Reachable(s: State, attempts: nat) {
    exists tasks: set<Task>, steps: seq<Step> :: Run(Init(tasks), attempts, steps) == Some(s)
  }

  lemma ReachableInv(s: State, attempts: nat)
    requires Reachable(s, attempts)
    ensures Inv(s, attempts)
  {
    var tasks, steps :| Run(Init(tasks), attempts, steps) == Some(s);
    InitInv(tasks, attempts);
    RunKeepsInv(Init(tasks), attempts, steps);
  }

  lemma {:induction false} NoCallFrom(s: State, attempts: nat, steps: seq<Step>)
    requires Inv(s, attempts) && s.aborted
    ensures Run(s, attempts, steps).Some? ==>
      Run(s, attempts, steps).value.aborted && Run(s, attempts, steps).value.calls == s.calls
    decreases |steps|
  {
    if |steps| > 0 && Enabled(s, steps[0]) {
      StepKeepsInv(s, attempts, steps[0]);
      NoCallFrom(Do(s, attempts, steps[0]), attempts, steps[1..]);
    }
  }

  /** Who is cancelled: a task someone cancels, and, when training fails, every task in a call. */
  lemma WhoIsCancelled(s: State, attempts: nat, step: Step, t: Task)
    requires Reachable(s, attempts) && Enabled(s, step)
    ensures s.calls.Keys == s.pc.Keys
    ensures t in Do(s, attempts, step).cancelling <==>
      t in s.cancelling || step == Cancel(t) || (step == TrainRaises && t in s.pc && s.pc[t].Awaiting?)
    ensures Do(s, attempts, step).aborted <==> s.aborted || step == TrainRaises
  {
    ReachableInv(s, attempts);
    hide Inv;
  }

  /** ABORT SAFETY. Once training has failed, no continuation of the run starts another
      generator call, in any task - not even in one that enters only afterwards. */
  lemma NoCallAfterAbort(s: State, attempts: nat, steps: seq<Step>)
    requires Reachable(s, attempts) && s.aborted
    ensures Run(s, attempts, steps).Some? ==>
      Run(s, attempts, steps).value.aborted && Run(s, attempts, steps).value.calls == s.calls
  {
    ReachableInv(s, attempts);
    NoCallFrom(s, attempts, steps);
  }

  lemma {:induction false} CancellationLasts(s: State, attempts: nat, steps: seq<Step>)
    requires s.calls.Keys == s.pc.Keys
    ensures Run(s, attempts, steps).Some? ==>
      s.cancelling <= Run(s, attempts, steps).value.cancelling && s.pc.Keys == Run(s, attempts, steps).value.pc.Keys
    decreases |steps|
  {
    if |steps| > 0 && Enabled(s, steps[0]) {
      CancellationLasts(Do(s, attempts, steps[0]), attempts, steps[1..]);
    }
  }

  /** A task that was cancelled before it ended never ends in success, however the run goes on
      and even if the generator swallowed the cancellation. */
  lemma CancelledNeverSucceeds(s: State, attempts: nat, steps: seq<Step>, t: Task)
    requires Reachable(s, attempts) && t in s.cancelling && t in s.pc && !s.pc[t].Ended?
    ensures Run(s, attempts, steps).Some? ==>
      t in Run(s, attempts, steps).value.pc && !(Run(s, attempts, steps).value.pc[t].Ended? &&
        Run(s, attempts, steps).value.pc[t].result.Success?)
  {
    ReachableInv(s, attempts);
    RunKeepsInv(s, attempts, steps);
    CancellationLasts(s, attempts, steps);
  }

  lemma {:induction false} GatheredLasts(s: State, attempts: nat, steps: seq<Step>)
    requires Inv(s, attempts) && s.trainer == Gathered
    ensures Run(s, attempts, steps).Some? ==> Run(s, attempts, steps).value.trainer == Gathered
    decreases |steps|
  {
    if |steps| > 0 && Enabled(s, steps[0]) {
      StepKeepsInv(s, attempts, steps[0]);
      GatheredLasts(Do(s, attempts, steps[0]), attempts, steps[1..]);
    }
  }

  /** When the gather returns no task is left in the set or awaiting a call, and this stays so:
      a task that enters later is gone again before anyone can see it. */
  lemma GatherLeavesNoTask(s: State, attempts: nat, steps: seq<Step>)
    requires Reachable(s, attempts) && s.trainer == Gathered
    ensures Run(s, attempts, steps).Some? ==>
      Run(s, attempts, steps).value.listed == {} &&
      forall t :: t in Run(s, attempts, steps).value.pc ==> !Run(s, attempts, steps).value.pc[t].Awaiting?
  {
    ReachableInv(s, attempts);
    RunKeepsInv(s, attempts, steps);
    GatheredLasts(s, attempts, steps);
  }

  /** Every task makes at most `attempts` calls; it succeeds on its last one, and gives up only
      after all of them. */
  lemma CallsAreBounded(s: State, attempts: nat, t: Task)
    requires Reachable(s, attempts) && t in s.pc
    ensures t in s.calls && s.calls[t] <= attempts
    ensures s.pc[t].Ended? && s.pc[t].result.Success? ==> s.pc[t].result.attempt == s.calls[t] >= 1
    ensures s.pc[t] == Ended(Exhausted) ==> s.calls[t] == attempts
  {
    ReachableInv(s, attempts);
    assert TaskSound(s, attempts, t);
  }

  // ---------------------------------------------------------------- each task runs the attempt loop

  function Halted(s: State, t: Task): bool {
    s.aborted || t in s.cancelling
  }

  /** A call came back; unless that ended the loop, the next loop head is passed at once. */
  function Observe(s: State, attempts: nat, t: Task, k: nat, end: CallEnd, h: History): History {
    var r := Return(end, t in s.cancelling);
    History(if MeaningOf(r) == Retries && k < attempts then h.heads + [Halted(s, t)] else h.heads, h.calls + [r])
  }

  /** What a step lets task `t` observe. */
  function Observed(s: State, attempts: nat, step: Step, t: Task, h: History): History
    requires Enabled(s, step)
  {
    match step
    case Enter(u) => if u == t && attempts > 0 then History(h.heads + [Halted(s, t)], h.calls) else h
    case CallReturns(u, accepted) =>
      if u == t then Observe(s, attempts, t, s.pc[t].attempt, GaveOutput(accepted), h) else h
    case CallRaises(u) => if u == t then Observe(s, attempts, t, s.pc[t].attempt, Threw, h) else h
    case CallCancelled(u) => if u == t then Observe(s, attempts, t, s.pc[t].attempt, GotCancelled, h) else h
    case _ => h
  }

  /** What task `t` observes in a run. */
  function Projection(s: State, attempts: nat, steps: seq<Step>, t: Task, h: History): History
    requires s.calls.Keys == s.pc.Keys
    decreases |steps|
  {
    if |steps| > 0 && Enabled(s, steps[0])
    then Projection(Do(s, attempts, steps[0]), attempts, steps[1..], t, Observed(s, attempts, steps[0], t, h))
    else h
  }

  function EndingOf(result: Result): Ending {
    match result
    case Success(_) => Succeeded
    case Exhausted => GaveUp
    case CancelledOut => WasCancelled
  }

  /** A task is where the attempt loop is after what it has observed. */
  ghost predicate InStep(pc: Pc, calls: nat, attempts: nat, h: History) {
    match pc
    case NotStarted => h == History([], []) && calls == 0
    case Awaiting(k) => InCall(h, attempts) && k == calls == |h.heads|
    case Ended(result) => Over(h, attempts, EndingOf(result)) && calls == |h.calls|
  }

  lemma HeadStaysInStep(s: State, attempts: nat, t: Task, k: nat, h: History)
    requires t in s.calls && t in s.pc && s.calls[t] == k
    requires |h.heads| == |h.calls| == k <= attempts && WentOn(h, k, k)
    ensures var s' := LoopHead(s, attempts, t, k);
            var h' := if k < attempts then History(h.heads + [Halted(s, t)], h.calls) else h;
            t in s'.pc && t in s'.calls && InStep(s'.pc[t], s'.calls[t], attempts, h')
  {
  }

  lemma CallStaysInStep(s: State, attempts: nat, t: Task, end: CallEnd, step: Step, h: History)
    requires s.calls.Keys == s.pc.Keys && t in s.pc && s.pc[t].Awaiting? && InStep(s.pc[t], s.calls[t], attempts, h)
    requires step == match end
                     case GaveOutput(accepted) => CallReturns(t, accepted)
                     case Threw => CallRaises(t)
                     case GotCancelled => CallCancelled(t)
    ensures var s' := Do(s, attempts, step);
            t in s'.pc && t in s'.calls &&
            InStep(s'.pc[t], s'.calls[t], attempts, Observe(s, attempts, t, s.pc[t].attempt, end, h))
  {
    var r := Return(end, t in s.cancelling);
    var back := History(h.heads, h.calls + [r]);
    if MeaningOf(r) == Retries {
      HeadStaysInStep(s, attempts, t, s.pc[t].attempt, back);
    } else {
      assert WentOn(back, |back.heads|, |back.calls| - 1);
      assert OverAfterCall(back, attempts, if MeaningOf(r) == Accepts then Succeeded else WasCancelled);
    }
  }

  lemma EnterStaysInStep(s: State, attempts: nat, t: Task, h: History)
    requires s.calls.Keys == s.pc.Keys && t in s.pc && s.pc[t] == NotStarted
    requires InStep(s.pc[t], s.calls[t], attempts, h)
    ensures var s' := Do(s, attempts, Enter(t));
            t in s'.pc && t in s'.calls &&
            InStep(s'.pc[t], s'.calls[t], attempts, Observed(s, attempts, Enter(t), t, h))
  {
    HeadStaysInStep(s.(listed := s.listed + {t}), attempts, t, 0, h);
  }

  lemma StepStaysInStep(s: State, attempts: nat, step: Step, t: Task, h: History)
    requires s.calls.Keys == s.pc.Keys && Enabled(s, step)
    requires t in s.pc && InStep(s.pc[t], s.calls[t], attempts, h)
    ensures var s' := Do(s, attempts, step);
            t in s'.pc && t in s'.calls && InStep(s'.pc[t], s'.calls[t], attempts, Observed(s, attempts, step, t, h))
  {
    hide InStep, Observe;
    match step
    case Enter(u) =>
      if u == t {
        EnterStaysInStep(s, attempts, t, h);
      }
    case CallReturns(u, accepted) =>
      if u == t {
        CallStaysInStep(s, attempts, t, GaveOutput(accepted), step, h);
      }
    case CallRaises(u) =>
      if u == t {
        CallStaysInStep(s, attempts, t, Threw, step, h);
      }
    case CallCancelled(u) =>
      if u == t {
        CallStaysInStep(s, attempts, t, GotCancelled, step, h);
      }
    case _ =>
  }

  lemma DoKeepsKeys(s: State, attempts: nat, step: Step)
    requires s.calls.Keys == s.pc.Keys && Enabled(s, step)
    ensures Do(s, attempts, step).calls.Keys == Do(s, attempts, step).pc.Keys
  {
  }

  lemma {:induction false} RunStaysInStep(s: State, attempts: nat, steps: seq<Step>, t: Task, h: History)
    requires s.calls.Keys == s.pc.Keys && t in s.pc && InStep(s.pc[t], s.calls[t], attempts, h)
    ensures Run(s, attempts, steps).Some? ==>
      var s' := Run(s, attempts, steps).value;
      t in s'.pc && InStep(s'.pc[t], s'.calls[t], attempts, Projection(s, attempts, steps, t, h))
    decreases |steps|
  {
    hide InStep, Do, Enabled, Observed;
    if |steps| > 0 && Enabled(s, steps[0]) {
      StepStaysInStep(s, attempts, steps[0], t, h);
      DoKeepsKeys(s, attempts, steps[0]);
      RunStaysInStep(Do(s, attempts, steps[0]), attempts, steps[1..], t, Observed(s, attempts, steps[0], t, h));
    }
  }

  /** REFINEMENT. In every run each task runs the attempt loop on what it observes: when it has
      ended, its number of calls and its ending are those of the loop. */
  lemma TasksRunTheLoop(tasks: set<Task>, attempts: nat, steps: seq<Step>, t: Task)
    requires t in tasks && Run(Init(tasks), attempts, steps).Some?
    ensures var s := Run(Init(tasks), attempts, steps).value;
            var h := Projection(Init(tasks), attempts, steps, t, History([], []));
            t in s.pc && (s.pc[t].Ended? ==>
              Over(h, attempts, EndingOf(s.pc[t].result)) && s.calls[t] == |h.calls|)
  {
    RunStaysInStep(Init(tasks), attempts, steps, t, History([], []));
  }
}
