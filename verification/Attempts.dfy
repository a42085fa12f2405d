/** How many calls a task submits, and why, counted in the events of the whole run. */
module Attempts {
  import opened Wrappers
  import opened Invocation
  import opened Exits

  // ---------------------------------------------------------------- one task's steps inside its try block

  /** How often a task has taken each kind of step: `leaves` gives up in or between calls, `quits`
      before the first. */
  datatype Tally = Tally(acquires: nat, throttles: nat, wakes: nat, settles: nat, leaves: nat, quits: nat)

  function Times(steps: seq<Step>, id: Id, step: Calling): nat {
    multiset(steps)[Call(id, step)]
  }

  function TallyOf(steps: seq<Step>, id: Id): Tally {
    Tally(Times(steps, id, Acquire), Times(steps, id, Throttle), Times(steps, id, Wake), Times(steps, id, Settle),
          Times(steps, id, CancelSleep) + Times(steps, id, Abandon(true)) + Times(steps, id, Abandon(false)),
          Times(steps, id, BodyUnprintable) + Times(steps, id, CancelWaiting))
  }

  function Counted(n: Tally, step: Calling): Tally {
    match step
    case Acquire => n.(acquires := n.acquires + 1)
    case Throttle => n.(throttles := n.throttles + 1)
    case Wake => n.(wakes := n.wakes + 1)
    case Settle => n.(settles := n.settles + 1)
    case CancelSleep => n.(leaves := n.leaves + 1)
    case Abandon(_) => n.(leaves := n.leaves + 1)
    case BodyUnprintable => n.(quits := n.quits + 1)
    case CancelWaiting => n.(quits := n.quits + 1)
  }

  lemma TimesOneMore(steps: seq<Step>, step: Step, id: Id, kind: Calling)
    ensures Times(steps + [step], id, kind) == Times(steps, id, kind) + if step == Call(id, kind) then 1 else 0
  {
    assert multiset(steps + [step]) == multiset(steps) + multiset{step};
  }

  lemma TallyOneMore(steps: seq<Step>, step: Step, id: Id)
    ensures TallyOf(steps + [step], id)
         == if step.Call? && step.id == id then Counted(TallyOf(steps, id), step.calling) else TallyOf(steps, id)
  {
    hide Times;
    TimesOneMore(steps, step, id, Acquire);
    TimesOneMore(steps, step, id, Throttle);
    TimesOneMore(steps, step, id, Wake);
    TimesOneMore(steps, step, id, Settle);
    TimesOneMore(steps, step, id, BodyUnprintable);
    TimesOneMore(steps, step, id, CancelWaiting);
    TimesOneMore(steps, step, id, CancelSleep);
    TimesOneMore(steps, step, id, Abandon(true));
    TimesOneMore(steps, step, id, Abandon(false));
  }

  /** Calls submitted: one on getting a slot, if any attempt is allowed, and one on each waking. */
  function Submissions(c: Config, n: Tally): nat {
    (if c.maxAttempts > 0 then n.acquires else 0) + n.wakes
  }

  // ---------------------------------------------------------------- where a task is, and how often it called

  predicate InCleanUp(pc: Pc) {
    pc == Stopping || pc.Deleting? || (pc.Done? && pc.exit in {CleanedUp, Undelivered, CutShort})
  }

  /** The invocation is over: it never got a slot, or no attempt was allowed, or the last of its
      calls settled it, was given up on, or was to be repeated when it was cancelled. */
  predicate IsOver(c: Config, n: Tally) {
    if n.acquires == 0 then n == Tally(0, 0, 0, 0, 0, 1)
    else if c.maxAttempts == 0 then n == Tally(1, 0, 0, 0, 0, 0)
    else
      && n.acquires == 1 && n.settles + n.leaves == 1 && n.quits == 0
      && n.wakes < c.maxAttempts
      && (n.throttles == n.wakes || (n.throttles == n.wakes + 1 && n.leaves == 1))
  }

  predicate Matches(c: Config, pc: Pc, n: Tally) {
    match pc
    case Invoking(k) => 1 <= k <= c.maxAttempts && n == Tally(1, k - 1, k - 1, 0, 0, 0)
    case Sleeping(k) => 1 <= k < c.maxAttempts && n == Tally(1, k, k - 1, 0, 0, 0)
    case _ => if InCleanUp(pc) then IsOver(c, n) else n == Tally(0, 0, 0, 0, 0, 0)
  }

  function CalledTo(c: Config, pc: Pc, step: Calling): Pc {
    match step
    case Acquire => if c.maxAttempts == 0 then CleanUpOf(c) else Invoking(1)
    case Throttle => if pc.Invoking? then Sleeping(pc.attempt) else pc
    case Wake => if pc.Sleeping? then Invoking(pc.attempt + 1) else pc
    case _ => CleanUpOf(c)
  }

  predicate CallsFrom(c: Config, pc: Pc, step: Calling) {
    match step
    case Acquire => pc == Waiting
    case BodyUnprintable => pc == Waiting
    case CancelWaiting => pc == Waiting
    case Throttle => pc.Invoking? && pc.attempt < c.maxAttempts
    case Settle => pc.Invoking?
    case Abandon(_) => pc.Invoking?
    case Wake => pc.Sleeping?
    case CancelSleep => pc.Sleeping?
  }

  /** Where each step inside the try block leads. */
  lemma CallLeadsTo(c: Config, s: State, id: Id, step: Calling)
    requires id in s.pc && CanCall(c, s, id, step)
    ensures id in DoCall(c, s, id, step).pc
    ensures DoCall(c, s, id, step).pc[id] == CalledTo(c, s.pc[id], step) && CallsFrom(c, s.pc[id], step)
  {
    hide Forget, Released;
  }

  lemma CallIsCounted(c: Config, pc: Pc, n: Tally, step: Calling)
    requires Matches(c, pc, n) && CallsFrom(c, pc, step)
    ensures Matches(c, CalledTo(c, pc, step), Counted(n, step))
  {
  }

  /** Outside the try block a task stays before it or behind it. */
  lemma EnterIsUncounted(c: Config, s: State, id: Id, step: Entering, n: Tally)
    requires id in c.urls && id in s.pc && CanEnter(c, s, id, step) && Matches(c, s.pc[id], n)
    ensures id in DoEnter(c, s, id, step).pc && Matches(c, DoEnter(c, s, id, step).pc[id], n)
  {
    hide Tell, Created, IsOver;
  }

  lemma LeaveIsUncounted(c: Config, s: State, id: Id, step: Leaving, n: Tally)
    requires id in s.pc && CanLeave(s, id, step) && Matches(c, s.pc[id], n)
    ensures id in DoLeave(s, id, step).pc && Matches(c, DoLeave(s, id, step).pc[id], n)
  {
    hide Tell, IsOver;
  }

  // ---------------------------------------------------------------- why calls were repeated or settled

  /** A finished call is one whose worker finished it, that way. */
  ghost predicate FinishesTraced(s: State, steps: seq<Step>) {
    forall t :: t in s.calls && s.calls[t].Finished? ==> Environment(WorkerFinishes(t, s.calls[t].throttled)) in steps
  }

  /** Every repeated call was throttled; the settling one was not, or was the last one allowed. */
  ghost predicate ReasonsTraced(c: Config, n: Tally, steps: seq<Step>, id: Id) {
    && (forall k: nat :: 1 <= k <= n.throttles ==> Environment(WorkerFinishes(Ticket(id, k), true)) in steps)
    && (n.settles > 0 ==>
         || Environment(WorkerFinishes(Ticket(id, Submissions(c, n)), false)) in steps
         || (Submissions(c, n) == c.maxAttempts &&
             Environment(WorkerFinishes(Ticket(id, Submissions(c, n)), true)) in steps))
  }

  lemma CallsOnlyQueue(c: Config, s: State, id: Id, step: Calling)
    requires id in s.pc && CanCall(c, s, id, step)
    ensures var s' := DoCall(c, s, id, step);
            forall t :: t in s'.calls && s'.calls[t].Finished? ==> t in s.calls && s'.calls[t] == s.calls[t]
  {
    hide Released;
  }

  lemma NoNewFinishes(c: Config, s: State, step: Step)
    requires Inv(c, s) && Enabled(c, s, step) && !(step.Environment? && step.outside.WorkerFinishes?)
    ensures var s' := Do(c, s, step);
            forall t :: t in s'.calls && s'.calls[t].Finished? ==> t in s.calls && s'.calls[t] == s.calls[t]
  {
    hide Inv, Tell, Created, Released, FrontDoor.Apply, Live, Busy;
    match step
    case Enter(id, e) =>
    case Call(id, e) => CallsOnlyQueue(c, s, id, e); hide DoCall, CanCall;
    case Leave(id, e) =>
    case Environment(e) =>
  }

  lemma FinishesStayTraced(c: Config, s: State, steps: seq<Step>, step: Step)
    requires Inv(c, s) && Enabled(c, s, step) && FinishesTraced(s, steps)
    ensures FinishesTraced(Do(c, s, step), steps + [step])
  {
    if step.Environment? && step.outside.WorkerFinishes? {
      hide Inv, Live;
    } else {
      NoNewFinishes(c, s, step);
      hide Inv, Enabled, Do;
    }
  }

  lemma ReasonsStay(c: Config, n: Tally, steps: seq<Step>, step: Step, id: Id)
    requires ReasonsTraced(c, n, steps, id)
    ensures ReasonsTraced(c, n, steps + [step], id)
  {
    hide Submissions;
  }

  /** The call that is answered was finished by a worker, throttled if it may be repeated. */
  lemma AnswerIsTraced(c: Config, s: State, steps: seq<Step>, id: Id)
    requires FinishesTraced(s, steps) && Answered(s, id)
    ensures Environment(WorkerFinishes(Ticket(id, s.pc[id].attempt), true)) in steps
      || (!MayRetry(c, s, id) && Environment(WorkerFinishes(Ticket(id, s.pc[id].attempt), false)) in steps)
    ensures MayRetry(c, s, id) ==> Environment(WorkerFinishes(Ticket(id, s.pc[id].attempt), true)) in steps
    ensures !MayRetry(c, s, id) && s.pc[id].attempt < c.maxAttempts ==>
      Environment(WorkerFinishes(Ticket(id, s.pc[id].attempt), false)) in steps
  {
    var t := Ticket(id, s.pc[id].attempt);
    assert Environment(WorkerFinishes(t, s.calls[t].throttled)) in steps;
  }

  lemma ReasonCounted(c: Config, pc: Pc, n: Tally, steps: seq<Step>, id: Id, step: Calling)
    requires Matches(c, pc, n) && ReasonsTraced(c, n, steps, id) && CallsFrom(c, pc, step)
    requires step == Throttle ==> Environment(WorkerFinishes(Ticket(id, pc.attempt), true)) in steps
    requires step == Settle ==>
      || Environment(WorkerFinishes(Ticket(id, pc.attempt), false)) in steps
      || (pc.attempt == c.maxAttempts && Environment(WorkerFinishes(Ticket(id, pc.attempt), true)) in steps)
    ensures ReasonsTraced(c, Counted(n, step), steps, id)
  {
    assert pc.Invoking? || pc.Sleeping? ==> Submissions(c, n) == pc.attempt;
    hide IsOver;
  }

  lemma CallHasReason(c: Config, s: State, steps: seq<Step>, id: Id, step: Calling, n: Tally)
    requires Inv(c, s) && id in s.pc && CanCall(c, s, id, step) && FinishesTraced(s, steps)
    requires Matches(c, s.pc[id], n) && ReasonsTraced(c, n, steps, id)
    ensures ReasonsTraced(c, Counted(n, step), steps, id)
  {
    assert s.pc[id].Invoking? ==> s.pc[id].attempt <= c.maxAttempts;
    CallLeadsTo(c, s, id, step);
    if step == Throttle || step == Settle {
      AnswerIsTraced(c, s, steps, id);
    }
    hide Inv, DoCall, FinishesTraced, ReasonsTraced, Matches, MayRetry, Answered, CalledTo, Counted;
    ReasonCounted(c, s.pc[id], n, steps, id, step);
  }

  // ---------------------------------------------------------------- all runs

  ghost predicate Sound(c: Config, s: State, steps: seq<Step>, id: Id) {
    && id in s.pc && FinishesTraced(s, steps)
    && Matches(c, s.pc[id], TallyOf(steps, id))
    && ReasonsTraced(c, TallyOf(steps, id), steps, id)
  }

  lemma OthersKeepTheirPc(c: Config, s: State, step: Step, id: Id)
    requires Inv(c, s) && Enabled(c, s, step) && id in s.pc && TaskOf(step) != Some(id)
    ensures id in Do(c, s, step).pc && Do(c, s, step).pc[id] == s.pc[id]
  {
    if step.Environment? {
      hide Inv, Tell, Live, FrontDoor.Apply;
    } else {
      OthersKeepTheirPlace(c, s, step, id);
    }
  }

  lemma OwnStepMatches(c: Config, s: State, step: Step, id: Id, n: Tally)
    requires Inv(c, s) && Enabled(c, s, step) && id in s.pc && TaskOf(step) == Some(id) && Matches(c, s.pc[id], n)
    ensures id in Do(c, s, step).pc
    ensures Matches(c, Do(c, s, step).pc[id], if step.Call? then Counted(n, step.calling) else n)
  {
    hide Inv, DoEnter, DoCall, DoLeave, CanEnter, CanCall, CanLeave, Matches, Counted;
    match step
    case Enter(_, e) => EnterIsUncounted(c, s, id, e, n);
    case Call(_, e) => CallLeadsTo(c, s, id, e); CallIsCounted(c, s.pc[id], n, e);
    case Leave(_, e) => LeaveIsUncounted(c, s, id, e, n);
  }

  lemma StepIsSound(c: Config, s: State, steps: seq<Step>, step: Step, id: Id)
    requires Inv(c, s) && Enabled(c, s, step) && Sound(c, s, steps, id)
    ensures Sound(c, Do(c, s, step), steps + [step], id)
  {
    hide Inv, Do, Matches, FinishesTraced, ReasonsTraced, TallyOf, Counted, CanEnter, CanLeave, CanHappen, CanCall;
    var n := TallyOf(steps, id);
    FinishesStayTraced(c, s, steps, step);
    TallyOneMore(steps, step, id);
    if TaskOf(step) == Some(id) {
      OwnStepMatches(c, s, step, id, n);
      if step.Call? {
        assert CanCall(c, s, id, step.calling);
        CallHasReason(c, s, steps, id, step.calling, n);
      }
    } else {
      OthersKeepTheirPc(c, s, step, id);
    }
    ReasonsStay(c, TallyOf(steps + [step], id), steps, step, id);
  }

  lemma {:induction false} RunIsSound(c: Config, steps: seq<Step>, id: Id)
    requires Exec(c, steps).Some? && id in c.urls
    ensures Sound(c, Exec(c, steps).value, steps, id)
  {
    if |steps| > 0 {
      hide Inv, Enabled, Do, Sound;
      var before, step := steps[..|steps|-1], steps[|steps|-1];
      RunKeepsInv(c, before);
      RunIsSound(c, before, id);
      StepIsSound(c, Exec(c, before).value, before, step, id);
      assert before + [step] == steps;
    }
  }

  /** The calls a task has submitted in a run: one when it got its slot, and one on each waking. */
  function Submitted(c: Config, steps: seq<Step>, id: Id): nat {
    (if c.maxAttempts > 0 then multiset(steps)[Call(id, Acquire)] else 0) + multiset(steps)[Call(id, Wake)]
  }

  lemma InTimes(steps: seq<Step>, id: Id, step: Calling)
    ensures Call(id, step) in steps <==> Times(steps, id, step) > 0
  {
    assert Call(id, step) in steps <==> Call(id, step) in multiset(steps);
  }

  /** Every call of the task that was finished was throttled. */
  ghost predicate OnlyThrottled(steps: seq<Step>, id: Id) {
    forall k: nat :: Environment(WorkerFinishes(Ticket(id, k), false)) !in steps
  }

  /** CALLS MADE. In every run a task at attempt k has submitted exactly k calls, and no task more
      than the limit. Every call but the last was throttled. An invocation that was settled ended
      with a call that was not throttled, or made exactly as many calls as allowed. */
  lemma CallsMade(c: Config, steps: seq<Step>, id: Id)
    requires Exec(c, steps).Some? && id in c.urls
    ensures var pc := Exec(c, steps).value.pc; var made := Submitted(c, steps, id);
            && id in pc && made <= c.maxAttempts
            && (Holding(pc[id]) ==> pc[id].attempt == made)
            && (Call(id, Settle) in steps ==>
                 made == c.maxAttempts || Environment(WorkerFinishes(Ticket(id, made), false)) in steps)
    ensures forall k: nat :: 1 <= k < Submitted(c, steps, id) ==>
      Environment(WorkerFinishes(Ticket(id, k), true)) in steps
    ensures Call(id, Settle) in steps && OnlyThrottled(steps, id) ==> Submitted(c, steps, id) == c.maxAttempts
  {
    RunIsSound(c, steps, id);
    hide Exec, FinishesTraced;
  }

  /** HELD SLOT. A task holds its slot exactly from the step in which it gets one to the one that
      settles, gives up on or cancels its invocation; nothing is submitted after that. */
  lemma HeldWhileInvoking(c: Config, steps: seq<Step>, id: Id)
    requires Exec(c, steps).Some? && id in c.urls && c.maxAttempts > 0
    ensures id in Exec(c, steps).value.pc
    ensures Holding(Exec(c, steps).value.pc[id]) <==>
      Call(id, Acquire) in steps && Call(id, Settle) !in steps && Call(id, CancelSleep) !in steps &&
      Call(id, Abandon(true)) !in steps && Call(id, Abandon(false)) !in steps
  {
    RunIsSound(c, steps, id);
    hide Exec, FinishesTraced, ReasonsTraced;
    InTimes(steps, id, Acquire);
    InTimes(steps, id, Settle);
    InTimes(steps, id, CancelSleep);
    InTimes(steps, id, Abandon(true));
    InTimes(steps, id, Abandon(false));
    hide Times;
  }
}
