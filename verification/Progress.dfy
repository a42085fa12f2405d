/** Concurrent invocations never deadlock, and every run of them ends. */
module Progress {
  import opened Invocation

  /** Steps in which nothing fails, times out, is cancelled or comes too late. */
  predicate Ordinary(step: Step) {
    match step
    case Enter(_, e) => e.Begin? || e.DoorRegisters? || e.Confirmed?
    case Call(_, e) => e.Acquire? || e.Throttle? || e.Settle? || e.Wake?
    case Leave(_, e) => e.Stopped? || e.DoorUnregisters? || e.Deleted?
    case Environment(e) => e.WorkerTakes? || e.WorkerFinishes?
  }

  lemma HolderCanMove(c: Config, s: State, id: Id) returns (step: Step)
    requires Inv(c, s) && c.maxConcurrent > 0 && id in s.pc && Holding(s.pc[id])
    ensures Ordinary(step) && Enabled(c, s, step)
  {
    if s.pc[id].Sleeping? {
      return Call(id, Wake);
    }
    var t := Ticket(id, s.pc[id].attempt);
    match s.calls[t]
    case Finished(_) => return Call(id, if MayRetry(c, s, id) then Throttle else Settle);
    case Running => return Environment(WorkerFinishes(t, false));
    case Queued =>
      if |Busy(s.calls)| < c.maxConcurrent {
        return Environment(WorkerTakes(t));
      }
      var running :| running in Busy(s.calls);
      return Environment(WorkerFinishes(running, false));
  }

  /** NO DEADLOCK. As long as some task is not done, an ordinary step is possible: slots and
      workers are never all tied up in tasks that wait for each other. */
  lemma NeverStuck(c: Config, s: State, id: Id) returns (step: Step)
    requires Reachable(c, s) && c.maxConcurrent > 0 && id in s.pc && !s.pc[id].Done?
    ensures Ordinary(step) && Enabled(c, s, step)
  {
    ReachableInv(c, s);
    hide CallsSound, ActiveExact;
    match s.pc[id]
    case Idle => return Enter(id, Begin);
    case Registering(flight) => return Enter(id, if flight == Sent then DoorRegisters else Confirmed);
    case Stopping => return Leave(id, Stopped);
    case Deleting(flight) => return Leave(id, if flight == Sent then DoorUnregisters else Deleted);
    case Waiting =>
      if s.slots.value > 0 {
        return Call(id, Acquire);
      }
      var holder :| holder in Holders(s.pc);
      step := HolderCanMove(c, s, holder);
    case _ =>
      step := HolderCanMove(c, s, id);
  }

  // ---------------------------------------------------------------- a measure of the work left

  /** Steps a task can still take, counting two for the executor at each call it may submit. */
  function Rank(c: Config, pc: Pc): nat
    requires Allowed(c, pc)
  {
    match pc
    case Idle => 4 * c.maxAttempts + 7
    case Registering(Sent) => 4 * c.maxAttempts + 6
    case Registering(Handled) => 4 * c.maxAttempts + 5
    case Waiting => 4 * c.maxAttempts + 4
    case Invoking(k) => 4 * (c.maxAttempts - k) + 4
    case Sleeping(k) => 4 * (c.maxAttempts - k) + 3
    case Stopping => 3
    case Deleting(Sent) => 2
    case Deleting(Handled) => 1
    case Done(_) => 0
  }

  ghost predicate AllAllowed(c: Config, pc: map<Id, Pc>) {
    forall id :: id in pc ==> Allowed(c, pc[id])
  }

  ghost function RankSum(c: Config, pc: map<Id, Pc>, ids: set<Id>): nat
    requires AllAllowed(c, pc) && ids <= pc.Keys
  {
    if ids == {} then 0
    else
      var id :| id in ids;
      Rank(c, pc[id]) + RankSum(c, pc, ids - {id})
  }

  lemma {:induction false} RankSumPick(c: Config, pc: map<Id, Pc>, ids: set<Id>, id: Id)
    requires AllAllowed(c, pc) && ids <= pc.Keys && id in ids
    ensures RankSum(c, pc, ids) == Rank(c, pc[id]) + RankSum(c, pc, ids - {id})
    decreases ids
  {
    hide Rank;
    var first :| first in ids && RankSum(c, pc, ids) == Rank(c, pc[first]) + RankSum(c, pc, ids - {first});
    if first != id {
      RankSumPick(c, pc, ids - {first}, id);
      RankSumPick(c, pc, ids - {id}, first);
      assert ids - {first} - {id} == ids - {id} - {first};
    }
  }

  lemma {:induction false} RankSumElsewhere(c: Config, pc: map<Id, Pc>, pc': map<Id, Pc>, ids: set<Id>)
    requires AllAllowed(c, pc) && AllAllowed(c, pc') && ids <= pc.Keys && ids <= pc'.Keys
    requires forall id :: id in ids ==> pc[id] == pc'[id]
    ensures RankSum(c, pc, ids) == RankSum(c, pc', ids)
    decreases ids
  {
    if ids != {} {
      hide Rank;
      var id :| id in ids;
      RankSumPick(c, pc, ids, id);
      RankSumPick(c, pc', ids, id);
      RankSumElsewhere(c, pc, pc', ids - {id});
    }
  }

  lemma RankSumAfterMove(c: Config, pc: map<Id, Pc>, id: Id, to: Pc)
    requires AllAllowed(c, pc) && Allowed(c, to) && id in pc
    ensures AllAllowed(c, pc[id := to]) && pc[id := to].Keys == pc.Keys
    ensures RankSum(c, pc[id := to], pc.Keys) + Rank(c, pc[id]) == RankSum(c, pc, pc.Keys) + Rank(c, to)
  {
    hide Rank, Allowed;
    var pc' := pc[id := to];
    assert pc'.Keys == pc.Keys;
    RankSumPick(c, pc, pc.Keys, id);
    RankSumPick(c, pc', pc.Keys, id);
    RankSumElsewhere(c, pc, pc', pc.Keys - {id});
  }

  function Unfinished(calls: map<Ticket, Phase>): set<Ticket> {
    set t | t in calls && !calls[t].Finished?
  }

  function Untaken(calls: map<Ticket, Phase>): set<Ticket> {
    set t | t in calls && calls[t] == Queued
  }

  /** Steps the executor can still take. */
  function ExecutorWork(calls: map<Ticket, Phase>): nat {
    |Unfinished(calls)| + |Untaken(calls)|
  }

  lemma WorkAfterMove(c: Config, id: Id, from: Pc, to: Pc, calls: map<Ticket, Phase>, calls': map<Ticket, Phase>)
    requires CallMove(c, id, from, to, calls, calls')
    ensures ExecutorWork(calls') <= ExecutorWork(calls) + if to.Invoking? then 2 else 0
  {
    if to.Invoking? {
      var t := Ticket(id, to.attempt);
      Fewer(Unfinished(calls'), Unfinished(calls) + {t});
      Fewer(Untaken(calls'), Untaken(calls) + {t});
    } else {
      Fewer(Unfinished(calls'), Unfinished(calls));
      Fewer(Untaken(calls'), Untaken(calls));
    }
  }

  lemma WorkAfterWorker(calls: map<Ticket, Phase>, t: Ticket, throttled: bool)
    requires t in calls
    ensures calls[t] == Queued ==> ExecutorWork(calls[t := Running]) < ExecutorWork(calls)
    ensures calls[t] == Running ==> ExecutorWork(calls[t := Finished(throttled)]) < ExecutorWork(calls)
    ensures calls[t] == Running ==> ExecutorWork(calls - {t}) < ExecutorWork(calls)
  {
    if calls[t] == Queued {
      assert Unfinished(calls[t := Running]) == Unfinished(calls);
      assert Untaken(calls[t := Running]) == Untaken(calls) - {t};
    }
    if calls[t] == Running {
      assert Unfinished(calls[t := Finished(throttled)]) == Unfinished(calls - {t}) == Unfinished(calls) - {t};
      assert Untaken(calls[t := Finished(throttled)]) == Untaken(calls - {t}) == Untaken(calls);
    }
  }

  ghost function Measure(c: Config, s: State): nat
    requires AllAllowed(c, s.pc)
  {
    RankSum(c, s.pc, s.pc.Keys) + ExecutorWork(s.calls) + |s.latePosts| + |s.lateDeletes|
  }

  // ---------------------------------------------------------------- every step uses some of it up

  /** Feedback and `abort` come from outside and can go on for ever. */
  predicate IsWork(step: Step) {
    !(step.Environment? && (step.outside.AgentFeedback? || step.outside.AbortDiscards?))
  }

  /** A task's move pays for the calls it submits and the late requests it leaves. */
  ghost predicate PaidFor(c: Config, s: State, s': State, id: Id, to: Pc)
    requires id in s.pc && Allowed(c, s.pc[id]) && Allowed(c, to)
  {
    Rank(c, to) + (if to.Invoking? then 2 else 0) + |s'.latePosts| + |s'.lateDeletes|
      < Rank(c, s.pc[id]) + |s.latePosts| + |s.lateDeletes|
  }

  lemma MoveDecreases(c: Config, s: State, s': State, id: Id, to: Pc)
    requires AllAllowed(c, s.pc) && id in s.pc && s'.pc == s.pc[id := to]
    requires CallMove(c, id, s.pc[id], to, s.calls, s'.calls) && PaidFor(c, s, s', id, to)
    ensures AllAllowed(c, s'.pc) && Measure(c, s') < Measure(c, s)
  {
    WorkAfterMove(c, id, s.pc[id], to, s.calls, s'.calls);
    hide Rank, ExecutorWork;
    RankSumAfterMove(c, s.pc, id, to);
  }

  lemma EnterIsPaidFor(c: Config, s: State, id: Id, step: Entering)
    requires id in s.pc && id in c.urls && CanEnter(c, s, id, step)
    ensures var s' := DoEnter(c, s, id, step);
            id in s'.pc && s'.pc == s.pc[id := s'.pc[id]] && Allowed(c, s.pc[id]) &&
            Allowed(c, s'.pc[id]) && PaidFor(c, s, s', id, s'.pc[id])
  {
    hide Tell, Created;
  }

  lemma EnterDecreases(c: Config, s: State, id: Id, step: Entering)
    requires Inv(c, s) && id in c.urls && CanEnter(c, s, id, step)
    ensures AllAllowed(c, s.pc) && AllAllowed(c, DoEnter(c, s, id, step).pc)
    ensures Measure(c, DoEnter(c, s, id, step)) < Measure(c, s)
  {
    EnterMovesSlots(c, s, id, step);
    EnterMovesCalls(c, s, id, step);
    EnterIsPaidFor(c, s, id, step);
    hide DoorSound, SlotsConserved, ActiveExact, CallMove, SlotMove, ActiveMove, DoEnter, CanEnter, PaidFor;
    MoveDecreases(c, s, DoEnter(c, s, id, step), id, DoEnter(c, s, id, step).pc[id]);
  }

  lemma CallDecreases(c: Config, s: State, id: Id, step: Calling)
    requires Inv(c, s) && id in c.urls && CanCall(c, s, id, step)
    ensures AllAllowed(c, s.pc) && AllAllowed(c, DoCall(c, s, id, step).pc)
    ensures Measure(c, DoCall(c, s, id, step)) < Measure(c, s)
  {
    CallMovesSlots(c, s, id, step);
    CallMovesCalls(c, s, id, step);
    var s' := DoCall(c, s, id, step);
    assert Allowed(c, s.pc[id]);
    assert Allowed(c, s'.pc[id]);
    hide DoorSound, SlotsConserved, ActiveExact, CallMove, SlotMove, ActiveMove, Finally, Forget, Released,
      Answered, Busy;
    MoveDecreases(c, s, s', id, s'.pc[id]);
  }

  lemma LeaveDecreases(c: Config, s: State, id: Id, step: Leaving)
    requires Inv(c, s) && id in c.urls && CanLeave(s, id, step)
    ensures AllAllowed(c, s.pc) && AllAllowed(c, DoLeave(s, id, step).pc)
    ensures Measure(c, DoLeave(s, id, step)) < Measure(c, s)
  {
    LeaveMovesSlots(c, s, id, step);
    LeaveMovesCalls(c, s, id, step);
    hide DoorSound, SlotsConserved, ActiveExact, CallMove, SlotMove, ActiveMove, Tell;
    var s' := DoLeave(s, id, step);
    assert Allowed(c, s.pc[id]) && Allowed(c, s'.pc[id]);
    MoveDecreases(c, s, s', id, s'.pc[id]);
  }

  lemma WorkerDecreases(c: Config, s: State, step: Outside)
    requires Inv(c, s) && CanHappen(c, s, step) && (step.WorkerTakes? || step.WorkerFinishes?)
    ensures AllAllowed(c, s.pc) && DoOutside(c, s, step).pc == s.pc
    ensures Measure(c, DoOutside(c, s, step)) < Measure(c, s)
  {
    hide ExecutorWork, RankSum, Tell, DoorSound, SlotsConserved, ActiveExact, Live, Busy;
    match step
    case WorkerTakes(t) => WorkAfterWorker(s.calls, t, false);
    case WorkerFinishes(t, throttled) => WorkAfterWorker(s.calls, t, throttled);
  }

  lemma NoWorkerDecreases(c: Config, s: State, step: Outside)
    requires Inv(c, s) && CanHappen(c, s, step) && !step.WorkerTakes? && !step.WorkerFinishes?
    ensures AllAllowed(c, s.pc) && DoOutside(c, s, step).pc == s.pc
    ensures Measure(c, DoOutside(c, s, step)) + (if IsWork(Environment(step)) then 1 else 0) <= Measure(c, s)
  {
    hide ExecutorWork, RankSum, Tell, DoorSound, SlotsConserved, ActiveExact, FrontDoor.Apply, Live, Busy;
  }

  lemma OutsideDecreases(c: Config, s: State, step: Outside)
    requires Inv(c, s) && CanHappen(c, s, step)
    ensures AllAllowed(c, s.pc) && DoOutside(c, s, step).pc == s.pc
    ensures Measure(c, DoOutside(c, s, step)) + (if IsWork(Environment(step)) then 1 else 0) <= Measure(c, s)
  {
    hide Measure, Inv, CanHappen, DoOutside;
    if step.WorkerTakes? || step.WorkerFinishes? {
      WorkerDecreases(c, s, step);
    } else {
      NoWorkerDecreases(c, s, step);
    }
  }

  lemma StepDecreases(c: Config, s: State, step: Step)
    requires Inv(c, s) && Enabled(c, s, step)
    ensures AllAllowed(c, s.pc) && AllAllowed(c, Do(c, s, step).pc)
    ensures Measure(c, Do(c, s, step)) + (if IsWork(step) then 1 else 0) <= Measure(c, s)
  {
    hide Measure, DoEnter, DoCall, DoLeave, DoOutside, CanEnter, CanCall, CanLeave, CanHappen, AllAllowed;
    match step
    case Enter(id, e) => EnterDecreases(c, s, id, e);
    case Call(id, e) => CallDecreases(c, s, id, e);
    case Leave(id, e) => LeaveDecreases(c, s, id, e);
    case Environment(e) => OutsideDecreases(c, s, e);
  }

  // ---------------------------------------------------------------- every run ends

  function WorkIn(steps: seq<Step>): nat {
    if |steps| == 0 then 0
    else WorkIn(steps[..|steps|-1]) + if IsWork(steps[|steps|-1]) then 1 else 0
  }

  /** A bound on the steps of a whole run: so many for each task. */
  function Allowance(c: Config, tasks: nat): nat {
    if tasks == 0 then 0 else 4 * c.maxAttempts + 7 + Allowance(c, tasks - 1)
  }

  lemma {:induction false} AllowanceIsProduct(c: Config, tasks: nat)
    ensures Allowance(c, tasks) == tasks * (4 * c.maxAttempts + 7)
  {
    if tasks > 0 {
      AllowanceIsProduct(c, tasks - 1);
    }
  }

  lemma {:induction false} InitialSum(c: Config, ids: set<Id>)
    requires ids <= c.urls.Keys
    ensures AllAllowed(c, Init(c).pc) && RankSum(c, Init(c).pc, ids) == Allowance(c, |ids|)
    decreases ids
  {
    if ids != {} {
      var id :| id in ids;
      RankSumPick(c, Init(c).pc, ids, id);
      InitialSum(c, ids - {id});
    }
  }

  lemma InitialMeasure(c: Config)
    ensures AllAllowed(c, Init(c).pc) && Measure(c, Init(c)) == Allowance(c, |c.urls.Keys|)
  {
    InitialSum(c, c.urls.Keys);
    assert Init(c).pc.Keys == c.urls.Keys;
    assert Unfinished(Init(c).calls) == {} && Untaken(Init(c).calls) == {};
  }

  lemma {:induction false} WorkUsesMeasure(c: Config, steps: seq<Step>)
    ensures Exec(c, steps).Some? ==>
      Inv(c, Exec(c, steps).value) && AllAllowed(c, Exec(c, steps).value.pc) &&
      WorkIn(steps) + Measure(c, Exec(c, steps).value) <= Allowance(c, |c.urls.Keys|)
  {
    hide Inv, Enabled, Do, Measure, AllAllowed, Allowance;
    RunKeepsInv(c, steps);
    if |steps| == 0 {
      InitialMeasure(c);
    } else {
      var before := Exec(c, steps[..|steps|-1]);
      WorkUsesMeasure(c, steps[..|steps|-1]);
      if before.Some? && Enabled(c, before.value, steps[|steps|-1]) {
        StepDecreases(c, before.value, steps[|steps|-1]);
      }
    }
  }

  /** EVERY RUN ENDS. However tasks, workers, failures, cancellations and late requests
      interleave, there are at most 4 * attempts + 7 steps for each task, feedback and `abort`
      aside; and when no ordinary step is left to take, every task is done. */
  lemma RunsEnd(c: Config, steps: seq<Step>)
    requires Exec(c, steps).Some?
    ensures WorkIn(steps) <= |c.urls.Keys| * (4 * c.maxAttempts + 7)
    ensures c.maxConcurrent > 0 && (forall step :: Ordinary(step) ==> !Enabled(c, Exec(c, steps).value, step)) ==>
      forall id :: id in Exec(c, steps).value.pc ==> Exec(c, steps).value.pc[id].Done?
  {
    WorkUsesMeasure(c, steps);
    AllowanceIsProduct(c, |c.urls.Keys|);
    var s := Exec(c, steps).value;
    hide Enabled, Ordinary;
    assert Reachable(c, s);
    forall id | id in s.pc && c.maxConcurrent > 0 && !s.pc[id].Done?
      ensures exists step :: Ordinary(step) && Enabled(c, s, step)
    {
      var step := NeverStuck(c, s, id);
    }
  }

  lemma CanBeCutOffEntering(c: Config, s: State, id: Id)
    requires id in c.urls && id in s.pc
    ensures s.pc[id] == Idle ==> Enabled(c, s, Enter(id, Refuse))
    ensures s.pc[id].Registering? ==> Enabled(c, s, Enter(id, RegistrationLost))
    ensures s.pc[id] == (if c.rft then Registering(Handled) else Idle) ==> Enabled(c, s, Enter(id, Unprintable))
  {
  }

  lemma CanBeCutOffCalling(c: Config, s: State, id: Id)
    requires id in c.urls && id in s.pc
    ensures s.pc[id] == Waiting ==> Enabled(c, s, Call(id, CancelWaiting))
    ensures s.pc[id].Invoking? ==> Enabled(c, s, Call(id, Abandon(true))) && Enabled(c, s, Call(id, Abandon(false)))
    ensures s.pc[id].Sleeping? ==> Enabled(c, s, Call(id, CancelSleep))
  {
    hide Answered;
  }

  lemma CanBeCutOffLeaving(c: Config, s: State, id: Id)
    requires id in c.urls && id in s.pc
    ensures s.pc[id] == Stopping ==> Enabled(c, s, Leave(id, CancelStop))
    ensures s.pc[id].Deleting? ==> Enabled(c, s, Leave(id, DeletionLost))
  {
  }

  /** A task can be cancelled, and its requests and calls fail or time out, wherever it waits. */
  lemma CanBeCutOffAnywhere(c: Config, s: State, id: Id)
    requires Reachable(c, s) && id in s.pc
    ensures s.pc[id] == Idle ==> Enabled(c, s, Enter(id, Refuse))
    ensures s.pc[id].Registering? ==> Enabled(c, s, Enter(id, RegistrationLost))
    ensures s.pc[id] == (if c.rft then Registering(Handled) else Idle) ==> Enabled(c, s, Enter(id, Unprintable))
    ensures s.pc[id] == Waiting ==> Enabled(c, s, Call(id, CancelWaiting))
    ensures s.pc[id].Invoking? ==> Enabled(c, s, Call(id, Abandon(true))) && Enabled(c, s, Call(id, Abandon(false)))
    ensures s.pc[id].Sleeping? ==> Enabled(c, s, Call(id, CancelSleep))
    ensures s.pc[id] == Stopping ==> Enabled(c, s, Leave(id, CancelStop))
    ensures s.pc[id].Deleting? ==> Enabled(c, s, Leave(id, DeletionLost))
  {
    ReachableInv(c, s);
    assert id in c.urls;
    hide Inv, Enabled;
    CanBeCutOffEntering(c, s, id);
    CanBeCutOffCalling(c, s, id);
    CanBeCutOffLeaving(c, s, id);
  }
}
