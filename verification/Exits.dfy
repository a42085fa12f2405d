/** What a task leaves behind, read off the events of the whole run. */
module Exits {
  import opened Wrappers
  import opened Invocation
  import opened Progress

  // ---------------------------------------------------------------- one task's history

  /** Which of the events that matter for its exit have happened to a task. */
  datatype Log = Log(
    doorRegisters: bool, registrationLost: bool, unprintable: bool, cancelWaiting: bool,
    cancelStop: bool, doorUnregisters: bool, deletionLost: bool,
    latePost: bool, lateDelete: bool, discards: bool)

  function LogOf(steps: seq<Step>, id: Id): Log {
    Log(Enter(id, DoorRegisters) in steps, Enter(id, RegistrationLost) in steps, Enter(id, Unprintable) in steps,
        Call(id, CancelWaiting) in steps,
        Leave(id, CancelStop) in steps, Leave(id, DoorUnregisters) in steps, Leave(id, DeletionLost) in steps,
        Environment(LatePost(id)) in steps, Environment(LateDelete(id)) in steps,
        Environment(AbortDiscards(id)) in steps)
  }

  function After(log: Log, step: Step, id: Id): Log {
    Log(log.doorRegisters || step == Enter(id, DoorRegisters),
        log.registrationLost || step == Enter(id, RegistrationLost),
        log.unprintable || step == Enter(id, Unprintable),
        log.cancelWaiting || step == Call(id, CancelWaiting),
        log.cancelStop || step == Leave(id, CancelStop),
        log.doorUnregisters || step == Leave(id, DoorUnregisters),
        log.deletionLost || step == Leave(id, DeletionLost),
        log.latePost || step == Environment(LatePost(id)),
        log.lateDelete || step == Environment(LateDelete(id)),
        log.discards || step == Environment(AbortDiscards(id)))
  }

  lemma InOneMore(steps: seq<Step>, step: Step, x: Step)
    ensures x in steps + [step] <==> x in steps || x == step
  {
  }

  lemma LogOneMore(steps: seq<Step>, step: Step, id: Id)
    ensures LogOf(steps + [step], id) == After(LogOf(steps, id), step, id)
  {
    InOneMore(steps, step, Enter(id, DoorRegisters));
    InOneMore(steps, step, Enter(id, RegistrationLost));
    InOneMore(steps, step, Enter(id, Unprintable));
    InOneMore(steps, step, Call(id, CancelWaiting));
    InOneMore(steps, step, Leave(id, CancelStop));
    InOneMore(steps, step, Leave(id, DoorUnregisters));
    InOneMore(steps, step, Leave(id, DeletionLost));
    InOneMore(steps, step, Environment(LatePost(id)));
    InOneMore(steps, step, Environment(LateDelete(id)));
    InOneMore(steps, step, Environment(AbortDiscards(id)));
  }

  // ---------------------------------------------------------------- where a task is, and why

  /** A task's own part of the state. */
  datatype Place = Place(pc: Pc, postPending: bool, deletePending: bool, discarded: bool)

  function PlaceOf(s: State, id: Id): Place
    requires id in s.pc
  {
    Place(s.pc[id], id in s.latePosts, id in s.lateDeletes, id in s.discarded)
  }

  /** What sent the task where it is. */
  predicate ExitTraced(c: Config, pc: Pc, log: Log) {
    && (pc == Done(CutShort) <==> log.cancelStop)
    && (pc == Done(Unprinted) <==> !c.rft && log.unprintable)
    && (pc == Done(NotInvoked) <==> log.registrationLost || (c.rft && log.unprintable))
    && (pc == Done(Undelivered) <==> log.deletionLost && !log.doorUnregisters)
    && (log.doorUnregisters <==> pc == Deleting(Handled) || (c.rft && pc == Done(CleanedUp)))
    && (!c.rft ==> !pc.Deleting? && !pc.Registering? && pc != Stopping)
  }

  /** Which of its requests have been handled. */
  predicate RequestsTraced(p: Place, log: Log) {
    && (p.pc in {Idle, Registering(Sent), Done(Refused)} ==> !log.doorRegisters)
    && (p.pc == Registering(Handled) ==> log.doorRegisters)
    && (log.latePost ==> p.pc == Done(NotInvoked))
    && (p.postPending ==> p.pc == Done(NotInvoked))
    && (p.pc == Done(NotInvoked) ==> (p.postPending <==> !log.doorRegisters && !log.latePost))
    && (log.lateDelete ==> p.pc == Done(Undelivered))
    && (p.deletePending ==> p.pc == Done(Undelivered))
    && (p.pc == Done(Undelivered) ==> (p.deletePending <==> !log.lateDelete))
  }

  predicate PastWaiting(pc: Pc) {
    Holding(pc) || pc == Stopping || pc.Deleting? || (pc.Done? && pc.exit in {CleanedUp, Undelivered, CutShort})
  }

  predicate Traced(c: Config, p: Place, log: Log) {
    && ExitTraced(c, p.pc, log)
    && RequestsTraced(p, log)
    && (p.discarded <==> log.discards)
    && (PastWaiting(p.pc) ==> c.maxConcurrent > 0 || log.cancelWaiting)
  }

  function Entered(c: Config, p: Place, step: Entering): Place {
    match step
    case Refuse => p.(pc := Done(Refused))
    case Begin => p.(pc := if c.rft then Registering(Sent) else Waiting)
    case DoorRegisters => p.(pc := Registering(Handled))
    case Confirmed => p.(pc := Waiting)
    case RegistrationLost => p.(pc := Done(NotInvoked), postPending := p.postPending || p.pc == Registering(Sent))
    case Unprintable => p.(pc := Done(if c.rft then NotInvoked else Unprinted))
  }

  lemma EnterLeadsOn(c: Config, s: State, id: Id, step: Entering)
    requires id in c.urls && id in s.pc && CanEnter(c, s, id, step)
    ensures id in DoEnter(c, s, id, step).pc
    ensures PlaceOf(DoEnter(c, s, id, step), id) == Entered(c, PlaceOf(s, id), step)
    ensures EntersFrom(c, s.pc[id], step)
  {
    hide Tell, Created;
  }

  lemma EnteringIsTraced(c: Config, p: Place, id: Id, step: Entering, log: Log)
    requires Traced(c, p, log) && EntersFrom(c, p.pc, step)
    ensures Traced(c, Entered(c, p, step), After(log, Enter(id, step), id))
  {
    assert p.pc.Registering? ==> p.pc.flight.Sent? || p.pc.flight.Handled?;
  }

  lemma EnterIsTraced(c: Config, s: State, id: Id, step: Entering, log: Log)
    requires id in c.urls && id in s.pc && CanEnter(c, s, id, step) && Traced(c, PlaceOf(s, id), log)
    ensures id in DoEnter(c, s, id, step).pc
    ensures Traced(c, PlaceOf(DoEnter(c, s, id, step), id), After(log, Enter(id, step), id))
  {
    hide DoEnter, CanEnter, Entered, EntersFrom, Traced, After;
    EnterLeadsOn(c, s, id, step);
    EnteringIsTraced(c, PlaceOf(s, id), id, step, log);
  }

  /** The first place of the clean-up. */
  function CleanUpOf(c: Config): Pc {
    if !c.rft then Done(CleanedUp) else if c.stopHook then Stopping else Deleting(Sent)
  }

  /** A step inside the try block stays there or goes to the first place of the clean-up. */
  lemma CallLeadsOn(c: Config, s: State, id: Id, step: Calling)
    requires Inv(c, s) && id in s.pc && CanCall(c, s, id, step)
    ensures var s' := DoCall(c, s, id, step);
            id in s'.pc && PlaceOf(s', id) == PlaceOf(s, id).(pc := s'.pc[id]) &&
            (Holding(s'.pc[id]) || s'.pc[id] == CleanUpOf(c))
    ensures s.pc[id] == Waiting ==> c.maxConcurrent > 0 || step == CancelWaiting
    ensures s.pc[id] != Waiting ==> Holding(s.pc[id]) && step != CancelWaiting
  {
    hide DoorSound, CallsSound, ActiveExact, Forget, Released, Holders;
  }

  lemma MovingOnIsTraced(c: Config, p: Place, to: Pc, log: Log, cancelled: bool)
    requires Traced(c, p, log) && (p.pc == Waiting || Holding(p.pc))
    requires Holding(to) || to == CleanUpOf(c)
    requires p.pc == Waiting ==> c.maxConcurrent > 0 || cancelled
    ensures Traced(c, p.(pc := to), log.(cancelWaiting := log.cancelWaiting || cancelled))
  {
  }

  lemma LogOfCall(log: Log, id: Id, step: Calling)
    ensures After(log, Call(id, step), id) == log.(cancelWaiting := log.cancelWaiting || step == CancelWaiting)
  {
  }

  lemma CallIsTraced(c: Config, s: State, id: Id, step: Calling, log: Log)
    requires Inv(c, s) && id in c.urls && id in s.pc && CanCall(c, s, id, step) && Traced(c, PlaceOf(s, id), log)
    ensures id in DoCall(c, s, id, step).pc
    ensures Traced(c, PlaceOf(DoCall(c, s, id, step), id), After(log, Call(id, step), id))
  {
    hide Inv, DoCall, CanCall, After, Traced;
    CallLeadsOn(c, s, id, step);
    LogOfCall(log, id, step);
    MovingOnIsTraced(c, PlaceOf(s, id), DoCall(c, s, id, step).pc[id], log, step == CancelWaiting);
  }

  function Left(p: Place, step: Leaving): Place {
    match step
    case Stopped => p.(pc := Deleting(Sent))
    case CancelStop => p.(pc := Done(CutShort))
    case DoorUnregisters => p.(pc := Deleting(Handled))
    case Deleted => p.(pc := Done(CleanedUp))
    case DeletionLost =>
      if p.pc == Deleting(Handled) then p.(pc := Done(CleanedUp))
      else p.(pc := Done(Undelivered), deletePending := true)
  }

  lemma LeaveLeadsOn(s: State, id: Id, step: Leaving)
    requires id in s.pc && CanLeave(s, id, step)
    ensures id in DoLeave(s, id, step).pc
    ensures PlaceOf(DoLeave(s, id, step), id) == Left(PlaceOf(s, id), step) && LeavesFrom(s.pc[id], step)
  {
    hide Tell;
  }

  lemma LeavingIsTraced(c: Config, p: Place, id: Id, step: Leaving, log: Log)
    requires Traced(c, p, log) && LeavesFrom(p.pc, step)
    ensures Traced(c, Left(p, step), After(log, Leave(id, step), id))
  {
    assert p.pc.Deleting? ==> p.pc.flight.Sent? || p.pc.flight.Handled?;
  }

  lemma LeaveIsTraced(c: Config, s: State, id: Id, step: Leaving, log: Log)
    requires id in s.pc && CanLeave(s, id, step) && Traced(c, PlaceOf(s, id), log)
    ensures id in DoLeave(s, id, step).pc
    ensures Traced(c, PlaceOf(DoLeave(s, id, step), id), After(log, Leave(id, step), id))
  {
    hide DoLeave, CanLeave, Left, LeavesFrom, Traced, After;
    LeaveLeadsOn(s, id, step);
    LeavingIsTraced(c, PlaceOf(s, id), id, step, log);
  }

  lemma OutsideIsTraced(c: Config, s: State, id: Id, step: Outside, log: Log)
    requires Inv(c, s) && id in s.pc && CanHappen(c, s, step) && Traced(c, PlaceOf(s, id), log)
    ensures id in DoOutside(c, s, step).pc
    ensures Traced(c, PlaceOf(DoOutside(c, s, step), id), After(log, Environment(step), id))
  {
    hide Inv, Tell, FrontDoor.Apply, Busy, Live;
  }

  /** The task that takes a step. */
  function TaskOf(step: Step): Option<Id> {
    match step
    case Enter(id, _) => Some(id)
    case Call(id, _) => Some(id)
    case Leave(id, _) => Some(id)
    case Environment(_) => None
  }

  lemma OthersKeepTheirLog(log: Log, step: Step, id: Id)
    requires TaskOf(step) != Some(id) && !step.Environment?
    ensures After(log, step, id) == log
  {
  }

  lemma CallTouchesOne(c: Config, s: State, t: Id, step: Calling)
    requires t in s.pc && CanCall(c, s, t, step)
    ensures var s' := DoCall(c, s, t, step);
            t in s'.pc && s'.pc == s.pc[t := s'.pc[t]] &&
            s'.latePosts == s.latePosts && s'.lateDeletes == s.lateDeletes && s'.discarded == s.discarded
  {
    hide Forget, Released, Answered;
  }

  lemma OthersKeepTheirPlace(c: Config, s: State, step: Step, id: Id)
    requires Inv(c, s) && Enabled(c, s, step) && id in s.pc && TaskOf(step) != Some(id) && !step.Environment?
    ensures id in Do(c, s, step).pc && PlaceOf(Do(c, s, step), id) == PlaceOf(s, id)
  {
    hide Inv, Tell, Created, Released, Forget, Answered, Submit, Finally;
    match step
    case Enter(t, e) => hide CanEnter;
    case Call(t, e) => CallTouchesOne(c, s, t, e); hide DoCall, CanCall;
    case Leave(t, e) => hide CanLeave;
    case _ =>
  }

  lemma StepIsTraced(c: Config, s: State, id: Id, step: Step, log: Log)
    requires Inv(c, s) && Enabled(c, s, step) && id in s.pc && Traced(c, PlaceOf(s, id), log)
    ensures id in Do(c, s, step).pc && Traced(c, PlaceOf(Do(c, s, step), id), After(log, step, id))
  {
    hide Inv, DoEnter, DoCall, DoLeave, DoOutside, CanEnter, CanCall, CanLeave, CanHappen, Traced, After, PlaceOf;
    if !step.Environment? && TaskOf(step) != Some(id) {
      OthersKeepTheirPlace(c, s, step, id);
      OthersKeepTheirLog(log, step, id);
    } else {
      match step
      case Enter(_, e) => EnterIsTraced(c, s, id, e, log);
      case Call(_, e) => CallIsTraced(c, s, id, e, log);
      case Leave(_, e) => LeaveIsTraced(c, s, id, e, log);
      case Environment(e) => OutsideIsTraced(c, s, id, e, log);
    }
  }

  lemma {:induction false} RunIsTraced(c: Config, steps: seq<Step>, id: Id)
    requires Exec(c, steps).Some? && id in c.urls
    ensures id in Exec(c, steps).value.pc && Traced(c, PlaceOf(Exec(c, steps).value, id), LogOf(steps, id))
  {
    hide Inv, Enabled, Do, After;
    if |steps| > 0 {
      var before, step := steps[..|steps|-1], steps[|steps|-1];
      RunKeepsInv(c, before);
      RunIsTraced(c, before, id);
      hide Traced, LogOf, PlaceOf;
      StepIsTraced(c, Exec(c, before).value, id, step, LogOf(before, id));
      LogOneMore(before, step, id);
      assert before + [step] == steps;
    }
  }

  // ---------------------------------------------------------------- what is left behind

  /** EXIT STATE, exactly, by the events of the run. A done task is listed as active if and only
      if it was cancelled in the stop call (RFT) or could not print its payload (native), and no
      `abort` has discarded it since. It is registered if and only if it was cancelled in the
      stop call, or no DELETE of its clean-up has been handled, or it ended between registering
      and the try block with its registration handled. */
  lemma LeftBehind(c: Config, steps: seq<Step>, id: Id)
    requires Exec(c, steps).Some? && id in c.urls
    requires id in Exec(c, steps).value.pc && Exec(c, steps).value.pc[id].Done?
    ensures id in Exec(c, steps).value.active <==>
      (Leave(id, CancelStop) in steps || (!c.rft && Enter(id, Unprintable) in steps)) &&
      Environment(AbortDiscards(id)) !in steps
    ensures c.rft ==>
      (id in Exec(c, steps).value.door.sessions <==>
        || Leave(id, CancelStop) in steps
        || (Leave(id, DeletionLost) in steps &&
            Leave(id, DoorUnregisters) !in steps && Environment(LateDelete(id)) !in steps)
        || ((Enter(id, RegistrationLost) in steps || Enter(id, Unprintable) in steps) &&
            (Enter(id, DoorRegisters) in steps || Environment(LatePost(id)) in steps)))
    ensures Leave(id, CancelStop) in steps ==> c.rft && c.stopHook
  {
    RunIsTraced(c, steps, id);
    ExitLeavesBehind(c, Exec(c, steps).value, id);
    hide Exec;
  }

  /** Undisturbed at the four places where a task is exposed, it leaves nothing behind: whatever
      else fails, times out or is cancelled, once, often or never. */
  lemma UndisturbedExitIsClean(c: Config, steps: seq<Step>, id: Id)
    requires Exec(c, steps).Some? && id in c.urls
    requires id in Exec(c, steps).value.pc && Exec(c, steps).value.pc[id].Done?
    requires Enter(id, RegistrationLost) !in steps && Enter(id, Unprintable) !in steps
    requires Leave(id, CancelStop) !in steps && Leave(id, DeletionLost) !in steps
    ensures id !in Exec(c, steps).value.active
    ensures c.rft ==> id !in Exec(c, steps).value.door.sessions && id !in Exec(c, steps).value.door.results
  {
    LeftBehind(c, steps, id);
    ExitLeavesBehind(c, Exec(c, steps).value, id);
  }

  // ---------------------------------------------------------------- runs that leave something

  lemma ExecOneMore(c: Config, steps: seq<Step>, s: State, step: Step)
    requires Exec(c, steps) == Some(s) && Enabled(c, s, step)
    ensures Exec(c, steps + [step]) == Some(Do(c, s, step))
  {
    assert (steps + [step])[..|steps|] == steps;
  }

  function RegisteredPath(id: Id): seq<Step> {
    [] + [Enter(id, Begin)] + [Enter(id, DoorRegisters)]
  }

  lemma IsRegistered(c: Config, id: Id) returns (s: State)
    requires c.rft && id in c.urls
    ensures Exec(c, RegisteredPath(id)) == Some(s) && id in s.door.sessions
    ensures s == Init(c).(pc := Init(c).pc[id := Registering(Handled)], door := s.door)
  {
    var s0 := Init(c);
    var s1 := Do(c, s0, Enter(id, Begin));
    ExecOneMore(c, [], s0, Enter(id, Begin));
    ExecOneMore(c, [] + [Enter(id, Begin)], s1, Enter(id, DoorRegisters));
    s := Do(c, s1, Enter(id, DoorRegisters));
    assert s.pc == s0.pc[id := Registering(Handled)];
  }

  /** A native task whose payload cannot be printed raises between being listed and its try block. */
  lemma PayloadUnprintableLeaks(c: Config, id: Id)
    requires !c.rft && id in c.urls
    ensures exists s :: Reachable(c, s) && id in s.pc && s.pc[id].Done? && id in s.active
  {
    var s := Do(c, Init(c), Enter(id, Unprintable));
    ExecOneMore(c, [], Init(c), Enter(id, Unprintable));
    assert Reachable(c, s);
  }

  /** With the stop hook on, every task can end done, listed and still registered. */
  lemma CancelledStopLeaks(c: Config, id: Id)
    requires c.rft && c.stopHook && id in c.urls
    ensures exists s :: Reachable(c, s) && id in s.pc && s.pc[id].Done? && id in s.active && id in s.door.sessions
  {
    hide Exec;
    var path := RegisteredPath(id);
    var s2 := IsRegistered(c, id);
    ExecOneMore(c, path, s2, Enter(id, Confirmed));
    path := path + [Enter(id, Confirmed)];
    var s3 := Do(c, s2, Enter(id, Confirmed));
    ExecOneMore(c, path, s3, Call(id, CancelWaiting));
    path := path + [Call(id, CancelWaiting)];
    var s4 := Do(c, s3, Call(id, CancelWaiting));
    ExecOneMore(c, path, s4, Leave(id, CancelStop));
    assert Reachable(c, Do(c, s4, Leave(id, CancelStop)));
  }

  /** DONE YET LISTED. Some run leaves a task done and listed as active exactly if the task is
      native (its payload cannot be printed) or the stop hook is on (cancelled in the stop call). */
  lemma CanStayListed(c: Config, id: Id)
    requires id in c.urls
    ensures (exists s :: Reachable(c, s) && id in s.pc && s.pc[id].Done? && id in s.active) <==> !c.rft || c.stopHook
  {
    if s :| Reachable(c, s) && id in s.pc && s.pc[id].Done? && id in s.active {
      ExitLeavesBehind(c, s, id);
    }
    if !c.rft {
      PayloadUnprintableLeaks(c, id);
    } else if c.stopHook {
      CancelledStopLeaks(c, id);
    }
  }

  /** A run in which nothing goes wrong for anyone but one cancellation of `id` in its stop call. */
  ghost predicate OnlyStopCancelled(steps: seq<Step>, id: Id) {
    forall x :: x in steps ==> Ordinary(x) || x == Leave(id, CancelStop)
  }

  ghost predicate LeavesListed(c: Config, steps: seq<Step>, id: Id) {
    Exec(c, steps).Some? &&
    var s := Exec(c, steps).value;
    id in s.pc && s.pc[id].Done? && id in s.active
  }

  lemma Further(c: Config, id: Id, path: seq<Step>, s: State, step: Step) returns (path': seq<Step>, s': State)
    requires OnlyStopCancelled(path, id) && Exec(c, path) == Some(s) && Enabled(c, s, step)
    requires Ordinary(step) || step == Leave(id, CancelStop)
    ensures OnlyStopCancelled(path', id) && Exec(c, path') == Some(s') && s' == Do(c, s, step)
  {
    ExecOneMore(c, path, s, step);
    path', s' := path + [step], Do(c, s, step);
  }

  lemma IsConfirmed(c: Config, id: Id) returns (path: seq<Step>, s: State)
    requires c.rft && id in c.urls
    ensures OnlyStopCancelled(path, id) && Exec(c, path) == Some(s)
    ensures s.pc == Init(c).pc[id := Waiting] && s.slots == Some(c.maxConcurrent) && s.calls == map[] && id in s.active
  {
    hide Exec;
    s := IsRegistered(c, id);
    path, s := Further(c, id, RegisteredPath(id), s, Enter(id, Confirmed));
  }

  lemma IsAnswered(c: Config, id: Id) returns (path: seq<Step>, s: State)
    requires c.rft && c.maxConcurrent > 0 && c.maxAttempts > 0 && id in c.urls
    ensures OnlyStopCancelled(path, id) && Exec(c, path) == Some(s)
    ensures s.pc == Init(c).pc[id := Invoking(1)] && s.calls == map[Ticket(id, 1) := Finished(false)] && id in s.active
  {
    hide Exec, OnlyStopCancelled;
    var t := Ticket(id, 1);
    path, s := IsConfirmed(c, id);
    path, s := Further(c, id, path, s, Call(id, Acquire));
    assert s.calls == map[t := Queued] && Busy(s.calls) == {};
    path, s := Further(c, id, path, s, Environment(WorkerTakes(t)));
    path, s := Further(c, id, path, s, Environment(WorkerFinishes(t, false)));
  }

  lemma OneCancellationPath(c: Config, id: Id) returns (path: seq<Step>)
    requires c.rft && id in c.urls && c.stopHook && c.maxConcurrent > 0
    ensures OnlyStopCancelled(path, id) && LeavesListed(c, path, id)
  {
    hide Exec;
    var s;
    if c.maxAttempts == 0 {
      path, s := IsConfirmed(c, id);
      path, s := Further(c, id, path, s, Call(id, Acquire));
    } else {
      path, s := IsAnswered(c, id);
      path, s := Further(c, id, path, s, Call(id, Settle));
    }
    path, s := Further(c, id, path, s, Leave(id, CancelStop));
  }

  /** ONE CANCELLATION. That single cancellation is enough exactly if the stop hook is on and
      there is any slot to run in. */
  lemma OneCancellationSuffices(c: Config, id: Id)
    requires c.rft && id in c.urls
    ensures (exists steps :: OnlyStopCancelled(steps, id) && LeavesListed(c, steps, id)) <==>
      c.stopHook && c.maxConcurrent > 0
  {
    if steps :| OnlyStopCancelled(steps, id) && LeavesListed(c, steps, id) {
      LeftBehind(c, steps, id);
      RunIsTraced(c, steps, id);
    }
    if c.stopHook && c.maxConcurrent > 0 {
      var path := OneCancellationPath(c, id);
    }
  }

  /** STILL REGISTERED. Every task can end between registering and its try block: when it fails
      or is cancelled after the front door handled the registration, confirmed or not, and when
      its record cannot be printed. The entry stays. */
  lemma RegistrationLeaks(c: Config, id: Id, step: Entering)
    requires c.rft && id in c.urls && (step == RegistrationLost || step == Unprintable)
    ensures var steps := RegisteredPath(id) + [Enter(id, step)];
            Exec(c, steps).Some? && id in Exec(c, steps).value.pc && Exec(c, steps).value.pc[id].Done? &&
            id in Exec(c, steps).value.door.sessions
  {
    hide Exec;
    var s := IsRegistered(c, id);
    ExecOneMore(c, RegisteredPath(id), s, Enter(id, step));
  }
}
