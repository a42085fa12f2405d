/** Concurrent RFT invocations as a step machine. Everything a task does between two awaits is
    one step; worker threads, the front door, late network messages, feedback from agents and
    `abort` interleave with the tasks in any order. */
module Invocation {
  import opened Wrappers
  import opened Strings
  import FrontDoor

  type Id = string

  /** `urls` gives each task's session URL; a task's id is that session's id, so ids differ.
      Without `rft` a task is the native agent function, which uses no front door. */
  datatype Config = Config(rft: bool, stopHook: bool, maxConcurrent: nat, maxAttempts: nat, urls: map<Id, string>)

  /** A request on the network: sent, or already handled with the reply on its way. */
  datatype Flight = Sent | Handled

  datatype Exit =
    | Refused         // raised or returned before anything was registered or listed
    | NotInvoked      // RFT: failed or cancelled after registering, before the try block
    | Unprinted       // native: raised after being listed as active, before the try block
    | CleanedUp       // the clean-up ran to its end
    | Undelivered     // the DELETE failed, or its wait was cancelled, before it was handled
    | CutShort        // cancelled while the clean-up awaited the stop call

  datatype Pc =
    | Idle
    | Registering(flight: Flight)
    | Waiting                       // for a semaphore slot
    | Invoking(attempt: nat)        // for the call of this attempt
    | Sleeping(attempt: nat)        // backing off after this attempt was throttled
    | Stopping                      // clean-up: for the stop call
    | Deleting(flight: Flight)      // clean-up: for the DELETE
    | Done(exit: Exit)

  /** One call handed to the executor, and how far the executor is with it. */
  datatype Ticket = Ticket(id: Id, attempt: nat)
  datatype Phase = Queued | Running | Finished(throttled: bool)

  datatype State = State(
    pc: map<Id, Pc>,
    slots: Option<int>,             // free semaphore slots; absent until the semaphore is created
    active: set<Id>,
    discarded: set<Id>,             // taken out of `active` by `abort`
    calls: map<Ticket, Phase>,
    door: FrontDoor.Door,
    latePosts: set<Id>, lateDeletes: set<Id>)   // requests whose sender stopped waiting

  /** From the start of a task to its try block. */
  datatype Entering =
    | Refuse                        // a setting, the session server or its id is missing or malformed
    | Begin
    | DoorRegisters
    | Confirmed
    | RegistrationLost              // error reply, transport error or cancellation
    | Unprintable                   // native: the payload, RFT: the record cannot be printed as JSON

  /** Inside the try block. */
  datatype Calling =
    | Acquire
    | BodyUnprintable               // RFT: slot in hand, but the payload cannot be printed
    | CancelWaiting
    | Throttle                      // the finished call was throttled and may be retried
    | Settle                        // the finished call ends the invocation; throttled only at the limit
    | Abandon(withdrawn: bool)      // timeout or cancellation while the call is pending
    | Wake
    | CancelSleep

  /** In the finally block, after its first await. */
  datatype Leaving =
    | Stopped
    | CancelStop
    | DoorUnregisters
    | Deleted
    | DeletionLost                  // transport error or cancellation

  /** Everything around the tasks. */
  datatype Outside =
    | WorkerTakes(ticket: Ticket)
    | WorkerFinishes(ticket: Ticket, throttled: bool)
    | LatePost(id: Id)
    | LateDelete(id: Id)
    | AbortDiscards(id: Id)
    | AgentFeedback(message: FrontDoor.Message)

  datatype Step =
    | Enter(id: Id, entering: Entering)
    | Call(id: Id, calling: Calling)
    | Leave(id: Id, leaving: Leaving)
    | Environment(outside: Outside)

  function Init(c: Config): State {
    State(map id | id in c.urls :: Idle, None, {}, {}, map[], FrontDoor.EMPTY, {}, {})
  }

  // ---------------------------------------------------------------- the steps

  function Created(c: Config, slots: Option<int>): Option<int> {
    if slots == None then Some(c.maxConcurrent) else slots
  }

  function Released(slots: Option<int>): Option<int> {
    match slots case None => None case Some(k) => Some(k + 1)
  }

  /** The `finally` block up to its first await. */
  function Finally(c: Config, s: State, id: Id): (r: State)
    ensures id in r.pc && r.pc == s.pc[id := r.pc[id]]
    ensures r.pc[id] in {Stopping, Deleting(Sent), Done(CleanedUp)}
    ensures c.rft <==> r.pc[id] != Done(CleanedUp)
    ensures r.pc[id] == Stopping ==> c.stopHook
    ensures r == s.(pc := r.pc, active := r.active)
  {
    if !c.rft then s.(active := s.active - {id}, pc := s.pc[id := Done(CleanedUp)])
    else if c.stopHook then s.(pc := s.pc[id := Stopping])
    else s.(active := s.active - {id}, pc := s.pc[id := Deleting(Sent)])
  }

  /** The executor's occupied worker threads. */
  function Busy(calls: map<Ticket, Phase>): set<Ticket> {
    set t | t in calls && calls[t] == Running
  }

  predicate Answered(s: State, id: Id) {
    id in s.pc && s.pc[id].Invoking? &&
    Ticket(id, s.pc[id].attempt) in s.calls && s.calls[Ticket(id, s.pc[id].attempt)].Finished?
  }

  /** The finished call was throttled, and an attempt is left. */
  predicate MayRetry(c: Config, s: State, id: Id)
    requires Answered(s, id)
  {
    s.calls[Ticket(id, s.pc[id].attempt)].throttled && s.pc[id].attempt < c.maxAttempts
  }

  /** Where a task must be to take a step. */
  predicate EntersFrom(c: Config, pc: Pc, step: Entering) {
    match step
    case Refuse => pc == Idle
    case Begin => pc == Idle
    case DoorRegisters => pc == Registering(Sent)
    case Confirmed => pc == Registering(Handled)
    case RegistrationLost => pc.Registering?
    case Unprintable => pc == if c.rft then Registering(Handled) else Idle
  }

  predicate CanEnter(c: Config, s: State, id: Id, step: Entering) {
    id in s.pc && EntersFrom(c, s.pc[id], step)
  }

  predicate CanCall(c: Config, s: State, id: Id, step: Calling) {
    id in s.pc &&
    match step
    case Acquire => s.pc[id] == Waiting && s.slots.Some? && s.slots.value > 0
    case BodyUnprintable => c.rft && s.pc[id] == Waiting && s.slots.Some? && s.slots.value > 0
    case CancelWaiting => s.pc[id] == Waiting
    case Throttle => Answered(s, id) && MayRetry(c, s, id)
    case Settle => Answered(s, id) && !MayRetry(c, s, id)
    case Abandon(_) => s.pc[id].Invoking?
    case Wake => s.pc[id].Sleeping?
    case CancelSleep => s.pc[id].Sleeping?
  }

  predicate LeavesFrom(pc: Pc, step: Leaving) {
    match step
    case Stopped => pc == Stopping
    case CancelStop => pc == Stopping
    case DoorUnregisters => pc == Deleting(Sent)
    case Deleted => pc == Deleting(Handled)
    case DeletionLost => pc.Deleting?
  }

  predicate CanLeave(s: State, id: Id, step: Leaving) {
    id in s.pc && LeavesFrom(s.pc[id], step)
  }

  predicate CanHappen(c: Config, s: State, step: Outside) {
    match step
    case WorkerTakes(t) => t in s.calls && s.calls[t] == Queued && |Busy(s.calls)| < c.maxConcurrent
    case WorkerFinishes(t, _) => t in s.calls && s.calls[t] == Running
    case LatePost(id) => id in s.latePosts && id in c.urls
    case LateDelete(id) => id in s.lateDeletes
    case AbortDiscards(id) => id in s.active
    case AgentFeedback(m) => m.event.CompleteRollout? || m.event.UpdateReward?
  }

  predicate Enabled(c: Config, s: State, step: Step) {
    match step
    case Enter(id, e) => id in c.urls && CanEnter(c, s, id, e)
    case Call(id, e) => id in c.urls && CanCall(c, s, id, e)
    case Leave(id, e) => id in c.urls && CanLeave(s, id, e)
    case Environment(e) => CanHappen(c, s, e)
  }

  /** Hand attempt `k` of a task to the executor and await it. */
  function Submit(s: State, id: Id, k: nat): State {
    s.(calls := s.calls[Ticket(id, k) := Queued], pc := s.pc[id := Invoking(k)])
  }

  /** Giving up on a call: a finished one is dropped, a queued one perhaps withdrawn in time,
      and a running one keeps its worker until it returns. */
  function Forget(calls: map<Ticket, Phase>, t: Ticket, withdrawn: bool): map<Ticket, Phase> {
    if t in calls && (calls[t].Finished? || (calls[t] == Queued && withdrawn)) then calls - {t} else calls
  }

  function Tell(door: FrontDoor.Door, id: Id, event: FrontDoor.Event): FrontDoor.Door {
    FrontDoor.Apply(door, FrontDoor.Message(id, event))
  }

  function DoEnter(c: Config, s: State, id: Id, step: Entering): State
    requires id in c.urls && CanEnter(c, s, id, step)
  {
    match step
    case Refuse => s.(pc := s.pc[id := Done(Refused)])
    case Begin =>
      if c.rft then s.(pc := s.pc[id := Registering(Sent)])
      else s.(pc := s.pc[id := Waiting], active := s.active + {id}, slots := Created(c, s.slots))
    case DoorRegisters =>
      s.(door := Tell(s.door, id, FrontDoor.Register(c.urls[id])), pc := s.pc[id := Registering(Handled)])
    case Confirmed =>
      s.(pc := s.pc[id := Waiting], active := s.active + {id}, slots := Created(c, s.slots))
    case RegistrationLost =>
      s.(latePosts := if s.pc[id].flight == Sent then s.latePosts + {id} else s.latePosts,
         pc := s.pc[id := Done(NotInvoked)])
    case Unprintable =>
      if c.rft then s.(pc := s.pc[id := Done(NotInvoked)])
      else s.(pc := s.pc[id := Done(Unprinted)], active := s.active + {id})
  }

  function DoCall(c: Config, s: State, id: Id, step: Calling): State
    requires CanCall(c, s, id, step)
  {
    match step
    case Acquire =>
      if c.maxAttempts == 0 then Finally(c, s, id)
      else Submit(s.(slots := Some(s.slots.value - 1)), id, 1)
    case BodyUnprintable => Finally(c, s, id)
    case CancelWaiting => Finally(c, s, id)
    case Throttle =>
      s.(calls := s.calls - {Ticket(id, s.pc[id].attempt)}, pc := s.pc[id := Sleeping(s.pc[id].attempt)])
    case Settle =>
      Finally(c, s.(calls := s.calls - {Ticket(id, s.pc[id].attempt)}, slots := Released(s.slots)), id)
    case Abandon(withdrawn) =>
      Finally(c, s.(calls := Forget(s.calls, Ticket(id, s.pc[id].attempt), withdrawn), slots := Released(s.slots)), id)
    case Wake => Submit(s, id, s.pc[id].attempt + 1)
    case CancelSleep => Finally(c, s.(slots := Released(s.slots)), id)
  }

  function DoLeave(s: State, id: Id, step: Leaving): State
    requires CanLeave(s, id, step)
  {
    match step
    case Stopped => s.(active := s.active - {id}, pc := s.pc[id := Deleting(Sent)])
    case CancelStop => s.(pc := s.pc[id := Done(CutShort)])
    case DoorUnregisters =>
      s.(door := Tell(s.door, id, FrontDoor.Unregister), pc := s.pc[id := Deleting(Handled)])
    case Deleted => s.(pc := s.pc[id := Done(CleanedUp)])
    case DeletionLost =>
      if s.pc[id].flight == Handled then s.(pc := s.pc[id := Done(CleanedUp)])
      else s.(lateDeletes := s.lateDeletes + {id}, pc := s.pc[id := Done(Undelivered)])
  }

  /** The task is still waiting for this call. */
  predicate Live(pc: map<Id, Pc>, t: Ticket) {
    t.id in pc && pc[t.id] == Invoking(t.attempt)
  }

  function DoOutside(c: Config, s: State, step: Outside): State
    requires CanHappen(c, s, step)
  {
    match step
    case WorkerTakes(t) => s.(calls := s.calls[t := Running])
    case WorkerFinishes(t, throttled) =>
      s.(calls := if Live(s.pc, t) then s.calls[t := Finished(throttled)] else s.calls - {t})
    case LatePost(id) =>
      s.(door := Tell(s.door, id, FrontDoor.Register(c.urls[id])), latePosts := s.latePosts - {id})
    case LateDelete(id) =>
      s.(door := Tell(s.door, id, FrontDoor.Unregister), lateDeletes := s.lateDeletes - {id})
    case AbortDiscards(id) => s.(active := s.active - {id}, discarded := s.discarded + {id})
    case AgentFeedback(m) => s.(door := FrontDoor.Apply(s.door, m))
  }

  function Do(c: Config, s: State, step: Step): State
    requires Enabled(c, s, step)
  {
    match step
    case Enter(id, e) => DoEnter(c, s, id, e)
    case Call(id, e) => DoCall(c, s, id, e)
    case Leave(id, e) => DoLeave(s, id, e)
    case Environment(e) => DoOutside(c, s, e)
  }

  // ---------------------------------------------------------------- invariants

  /** Inside `async with semaphore`. */
  predicate Holding(pc: Pc) {
    pc.Invoking? || pc.Sleeping?
  }

  function Holders(pc: map<Id, Pc>): set<Id> {
    set id | id in pc && Holding(pc[id])
  }

  ghost predicate SlotsConserved(c: Config, pc: map<Id, Pc>, slots: Option<int>) {
    match slots
    case None => Holders(pc) == {} && forall id :: id in pc ==> pc[id] != Waiting
    case Some(free) => free >= 0 && free + |Holders(pc)| == c.maxConcurrent
  }

  /** A ticket's task has reached that attempt, or is past invoking altogether. */
  predicate Reached(pc: Pc, attempt: nat) {
    match pc
    case Invoking(k) => attempt <= k
    case Sleeping(k) => attempt <= k
    case Stopping => true
    case Deleting(_) => true
    case Done(_) => true
    case _ => false
  }

  /** Attempts stay within the limit, only the stop hook makes the clean-up stop a session,
      and only a native task can be left listed before its try block. */
  predicate Allowed(c: Config, pc: Pc) {
    && (pc.Invoking? ==> 1 <= pc.attempt <= c.maxAttempts)
    && (pc.Sleeping? ==> 1 <= pc.attempt < c.maxAttempts)
    && (pc == Stopping || pc == Done(CutShort) ==> c.rft && c.stopHook)
    && (pc == Done(Unprinted) ==> !c.rft)
  }

  /** Every awaited call is with the executor; attempts stay within the limit; an old ticket
      is never confused with a new one; workers never exceed their number. */
  ghost predicate CallsSound(c: Config, pc: map<Id, Pc>, calls: map<Ticket, Phase>) {
    && |Busy(calls)| <= c.maxConcurrent
    && (forall id :: id in pc ==> Allowed(c, pc[id]))
    && (forall id :: id in pc && pc[id].Invoking? ==> Ticket(id, pc[id].attempt) in calls)
    && (forall t :: t in calls ==> t.id in pc && Reached(pc[t.id], t.attempt))
    && (forall t :: t in calls && calls[t].Finished? ==> Live(pc, t))
  }

  ghost predicate MappedToOwn(c: Config, door: FrontDoor.Door, id: Id) {
    id in c.urls && id in door.sessions && door.sessions[id] == StripRight(c.urls[id], '/')
  }

  /** What the front door knows of a task, by where the task is. */
  ghost predicate DoorMatches(c: Config, pc: Pc, id: Id, door: FrontDoor.Door, postPending: bool, deletePending: bool) {
    match pc
    case Idle => id !in door.sessions
    case Registering(Sent) => id !in door.sessions
    case Deleting(Handled) => id !in door.sessions
    case Done(Refused) => id !in door.sessions
    case Done(CleanedUp) => id !in door.sessions
    case Done(Undelivered) => if deletePending then MappedToOwn(c, door, id) else id !in door.sessions
    case Done(NotInvoked) => if postPending then id !in door.sessions else MappedToOwn(c, door, id)
    case _ => MappedToOwn(c, door, id)
  }

  ghost predicate DoorSound(c: Config, pc: map<Id, Pc>, door: FrontDoor.Door,
                            latePosts: set<Id>, lateDeletes: set<Id>)
  {
    && pc.Keys == c.urls.Keys
    && (forall id :: id in latePosts ==> id in pc && pc[id] == Done(NotInvoked))
    && (forall id :: id in lateDeletes ==> id in pc && pc[id] == Done(Undelivered))
    && door.results.Keys <= door.sessions.Keys
    && (c.rft ==> forall id :: id in pc ==> DoorMatches(c, pc[id], id, door, id in latePosts, id in lateDeletes))
    && (!c.rft ==> forall id :: id in pc ==> !pc[id].Registering?)
  }

  /** Listed as active and not yet taken off: the tasks in flight, and those cut off just
      before the try block or inside the clean-up. */
  predicate Listed(pc: Pc) {
    pc == Waiting || Holding(pc) || pc == Stopping || pc == Done(CutShort) || pc == Done(Unprinted)
  }

  predicate BeforeTry(pc: Pc) {
    pc == Idle || pc.Registering?
  }

  /** `active` is exactly the tasks listed, less those `abort` has discarded. */
  ghost predicate ActiveExact(pc: map<Id, Pc>, active: set<Id>, discarded: set<Id>) {
    forall id ::
      && (id in active <==> id in pc && Listed(pc[id]) && id !in discarded)
      && (id in discarded ==> id in pc && !BeforeTry(pc[id]))
  }

  ghost predicate Inv(c: Config, s: State) {
    && DoorSound(c, s.pc, s.door, s.latePosts, s.lateDeletes)
    && SlotsConserved(c, s.pc, s.slots)
    && CallsSound(c, s.pc, s.calls)
    && ActiveExact(s.pc, s.active, s.discarded)
  }

  // ---------------------------------------------------------------- one task moves

  /** How a task's move may change the free slots. */
  predicate SlotMove(c: Config, from: Pc, to: Pc, slots: Option<int>, slots': Option<int>) {
    if Holding(from) == Holding(to) then (slots' == slots && to != Waiting) || slots' == Created(c, slots)
    else if Holding(to) then slots.Some? && slots.value > 0 && slots' == Some(slots.value - 1)
    else slots' == Released(slots) && to != Waiting
  }

  lemma HoldersAfterMove(pc: map<Id, Pc>, id: Id, to: Pc)
    requires id in pc
    ensures |Holders(pc[id := to])|
         == |Holders(pc)| + (if Holding(to) then 1 else 0) - (if Holding(pc[id]) then 1 else 0)
  {
    var before, after := Holders(pc), Holders(pc[id := to]);
    assert after == if Holding(to) then before + {id} else before - {id};
  }

  lemma SlotsAfterMove(c: Config, pc: map<Id, Pc>, slots: Option<int>, id: Id, to: Pc, slots': Option<int>)
    requires SlotsConserved(c, pc, slots) && id in pc && SlotMove(c, pc[id], to, slots, slots')
    ensures SlotsConserved(c, pc[id := to], slots')
  {
    HoldersAfterMove(pc, id, to);
    if slots == None {
      assert id !in Holders(pc);
    }
    hide Holders, Holding;
  }

  /** How a task's move may change the executor's calls. */
  ghost predicate CallMove(c: Config, id: Id, from: Pc, to: Pc, calls: map<Ticket, Phase>, calls': map<Ticket, Phase>) {
    && Allowed(c, to)
    && if to.Invoking? then
         && calls' == calls[Ticket(id, to.attempt) := Queued]
         && (from == Waiting || (from.Sleeping? && from.attempt < to.attempt))
       else
         && (forall t :: t in calls' ==> t in calls && calls'[t] == calls[t])
         && (forall t :: t in calls && t.id != id ==> t in calls')
         && (from.Invoking? && Ticket(id, from.attempt) in calls' ==> !calls'[Ticket(id, from.attempt)].Finished?)
         && (forall k: nat :: Reached(from, k) ==> Reached(to, k))
  }

  lemma CallsAfterSubmit(c: Config, pc: map<Id, Pc>, calls: map<Ticket, Phase>, id: Id, k: nat)
    requires CallsSound(c, pc, calls) && id in pc
    requires CallMove(c, id, pc[id], Invoking(k), calls, calls[Ticket(id, k) := Queued])
    ensures CallsSound(c, pc[id := Invoking(k)], calls[Ticket(id, k) := Queued])
  {
    var calls' := calls[Ticket(id, k) := Queued];
    assert !Reached(pc[id], k) && Ticket(id, k) !in calls;
    assert Busy(calls') == Busy(calls);
    forall t | t in calls' && calls'[t].Finished? ensures Live(pc[id := Invoking(k)], t) {
      assert t in calls && Live(pc, t);
    }
    hide Busy, Live, Allowed;
  }

  lemma Fewer(a: set<Ticket>, b: set<Ticket>)
    requires a <= b
    ensures |a| <= |b|
  {
    assert b == a + (b - a);
  }

  lemma CallsAfterQuit(c: Config, pc: map<Id, Pc>, calls: map<Ticket, Phase>, id: Id, to: Pc,
                       calls': map<Ticket, Phase>)
    requires CallsSound(c, pc, calls) && id in pc && !to.Invoking?
    requires CallMove(c, id, pc[id], to, calls, calls')
    ensures CallsSound(c, pc[id := to], calls')
  {
    assert Busy(calls') <= Busy(calls);
    Fewer(Busy(calls'), Busy(calls));
    hide Busy, Allowed;
    forall t | t in calls' && calls'[t].Finished? ensures Live(pc[id := to], t) {
      assert Live(pc, t);
    }
    hide Live;
    forall t | t in calls' ensures t.id in pc && Reached(pc[id := to][t.id], t.attempt) {
      assert t in calls && Reached(pc[t.id], t.attempt);
    }
  }

  lemma CallsAfterMove(c: Config, pc: map<Id, Pc>, calls: map<Ticket, Phase>, id: Id, to: Pc,
                       calls': map<Ticket, Phase>)
    requires CallsSound(c, pc, calls) && id in pc && CallMove(c, id, pc[id], to, calls, calls')
    ensures CallsSound(c, pc[id := to], calls')
  {
    hide CallsSound, Busy, Reached, Allowed;
    if to.Invoking? {
      CallsAfterSubmit(c, pc, calls, id, to.attempt);
    } else {
      CallsAfterQuit(c, pc, calls, id, to, calls');
    }
  }

  predicate ActiveMove(id: Id, from: Pc, to: Pc, active: set<Id>, active': set<Id>) {
    && (BeforeTry(to) ==> BeforeTry(from))
    && (Listed(to) ==> Listed(from) || BeforeTry(from))
    && active' == if Listed(from) == Listed(to) then active else if Listed(to) then active + {id} else active - {id}
  }

  lemma ActiveAfterMove(pc: map<Id, Pc>, active: set<Id>, discarded: set<Id>, id: Id, to: Pc, active': set<Id>)
    requires ActiveExact(pc, active, discarded) && id in pc && ActiveMove(id, pc[id], to, active, active')
    ensures ActiveExact(pc[id := to], active', discarded)
  {
  }

  /** How a task's move may touch the front door: only its own entry. */
  ghost predicate DoorMove(c: Config, s: State, s': State, id: Id, to: Pc) {
    && (forall other: Id :: other != id ==>
         && FrontDoor.AgreeOn(s'.door, s.door, other)
         && (other in s'.latePosts <==> other in s.latePosts)
         && (other in s'.lateDeletes <==> other in s.lateDeletes))
    && (id in s'.door.results ==> id in s'.door.sessions)
    && (id in s'.latePosts ==> to == Done(NotInvoked))
    && (id in s'.lateDeletes ==> to == Done(Undelivered))
    && (if c.rft then DoorMatches(c, to, id, s'.door, id in s'.latePosts, id in s'.lateDeletes) else !to.Registering?)
  }

  lemma DoorAfterMove(c: Config, s: State, s': State, id: Id, to: Pc)
    requires DoorSound(c, s.pc, s.door, s.latePosts, s.lateDeletes) && id in s.pc && DoorMove(c, s, s', id, to)
    ensures DoorSound(c, s.pc[id := to], s'.door, s'.latePosts, s'.lateDeletes)
  {
    forall other | other in s.pc && other != id && c.rft
      ensures DoorMatches(c, s.pc[other], other, s'.door, other in s'.latePosts, other in s'.lateDeletes)
    {
      assert FrontDoor.AgreeOn(s'.door, s.door, other);
    }
    forall other | other in s'.door.results ensures other in s'.door.sessions {
      assert other != id ==> FrontDoor.AgreeOn(s'.door, s.door, other);
    }
  }

  ghost predicate LegalMove(c: Config, s: State, s': State, id: Id, to: Pc) {
    && id in s.pc && s'.pc == s.pc[id := to] && s'.discarded == s.discarded
    && SlotMove(c, s.pc[id], to, s.slots, s'.slots)
    && CallMove(c, id, s.pc[id], to, s.calls, s'.calls)
    && ActiveMove(id, s.pc[id], to, s.active, s'.active)
    && DoorMove(c, s, s', id, to)
  }

  lemma MoveKeepsInv(c: Config, s: State, s': State, id: Id, to: Pc)
    requires Inv(c, s) && LegalMove(c, s, s', id, to)
    ensures Inv(c, s')
  {
    hide SlotsConserved, CallsSound, ActiveExact, DoorSound, SlotMove, CallMove, ActiveMove, DoorMove;
    SlotsAfterMove(c, s.pc, s.slots, id, to, s'.slots);
    CallsAfterMove(c, s.pc, s.calls, id, to, s'.calls);
    ActiveAfterMove(s.pc, s.active, s.discarded, id, to, s'.active);
    DoorAfterMove(c, s, s', id, to);
  }

  // ---------------------------------------------------------------- every step keeps the invariant

  lemma TellTouchesOne(door: FrontDoor.Door, id: Id, event: FrontDoor.Event)
    ensures forall other: Id :: other != id ==> FrontDoor.AgreeOn(Tell(door, id, event), door, other)
  {
    forall other: Id | other != id ensures FrontDoor.AgreeOn(Tell(door, id, event), door, other) {
      FrontDoor.ApplyAgrees(door, door, FrontDoor.Message(id, event), other);
    }
  }

  lemma TellSets(door: FrontDoor.Door, id: Id, url: string)
    ensures var told := Tell(door, id, FrontDoor.Register(url));
            id in told.sessions && told.sessions[id] == StripRight(url, '/') && id !in told.results
    ensures var told := Tell(door, id, FrontDoor.Unregister);
            id !in told.sessions && id !in told.results
  {
  }

  lemma FrontDoorIsReflexive(door: FrontDoor.Door)
    ensures forall id: Id :: FrontDoor.AgreeOn(door, door, id)
  {
  }

  /** What the invariant says of the front door's entry for one task. */
  lemma OwnDoorEntry(c: Config, s: State, id: Id)
    requires Inv(c, s) && id in s.pc
    ensures id in s.latePosts ==> s.pc[id] == Done(NotInvoked)
    ensures id in s.lateDeletes ==> s.pc[id] == Done(Undelivered)
    ensures id in s.door.results ==> id in s.door.sessions
    ensures if c.rft then DoorMatches(c, s.pc[id], id, s.door, id in s.latePosts, id in s.lateDeletes)
            else !s.pc[id].Registering?
  {
  }

  lemma EnterMovesSlots(c: Config, s: State, id: Id, step: Entering)
    requires Inv(c, s) && id in c.urls && CanEnter(c, s, id, step)
    ensures var s' := DoEnter(c, s, id, step);
            id in s.pc && s'.pc == s.pc[id := s'.pc[id]] && s'.discarded == s.discarded &&
            SlotMove(c, s.pc[id], s'.pc[id], s.slots, s'.slots) &&
            ActiveMove(id, s.pc[id], s'.pc[id], s.active, s'.active)
  {
    hide CallsSound, DoorSound, SlotsConserved, Tell, StripRight;
  }

  lemma EnterMovesCalls(c: Config, s: State, id: Id, step: Entering)
    requires Inv(c, s) && id in c.urls && CanEnter(c, s, id, step)
    ensures var s' := DoEnter(c, s, id, step);
            id in s.pc && id in s'.pc && CallMove(c, id, s.pc[id], s'.pc[id], s.calls, s'.calls)
  {
    hide DoorSound, SlotsConserved, ActiveExact, Tell, StripRight;
  }

  /** A move that tells the front door nothing. */
  lemma SilentDoorMove(c: Config, s: State, s': State, id: Id, to: Pc)
    requires s'.door == s.door && (id in s.door.results ==> id in s.door.sessions)
    requires s'.latePosts == s.latePosts || (s'.latePosts == s.latePosts + {id} && to == Done(NotInvoked))
    requires s'.lateDeletes == s.lateDeletes || (s'.lateDeletes == s.lateDeletes + {id} && to == Done(Undelivered))
    requires id !in s.latePosts && id !in s.lateDeletes
    requires c.rft ==> DoorMatches(c, to, id, s.door, id in s'.latePosts, id in s'.lateDeletes)
    requires !c.rft ==> !to.Registering?
    ensures DoorMove(c, s, s', id, to)
  {
    hide DoorMatches;
  }

  /** A move that tells the front door of one event about the task. */
  lemma ToldDoorMove(c: Config, s: State, s': State, id: Id, to: Pc, event: FrontDoor.Event)
    requires s'.door == Tell(s.door, id, event) && s'.latePosts == s.latePosts && s'.lateDeletes == s.lateDeletes
    requires id !in s.latePosts && id !in s.lateDeletes
    requires id in s'.door.results ==> id in s'.door.sessions
    requires if c.rft then DoorMatches(c, to, id, s'.door, false, false) else !to.Registering?
    ensures DoorMove(c, s, s', id, to)
  {
    hide DoorMatches;
    TellTouchesOne(s.door, id, event);
  }

  lemma EnterMovesDoor(c: Config, s: State, id: Id, step: Entering)
    requires Inv(c, s) && id in c.urls && CanEnter(c, s, id, step)
    ensures var s' := DoEnter(c, s, id, step);
            id in s'.pc && DoorMove(c, s, s', id, s'.pc[id])
  {
    OwnDoorEntry(c, s, id);
    hide Inv, StripRight, DoorMove, Tell, Created;
    var s' := DoEnter(c, s, id, step);
    if step == DoorRegisters {
      TellSets(s.door, id, c.urls[id]);
      ToldDoorMove(c, s, s', id, s'.pc[id], FrontDoor.Register(c.urls[id]));
    } else {
      SilentDoorMove(c, s, s', id, s'.pc[id]);
    }
  }

  lemma EnterKeepsInv(c: Config, s: State, id: Id, step: Entering)
    requires Inv(c, s) && id in c.urls && CanEnter(c, s, id, step)
    ensures Inv(c, DoEnter(c, s, id, step))
  {
    hide Inv, SlotMove, ActiveMove, CallMove, DoorMove, DoEnter, CanEnter;
    EnterMovesSlots(c, s, id, step);
    EnterMovesCalls(c, s, id, step);
    EnterMovesDoor(c, s, id, step);
    MoveKeepsInv(c, s, DoEnter(c, s, id, step), id, DoEnter(c, s, id, step).pc[id]);
  }

  lemma CallMovesSlots(c: Config, s: State, id: Id, step: Calling)
    requires Inv(c, s) && id in c.urls && CanCall(c, s, id, step)
    ensures var s' := DoCall(c, s, id, step);
            id in s.pc && s'.pc == s.pc[id := s'.pc[id]] && s'.discarded == s.discarded &&
            SlotMove(c, s.pc[id], s'.pc[id], s.slots, s'.slots) &&
            ActiveMove(id, s.pc[id], s'.pc[id], s.active, s'.active)
  {
    hide CallsSound, DoorSound, SlotsConserved, Tell, StripRight;
  }

  lemma SubmitMovesCalls(c: Config, s: State, id: Id, step: Calling)
    requires Inv(c, s) && id in c.urls && CanCall(c, s, id, step) && (step == Acquire || step == Wake)
    ensures var s' := DoCall(c, s, id, step);
            id in s.pc && id in s'.pc && CallMove(c, id, s.pc[id], s'.pc[id], s.calls, s'.calls)
  {
    hide DoorSound, SlotsConserved, ActiveExact, Finally, Busy, Live, Released, Forget, Answered;
  }

  lemma DropIsCallMove(c: Config, id: Id, from: Pc, to: Pc, calls: map<Ticket, Phase>, dropped: set<Ticket>)
    requires Allowed(c, to) && forall t :: t in dropped ==> t.id == id
    requires to == Stopping || to.Deleting? || to.Done? || (to.Sleeping? && from == Invoking(to.attempt))
    requires from.Invoking? && Ticket(id, from.attempt) in calls && calls[Ticket(id, from.attempt)].Finished? ==>
      Ticket(id, from.attempt) in dropped
    ensures CallMove(c, id, from, to, calls, calls - dropped)
  {
  }

  /** The tickets a step inside the try block takes back. */
  function Dropped(s: State, id: Id, step: Calling): set<Ticket>
    requires id in s.pc
  {
    if s.pc[id].Invoking? && (step == Throttle || step == Settle ||
      (step.Abandon? && Ticket(id, s.pc[id].attempt) !in Forget(s.calls, Ticket(id, s.pc[id].attempt), step.withdrawn)))
    then {Ticket(id, s.pc[id].attempt)} else {}
  }

  lemma SettleDrops(c: Config, s: State, id: Id, step: Calling)
    requires id in s.pc && CanCall(c, s, id, step) && step != Acquire && step != Wake && Allowed(c, s.pc[id])
    ensures var s' := DoCall(c, s, id, step);
            s'.calls == s.calls - Dropped(s, id, step) && id in s'.pc && Allowed(c, s'.pc[id]) &&
            (s'.pc[id] == Stopping || s'.pc[id].Deleting? || s'.pc[id].Done? ||
             (step == Throttle && s'.pc[id] == Sleeping(s.pc[id].attempt)))
  {
    hide Released, Live;
  }

  lemma SettleMovesCalls(c: Config, s: State, id: Id, step: Calling)
    requires Inv(c, s) && id in c.urls && CanCall(c, s, id, step) && step != Acquire && step != Wake
    ensures var s' := DoCall(c, s, id, step);
            id in s.pc && id in s'.pc && CallMove(c, id, s.pc[id], s'.pc[id], s.calls, s'.calls)
  {
    assert Allowed(c, s.pc[id]);
    SettleDrops(c, s, id, step);
    hide Inv, CallMove, Allowed, DoCall, Answered;
    DropIsCallMove(c, id, s.pc[id], DoCall(c, s, id, step).pc[id], s.calls, Dropped(s, id, step));
  }

  lemma CallMovesCalls(c: Config, s: State, id: Id, step: Calling)
    requires Inv(c, s) && id in c.urls && CanCall(c, s, id, step)
    ensures var s' := DoCall(c, s, id, step);
            id in s.pc && id in s'.pc && CallMove(c, id, s.pc[id], s'.pc[id], s.calls, s'.calls)
  {
    hide Inv, DoCall, CanCall, CallMove;
    if step == Acquire || step == Wake {
      SubmitMovesCalls(c, s, id, step);
    } else {
      SettleMovesCalls(c, s, id, step);
    }
  }

  lemma CallMovesDoor(c: Config, s: State, id: Id, step: Calling)
    requires Inv(c, s) && id in c.urls && CanCall(c, s, id, step)
    ensures var s' := DoCall(c, s, id, step);
            id in s'.pc && DoorMove(c, s, s', id, s'.pc[id])
  {
    hide CallsSound, SlotsConserved, ActiveExact, StripRight, FrontDoor.AgreeOn, FrontDoor.Apply, Finally, Forget;
    FrontDoorIsReflexive(s.door);
  }

  lemma CallKeepsInv(c: Config, s: State, id: Id, step: Calling)
    requires Inv(c, s) && id in c.urls && CanCall(c, s, id, step)
    ensures Inv(c, DoCall(c, s, id, step))
  {
    hide Inv, SlotMove, ActiveMove, CallMove, DoorMove, DoCall, CanCall;
    CallMovesSlots(c, s, id, step);
    CallMovesCalls(c, s, id, step);
    CallMovesDoor(c, s, id, step);
    MoveKeepsInv(c, s, DoCall(c, s, id, step), id, DoCall(c, s, id, step).pc[id]);
  }

  lemma LeaveMovesSlots(c: Config, s: State, id: Id, step: Leaving)
    requires Inv(c, s) && id in c.urls && CanLeave(s, id, step)
    ensures var s' := DoLeave(s, id, step);
            id in s.pc && s'.pc == s.pc[id := s'.pc[id]] && s'.discarded == s.discarded &&
            SlotMove(c, s.pc[id], s'.pc[id], s.slots, s'.slots) &&
            ActiveMove(id, s.pc[id], s'.pc[id], s.active, s'.active)
  {
    hide CallsSound, DoorSound, SlotsConserved, Tell, StripRight;
  }

  lemma LeaveMovesCalls(c: Config, s: State, id: Id, step: Leaving)
    requires Inv(c, s) && id in c.urls && CanLeave(s, id, step)
    ensures var s' := DoLeave(s, id, step);
            id in s.pc && id in s'.pc && CallMove(c, id, s.pc[id], s'.pc[id], s.calls, s'.calls)
  {
    hide DoorSound, SlotsConserved, ActiveExact, Tell, StripRight;
  }

  lemma LeavingDoorMatches(c: Config, pc: Pc, id: Id, door: FrontDoor.Door, step: Leaving)
    requires LeavesFrom(pc, step) && DoorMatches(c, pc, id, door, false, false)
    ensures step == Stopped ==> DoorMatches(c, Deleting(Sent), id, door, false, false)
    ensures step == CancelStop ==> DoorMatches(c, Done(CutShort), id, door, false, false)
    ensures step == Deleted ==> DoorMatches(c, Done(CleanedUp), id, door, false, false)
    ensures step == DeletionLost ==>
      if pc.flight == Handled then DoorMatches(c, Done(CleanedUp), id, door, false, false)
      else DoorMatches(c, Done(Undelivered), id, door, false, true)
  {
    assert step == DeletionLost ==> pc.flight.Sent? || pc.flight.Handled?;
  }

  lemma LeaveMovesDoor(c: Config, s: State, id: Id, step: Leaving)
    requires Inv(c, s) && id in c.urls && CanLeave(s, id, step)
    ensures var s' := DoLeave(s, id, step);
            id in s'.pc && DoorMove(c, s, s', id, s'.pc[id])
  {
    OwnDoorEntry(c, s, id);
    hide Inv, StripRight, DoorMove, Tell;
    var s' := DoLeave(s, id, step);
    if step == DoorUnregisters {
      TellSets(s.door, id, "");
      ToldDoorMove(c, s, s', id, s'.pc[id], FrontDoor.Unregister);
    } else {
      if c.rft { LeavingDoorMatches(c, s.pc[id], id, s.door, step); }
      hide DoorMatches;
      SilentDoorMove(c, s, s', id, s'.pc[id]);
    }
  }

  lemma LeaveKeepsInv(c: Config, s: State, id: Id, step: Leaving)
    requires Inv(c, s) && id in c.urls && CanLeave(s, id, step)
    ensures Inv(c, DoLeave(s, id, step))
  {
    hide Inv, SlotMove, ActiveMove, CallMove, DoorMove, DoLeave, CanLeave;
    LeaveMovesSlots(c, s, id, step);
    LeaveMovesCalls(c, s, id, step);
    LeaveMovesDoor(c, s, id, step);
    MoveKeepsInv(c, s, DoLeave(s, id, step), id, DoLeave(s, id, step).pc[id]);
  }

  lemma WorkerStepKeepsCalls(c: Config, pc: map<Id, Pc>, calls: map<Ticket, Phase>, t: Ticket, throttled: bool)
    requires CallsSound(c, pc, calls) && t in calls
    ensures calls[t] == Queued && |Busy(calls)| < c.maxConcurrent ==> CallsSound(c, pc, calls[t := Running])
    ensures calls[t] == Running ==>
      CallsSound(c, pc, if Live(pc, t) then calls[t := Finished(throttled)] else calls - {t})
  {
    if calls[t] == Queued {
      assert Busy(calls[t := Running]) == Busy(calls) + {t};
    }
    if calls[t] == Running {
      var calls' := if Live(pc, t) then calls[t := Finished(throttled)] else calls - {t};
      assert Busy(calls') == Busy(calls) - {t};
      Fewer(Busy(calls'), Busy(calls));
      assert !Live(pc, t) ==> forall id :: id in pc && pc[id].Invoking? ==> Ticket(id, pc[id].attempt) != t;
    }
    hide Busy, Allowed, Reached;
  }

  lemma OutsideKeepsCalls(c: Config, s: State, step: Outside)
    requires Inv(c, s) && CanHappen(c, s, step)
    ensures CallsSound(c, DoOutside(c, s, step).pc, DoOutside(c, s, step).calls)
  {
    hide SlotsConserved, ActiveExact, DoorSound, CallsSound, Tell, FrontDoor.Apply, Live;
    match step
    case WorkerTakes(t) => WorkerStepKeepsCalls(c, s.pc, s.calls, t, false);
    case WorkerFinishes(t, throttled) => WorkerStepKeepsCalls(c, s.pc, s.calls, t, throttled);
    case _ =>
  }

  lemma OutsideKeepsDoor(c: Config, s: State, step: Outside)
    requires Inv(c, s) && CanHappen(c, s, step)
    ensures var s' := DoOutside(c, s, step); DoorSound(c, s.pc, s'.door, s'.latePosts, s'.lateDeletes)
  {
    hide SlotsConserved, ActiveExact, CallsSound, StripRight;
    match step
    case LatePost(id) =>
      TellTouchesOne(s.door, id, FrontDoor.Register(c.urls[id]));
      DoorAfterMove(c, s, DoOutside(c, s, step), id, s.pc[id]);
      assert s.pc[id := s.pc[id]] == s.pc;
    case LateDelete(id) =>
      TellTouchesOne(s.door, id, FrontDoor.Unregister);
      DoorAfterMove(c, s, DoOutside(c, s, step), id, s.pc[id]);
      assert s.pc[id := s.pc[id]] == s.pc;
    case AgentFeedback(m) =>
      FrontDoor.SameSessionsAfter(s.door, s.door, m);
    case _ =>
  }

  lemma OutsideKeepsInv(c: Config, s: State, step: Outside)
    requires Inv(c, s) && CanHappen(c, s, step)
    ensures Inv(c, DoOutside(c, s, step))
  {
    hide DoorSound, CallsSound, SlotsConserved, Tell, FrontDoor.Apply, Live;
    OutsideKeepsCalls(c, s, step);
    OutsideKeepsDoor(c, s, step);
  }

  lemma StepKeepsInv(c: Config, s: State, step: Step)
    requires Inv(c, s) && Enabled(c, s, step)
    ensures Inv(c, Do(c, s, step))
  {
    hide Inv, DoEnter, DoCall, DoLeave, DoOutside, CanEnter, CanCall, CanLeave, CanHappen;
    match step
    case Enter(id, e) => EnterKeepsInv(c, s, id, e);
    case Call(id, e) => CallKeepsInv(c, s, id, e);
    case Leave(id, e) => LeaveKeepsInv(c, s, id, e);
    case Environment(e) => OutsideKeepsInv(c, s, e);
  }

  // ---------------------------------------------------------------- all runs

  /** Where a sequence of steps leads from the start, if every step is possible in turn. */
  function Exec(c: Config, steps: seq<Step>): Option<State> {
    if |steps| == 0 then Some(Init(c))
    else
      match Exec(c, steps[..|steps|-1])
      case None => None
      case Some(s) => if Enabled(c, s, steps[|steps|-1]) then Some(Do(c, s, steps[|steps|-1])) else None
  }

  ghost predicate Reachable(c: Config, s: State) {
    exists steps :: Exec(c, steps) == Some(s)
  }

  lemma InitInv(c: Config)
    ensures Inv(c, Init(c))
  {
    assert Holders(Init(c).pc) == {};
    assert Busy(Init(c).calls) == {};
  }

  lemma {:induction false} RunKeepsInv(c: Config, steps: seq<Step>)
    ensures Exec(c, steps).Some? ==> Inv(c, Exec(c, steps).value)
  {
    hide Inv, Enabled, Do;
    if |steps| == 0 {
      InitInv(c);
    } else {
      RunKeepsInv(c, steps[..|steps|-1]);
      var before := Exec(c, steps[..|steps|-1]);
      if before.Some? && Enabled(c, before.value, steps[|steps|-1]) {
        StepKeepsInv(c, before.value, steps[|steps|-1]);
      }
    }
  }

  lemma ReachableInv(c: Config, s: State)
    requires Reachable(c, s)
    ensures Inv(c, s)
  {
    var steps :| Exec(c, steps) == Some(s);
    RunKeepsInv(c, steps);
  }

  // ---------------------------------------------------------------- what follows

  function Awaited(s: State): set<Ticket> {
    set t | t in s.calls && Live(s.pc, t)
  }

  lemma {:induction false} OneIdEach(s: State, tickets: set<Ticket>, ids: set<Id>)
    requires forall t :: t in tickets ==> Live(s.pc, t)
    requires ids == set t | t in tickets :: t.id
    ensures |tickets| == |ids|
    decreases |tickets|
  {
    if tickets != {} {
      var t :| t in tickets;
      var fewer := tickets - {t};
      assert ids - {t.id} == set u | u in fewer :: u.id;
      OneIdEach(s, fewer, ids - {t.id});
    }
  }

  lemma AwaitedNeedSlots(s: State)
    ensures |Awaited(s)| <= |Holders(s.pc)|
  {
    var ids := set t | t in Awaited(s) :: t.id;
    assert ids <= Holders(s.pc);
    OneIdEach(s, Awaited(s), ids);
    assert Holders(s.pc) == ids + (Holders(s.pc) - ids);
  }

  /** CONCURRENCY BOUND. In every reachable state the slot holders, the awaited calls and the
      busy workers each stay within the limit - the last even though abandoned calls go on
      running - and no slot is lost: when every task is done, all slots are free again. */
  lemma ConcurrencyIsBounded(c: Config, s: State)
    requires Reachable(c, s)
    ensures |Holders(s.pc)| <= c.maxConcurrent
    ensures |Awaited(s)| <= c.maxConcurrent
    ensures |Busy(s.calls)| <= c.maxConcurrent
    ensures (forall id :: id in s.pc ==> s.pc[id].Done?) ==> s.slots in {None, Some(c.maxConcurrent)}
  {
    ReachableInv(c, s);
    AwaitedNeedSlots(s);
    assert s.slots == None ==> |Holders(s.pc)| == 0;
    if forall id :: id in s.pc ==> s.pc[id].Done? {
      assert Holders(s.pc) == {};
    }
  }

  /** A call waits for a worker only because of abandoned calls: if every busy worker serves a
      call somebody still awaits, a queued awaited call can start at once. */
  lemma OnlyAbandonedCallsDelay(c: Config, s: State, t: Ticket)
    requires Reachable(c, s)
    requires t in s.calls && s.calls[t] == Queued && Live(s.pc, t)
    requires Busy(s.calls) <= Awaited(s)
    ensures Enabled(c, s, Environment(WorkerTakes(t)))
  {
    ConcurrencyIsBounded(c, s);
    assert Busy(s.calls) + {t} <= Awaited(s);
    Fewer(Busy(s.calls) + {t}, Awaited(s));
    assert t !in Busy(s.calls);
  }

  /** Whenever an invocation is submitted - first attempt or retry - and as long as it is
      awaited, the front door sends that trajectory's inference to its own session. */
  lemma SubmittedWhileRouted(c: Config, s: State, id: Id)
    requires c.rft && Reachable(c, s) && id in s.pc
    requires Enabled(c, s, Call(id, Acquire)) || Enabled(c, s, Call(id, Wake)) || Holding(s.pc[id])
    ensures id in c.urls && id in s.door.sessions && s.door.sessions[id] == StripRight(c.urls[id], '/')
    ensures |StripRight(c.urls[id], '/')| > 0 ==>
      FrontDoor.Route(s.door, id) == Some(StripRight(c.urls[id], '/') + "/v1/chat/completions")
  {
    ReachableInv(c, s);
    assert DoorMatches(c, s.pc[id], id, s.door, id in s.latePosts, id in s.lateDeletes);
  }

  /** What a done task leaves behind, by the way it ended. */
  lemma ExitLeavesBehind(c: Config, s: State, id: Id)
    requires Reachable(c, s) && id in s.pc && s.pc[id].Done?
    ensures c.rft ==>
      (id !in s.door.sessions <==>
        match s.pc[id].exit
        case Refused => true
        case CleanedUp => true
        case Undelivered => id !in s.lateDeletes
        case NotInvoked => id in s.latePosts
        case Unprinted => false
        case CutShort => false)
    ensures id !in s.door.sessions ==> id !in s.door.results
    ensures id in s.active <==> s.pc[id].exit in {CutShort, Unprinted} && id !in s.discarded
    ensures s.pc[id].exit == CutShort ==> c.rft && c.stopHook
    ensures s.pc[id].exit == Unprinted ==> !c.rft
  {
    ReachableInv(c, s);
    assert c.rft ==> DoorMatches(c, s.pc[id], id, s.door, id in s.latePosts, id in s.lateDeletes);
    assert Allowed(c, s.pc[id]);
  }

  /** `active` lists every task in flight that `abort` has not discarded, so `abort` can reach
      each of them; besides those only done tasks that ended in one of the two places where the
      entry is left. */
  lemma ActiveIsListed(c: Config, s: State, id: Id)
    requires Reachable(c, s) && id in s.pc && id !in s.discarded
    ensures id in s.active <==>
      s.pc[id] == Waiting || Holding(s.pc[id]) || s.pc[id] == Stopping ||
      s.pc[id] == Done(if c.rft then CutShort else Unprinted)
  {
    ReachableInv(c, s);
    assert Allowed(c, s.pc[id]);
  }
}
