/** The loop over the attempts of one trajectory, by what it observes: whether it was to stop when
    an attempt was about to start, and how each generator call came back. */
module AttemptLoop {

  datatype CallEnd = GaveOutput(accepted: bool) | Threw | GotCancelled

  /** How a call came back, and whether its task was being cancelled by then. */
  datatype Return = Return(end: CallEnd, cancelling: bool)

  datatype Meaning = Accepts | Retries | Stops

  /** A cancellation that the generator swallowed is noticed when a call returns, but an exception
      is retried first. */
  function MeaningOf(r: Return): Meaning {
    match r.end
    case GaveOutput(accepted) => if r.cancelling then Stops else if accepted then Accepts else Retries
    case Threw => Retries
    case GotCancelled => Stops
  }

  /** The loop heads it passed, with whether it was halted there, and the calls that came back. */
  datatype History = History(heads: seq<bool>, calls: seq<Return>)

  datatype Ending = Succeeded | GaveUp | WasCancelled

  /** Neither halted nor stopped at the first `n` loop heads and calls. */
  ghost predicate WentOn(h: History, heads: nat, calls: nat)
    requires heads <= |h.heads| && calls <= |h.calls|
  {
    && (forall k :: 0 <= k < heads ==> !h.heads[k])
    && (forall k :: 0 <= k < calls ==> MeaningOf(h.calls[k]) == Retries)
  }

  /** In the middle of a call. */
  ghost predicate InCall(h: History, attempts: nat) {
    |h.heads| == |h.calls| + 1 <= attempts && WentOn(h, |h.heads|, |h.calls|)
  }

  /** Out of the loop at a head: no attempt is left, or it was halted there. */
  ghost predicate OverAtHead(h: History, attempts: nat, ending: Ending) {
    match ending
    case Succeeded => false
    case GaveUp => |h.heads| == |h.calls| == attempts && WentOn(h, |h.heads|, |h.calls|)
    case WasCancelled =>
      |h.heads| == |h.calls| + 1 <= attempts && WentOn(h, |h.calls|, |h.calls|) && h.heads[|h.calls|]
  }

  /** Out of the loop after a call. */
  ghost predicate OverAfterCall(h: History, attempts: nat, ending: Ending) {
    && 1 <= |h.heads| == |h.calls| <= attempts
    && WentOn(h, |h.heads|, |h.calls| - 1)
    && var last := MeaningOf(h.calls[|h.calls|-1]);
       match ending
       case Succeeded => last == Accepts
       case GaveUp => false
       case WasCancelled => last == Stops
  }

  ghost predicate Over(h: History, attempts: nat, ending: Ending) {
    OverAtHead(h, attempts, ending) || OverAfterCall(h, attempts, ending)
  }

  /** Two histories that saw the same as far as both go. */
  ghost predicate SawTheSame(a: History, b: History) {
    && (forall k :: 0 <= k < |a.heads| && k < |b.heads| ==> a.heads[k] == b.heads[k])
    && (forall k :: 0 <= k < |a.calls| && k < |b.calls| ==> a.calls[k] == b.calls[k])
  }

  lemma NoLongerHistory(a: History, b: History, attempts: nat, ea: Ending, eb: Ending)
    requires Over(a, attempts, ea) && Over(b, attempts, eb) && SawTheSame(a, b)
    ensures |b.calls| <= |a.calls| && |b.heads| <= |a.heads|
  {
  }

  /** What the loop observes decides how many calls it makes and how it ends. */
  lemma ObservationsDecide(a: History, b: History, attempts: nat, ea: Ending, eb: Ending)
    requires Over(a, attempts, ea) && Over(b, attempts, eb) && SawTheSame(a, b)
    ensures a == b && ea == eb
  {
    NoLongerHistory(a, b, attempts, ea, eb);
    NoLongerHistory(b, a, attempts, eb, ea);
    assert a.heads == b.heads && a.calls == b.calls;
  }
}
