/** One invocation with exponential backoff on throttles. */
module Backoff {
  import opened Strings

  const RETRYABLE := ["ThrottlingException", "ServiceQuotaExceededException", "RetryableConflictException"]
  const FATAL := ["AccessDeniedException", "ResourceNotFoundException", "ValidationException",
                  "UnrecognizedClientException"]
  const BASE := 2.0
  const CAP := 45.0

  /** An exception's `response` attribute: absent, a mapping with an error code ("" when it has
      none), or something no code can be read from, such as `None`. */
  datatype Response = Absent | Coded(code: string) | Unreadable

  /** A raised error: its response and its text. */
  datatype Failure = Failure(response: Response, text: string)

  datatype Outcome<V> = Reply(value: V) | TimedOut | Threw(failure: Failure)

  datatype Ending<V> =
    | Delivered(value: V)
    | GaveUp
    | Fatal(failure: Failure)
    | HandlerRaised             // reading the code of the error raised another one

  function CodeOf(response: Response): string {
    match response case Coded(code) => code case _ => ""
  }

  predicate Mentions(failure: Failure, names: seq<string>) {
    CodeOf(failure.response) in names || exists k :: 0 <= k < |names| && Contains(failure.text, names[k])
  }

  ghost predicate HasInfix(s: string, part: string) {
    exists a: string, b: string :: s == a + part + b
  }

  lemma ContainsIsInfix(s: string, part: string)
    ensures Contains(s, part) <==> HasInfix(s, part)
  {
    if i :| 0 <= i <= |s| && OccursAt(s, part, i) {
      assert s == s[..i] + part + s[i + |part|..];
    }
    if a: string, b: string :| s == a + part + b {
      assert s[|a|..|a| + |part|] == part;
      assert OccursAt(s, part, |a|);
    }
  }

  /** The errors that end an invocation at once, and those that are worth another attempt, by the
      service's code or anywhere in the text. */
  lemma NamesDecide(f: Failure)
    ensures Mentions(f, FATAL) <==>
      (f.response.Coded? && f.response.code in {"AccessDeniedException", "ResourceNotFoundException",
                                                "ValidationException", "UnrecognizedClientException"}) ||
      HasInfix(f.text, "AccessDeniedException") || HasInfix(f.text, "ResourceNotFoundException") ||
      HasInfix(f.text, "ValidationException") || HasInfix(f.text, "UnrecognizedClientException")
    ensures Mentions(f, RETRYABLE) <==>
      (f.response.Coded? && f.response.code in {"ThrottlingException", "ServiceQuotaExceededException",
                                                "RetryableConflictException"}) ||
      HasInfix(f.text, "ThrottlingException") || HasInfix(f.text, "ServiceQuotaExceededException") ||
      HasInfix(f.text, "RetryableConflictException")
  {
    forall name ensures Contains(f.text, name) <==> HasInfix(f.text, name) {
      ContainsIsInfix(f.text, name);
    }
    hide Contains, HasInfix;
    assert (exists k :: 0 <= k < |FATAL| && Contains(f.text, FATAL[k])) <==>
      Contains(f.text, FATAL[0]) || Contains(f.text, FATAL[1]) ||
      Contains(f.text, FATAL[2]) || Contains(f.text, FATAL[3]);
    assert (exists k :: 0 <= k < |RETRYABLE| && Contains(f.text, RETRYABLE[k])) <==>
      Contains(f.text, RETRYABLE[0]) || Contains(f.text, RETRYABLE[1]) || Contains(f.text, RETRYABLE[2]);
  }

  predicate Throttled<V>(outcome: Outcome<V>) {
    outcome.Threw? && outcome.failure.response != Unreadable &&
    !Mentions(outcome.failure, FATAL) && Mentions(outcome.failure, RETRYABLE)
  }

  predicate BreaksHandler<V>(outcome: Outcome<V>) {
    outcome.Threw? && outcome.failure.response == Unreadable
  }

  function Power(k: nat): (p: real)
    ensures p >= 1.0
  {
    if k == 0 then 1.0 else 2.0 * Power(k - 1)
  }

  /** The longest wait after failed attempt `k`, counting from zero. */
  function Ceiling(k: nat): (c: real)
    ensures 0.0 < c <= CAP
  {
    if BASE * Power(k) < CAP then BASE * Power(k) else CAP
  }

  lemma ProductIsPositive(a: real, b: real)
    requires a > 0.0 && b > 0.0
    ensures a * b > 0.0
  {
  }

  /** The jittered wait: the upper half of the ceiling, wherever the draw falls. */
  function Delay(ceiling: real, draw: real): (d: real)
    requires ceiling > 0.0 && 0.0 <= draw < 1.0
    ensures ceiling / 2.0 <= d < ceiling
  {
    var d := ceiling * (0.5 + draw / 2.0);
    ProductIsPositive(ceiling, 1.0 - draw);
    assert draw == 0.0 || ceiling * draw > 0.0 by { if draw > 0.0 { ProductIsPositive(ceiling, draw); } }
    assert d == ceiling / 2.0 + ceiling * draw / 2.0;
    assert ceiling * (1.0 - draw) == ceiling - ceiling * draw;
    d
  }

  /** The wait starts at half the ceiling and grows with the draw by half the ceiling. */
  lemma DelayIsLinear(ceiling: real, a: real, b: real)
    requires ceiling > 0.0 && 0.0 <= a < 1.0 && 0.0 <= b < 1.0
    ensures Delay(ceiling, 0.0) == ceiling / 2.0
    ensures Delay(ceiling, b) - Delay(ceiling, a) == ceiling * (b - a) / 2.0
  {
  }

  function CeilingTotal(n: nat): real {
    if n == 0 then 0.0 else CeilingTotal(n - 1) + Ceiling(n - 1)
  }

  function Total(waits: seq<real>): real {
    if |waits| == 0 then 0.0 else Total(waits[..|waits|-1]) + waits[|waits|-1]
  }

  ghost predicate WaitsWithinCeilings(waits: seq<real>) {
    forall k :: 0 <= k < |waits| ==> Ceiling(k) / 2.0 <= waits[k] < Ceiling(k)
  }

  /** `world(k)` is what the call does on attempt `k`, counting from zero, and `random(k)` the
      jitter drawn after it. It calls until the first outcome that is not a throttle or until
      attempts run out, and waits only between two calls. How it ends is decided by the last
      outcome: a reply is delivered; an error whose response cannot be read breaks the handler,
      whatever it mentions; any other error with a fatal name is fatal, whatever else it
      mentions; all else gives up. */
  method InvokeWithBackoff<V(==)>(maxAttempts: int, world: nat -> Outcome<V>, random: nat -> real)
    returns (ending: Ending<V>, calls: nat, waits: seq<real>)
    requires forall k :: 0.0 <= random(k) < 1.0
    ensures maxAttempts <= 0 ==> calls == 0 && ending == GaveUp && waits == []
    ensures maxAttempts > 0 ==> 1 <= calls <= maxAttempts && |waits| == calls - 1
    ensures forall k :: 0 <= k < calls - 1 ==> Throttled(world(k))
    ensures calls > 0 && Throttled(world(calls - 1)) ==> calls == maxAttempts
    ensures forall v :: ending == Delivered(v) <==> calls > 0 && world(calls - 1) == Reply(v)
    ensures ending == HandlerRaised <==> calls > 0 && BreaksHandler(world(calls - 1))
    ensures forall f :: ending == Fatal(f) <==>
      calls > 0 && world(calls - 1) == Threw(f) && f.response != Unreadable && Mentions(f, FATAL)
    ensures WaitsWithinCeilings(waits)
    ensures forall k :: 0 <= k < |waits| ==> waits[k] == Delay(Ceiling(k), random(k))
  {
    hide Mentions, Ceiling, Delay;
    calls, waits := 0, [];
    while calls < maxAttempts
      invariant (maxAttempts > 0 ==> calls < maxAttempts) && (maxAttempts <= 0 ==> calls == 0) && |waits| == calls
      invariant forall k :: 0 <= k < calls ==> Throttled(world(k))
      invariant WaitsWithinCeilings(waits)
      invariant forall k :: 0 <= k < |waits| ==> waits[k] == Delay(Ceiling(k), random(k))
      decreases maxAttempts - calls
    {
      var outcome := world(calls);
      calls := calls + 1;
      match outcome
      case Reply(value) => return Delivered(value), calls, waits;
      case TimedOut => return GaveUp, calls, waits;
      case Threw(failure) =>
        if failure.response == Unreadable {
          return HandlerRaised, calls, waits;
        }
        if Mentions(failure, FATAL) {
          return Fatal(failure), calls, waits;
        }
        if !Mentions(failure, RETRYABLE) {
          return GaveUp, calls, waits;
        }
        if calls == maxAttempts {
          return GaveUp, calls, waits;
        }
        waits := waits + [Delay(Ceiling(calls - 1), random(calls - 1))];
    }
    return GaveUp, calls, waits;
  }

  /** A fatal error that a connection layer raised with `response` set to `None`. */
  const UNREADABLE := Failure(Unreadable, "AccessDeniedException")

  /** An input on which a fatal name does not end as fatal: the handler itself raises. */
  method UnreadableResponseHidesFatal(maxAttempts: int)
    returns (ending: Ending<int>, calls: nat)
    requires maxAttempts > 0
    ensures Mentions(UNREADABLE, FATAL) && ending == HandlerRaised && calls == 1
  {
    assert OccursAt(UNREADABLE.text, FATAL[0], 0);
    assert Contains(UNREADABLE.text, FATAL[0]);
    var world: nat -> Outcome<int> := _ => Threw(UNREADABLE);
    var waits;
    ending, calls, waits := InvokeWithBackoff(maxAttempts, world, _ => 0.0);
    assert calls > 1 ==> Throttled(world(0));
  }

  /** Total waiting lies between half of and the whole of the summed ceilings. */
  lemma {:induction false} TotalWaitIsBounded(waits: seq<real>)
    requires WaitsWithinCeilings(waits)
    ensures CeilingTotal(|waits|) / 2.0 <= Total(waits) <= CeilingTotal(|waits|)
  {
    if |waits| > 0 {
      TotalWaitIsBounded(waits[..|waits|-1]);
    }
  }

  /** Below the cap the ceilings are a geometric series. */
  lemma {:induction false} CeilingsAreGeometric(n: nat)
    requires n > 0 ==> BASE * Power(n - 1) <= CAP
    ensures CeilingTotal(n) == BASE * (Power(n) - 1.0)
  {
    if n > 1 {
      CeilingsAreGeometric(n - 1);
    }
  }

  /** Past the cap every further throttle adds the cap. */
  lemma {:induction false} CeilingsPastTheCap(n: nat)
    requires n >= 5
    ensures CeilingTotal(n) == 62.0 + CAP * (n - 5) as real
    ensures BASE * Power(n) > CAP
    decreases n
  {
    if n == 5 {
      assert Power(2) == 4.0;
      assert Power(4) == 16.0;
      assert Power(5) == 32.0;
      CeilingsAreGeometric(5);
    } else {
      CeilingsPastTheCap(n - 1);
    }
  }
}
