/** The tool-calling loop of one episode, for every policy. */
module Episode {
  import opened Wrappers
  import opened JsonValues

  const CALCULATOR := "calculator"
  const SUBMIT := "submit_answer"
  const REJECTED := "error: submit_answer was rejected"

  datatype ToolCall = ToolCall(id: string, name: string, arguments: string)

  datatype Message =
    | Given(role: Option<string>, body: Json)       // from the prompt, or the system prompt
    | Assistant(content: string, reasoning: Option<string>, calls: seq<ToolCall>)
    | Tool(callId: string, content: string)

  /** `Failed` is an error of the model API, which the loop catches; any other exception of the
      request, or of taking its reply apart, escapes from the episode. */
  datatype Reply =
    | Failed(error: string)
    | Crashed(error: string)
    | Said(content: string, reasoning: Option<string>, calls: seq<ToolCall>)

  datatype Status = NoSubmission | Submitted | StoppedWithoutSubmitting | MaxTurnsExceeded | ModelError(name: string)

  /** Some text, or an exception on the way to it. */
  datatype Text = Shows(text: string) | Raises(error: string)

  /** What reading the arguments of a call gives: for the calculator its expression, for a
      submission its answer - or an exception, before the call's name is looked at. */
  datatype Arguments = Read(expression: Text, answer: Text) | Unreadable(error: string)

  /** The policy answers a request; the others are how tool arguments are read, what the
      calculator does and how a name is quoted. All of them are arbitrary. */
  datatype World = World(
    policy: seq<Message> -> Reply,
    arguments: string -> Arguments, calculate: string -> Text, quote: string -> string)

  datatype Outcome = Outcome(
    submitted: Option<string>, status: Status,
    turns: nat, toolCalls: nat, calculatorCalls: nat, rejectedSubmits: nat)

  datatype Result = Completed(outcome: Outcome) | Escaped(error: string)

  function WithSystemPrompt(prompt: seq<Message>, system: Json): seq<Message> {
    if |prompt| > 0 && prompt[0].Given? && prompt[0].role == Some("system") then prompt
    else [Given(Some("system"), system)] + prompt
  }

  /** The transcript starts with a system message and ends with the whole prompt; nothing is added
      to a prompt that has one, and just the given one to any other. */
  lemma SystemPromptFirst(prompt: seq<Message>, system: Json)
    ensures var start := WithSystemPrompt(prompt, system);
            && |start| > 0 && start[0].Given? && start[0].role == Some("system")
            && |prompt| <= |start| <= |prompt| + 1 && start[|start|-|prompt|..] == prompt
            && (|start| > |prompt| ==>
                 start[0].body == system && (|prompt| > 0 ==> !prompt[0].Given? || prompt[0].role != Some("system")))
  {
  }

  // ---------------------------------------------------------------- what a reply adds

  predicate Names(calls: seq<ToolCall>, name: string) {
    exists k :: 0 <= k < |calls| && calls[k].name == name
  }

  /** A submission that rides along with another call. */
  predicate RejectsSubmit(calls: seq<ToolCall>) {
    Names(calls, SUBMIT) && |calls| > 1
  }

  /** What a call is answered with, or the exception it lets through. */
  function ResultOf(call: ToolCall, reject: bool, world: World): Text {
    match world.arguments(call.arguments)
    case Unreadable(error) => Raises(error)
    case Read(expression, answer) =>
      if call.name == CALCULATOR then
        if expression.Shows? then world.calculate(expression.text) else expression
      else if call.name == SUBMIT then
        if reject then Shows(REJECTED)
        else if answer.Shows? then Shows("Answer recorded: " + answer.text) else answer
      else Shows("error: unknown tool " + world.quote(call.name))
  }

  /** The answer a submission delivers, if nothing escapes. */
  function AnswerOf(call: ToolCall, world: World): string {
    match world.arguments(call.arguments)
    case Read(_, Shows(text)) => text
    case _ => ""
  }

  /** The first exception the calls of a turn let through. */
  function FirstError(calls: seq<ToolCall>, reject: bool, world: World): (e: Option<string>)
    ensures e == None <==> forall k :: 0 <= k < |calls| ==> ResultOf(calls[k], reject, world).Shows?
  {
    if |calls| == 0 then None
    else
      assert forall k :: 1 <= k < |calls| ==> calls[k] == calls[1..][k-1];
      match ResultOf(calls[0], reject, world)
      case Raises(error) => Some(error)
      case Shows(_) => FirstError(calls[1..], reject, world)
  }

  /** What escapes from a turn, and so from the episode. */
  function EscapesFrom(reply: Reply, world: World): Option<string> {
    match reply
    case Failed(_) => None
    case Crashed(error) => Some(error)
    case Said(_, _, calls) => FirstError(calls, RejectsSubmit(calls), world)
  }

  function TextOf(result: Text): string {
    match result case Shows(text) => text case Raises(_) => ""
  }

  function ToolMessages(calls: seq<ToolCall>, reject: bool, world: World): (r: seq<Message>)
    ensures |r| == |calls|
    ensures forall k :: 0 <= k < |r| ==> r[k] == Tool(calls[k].id, TextOf(ResultOf(calls[k], reject, world)))
  {
    seq(|calls|, k requires 0 <= k < |calls| => Tool(calls[k].id, TextOf(ResultOf(calls[k], reject, world))))
  }

  function Added(reply: Reply, world: World): seq<Message> {
    match reply
    case Failed(_) => []
    case Crashed(_) => []
    case Said(content, reasoning, calls) =>
      [Assistant(content, reasoning, calls)] + ToolMessages(calls, RejectsSubmit(calls), world)
  }

  /** A turn records what was said, and answers each call under its id. */
  lemma TurnRecordsReply(reply: Reply, world: World)
    ensures !reply.Said? ==> Added(reply, world) == []
    ensures reply.Said? ==>
      var added := Added(reply, world);
      && |added| == 1 + |reply.calls| && added[0] == Assistant(reply.content, reply.reasoning, reply.calls)
      && forall k :: 0 <= k < |reply.calls| ==>
           added[k+1].Tool? && added[k+1].callId == reply.calls[k].id &&
           (ResultOf(reply.calls[k], RejectsSubmit(reply.calls), world).Shows? ==>
             ResultOf(reply.calls[k], RejectsSubmit(reply.calls), world) == Shows(added[k+1].content))
  {
    hide ResultOf, RejectsSubmit;
    if reply.Said? {
      var tools := ToolMessages(reply.calls, RejectsSubmit(reply.calls), world);
      assert forall k :: 0 <= k < |reply.calls| ==> Added(reply, world)[k+1] == tools[k];
    }
  }

  function Transcript(start: seq<Message>, replies: seq<Reply>, world: World): seq<Message> {
    if |replies| == 0 then start
    else Transcript(start, replies[..|replies|-1], world) + Added(replies[|replies|-1], world)
  }

  /** The reply's only call is a submission: the one way to deliver an answer. */
  predicate IsSubmission(reply: Reply) {
    reply.Said? && |reply.calls| == 1 && reply.calls[0].name == SUBMIT
  }

  predicate Continues(reply: Reply, world: World) {
    reply.Said? && |reply.calls| > 0 && !IsSubmission(reply) && EscapesFrom(reply, world) == None
  }

  function CallsNamed(calls: seq<ToolCall>, name: string): nat {
    if |calls| == 0 then 0
    else CallsNamed(calls[..|calls|-1], name) + if calls[|calls|-1].name == name then 1 else 0
  }

  function CallsIn(reply: Reply): seq<ToolCall> {
    if reply.Said? then reply.calls else []
  }

  function TotalCalls(replies: seq<Reply>): nat {
    if |replies| == 0 then 0 else TotalCalls(replies[..|replies|-1]) + |CallsIn(replies[|replies|-1])|
  }

  function TotalCalculator(replies: seq<Reply>): nat {
    if |replies| == 0 then 0
    else TotalCalculator(replies[..|replies|-1]) + CallsNamed(CallsIn(replies[|replies|-1]), CALCULATOR)
  }

  function RejectedIn(reply: Reply): nat {
    if RejectsSubmit(CallsIn(reply)) then CallsNamed(CallsIn(reply), SUBMIT) else 0
  }

  function TotalRejected(replies: seq<Reply>): nat {
    if |replies| == 0 then 0 else TotalRejected(replies[..|replies|-1]) + RejectedIn(replies[|replies|-1])
  }

  // ---------------------------------------------------------------- the episode

  /** The replies are what the policy said to the transcript so far, turn after turn. */
  ghost predicate Played(start: seq<Message>, replies: seq<Reply>, requests: seq<seq<Message>>, world: World) {
    && |requests| == |replies|
    && (forall k :: 0 <= k < |replies| ==> requests[k] == Transcript(start, replies[..k], world))
    && (forall k :: 0 <= k < |replies| ==> replies[k] == world.policy(requests[k]))
  }

  /** How the last reply ends the episode. */
  ghost predicate EndsWith(outcome: Outcome, replies: seq<Reply>, maxTurns: int, world: World) {
    if |replies| == 0 then maxTurns <= 0 && outcome.status == MaxTurnsExceeded && outcome.submitted == None
    else
      var last := replies[|replies|-1];
      if last.Crashed? then false
      else if last.Failed? then outcome.status == ModelError(last.error) && outcome.submitted == None
      else if |last.calls| == 0 then outcome.status == StoppedWithoutSubmitting && outcome.submitted == None
      else if IsSubmission(last) then
        outcome.status == Submitted && outcome.submitted == Some(AnswerOf(last.calls[0], world))
      else |replies| == maxTurns && outcome.status == MaxTurnsExceeded && outcome.submitted == None
  }

  lemma NothingPlayed(start: seq<Message>, world: World)
    ensures Played(start, [], [], world) && Transcript(start, [], world) == start
    ensures TotalCalls([]) == TotalCalculator([]) == TotalRejected([]) == 0
  {
  }

  lemma PlayOn(start: seq<Message>, replies: seq<Reply>, requests: seq<seq<Message>>, world: World,
               messages: seq<Message>, reply: Reply)
    requires Played(start, replies, requests, world) && messages == Transcript(start, replies, world)
    requires reply == world.policy(messages)
    ensures Played(start, replies + [reply], requests + [messages], world)
    ensures Transcript(start, replies + [reply], world) == messages + Added(reply, world)
    ensures TotalCalls(replies + [reply]) == TotalCalls(replies) + |CallsIn(reply)|
    ensures TotalCalculator(replies + [reply]) == TotalCalculator(replies) + CallsNamed(CallsIn(reply), CALCULATOR)
    ensures TotalRejected(replies + [reply]) == TotalRejected(replies) + RejectedIn(reply)
  {
    var more := replies + [reply];
    assert more[..|replies|] == replies;
    forall k | 0 <= k < |more| ensures (requests + [messages])[k] == Transcript(start, more[..k], world) {
      if k < |replies| { assert more[..k] == replies[..k]; }
    }
  }

  lemma ErrorAt(calls: seq<ToolCall>, reject: bool, world: World, k: nat)
    requires k < |calls| && forall j :: 0 <= j < k ==> ResultOf(calls[j], reject, world).Shows?
    requires ResultOf(calls[k], reject, world).Raises?
    ensures FirstError(calls, reject, world) == Some(ResultOf(calls[k], reject, world).error)
  {
    if k > 0 {
      ErrorAt(calls[1..], reject, world, k - 1);
    }
  }

  /** What each kind of call is answered with. An answer is recorded as it was read, and shown as it
      was recorded; arguments that cannot be read answer no call, whatever its name. */
  lemma AnswersOfCalls(call: ToolCall, expression: Text, answer: Text, reject: bool, world: World)
    requires world.arguments(call.arguments) == Read(expression, answer)
    ensures call.name == CALCULATOR ==>
      ResultOf(call, reject, world) == if expression.Shows? then world.calculate(expression.text) else expression
    ensures call.name == SUBMIT && reject ==> ResultOf(call, reject, world) == Shows(REJECTED)
    ensures call.name == SUBMIT && !reject && answer.Shows? ==>
      AnswerOf(call, world) == answer.text && ResultOf(call, reject, world) == Shows("Answer recorded: " + answer.text)
    ensures call.name == SUBMIT && !reject && answer.Raises? ==> ResultOf(call, reject, world) == answer
    ensures call.name != CALCULATOR && call.name != SUBMIT ==>
      ResultOf(call, reject, world) == Shows("error: unknown tool " + world.quote(call.name))
    ensures forall other: ToolCall :: world.arguments(other.arguments).Unreadable? ==>
      ResultOf(other, reject, world) == Raises(world.arguments(other.arguments).error)
  {
  }

  /** One call: its answer or the exception it lets through, and the submission it records. */
  method RunTool(call: ToolCall, reject: bool, world: World)
    returns (result: Text, answer: Option<string>)
    ensures result == ResultOf(call, reject, world)
    ensures result.Shows? ==>
      answer == if call.name == SUBMIT && !reject then Some(AnswerOf(call, world)) else None
  {
    var arguments := world.arguments(call.arguments);
    if arguments.Unreadable? {
      return Raises(arguments.error), None;
    }
    if call.name == CALCULATOR {
      if arguments.expression.Raises? {
        return arguments.expression, None;
      }
      return world.calculate(arguments.expression.text), None;
    } else if call.name == SUBMIT {
      if reject {
        return Shows(REJECTED), None;
      }
      if arguments.answer.Raises? {
        return arguments.answer, None;
      }
      var submitted := arguments.answer.text;
      return Shows("Answer recorded: " + submitted), Some(submitted);
    }
    return Shows("error: unknown tool " + world.quote(call.name)), None;
  }

  /** The inner loop over the calls of one reply. */
  method RunTools(calls: seq<ToolCall>, world: World)
    returns (escaped: Option<string>, answers: seq<Message>, calculated: nat, rejected: nat, answer: Option<string>)
    ensures escaped == FirstError(calls, RejectsSubmit(calls), world)
    ensures escaped == None ==> answers == ToolMessages(calls, RejectsSubmit(calls), world)
    ensures escaped == None ==> calculated == CallsNamed(calls, CALCULATOR)
    ensures escaped == None ==> rejected == if RejectsSubmit(calls) then CallsNamed(calls, SUBMIT) else 0
    ensures escaped == None ==>
      answer == if |calls| == 1 && calls[0].name == SUBMIT then Some(AnswerOf(calls[0], world)) else None
  {
    hide AnswerOf, ResultOf, FirstError;
    var reject := RejectsSubmit(calls);
    answers, calculated, rejected, answer := [], 0, 0, None;
    for k := 0 to |calls|
      invariant answers == ToolMessages(calls, reject, world)[..k]
      invariant calculated == CallsNamed(calls[..k], CALCULATOR)
      invariant rejected == if reject then CallsNamed(calls[..k], SUBMIT) else 0
      invariant answer == if k == 1 && |calls| == 1 && calls[0].name == SUBMIT
                          then Some(AnswerOf(calls[0], world)) else None
      invariant forall j :: 0 <= j < k ==> ResultOf(calls[j], reject, world).Shows?
    {
      var call := calls[k];
      assert calls[..k+1][..k] == calls[..k];
      assert call.name == SUBMIT ==> Names(calls, SUBMIT);
      var result, submitted := RunTool(call, reject, world);
      if result.Raises? {
        ErrorAt(calls, reject, world, k);
        return Some(result.error), [], 0, 0, None;
      }
      if call.name == CALCULATOR {
        calculated := calculated + 1;
      } else if call.name == SUBMIT && reject {
        rejected := rejected + 1;
      }
      answer := if submitted.Some? then submitted else answer;
      answers := answers + [Tool(call.id, result.text)];
    }
    assert calls[..|calls|] == calls;
    escaped := None;
  }

  /** How one turn leaves the loop, if it does. */
  datatype Turn = Goes | Ends(submitted: Option<string>, status: Status) | Escapes(error: string)

  function TurnOf(reply: Reply, world: World): (t: Turn)
    ensures t.Goes? <==> Continues(reply, world)
  {
    if EscapesFrom(reply, world).Some? then Escapes(EscapesFrom(reply, world).value)
    else if reply.Failed? then Ends(None, ModelError(reply.error))
    else if |reply.calls| == 0 then Ends(None, StoppedWithoutSubmitting)
    else if IsSubmission(reply) then Ends(Some(AnswerOf(reply.calls[0], world)), Submitted)
    else Goes
  }

  /** One turn of the loop. */
  method TakeTurn(reply: Reply, world: World)
    returns (turn: Turn, added: seq<Message>, calculated: nat, rejected: nat)
    ensures turn == TurnOf(reply, world)
    ensures !turn.Escapes? ==> added == Added(reply, world)
    ensures !turn.Escapes? ==> calculated == CallsNamed(CallsIn(reply), CALCULATOR) && rejected == RejectedIn(reply)
  {
    match reply
    case Failed(error) =>
      return Ends(None, ModelError(error)), [], 0, 0;
    case Crashed(error) =>
      return Escapes(error), [], 0, 0;
    case Said(content, reasoning, calls) =>
      added := [Assistant(content, reasoning, calls)];
      if |calls| == 0 {
        return Ends(None, StoppedWithoutSubmitting), added, 0, 0;
      }
      var escaped, answers, submitted;
      escaped, answers, calculated, rejected, submitted := RunTools(calls, world);
      if escaped.Some? {
        return Escapes(escaped.value), [], 0, 0;
      }
      added := added + answers;
      turn := if submitted.Some? then Ends(submitted, Submitted) else Goes;
  }

  /** What the last turn means for the outcome. */
  lemma TurnEnds(outcome: Outcome, replies: seq<Reply>, maxTurns: int, world: World)
    requires |replies| > 0
    requires TurnOf(replies[|replies|-1], world) == Ends(outcome.submitted, outcome.status)
    ensures EndsWith(outcome, replies, maxTurns, world)
    ensures outcome.status == Submitted <==> outcome.submitted.Some?
    ensures outcome.status == Submitted <==> IsSubmission(replies[|replies|-1])
    ensures outcome.status != MaxTurnsExceeded && outcome.status != NoSubmission
    ensures outcome.status == Submitted ==>
      EscapesFrom(replies[|replies|-1], world) == None && replies[|replies|-1].Said? &&
      |replies[|replies|-1].calls| == 1 && outcome.submitted == Some(AnswerOf(replies[|replies|-1].calls[0], world))
  {
  }

  /** The answer submitted is the one that was read from the call, and the one it was told. */
  lemma SubmissionIsRead(reply: Reply, world: World)
    requires IsSubmission(reply) && EscapesFrom(reply, world) == None
    ensures var call := reply.calls[0];
            && world.arguments(call.arguments).Read?
            && world.arguments(call.arguments).answer == Shows(AnswerOf(call, world))
            && |Added(reply, world)| == 2
            && Added(reply, world)[1] == Tool(call.id, "Answer recorded: " + AnswerOf(call, world))
  {
    assert !RejectsSubmit(reply.calls);
    assert ResultOf(reply.calls[0], false, world).Shows?;
  }

  /** The lone submission's arguments were read, its answer is the one submitted, and the last
      message tells the policy just that. */
  ghost predicate RecordsAnswer(last: Reply, submitted: string, messages: seq<Message>, world: World) {
    && last.Said? && |last.calls| == 1 && last.calls[0].name == SUBMIT
    && world.arguments(last.calls[0].arguments).Read?
    && world.arguments(last.calls[0].arguments).answer == Shows(submitted)
    && |messages| > 0 && messages[|messages|-1] == Tool(last.calls[0].id, "Answer recorded: " + submitted)
  }

  lemma SubmissionIsRecorded(reply: Reply, before: seq<Message>, world: World)
    requires IsSubmission(reply) && EscapesFrom(reply, world) == None
    ensures RecordsAnswer(reply, AnswerOf(reply.calls[0], world), before + Added(reply, world), world)
  {
    SubmissionIsRead(reply, world);
    hide Added, AnswerOf;
  }

  lemma RanOut(outcome: Outcome, replies: seq<Reply>, maxTurns: int, world: World)
    requires |replies| == if maxTurns <= 0 then 0 else maxTurns
    requires forall k :: 0 <= k < |replies| ==> Continues(replies[k], world)
    requires outcome.status == MaxTurnsExceeded && outcome.submitted == None
    ensures EndsWith(outcome, replies, maxTurns, world)
    ensures |replies| > 0 ==> !IsSubmission(replies[|replies|-1])
  {
  }

  lemma TurnEscapes(reply: Reply, world: World)
    ensures forall e :: TurnOf(reply, world) == Escapes(e) <==> EscapesFrom(reply, world) == Some(e)
    ensures Continues(reply, world) ==> EscapesFrom(reply, world) == None && !IsSubmission(reply)
  {
  }

  /** `requests` and `replies` record the exchange. Every part of the result is fixed by what the
      policy said, and by the exception that escaped, if one did; `messages` is the final
      transcript of a completed episode. An episode counts as submitted exactly when an answer is
      set, which happens exactly when its last reply is a single submission; a submission beside
      any other call never ends it. The initial status is never returned. */
  method RunEpisode(prompt: seq<Message>, system: Json, maxTurns: int, world: World)
    returns (result: Result, messages: seq<Message>, requests: seq<seq<Message>>, replies: seq<Reply>)
    ensures Played(WithSystemPrompt(prompt, system), replies, requests, world)
    ensures forall k :: 0 <= k < |replies| - 1 ==> Continues(replies[k], world) && !IsSubmission(replies[k])
    ensures forall e :: result == Escaped(e) <==> |replies| > 0 && EscapesFrom(replies[|replies|-1], world) == Some(e)
    ensures result.Completed? ==> messages == Transcript(WithSystemPrompt(prompt, system), replies, world)
    ensures result.Completed? ==> EndsWith(result.outcome, replies, maxTurns, world)
    ensures result.Completed? ==>
      var outcome := result.outcome;
      && outcome.turns == |replies|
      && outcome.toolCalls == TotalCalls(replies)
      && outcome.calculatorCalls == TotalCalculator(replies)
      && outcome.rejectedSubmits == TotalRejected(replies)
      && (outcome.status == Submitted <==> outcome.submitted.Some?)
      && (outcome.status == Submitted <==> |replies| > 0 && IsSubmission(replies[|replies|-1]))
      && (outcome.status == MaxTurnsExceeded ==> |replies| == if maxTurns <= 0 then 0 else maxTurns)
      && outcome.status != NoSubmission
    ensures result.Completed? && result.outcome.status == Submitted ==>
      RecordsAnswer(replies[|replies|-1], result.outcome.submitted.value, messages, world)
    ensures |replies| <= if maxTurns <= 0 then 0 else maxTurns
  {
    hide Transcript, Played, TotalCalls, TotalCalculator, TotalRejected, Added, EscapesFrom, RejectedIn, CallsNamed,
      TurnOf, IsSubmission, Continues, EndsWith, WithSystemPrompt, AnswerOf, RecordsAnswer;
    var start := WithSystemPrompt(prompt, system);
    messages, requests, replies := start, [], [];
    NothingPlayed(start, world);
    var toolCalls, calculatorCalls, rejectedSubmits := 0, 0, 0;
    while |replies| < maxTurns
      invariant |replies| <= maxTurns || |replies| == 0
      invariant Played(start, replies, requests, world)
      invariant messages == Transcript(start, replies, world)
      invariant toolCalls == TotalCalls(replies)
      invariant calculatorCalls == TotalCalculator(replies)
      invariant rejectedSubmits == TotalRejected(replies)
      invariant forall k :: 0 <= k < |replies| ==> Continues(replies[k], world) && !IsSubmission(replies[k])
      invariant |replies| > 0 ==> EscapesFrom(replies[|replies|-1], world) == None
      decreases maxTurns - |replies|
    {
      var reply := world.policy(messages);
      PlayOn(start, replies, requests, world, messages, reply);
      requests := requests + [messages];
      replies := replies + [reply];
      var turn, added, calculated, rejected := TakeTurn(reply, world);
      TurnEscapes(reply, world);
      if turn.Escapes? {
        return Escaped(turn.error), messages, requests, replies;
      }
      ghost var before := messages;
      messages := messages + added;
      toolCalls := toolCalls + |CallsIn(reply)|;
      calculatorCalls := calculatorCalls + calculated;
      rejectedSubmits := rejectedSubmits + rejected;
      if turn.Ends? {
        var outcome :=
          Outcome(turn.submitted, turn.status, |replies|, toolCalls, calculatorCalls, rejectedSubmits);
        TurnEnds(outcome, replies, maxTurns, world);
        if outcome.status == Submitted {
          SubmissionIsRecorded(reply, before, world);
        }
        return Completed(outcome), messages, requests, replies;
      }
    }
    var outcome := Outcome(None, MaxTurnsExceeded, |replies|, toolCalls, calculatorCalls, rejectedSubmits);
    RanOut(outcome, replies, maxTurns, world);
    result := Completed(outcome);
  }

  // ---------------------------------------------------------------- episodes that are lost

  /** Its value has more than 4300 digits, beyond what Python converts to text by default. */
  const LONG := "99**4096"

  method AlwaysEscapes(prompt: seq<Message>, system: Json, maxTurns: int, world: World, reply: Reply, error: string)
    returns (result: Result)
    requires maxTurns > 0
    requires forall request :: world.policy(request) == reply
    requires EscapesFrom(reply, world) == Some(error)
    ensures result == Escaped(error)
  {
    var messages, requests, replies;
    result, messages, requests, replies := RunEpisode(prompt, system, maxTurns, world);
    if |replies| > 0 {
      assert replies[|replies|-1] == world.policy(requests[|replies|-1]);
    }
  }

  /** The policy asks for a value too long to print: the episode ends with the exception. */
  method LongResultEscapes(prompt: seq<Message>, system: Json, maxTurns: int) returns (result: Result)
    requires maxTurns > 0
    ensures result == Escaped("ValueError")
  {
    var reply := Said("", None, [ToolCall("1", CALCULATOR, "{'expression': '99**4096'}")]);
    var world := World(_ => reply, _ => Read(Shows(LONG), Shows("")),
                       e => if e == LONG then Raises("ValueError") else Shows(""), name => name);
    result := AlwaysEscapes(prompt, system, maxTurns, world, reply, "ValueError");
  }

  /** A lone submission whose arguments hold too long a number: the answer is lost. */
  method UnreadableSubmissionEscapes(prompt: seq<Message>, system: Json, maxTurns: int) returns (result: Result)
    requires maxTurns > 0
    ensures result == Escaped("ValueError")
  {
    var reply := Said("", None, [ToolCall("1", SUBMIT, "{'answer': 1000...}")]);
    var world := World(_ => reply, _ => Unreadable("ValueError"), _ => Shows(""), name => name);
    assert IsSubmission(reply);
    result := AlwaysEscapes(prompt, system, maxTurns, world, reply, "ValueError");
  }

  // ---------------------------------------------------------------- what every episode satisfies

  predicate Answers(message: Message, call: ToolCall) {
    message.Tool? && message.callId == call.id
  }

  ghost predicate HeadIsAnswered(messages: seq<Message>) {
    |messages| > 0 && messages[0].Assistant? && |messages[0].calls| < |messages| &&
    forall k :: 0 <= k < |messages[0].calls| ==> Answers(messages[k+1], messages[0].calls[k])
  }

  /** Assistant turns, each followed by one tool message per call, ids in order. */
  ghost predicate WellFormed(messages: seq<Message>)
    decreases |messages|
  {
    |messages| == 0 || (HeadIsAnswered(messages) && WellFormed(messages[|messages[0].calls|+1..]))
  }

  lemma HeadStaysAnswered(messages: seq<Message>, more: seq<Message>)
    requires HeadIsAnswered(messages)
    ensures HeadIsAnswered(messages + more)
    ensures (messages + more)[|messages[0].calls|+1..] == messages[|messages[0].calls|+1..] + more
  {
    var all := messages + more;
    assert all[0] == messages[0];
    forall k | 0 <= k < |all[0].calls| ensures Answers(all[k+1], all[0].calls[k]) {
      assert Answers(messages[k+1], messages[0].calls[k]);
    }
  }

  lemma AddedIsWellFormed(reply: Reply, world: World)
    ensures WellFormed(Added(reply, world))
  {
    var added := Added(reply, world);
    if reply.Said? {
      assert HeadIsAnswered(added);
      assert added[|reply.calls|+1..] == [];
    }
  }

  lemma {:induction false} WellFormedConcat(messages: seq<Message>, more: seq<Message>)
    requires WellFormed(messages) && WellFormed(more)
    ensures WellFormed(messages + more)
    decreases |messages|
  {
    if |messages| == 0 {
      assert messages + more == more;
    } else {
      HeadStaysAnswered(messages, more);
      assert HeadIsAnswered(messages);
      WellFormedConcat(messages[|messages[0].calls|+1..], more);
      hide HeadIsAnswered;
    }
  }

  /** The sum of a weight over messages. */
  function Tally(messages: seq<Message>, weight: Message -> nat): nat {
    if |messages| == 0 then 0
    else Tally(messages[..|messages|-1], weight) + weight(messages[|messages|-1])
  }

  function IsTool(m: Message): nat {
    if m.Tool? then 1 else 0
  }

  function IsAssistant(m: Message): nat {
    if m.Assistant? then 1 else 0
  }

  function CalculatorCallsOf(m: Message): nat {
    if m.Assistant? then CallsNamed(m.calls, CALCULATOR) else 0
  }

  function RejectedSubmitsOf(m: Message): nat {
    if m.Assistant? && RejectsSubmit(m.calls) then CallsNamed(m.calls, SUBMIT) else 0
  }

  lemma {:induction false} TallyConcat(a: seq<Message>, b: seq<Message>, weight: Message -> nat)
    ensures Tally(a + b, weight) == Tally(a, weight) + Tally(b, weight)
  {
    if |b| == 0 {
      assert a + b == a;
    } else {
      assert (a + b)[..|a + b| - 1] == a + b[..|b|-1];
      TallyConcat(a, b[..|b|-1], weight);
    }
  }

  lemma {:induction false} TallyOfTools(calls: seq<ToolCall>, reject: bool, world: World, weight: Message -> nat)
    ensures Tally(ToolMessages(calls, reject, world), IsTool) == |calls|
    ensures (forall m: Message :: m.Tool? ==> weight(m) == 0) ==> Tally(ToolMessages(calls, reject, world), weight) == 0
  {
    if |calls| > 0 {
      var messages := ToolMessages(calls, reject, world);
      assert messages[..|calls|-1] == ToolMessages(calls[..|calls|-1], reject, world);
      TallyOfTools(calls[..|calls|-1], reject, world, weight);
    }
  }

  lemma TallyOfReply(reply: Reply, world: World, weight: Message -> nat)
    requires reply.Said?
    ensures Tally(Added(reply, world), IsTool) == |reply.calls|
    ensures (forall m: Message :: m.Tool? ==> weight(m) == 0) ==>
      Tally(Added(reply, world), weight) == weight(Assistant(reply.content, reply.reasoning, reply.calls))
  {
    var head := Assistant(reply.content, reply.reasoning, reply.calls);
    var tools := ToolMessages(reply.calls, RejectsSubmit(reply.calls), world);
    TallyConcat([head], tools, IsTool);
    TallyConcat([head], tools, weight);
    TallyOfTools(reply.calls, RejectsSubmit(reply.calls), world, weight);
    assert [head][..0] == [];
    assert Tally([head], weight) == weight(head) && Tally([head], IsTool) == 0;
  }

  /** What one reply adds to each count. */
  lemma TalliesOfReply(reply: Reply, world: World)
    ensures Tally(Added(reply, world), IsTool) == |CallsIn(reply)|
    ensures Tally(Added(reply, world), IsAssistant) == if reply.Said? then 1 else 0
    ensures Tally(Added(reply, world), CalculatorCallsOf) == CallsNamed(CallsIn(reply), CALCULATOR)
    ensures Tally(Added(reply, world), RejectedSubmitsOf) == RejectedIn(reply)
  {
    if reply.Said? {
      TallyOfReply(reply, world, IsAssistant);
      TallyOfReply(reply, world, CalculatorCallsOf);
      TallyOfReply(reply, world, RejectedSubmitsOf);
    }
  }

  /** COUNTERS. The reported numbers can be read off the final transcript: tool messages,
      assistant turns (and one more turn for a failed request), calculator calls, and
      submissions that shared a turn. */
  lemma {:induction false} CountersMatchTranscript(start: seq<Message>, replies: seq<Reply>, world: World)
    requires forall k :: 0 <= k < |replies| - 1 ==> Continues(replies[k], world)
    ensures Tally(Transcript(start, replies, world), IsTool) == Tally(start, IsTool) + TotalCalls(replies)
    ensures Tally(Transcript(start, replies, world), IsAssistant)
         == Tally(start, IsAssistant) + |replies| - if |replies| > 0 && !replies[|replies|-1].Said? then 1 else 0
    ensures Tally(Transcript(start, replies, world), CalculatorCallsOf)
         == Tally(start, CalculatorCallsOf) + TotalCalculator(replies)
    ensures Tally(Transcript(start, replies, world), RejectedSubmitsOf)
         == Tally(start, RejectedSubmitsOf) + TotalRejected(replies)
  {
    hide Tally, Added, RejectedIn, CallsNamed;
    if |replies| > 0 {
      var before, last := replies[..|replies|-1], replies[|replies|-1];
      assert |before| > 0 ==> Continues(before[|before|-1], world);
      CountersMatchTranscript(start, before, world);
      TalliesOfReply(last, world);
      var t, added := Transcript(start, before, world), Added(last, world);
      TallyConcat(t, added, IsTool);
      TallyConcat(t, added, IsAssistant);
      TallyConcat(t, added, CalculatorCallsOf);
      TallyConcat(t, added, RejectedSubmitsOf);
    }
  }

  lemma NoMessages()
    ensures WellFormed([])
  {
  }

  /** TRANSCRIPT. Whatever the policy says, the transcript is the start followed by well-formed
      turns: each assistant turn with one tool message per call, ids in order. */
  lemma {:induction false} TranscriptIsWellFormed(start: seq<Message>, replies: seq<Reply>, world: World)
    ensures start <= Transcript(start, replies, world)
    ensures WellFormed(Transcript(start, replies, world)[|start|..])
  {
    hide WellFormed, Added;
    if |replies| == 0 {
      NoMessages();
      assert start[|start|..] == [];
    } else {
      var before, last := replies[..|replies|-1], replies[|replies|-1];
      TranscriptIsWellFormed(start, before, world);
      var t, added := Transcript(start, before, world), Added(last, world);
      AddedIsWellFormed(last, world);
      WellFormedConcat(t[|start|..], added);
      assert (t + added)[|start|..] == t[|start|..] + added;
    }
  }

  /** Each request extends every earlier one, so the server only ever sees a suffix added. */
  lemma {:induction false} RequestsExtend(start: seq<Message>, replies: seq<Reply>, world: World, j: nat, k: nat)
    requires j <= k <= |replies|
    ensures Transcript(start, replies[..j], world) <= Transcript(start, replies[..k], world)
    decreases k
  {
    if j < k {
      RequestsExtend(start, replies, world, j, k - 1);
      assert replies[..k][..k-1] == replies[..k-1];
    }
  }

  // ---------------------------------------------------------------- the health report

  /** What `GET /ping` reports while episodes come and go. */
  class Ping {
    var inFlight: int
    var busy: bool
    var changedAt: real

    ghost predicate Valid()
      reads this
    {
      inFlight >= 0 && (busy <==> inFlight > 0)
    }

    constructor (now: real)
      ensures Valid() && inFlight == 0 && changedAt == now
    {
      inFlight, busy, changedAt := 0, false, now;
    }

    method SetStatus(busy: bool, now: real)
      modifies `busy, `changedAt
      ensures this.busy == busy
      ensures changedAt == if old(this.busy) != busy then now else old(changedAt)
    {
      if busy != this.busy {
        this.busy := busy;
        changedAt := now;
      }
    }

    method Begin(now: real)
      requires Valid()
      modifies this
      ensures Valid() && inFlight == old(inFlight) + 1
      ensures changedAt == if old(inFlight) == 0 then now else old(changedAt)
    {
      inFlight := inFlight + 1;
      SetStatus(true, now);
    }

    method Finish(now: real)
      requires Valid() && inFlight > 0
      modifies this
      ensures Valid() && inFlight == old(inFlight) - 1
      ensures changedAt == if inFlight == 0 then now else old(changedAt)
    {
      inFlight := inFlight - 1;
      if inFlight == 0 {
        SetStatus(false, now);
      }
    }
  }
}
