/** The front door between RFT agents and Miles sessions: a routing table, diagnostic feedback
    beside it, and the normalisation of a chat request on its way through. */
module FrontDoor {
  import opened Wrappers
  import opened Strings
  import opened JsonValues

  // ---------------------------------------------------------------- routing and feedback

  datatype Event =
    | Register(url: string)
    | Unregister
    | CompleteRollout(status: Json)
    | UpdateReward(rewards: Json)

  /** An event and the trajectory it is about. */
  datatype Message = Message(tid: string, event: Event)

  datatype Door = Door(sessions: map<string, string>, results: map<string, map<string, Json>>)

  const EMPTY := Door(map[], map[])

  function Feedback(door: Door, tid: string, key: string, value: Json): Door {
    if tid !in door.sessions then door
    else
      var before := if tid in door.results then door.results[tid] else map[];
      door.(results := door.results[tid := before[key := value]])
  }

  function Apply(door: Door, m: Message): Door {
    match m.event
    case Register(url) => Door(door.sessions[m.tid := StripRight(url, '/')], door.results - {m.tid})
    case Unregister => Door(door.sessions - {m.tid}, door.results - {m.tid})
    case CompleteRollout(status) => Feedback(door, m.tid, "status", status)
    case UpdateReward(rewards) => Feedback(door, m.tid, "rewards", rewards)
  }

  /** Where a chat request of a trajectory is sent; `None` is the 404 reply. */
  function Route(door: Door, tid: string): Option<string> {
    if tid in door.sessions && |door.sessions[tid]| > 0 then
      Some(door.sessions[tid] + "/v1/chat/completions")
    else None
  }

  /** What `GET /miles/result/<tid>` answers. */
  function Diagnostics(door: Door, tid: string): map<string, Json> {
    if tid in door.results then door.results[tid] else map[]
  }

  /** The server, with the two dictionaries its handlers update. */
  class Server {
    var sessions: map<string, string>
    var results: map<string, map<string, Json>>

    ghost function State(): Door
      reads this
    {
      Door(sessions, results)
    }

    constructor ()
      ensures State() == EMPTY
    {
      sessions, results := map[], map[];
    }

    method OnRegister(tid: string, url: string)
      modifies this
      ensures State() == Apply(old(State()), Message(tid, Register(url)))
    {
      sessions := sessions[tid := StripRight(url, '/')];
      results := results - {tid};
    }

    method OnUnregister(tid: string)
      modifies this
      ensures State() == Apply(old(State()), Message(tid, Unregister))
    {
      sessions := sessions - {tid};
      results := results - {tid};
    }

    method OnCompleteRollout(tid: string, status: Json)
      modifies `results
      ensures State() == Apply(old(State()), Message(tid, CompleteRollout(status)))
    {
      if tid in sessions {
        if tid !in results {
          results := results[tid := map[]];
        }
        results := results[tid := results[tid]["status" := status]];
      }
    }

    method OnUpdateReward(tid: string, rewards: Json)
      modifies `results
      ensures State() == Apply(old(State()), Message(tid, UpdateReward(rewards)))
    {
      if tid in sessions {
        if tid !in results {
          results := results[tid := map[]];
        }
        results := results[tid := results[tid]["rewards" := rewards]];
      }
    }

    method OnResult(tid: string) returns (r: map<string, Json>)
      ensures r == Diagnostics(State(), tid)
    {
      return if tid in results then results[tid] else map[];
    }

    method OnChat(tid: string) returns (target: Option<string>)
      ensures target == Route(State(), tid)
    {
      var url := if tid in sessions then sessions[tid] else "";
      if |url| == 0 {
        return None;
      }
      return Some(url + "/v1/chat/completions");
    }
  }

  // ---------------------------------------------------------------- whole histories

  function Run(door: Door, history: seq<Message>): Door {
    if |history| == 0 then door
    else Apply(Run(door, history[..|history|-1]), history[|history|-1])
  }

  /** The part of a history that concerns one trajectory. */
  function About(history: seq<Message>, tid: string): seq<Message> {
    if |history| == 0 then []
    else
      var before, last := About(history[..|history|-1], tid), history[|history|-1];
      if last.tid == tid then before + [last] else before
  }

  /** The part of a history that is not agent feedback. */
  function ControlOnly(history: seq<Message>): seq<Message> {
    if |history| == 0 then []
    else
      var before, last := ControlOnly(history[..|history|-1]), history[|history|-1];
      if last.event.Register? || last.event.Unregister? then before + [last] else before
  }

  ghost predicate AgreeOn(a: Door, b: Door, tid: string) {
    && (tid in a.sessions <==> tid in b.sessions)
    && (tid in a.sessions ==> a.sessions[tid] == b.sessions[tid])
    && (tid in a.results <==> tid in b.results)
    && (tid in a.results ==> a.results[tid] == b.results[tid])
  }

  lemma FeedbackAgrees(a: Door, b: Door, from: string, key: string, value: Json, tid: string)
    requires AgreeOn(a, b, tid)
    ensures AgreeOn(Feedback(a, from, key, value), Feedback(b, from, key, value), tid)
    ensures from != tid ==> AgreeOn(Feedback(a, from, key, value), b, tid)
  {
  }

  lemma ApplyAgrees(a: Door, b: Door, m: Message, tid: string)
    requires AgreeOn(a, b, tid)
    ensures AgreeOn(Apply(a, m), Apply(b, m), tid)
    ensures m.tid != tid ==> AgreeOn(Apply(a, m), b, tid)
  {
    match m.event
    case Register(_) =>
    case Unregister =>
    case CompleteRollout(status) => FeedbackAgrees(a, b, m.tid, "status", status, tid);
    case UpdateReward(rewards) => FeedbackAgrees(a, b, m.tid, "rewards", rewards, tid);
  }

  lemma RunOneMore(door: Door, history: seq<Message>, m: Message)
    ensures Run(door, history + [m]) == Apply(Run(door, history), m)
  {
    assert (history + [m])[..|history|] == history;
  }

  lemma AgreeingDoorsAnswerAlike(a: Door, b: Door, tid: string)
    requires AgreeOn(a, b, tid)
    ensures Route(a, tid) == Route(b, tid) && Diagnostics(a, tid) == Diagnostics(b, tid)
  {
  }

  /** NONINTERFERENCE. After any history, a trajectory's routing and diagnostics are what its
      own events alone would have left. */
  lemma {:induction false} OwnEventsOnly(door: Door, history: seq<Message>, tid: string)
    ensures AgreeOn(Run(door, history), Run(door, About(history, tid)), tid)
    ensures Route(Run(door, history), tid) == Route(Run(door, About(history, tid)), tid)
    ensures Diagnostics(Run(door, history), tid) == Diagnostics(Run(door, About(history, tid)), tid)
  {
    if |history| > 0 {
      var before, last := history[..|history|-1], history[|history|-1];
      OwnEventsOnly(door, before, tid);
      hide Apply, Route, Diagnostics;
      ApplyAgrees(Run(door, before), Run(door, About(before, tid)), last, tid);
      RunOneMore(door, About(before, tid), last);
    }
    AgreeingDoorsAnswerAlike(Run(door, history), Run(door, About(history, tid)), tid);
  }

  lemma SameSessionsAfter(a: Door, b: Door, m: Message)
    requires a.sessions == b.sessions
    ensures Apply(a, m).sessions == Apply(b, m).sessions
    ensures !m.event.Register? && !m.event.Unregister? ==> Apply(a, m).sessions == a.sessions
  {
  }

  /** Feedback of any kind, count or lateness can be deleted from a history without changing
      where any trajectory is routed. */
  lemma {:induction false} FeedbackNeverRoutes(door: Door, history: seq<Message>)
    ensures Run(door, history).sessions == Run(door, ControlOnly(history)).sessions
  {
    if |history| > 0 {
      var before, last := history[..|history|-1], history[|history|-1];
      FeedbackNeverRoutes(door, before);
      hide Apply;
      SameSessionsAfter(Run(door, before), Run(door, ControlOnly(before)), last);
      RunOneMore(door, ControlOnly(before), last);
    }
  }

  /** Diagnostics are held only for registered trajectories, after every history. */
  lemma {:induction false} ResultsWithinSessions(history: seq<Message>)
    ensures Run(EMPTY, history).results.Keys <= Run(EMPTY, history).sessions.Keys
  {
    if |history| > 0 {
      ResultsWithinSessions(history[..|history|-1]);
    }
  }

  /** The last value reported under a key, by a history of feedback. */
  function Latest(history: seq<Message>, key: string): Option<Json> {
    if |history| == 0 then None
    else
      match history[|history|-1].event
      case CompleteRollout(status) =>
        if key == "status" then Some(status) else Latest(history[..|history|-1], key)
      case UpdateReward(rewards) =>
        if key == "rewards" then Some(rewards) else Latest(history[..|history|-1], key)
      case _ => Latest(history[..|history|-1], key)
  }

  ghost predicate FeedbackOf(history: seq<Message>, tid: string) {
    forall k :: 0 <= k < |history| ==>
      history[k].tid == tid && (history[k].event.CompleteRollout? || history[k].event.UpdateReward?)
  }

  /** Between registering and unregistering, diagnostics show the latest value of each kind and
      nothing from before the registration; once unregistered they show nothing. */
  lemma {:induction false} DiagnosticsAreLatest(door: Door, tid: string, url: string,
                                                history: seq<Message>, key: string)
    requires FeedbackOf(history, tid)
    ensures var shown := Diagnostics(Run(Apply(door, Message(tid, Register(url))), history), tid);
            if Latest(history, key) == None then key !in shown
            else key in shown && shown[key] == Latest(history, key).value
    ensures Diagnostics(Run(Apply(door, Message(tid, Unregister)), history), tid) == map[]
    ensures tid in Run(Apply(door, Message(tid, Register(url))), history).sessions
    ensures tid !in Run(Apply(door, Message(tid, Unregister)), history).sessions
    ensures tid !in Run(Apply(door, Message(tid, Unregister)), history).results
  {
    if |history| > 0 {
      DiagnosticsAreLatest(door, tid, url, history[..|history|-1], key);
    }
  }

  // ---------------------------------------------------------------- request normalisation

  function TextOf(block: Json): Option<string> {
    if block.Obj? && "type" in block.fields && block.fields["type"] == Str("text") &&
       "text" in block.fields && block.fields["text"].Str?
    then Some(block.fields["text"].text) else None
  }

  predicate AllText(items: seq<Json>) {
    forall k :: 0 <= k < |items| ==> TextOf(items[k]).Some?
  }

  function JoinText(items: seq<Json>): string
    requires AllText(items)
  {
    Join(seq(|items|, k requires 0 <= k < |items| => TextOf(items[k]).value))
  }

  function NormalizeMessage(message: Json): Json {
    if message.Obj? && "content" in message.fields && message.fields["content"].Arr? &&
       AllText(message.fields["content"].items)
    then Obj(message.fields["content" := Str(JoinText(message.fields["content"].items))])
    else message
  }

  function NormalizeMessages(messages: seq<Json>): (r: seq<Json>)
    ensures |r| == |messages| && forall k :: 0 <= k < |r| ==> r[k] == NormalizeMessage(messages[k])
  {
    seq(|messages|, k requires 0 <= k < |messages| => NormalizeMessage(messages[k]))
  }

  function NormalizeFields(fields: map<string, Json>, policy: string): map<string, Json> {
    var kept := fields - {"stream_options"};
    var joined := if "messages" in kept && kept["messages"].Arr?
                  then kept["messages" := Arr(NormalizeMessages(kept["messages"].items))] else kept;
    joined["model" := Str(policy)]
  }

  /** A body that is not a JSON object is forwarded as it came. */
  function Normalize(body: Json, policy: string): Json {
    if body.Obj? then Obj(NormalizeFields(body.fields, policy)) else body
  }

  /** The handler's loop over the parsed body. */
  method NormalizeBody(body: Json, policy: string) returns (r: Json)
    ensures r == Normalize(body, policy)
  {
    if !body.Obj? {
      return body;
    }
    var parsed := body.fields - {"stream_options"};
    if "messages" in parsed && parsed["messages"].Arr? {
      var messages := parsed["messages"].items;
      var i := 0;
      while i < |messages|
        invariant 0 <= i <= |messages| == |parsed["messages"].items|
        invariant forall k :: 0 <= k < i ==> messages[k] == NormalizeMessage(parsed["messages"].items[k])
        invariant forall k :: i <= k < |messages| ==> messages[k] == parsed["messages"].items[k]
      {
        var message := messages[i];
        if message.Obj? && "content" in message.fields {
          var content := message.fields["content"];
          if content.Arr? && AllText(content.items) {
            messages := messages[i := Obj(message.fields["content" := Str(JoinText(content.items))])];
          }
        }
        i := i + 1;
      }
      assert messages == NormalizeMessages(parsed["messages"].items);
      parsed := parsed["messages" := Arr(messages)];
    }
    return Obj(parsed["model" := Str(policy)]);
  }

  /** The text a message carries, whichever way it is written; `None` for mixed content. */
  function MessageText(message: Json): Option<string> {
    if !message.Obj? || "content" !in message.fields then None
    else
      match message.fields["content"]
      case Str(text) => Some(text)
      case Arr(items) => if AllText(items) then Some(JoinText(items)) else None
      case _ => None
  }

  lemma NormalizeMessageKeeps(message: Json)
    ensures NormalizeMessage(NormalizeMessage(message)) == NormalizeMessage(message)
    ensures MessageText(NormalizeMessage(message)) == MessageText(message)
    ensures message.Obj? ==>
      NormalizeMessage(message).Obj? &&
      NormalizeMessage(message).fields - {"content"} == message.fields - {"content"}
    ensures MessageText(message) == None ==> NormalizeMessage(message) == message
    ensures MessageText(message).Some? ==>
      NormalizeMessage(message).fields["content"] == Str(MessageText(message).value)
  {
  }

  /** A block that is text and nothing else but its own fields. */
  ghost predicate IsTextBlock(block: Json) {
    block.Obj? && "type" in block.fields && block.fields["type"] == Str("text") &&
    "text" in block.fields && block.fields["text"].Str?
  }

  function WithContent(message: Json, content: Json): Json
    requires message.Obj?
  {
    Obj(message.fields["content" := content])
  }

  lemma {:induction false} JoinAppends(a: seq<string>, b: seq<string>)
    ensures Join(a + b) == Join(a) + Join(b)
  {
    if |a| == 0 {
      assert a + b == b;
    } else {
      assert (a + b)[0] == a[0] && (a + b)[1..] == a[1..] + b;
      JoinAppends(a[1..], b);
    }
  }

  lemma NoText()
    ensures AllText([]) && JoinText([]) == ""
  {
  }

  lemma OneText(block: Json)
    requires IsTextBlock(block)
    ensures AllText([block]) && JoinText([block]) == block.fields["text"].text
  {
    var texts := seq(1, k requires 0 <= k < 1 => TextOf([block][k]).value);
    assert texts == [block.fields["text"].text];
    assert JoinText([block]) == Join(texts) == texts[0] + Join(texts[1..]);
  }

  lemma JoinedTexts(a: seq<Json>, b: seq<Json>)
    requires AllText(a) && AllText(b)
    ensures AllText(a + b) && JoinText(a + b) == JoinText(a) + JoinText(b)
  {
    var ta := seq(|a|, k requires 0 <= k < |a| => TextOf(a[k]).value);
    var tb := seq(|b|, k requires 0 <= k < |b| => TextOf(b[k]).value);
    JoinAppends(ta, tb);
    assert seq(|a + b|, k requires 0 <= k < |a + b| => TextOf((a + b)[k]).value) == ta + tb;
  }

  ghost predicate AllTextBlocks(items: seq<Json>) {
    forall k :: 0 <= k < |items| ==> IsTextBlock(items[k])
  }

  lemma TextBlocksAreText(items: seq<Json>)
    ensures AllTextBlocks(items) <==> AllText(items)
  {
    forall k | 0 <= k < |items| ensures IsTextBlock(items[k]) <==> TextOf(items[k]).Some? {
    }
  }

  lemma ContentIsReplaced(message: Json, items: seq<Json>)
    requires message.Obj?
    ensures NormalizeMessage(WithContent(message, Arr(items)))
         == WithContent(message, if AllText(items) then Str(JoinText(items)) else Arr(items))
  {
    hide AllText, JoinText;
    var given := message.fields["content" := Arr(items)];
    if AllText(items) {
      var joined := Str(JoinText(items));
      assert given["content" := joined] == message.fields["content" := joined];
    }
  }

  /** A message stays as it is if its content is no list, or any block is not a text block. */
  lemma OtherContentIsUntouched(message: Json, items: seq<Json>)
    requires message.Obj?
    ensures !("content" in message.fields && message.fields["content"].Arr?) ==> NormalizeMessage(message) == message
    ensures !AllTextBlocks(items) ==>
      NormalizeMessage(WithContent(message, Arr(items))) == WithContent(message, Arr(items))
  {
    TextBlocksAreText(items);
    ContentIsReplaced(message, items);
    hide WithContent, AllText, AllTextBlocks;
  }

  /** What normalising makes of text blocks: none give the empty text, one its own text, and the
      blocks of two lists their texts one after the other. */
  lemma BlocksAreJoinedInOrder(message: Json, block: Json, a: seq<Json>, b: seq<Json>)
    requires message.Obj? && IsTextBlock(block) && AllTextBlocks(a) && AllTextBlocks(b)
    ensures NormalizeMessage(WithContent(message, Arr([]))) == WithContent(message, Str(""))
    ensures NormalizeMessage(WithContent(message, Arr([block]))) == WithContent(message, block.fields["text"])
    ensures exists ta: string, tb: string ::
      && NormalizeMessage(WithContent(message, Arr(a))) == WithContent(message, Str(ta))
      && NormalizeMessage(WithContent(message, Arr(b))) == WithContent(message, Str(tb))
      && NormalizeMessage(WithContent(message, Arr(a + b))) == WithContent(message, Str(ta + tb))
  {
    TextBlocksAreText(a);
    TextBlocksAreText(b);
    JoinedTexts(a, b);
    NoText();
    OneText(block);
    hide NormalizeMessage, WithContent, AllText, JoinText, AllTextBlocks;
    ContentIsReplaced(message, []);
    ContentIsReplaced(message, [block]);
    ContentIsReplaced(message, a);
    ContentIsReplaced(message, b);
    ContentIsReplaced(message, a + b);
  }

  function Messages(body: Json): seq<Json> {
    if body.Obj? && "messages" in body.fields && body.fields["messages"].Arr?
    then body.fields["messages"].items else []
  }

  /** Normalising twice changes nothing more. Messages keep their number, order, text and every
      other field; a message with any non-text block is untouched; of the body only the model,
      the stream options and the messages can differ. */
  lemma NormalizeKeepsMeaning(body: Json, policy: string)
    ensures Normalize(Normalize(body, policy), policy) == Normalize(body, policy)
    ensures |Messages(Normalize(body, policy))| == |Messages(body)|
    ensures forall k :: 0 <= k < |Messages(body)| ==>
      MessageText(Messages(Normalize(body, policy))[k]) == MessageText(Messages(body)[k]) &&
      (MessageText(Messages(body)[k]) == None ==> Messages(Normalize(body, policy))[k] == Messages(body)[k])
    ensures forall k :: 0 <= k < |Messages(body)| && Messages(body)[k].Obj? ==>
      Messages(Normalize(body, policy))[k].Obj? &&
      Messages(Normalize(body, policy))[k].fields - {"content"} == Messages(body)[k].fields - {"content"}
    ensures body.Obj? ==>
      Normalize(body, policy).Obj? && Normalize(body, policy).fields["model"] == Str(policy) &&
      "stream_options" !in Normalize(body, policy).fields &&
      Normalize(body, policy).fields - {"model", "messages"} == body.fields - {"model", "messages", "stream_options"}
    ensures !body.Obj? ==> Normalize(body, policy) == body
  {
    if body.Obj? {
      var once := Normalize(body, policy);
      forall k | 0 <= k < |Messages(body)|
        ensures Messages(once)[k] == NormalizeMessage(Messages(body)[k])
        ensures MessageText(Messages(once)[k]) == MessageText(Messages(body)[k])
        ensures Messages(body)[k].Obj? ==>
          Messages(once)[k].Obj? && Messages(once)[k].fields - {"content"} == Messages(body)[k].fields - {"content"}
      {
        NormalizeMessageKeeps(Messages(body)[k]);
      }
      if "messages" in once.fields && once.fields["messages"].Arr? {
        forall k | 0 <= k < |Messages(once)| ensures NormalizeMessage(Messages(once)[k]) == Messages(once)[k] {
          NormalizeMessageKeeps(Messages(body)[k]);
        }
        assert NormalizeMessages(Messages(once)) == Messages(once);
      }
      assert NormalizeFields(once.fields, policy) == once.fields;
    }
  }
}
