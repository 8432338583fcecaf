/**
  The ReAct loop (internal/agent/agent.go) against a model and tools that may do anything.

  The model is a function of the messages it is sent.  No behaviour is lost: the requests of one call are
  pairwise different, each being longer than the one before.  The role of a reply is the model's choice too,
  for the provider copies it from the response (internal/llm/openai/openai.go).
 */
module Agent {
  import opened Common
  import opened Conversation

  const MAX_TOOL_ROUNDS := 8
  const HISTORY := 20
  const APOLOGY := "I reached the tool call limit without a final answer. Please try a more specific question."

  datatype ToolCall = ToolCall(id: string, name: string, args: string)

  datatype Message = Message(role: Role, content: string, toolCalls: seq<ToolCall>, toolCallId: string, name: string)

  datatype Reply = Reply(role: Role, content: string, toolCalls: seq<ToolCall>, stopReason: string)

  datatype Chat = Answered(reply: Reply) | ChatError

  datatype ToolResult = Output(text: string) | ToolError(text: string)

  /** The adversary: the model, and tools that see everything said so far. */
  datatype World = World(model: seq<Message> -> Chat, tool: (seq<Message>, ToolCall) -> ToolResult)

  function Plain(role: Role, content: string): Message { Message(role, content, [], "", "") }

  function ReplyMessage(r: Reply): Message { Message(r.role, r.content, r.toolCalls, "", "") }

  function ResultText(r: ToolResult): string { if r.Output? then r.text else "error: " + r.text }

  function ToolMessage(c: ToolCall, r: ToolResult): Message { Message(Tool, ResultText(r), [], c.id, c.name) }

  // ----- the first request -----

  predicate Repeats(h: Stored, text: string) { h == Stored(User, text) }

  /** The history without the user's messages that equal the new one, in order. */
  function Kept(history: seq<Stored>, text: string): seq<Message> {
    if history == [] then []
    else
      var h := history[|history| - 1];
      Kept(history[..|history| - 1], text) + if Repeats(h, text) then [] else [Plain(h.role, h.content)]
  }

  function Opening(prompt: string, history: seq<Stored>, text: string): seq<Message> {
    [Plain(System, prompt)] + Kept(history, text) + [Plain(User, text)]
  }

  method BuildMessages(prompt: string, history: array<Stored>, text: string) returns (msgs: seq<Message>)
    ensures msgs == Opening(prompt, history[..], text)
  {
    msgs := [Plain(System, prompt)];
    for i := 0 to history.Length
      invariant msgs == [Plain(System, prompt)] + Kept(history[..i], text)
    {
      assert history[..i + 1][..i] == history[..i];
      var h := history[i];
      if h.role == User && h.content == text {
        continue;
      }
      msgs := msgs + [Plain(h.role, h.content)];
    }
    assert history[..history.Length] == history[..];
    msgs := msgs + [Plain(User, text)];
  }

  function PlainAll(history: seq<Stored>): seq<Message> {
    seq(|history|, i requires 0 <= i < |history| => Plain(history[i].role, history[i].content))
  }

  /** The new text occurs once among the user's messages, at the end. */
  lemma {:induction false} TextOccursOnce(prompt: string, history: seq<Stored>, text: string)
    ensures Plain(User, text) !in Kept(history, text)
    ensures forall i | 0 <= i < |Opening(prompt, history, text)| ::
              Opening(prompt, history, text)[i] == Plain(User, text) <==> i == |Opening(prompt, history, text)| - 1
  {
    if history != [] {
      TextOccursOnce(prompt, history[..|history| - 1], text);
    }
  }

  /** When the new text was saved first, so that it ends the history, the model sees the whole history exactly
      if the user has not said the same thing before: the code drops every equal message, not only the last. */
  lemma SeesWholeHistoryIff(prompt: string, earlier: seq<Stored>, text: string)
    ensures Opening(prompt, earlier + [Stored(User, text)], text)
              == [Plain(System, prompt)] + PlainAll(earlier + [Stored(User, text)])
            <==> Stored(User, text) !in earlier
  {
    var history := earlier + [Stored(User, text)];
    assert history[..|history| - 1] == earlier;
    KeptLength(earlier, text);
    assert PlainAll(history) == PlainAll(earlier) + [Plain(User, text)];
    assert |Opening(prompt, history, text)| == |Kept(earlier, text)| + 2;
    if Stored(User, text) !in earlier {
      assert [Plain(System, prompt)] + (PlainAll(earlier) + [Plain(User, text)])
          == [Plain(System, prompt)] + PlainAll(earlier) + [Plain(User, text)];
    }
  }

  /** After "yes" was said before, the model sees it once. */
  lemma RepeatedAnswerIsDropped(prompt: string)
    ensures var history := [Stored(User, "yes"), Stored(Assistant, "done"), Stored(User, "yes")];
            Opening(prompt, history, "yes") ==
              [Plain(System, prompt), Plain(Assistant, "done"), Plain(User, "yes")]
  {
    var a, b := Stored(User, "yes"), Stored(Assistant, "done");
    assert [a, b, a][..2] == [a, b] && [a, b][..1] == [a] && [a][..0] == [];
    assert Kept([a], "yes") == [] && Kept([a, b], "yes") == [Plain(Assistant, "done")];
  }

  lemma {:induction false} KeptLength(history: seq<Stored>, text: string)
    ensures |Kept(history, text)| <= |history|
    ensures |Kept(history, text)| == |history| <==> Stored(User, text) !in history
    ensures Stored(User, text) !in history ==> Kept(history, text) == PlainAll(history)
  {
    if history != [] {
      KeptLength(history[..|history| - 1], text);
    }
  }

  // ----- the rounds -----

  datatype End = Finished(text: string) | Exhausted | Broken

  /** Results of the calls of one reply, each tool seeing the results before it. */
  function Results(w: World, msgs: seq<Message>, calls: seq<ToolCall>): seq<Message> {
    if calls == [] then []
    else
      var before := Results(w, msgs, calls[..|calls| - 1]);
      var c := calls[|calls| - 1];
      before + [ToolMessage(c, w.tool(msgs + before, c))]
  }

  predicate Ends(r: Reply) { r.stopReason == "stop" || r.toolCalls == [] }

  /** The messages after a reply that goes on. */
  function Next(w: World, msgs: seq<Message>, r: Reply): seq<Message> {
    msgs + [ReplyMessage(r)] + Results(w, msgs + [ReplyMessage(r)], r.toolCalls)
  }

  /** The requests a conversation of at most `rounds` rounds makes, and how it ends. */
  function Requests(w: World, msgs: seq<Message>, rounds: nat): seq<seq<Message>>
    decreases rounds
  {
    if rounds == 0 then []
    else
      match w.model(msgs)
      case ChatError => [msgs]
      case Answered(r) => if Ends(r) then [msgs] else [msgs] + Requests(w, Next(w, msgs, r), rounds - 1)
  }

  function Outcome(w: World, msgs: seq<Message>, rounds: nat): End
    decreases rounds
  {
    if rounds == 0 then Exhausted
    else
      match w.model(msgs)
      case ChatError => Broken
      case Answered(r) => if Ends(r) then Finished(r.content) else Outcome(w, Next(w, msgs, r), rounds - 1)
  }

  lemma RequestsUnfold(w: World, asked: seq<seq<Message>>, msgs: seq<Message>, rounds: nat)
    requires rounds > 0
    ensures asked + Requests(w, msgs, rounds) == asked + [msgs]
            + if w.model(msgs).ChatError? || Ends(w.model(msgs).reply) then []
              else Requests(w, Next(w, msgs, w.model(msgs).reply), rounds - 1)
  {
  }

  /** The text sent back: the model's, unless it is empty or never came. */
  function FinalText(e: End): string
    requires !e.Broken?
  {
    if e.Finished? && e.text != "" then e.text else APOLOGY
  }

  function Append(log: seq<Stored>, fault: bool, m: Stored): seq<Stored> { if fault then log else log + [m] }

  /** What fails around one inbound message: the session, saving it, loading the history, saving the reply. */
  datatype Faults = Faults(session: bool, save: bool, history: bool, reply: bool)

  /** One inbound message and everything it meets. */
  datatype Turn = Turn(world: World, prompt: string, text: string, faults: Faults)

  /** The session log after it, the reply if there is one, and the requests made. */
  datatype Handled = Handled(log: seq<Stored>, reply: Option<string>, requests: seq<seq<Message>>)

  function OpeningOf(log: seq<Stored>, t: Turn): seq<Message> {
    Opening(t.prompt, Recent(Append(log, t.faults.save, Stored(User, t.text)), HISTORY), t.text)
  }

  function Handle(log: seq<Stored>, t: Turn): Handled {
    if t.faults.session then Handled(log, None, [])
    else
      var saved := Append(log, t.faults.save, Stored(User, t.text));
      if t.faults.history then Handled(saved, None, [])
      else
        var requests := Requests(t.world, OpeningOf(log, t), MAX_TOOL_ROUNDS);
        var end := Outcome(t.world, OpeningOf(log, t), MAX_TOOL_ROUNDS);
        if end.Broken? then Handled(saved, None, requests)
        else Handled(Append(saved, t.faults.reply, Stored(Assistant, FinalText(end))), Some(FinalText(end)), requests)
  }

  class ChatAgent {
    const world: World
    const session: Session

    constructor (world: World, session: Session)
      ensures this.world == world && this.session == session
    {
      this.world, this.session := world, session;
    }

    method RunTools(msgs: seq<Message>, calls: seq<ToolCall>) returns (after: seq<Message>)
      ensures after == msgs + Results(world, msgs, calls)
    {
      after := msgs;
      for i := 0 to |calls|
        invariant after == msgs + Results(world, msgs, calls[..i])
      {
        assert calls[..i + 1][..i] == calls[..i];
        var result := world.tool(after, calls[i]);
        var text := match result
          case Output(t) => t
          case ToolError(t) => "error: " + t;
        after := after + [Message(Tool, text, [], calls[i].id, calls[i].name)];
      }
      assert calls[..|calls|] == calls;
    }

    /** The rounds: ask, stop on a final reply, otherwise run its tools and ask again. */
    method Converse(opening: seq<Message>, rounds: nat) returns (requests: seq<seq<Message>>, end: End)
      ensures requests == Requests(world, opening, rounds) && end == Outcome(world, opening, rounds)
    {
      var messages := opening;
      requests := [];
      for round := 0 to rounds
        invariant Requests(world, opening, rounds) == requests + Requests(world, messages, rounds - round)
        invariant Outcome(world, opening, rounds) == Outcome(world, messages, rounds - round)
      {
        RequestsUnfold(world, requests, messages, rounds - round);
        requests := requests + [messages];
        var resp := world.model(messages);
        if resp.ChatError? {
          return requests, Broken;
        }
        var reply := resp.reply;
        messages := messages + [ReplyMessage(reply)];
        if reply.stopReason == "stop" || |reply.toolCalls| == 0 {
          return requests, Finished(reply.content);
        }
        messages := RunTools(messages, reply.toolCalls);
      }
      end := Exhausted;
    }

    /** One inbound message; `requests` lists what the model was sent, `reply` is what the user gets. */
    method HandleMessage(prompt: string, text: string, faults: Faults)
      returns (ok: bool, reply: string, requests: seq<seq<Message>>)
      modifies session
      ensures var h := Handle(old(session.log), Turn(world, prompt, text, faults));
              && session.log == h.log && requests == h.requests
              && ok == h.reply.Some? && (ok ==> reply == h.reply.value)
      ensures ok <==> reply != ""
    {
      requests, reply, ok := [], "", false;
      if faults.session {
        return;
      }
      var _ := session.SaveMessage(User, text, faults.save);
      if faults.history {
        return;
      }
      var history := session.RecentMessages(HISTORY);
      var messages := BuildMessages(prompt, history, text);
      var end;
      assert messages == Opening(prompt, Recent(session.log, HISTORY), text);
      requests, end := Converse(messages, MAX_TOOL_ROUNDS);
      if end.Broken? {
        return;
      }
      var finalText := if end.Finished? then end.text else "";
      if finalText == "" {
        finalText := APOLOGY;
      }
      var _ := session.SaveMessage(Assistant, finalText, faults.reply);
      ok, reply := true, finalText;
    }
  }

  // ----- the protocol -----

  /** The messages answer exactly these calls: one tool message per call, same ids, same order. */
  predicate Answers(ms: seq<Message>, calls: seq<ToolCall>) {
    && |ms| == |calls|
    && forall i | 0 <= i < |calls| ::
         ms[i].role == Tool && ms[i].toolCallId == calls[i].id && ms[i].name == calls[i].name && ms[i].toolCalls == []
  }

  /** A reply with calls and what follows it. */
  datatype Exchange = Exchange(reply: Message, answers: seq<Message>)

  predicate Whole(x: Exchange) { x.reply.toolCalls != [] && Answers(x.answers, x.reply.toolCalls) }

  function Flatten(xs: seq<Exchange>): seq<Message> {
    if xs == [] then [] else [xs[0].reply] + xs[0].answers + Flatten(xs[1..])
  }

  lemma {:induction false} ResultsAnswer(w: World, msgs: seq<Message>, calls: seq<ToolCall>)
    ensures Answers(Results(w, msgs, calls), calls)
  {
    if calls != [] {
      ResultsAnswer(w, msgs, calls[..|calls| - 1]);
    }
  }

  /** One round adds one exchange. */
  function ExchangeOf(w: World, msgs: seq<Message>, r: Reply): Exchange {
    Exchange(ReplyMessage(r), Results(w, msgs + [ReplyMessage(r)], r.toolCalls))
  }

  lemma RoundIsExchange(w: World, msgs: seq<Message>, r: Reply)
    requires !Ends(r)
    ensures Whole(ExchangeOf(w, msgs, r)) && msgs < Next(w, msgs, r)
    ensures Next(w, msgs, r) == msgs + ([ExchangeOf(w, msgs, r).reply] + ExchangeOf(w, msgs, r).answers)
  {
    ResultsAnswer(w, msgs + [ReplyMessage(r)], r.toolCalls);
  }

  lemma FlattenCons(msgs: seq<Message>, x: Exchange, xs: seq<Exchange>)
    ensures msgs + ([x.reply] + x.answers) + Flatten(xs) == msgs + Flatten([x] + xs)
  {
    assert ([x] + xs)[1..] == xs;
  }

  /** The i-th request is the opening followed by i whole exchanges: no reply with calls is left unanswered,
      no tool message is out of place. */
  lemma {:induction false} RequestIsExchanges(w: World, msgs: seq<Message>, rounds: nat, i: nat)
    returns (xs: seq<Exchange>)
    requires i < |Requests(w, msgs, rounds)|
    ensures Requests(w, msgs, rounds)[i] == msgs + Flatten(xs)
    ensures |xs| == i && forall k | 0 <= k < i :: Whole(xs[k])
    decreases rounds
  {
    if i == 0 {
      xs := [];
    } else {
      var r := w.model(msgs).reply;
      RoundIsExchange(w, msgs, r);
      var rest := RequestIsExchanges(w, Next(w, msgs, r), rounds - 1, i - 1);
      FlattenCons(msgs, ExchangeOf(w, msgs, r), rest);
      xs := [ExchangeOf(w, msgs, r)] + rest;
    }
  }

  /** Each request strictly extends the one before, the first is the opening, and there are at most as many as
      rounds. */
  lemma {:induction false} RequestsExtend(w: World, msgs: seq<Message>, rounds: nat)
    ensures |Requests(w, msgs, rounds)| <= rounds
    ensures rounds > 0 ==> |Requests(w, msgs, rounds)| > 0 && Requests(w, msgs, rounds)[0] == msgs
    ensures forall i | 0 <= i < |Requests(w, msgs, rounds)| - 1 ::
              Requests(w, msgs, rounds)[i] < Requests(w, msgs, rounds)[i + 1]
    decreases rounds
  {
    if rounds > 0 && w.model(msgs).Answered? && !Ends(w.model(msgs).reply) {
      RoundIsExchange(w, msgs, w.model(msgs).reply);
      RequestsExtend(w, Next(w, msgs, w.model(msgs).reply), rounds - 1);
    }
  }

  /** How a conversation ends: with the content of the reply to the last request; or after using up the rounds, every
      reply having asked for tools; or because the model failed on the last request. */
  lemma {:induction false} OutcomeMeaning(w: World, msgs: seq<Message>, rounds: nat)
    requires rounds > 0
    ensures var requests, end := Requests(w, msgs, rounds), Outcome(w, msgs, rounds);
            && requests != []
            && (forall i | 0 <= i < |requests| - 1 ::
                  w.model(requests[i]).Answered? && !Ends(w.model(requests[i]).reply))
            && var last := w.model(requests[|requests| - 1]);
            match end
            case Finished(text) => last.Answered? && Ends(last.reply) && text == last.reply.content
            case Exhausted => |requests| == rounds && last.Answered? && !Ends(last.reply)
            case Broken => last.ChatError?
    decreases rounds
  {
    if w.model(msgs).Answered? && !Ends(w.model(msgs).reply) && rounds > 1 {
      OutcomeMeaning(w, Next(w, msgs, w.model(msgs).reply), rounds - 1);
    }
  }

  function SystemCount(ms: seq<Message>): nat {
    if ms == [] then 0 else SystemCount(ms[..|ms| - 1]) + if ms[|ms| - 1].role == System then 1 else 0
  }

  lemma {:induction false} SystemCountAppend(a: seq<Message>, b: seq<Message>)
    ensures SystemCount(a + b) == SystemCount(a) + SystemCount(b)
  {
    if b == [] {
      assert a + b == a;
    } else {
      SystemCountAppend(a, b[..|b| - 1]);
      assert (a + b)[..|a + b| - 1] == a + b[..|b| - 1];
    }
  }

  lemma {:induction false} NoSystemInResults(w: World, msgs: seq<Message>, calls: seq<ToolCall>)
    ensures SystemCount(Results(w, msgs, calls)) == 0
  {
    if calls != [] {
      NoSystemInResults(w, msgs, calls[..|calls| - 1]);
    }
  }

  /** The session saves only what the user and the assistant say. */
  predicate Spoken(history: seq<Stored>) {
    forall i | 0 <= i < |history| :: history[i].role == User || history[i].role == Assistant
  }

  lemma {:induction false} OpeningHasOneSystem(prompt: string, history: seq<Stored>, text: string)
    requires Spoken(history)
    ensures SystemCount(Opening(prompt, history, text)) == 1
    ensures Opening(prompt, history, text)[0] == Plain(System, prompt)
  {
    var kept := Kept(history, text);
    KeptHasNoSystem(history, text);
    SystemCountAppend([Plain(System, prompt)], kept);
    SystemCountAppend([Plain(System, prompt)] + kept, [Plain(User, text)]);
  }

  lemma {:induction false} KeptHasNoSystem(history: seq<Stored>, text: string)
    requires Spoken(history)
    ensures SystemCount(Kept(history, text)) == 0
  {
    if history != [] {
      KeptHasNoSystem(history[..|history| - 1], text);
      var h := history[|history| - 1];
      if Repeats(h, text) {
        assert Kept(history, text) == Kept(history[..|history| - 1], text);
      } else {
        SystemCountAppend(Kept(history[..|history| - 1], text), [Plain(h.role, h.content)]);
      }
    }
  }

  /** How many of the replies answered before request `i` the provider labelled as system messages. */
  function SystemReplies(w: World, msgs: seq<Message>, rounds: nat, i: nat): nat
    requires i < |Requests(w, msgs, rounds)|
    decreases rounds
  {
    if i == 0 then 0
    else
      var r := w.model(msgs).reply;
      (if r.role == System then 1 else 0) + SystemReplies(w, Next(w, msgs, r), rounds - 1, i - 1)
  }

  /** The system messages of a request are those of the opening and the replies so labelled. */
  lemma {:induction false} RequestSystemCount(w: World, msgs: seq<Message>, rounds: nat, i: nat)
    requires i < |Requests(w, msgs, rounds)|
    ensures SystemCount(Requests(w, msgs, rounds)[i]) == SystemCount(msgs) + SystemReplies(w, msgs, rounds, i)
    decreases rounds
  {
    if i > 0 {
      var r := w.model(msgs).reply;
      RequestSystemCount(w, Next(w, msgs, r), rounds - 1, i - 1);
      NoSystemInResults(w, msgs + [ReplyMessage(r)], r.toolCalls);
      SystemCountAppend(msgs + [ReplyMessage(r)], Results(w, msgs + [ReplyMessage(r)], r.toolCalls));
      SystemCountAppend(msgs, [ReplyMessage(r)]);
      assert SystemCount([ReplyMessage(r)]) == SystemCount([]) + if r.role == System then 1 else 0;
    }
  }

  /** The whole protocol of one call: at most eight requests, each extending the last, each led by the system prompt,
      the i-th made of the opening and i whole exchanges; it holds one system message exactly when no earlier reply
      was labelled as one. */
  lemma Protocol(w: World, prompt: string, history: seq<Stored>, text: string, i: nat) returns (xs: seq<Exchange>)
    requires Spoken(history) && i < |Requests(w, Opening(prompt, history, text), MAX_TOOL_ROUNDS)|
    ensures var opening := Opening(prompt, history, text);
            var requests := Requests(w, opening, MAX_TOOL_ROUNDS);
            && 1 <= |requests| <= MAX_TOOL_ROUNDS && requests[0] == opening
            && (i + 1 < |requests| ==> requests[i] < requests[i + 1])
            && requests[i] == opening + Flatten(xs) && |xs| == i && (forall k | 0 <= k < i :: Whole(xs[k]))
            && requests[i][0] == Plain(System, prompt)
            && (SystemCount(requests[i]) == 1 <==> SystemReplies(w, opening, MAX_TOOL_ROUNDS, i) == 0)
  {
    var opening := Opening(prompt, history, text);
    OpeningHasOneSystem(prompt, history, text);
    RequestsExtend(w, opening, MAX_TOOL_ROUNDS);
    xs := RequestIsExchanges(w, opening, MAX_TOOL_ROUNDS, i);
    RequestSystemCount(w, opening, MAX_TOOL_ROUNDS, i);
  }

  /** The history the model sees is a stretch of the log, so it holds only spoken messages if the log does. */
  lemma RecentIsSpoken(log: seq<Stored>)
    requires Spoken(log)
    ensures Spoken(Recent(log, HISTORY)) && |Recent(log, HISTORY)| <= HISTORY
  {
  }

  // ----- whole sessions -----

  /** A session from its first message on: the log before each turn and after the last. */
  ghost predicate IsSession(logs: seq<seq<Stored>>, turns: seq<Turn>) {
    && |logs| == |turns| + 1 && logs[0] == []
    && forall k | 0 <= k < |turns| :: logs[k + 1] == Handle(logs[k], turns[k]).log
  }

  lemma HandleStaysSpoken(log: seq<Stored>, t: Turn)
    requires Spoken(log)
    ensures Spoken(Handle(log, t).log) && Spoken(Append(log, t.faults.save, Stored(User, t.text)))
  {
  }

  /** Whatever models, tools and failures a session meets, it holds only what user and assistant said. */
  lemma {:induction false} SessionIsSpoken(logs: seq<seq<Stored>>, turns: seq<Turn>, k: nat)
    requires IsSession(logs, turns) && k < |logs|
    ensures Spoken(logs[k])
  {
    if k > 0 {
      SessionIsSpoken(logs, turns, k - 1);
      HandleStaysSpoken(logs[k - 1], turns[k - 1]);
    }
  }

  /** The protocol holds of every request of every turn of every session. */
  lemma SessionProtocol(logs: seq<seq<Stored>>, turns: seq<Turn>, k: nat, i: nat) returns (xs: seq<Exchange>)
    requires IsSession(logs, turns) && k < |turns| && i < |Handle(logs[k], turns[k]).requests|
    ensures var t, requests, opening := turns[k], Handle(logs[k], turns[k]).requests, OpeningOf(logs[k], turns[k]);
            && |requests| <= MAX_TOOL_ROUNDS && requests == Requests(t.world, opening, MAX_TOOL_ROUNDS)
            && (i + 1 < |requests| ==> requests[i] < requests[i + 1])
            && requests[i] == opening + Flatten(xs) && |xs| == i && (forall x | x in xs :: Whole(x))
            && requests[i][0] == Plain(System, t.prompt)
            && (SystemCount(requests[i]) == 1 <==> SystemReplies(t.world, opening, MAX_TOOL_ROUNDS, i) == 0)
  {
    var t := turns[k];
    var saved := Append(logs[k], t.faults.save, Stored(User, t.text));
    SessionIsSpoken(logs, turns, k);
    HandleStaysSpoken(logs[k], t);
    RecentIsSpoken(saved);
    xs := Protocol(t.world, t.prompt, Recent(saved, HISTORY), t.text, i);
  }

  /** A model that asks for a tool and whose replies the provider labels as system messages. */
  function Mislabelled(): World {
    World(_ => Answered(Reply(System, "", [ToolCall("1", "tool", "{}")], "tool_calls")), (_, _) => Output(""))
  }

  /** With it, the second request already holds two system messages. */
  lemma SecondSystemMessage(prompt: string, history: seq<Stored>, text: string, rounds: nat)
    requires Spoken(history) && rounds >= 2
    ensures var requests := Requests(Mislabelled(), Opening(prompt, history, text), rounds);
            |requests| >= 2 && SystemCount(requests[1]) == 2
  {
    var w, opening := Mislabelled(), Opening(prompt, history, text);
    var next := Next(w, opening, w.model(opening).reply);
    RequestsExtend(w, next, rounds - 1);
    assert Requests(w, opening, rounds) == [opening] + Requests(w, next, rounds - 1);
    OpeningHasOneSystem(prompt, history, text);
    RequestSystemCount(w, opening, rounds, 1);
    assert SystemReplies(w, next, rounds - 1, 0) == 0;
  }
}
