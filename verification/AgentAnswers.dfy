/** What one inbound message shows the model, what the model's and the tools' words become, and what the user gets. */
module AgentAnswers {
  import opened Common
  import opened Conversation
  import opened Agent

  // ----- the first request -----

  ghost predicate Increasing(at: seq<nat>) { forall i, j | 0 <= i < j < |at| :: at[i] < at[j] }

  /** `at` lists, in order, the positions from `base` on whose message is not the user's own text again, and `ms` are
      the messages there. */
  ghost predicate Selects(ms: seq<Message>, log: seq<Stored>, base: nat, text: string, at: seq<nat>) {
    && |ms| == |at| && Increasing(at)
    && (forall k | 0 <= k < |at| :: IsShown(ms[k], log, base, text, at[k]))
    && (forall p: nat | base <= p < |log| && log[p] != Stored(User, text) :: p in at)
  }

  ghost predicate IsShown(m: Message, log: seq<Stored>, base: nat, text: string, p: nat) {
    && base <= p < |log| && log[p] != Stored(User, text)
    && m == Message(log[p].role, log[p].content, [], "", "")
  }

  /** The system prompt, the messages of the last twenty of the log that are not the same text again, and the text. */
  ghost predicate OpensWith(request: seq<Message>, at: seq<nat>, saved: seq<Stored>, prompt: string, text: string) {
    && |request| >= 2 && request[0] == Message(System, prompt, [], "", "")
    && request[|request| - 1] == Message(User, text, [], "", "")
    && Selects(request[1..|request| - 1], saved, if |saved| <= 20 then 0 else |saved| - 20, text, at)
  }

  lemma SelectsNext(ms: seq<Message>, log: seq<Stored>, h: Stored, base: nat, text: string, at: seq<nat>)
    requires Selects(ms, log, base, text, at) && base <= |log|
    ensures h == Stored(User, text) ==> Selects(ms, log + [h], base, text, at)
    ensures h != Stored(User, text) ==>
              Selects(ms + [Message(h.role, h.content, [], "", "")], log + [h], base, text, at + [|log|])
  {
    forall k | 0 <= k < |at| ensures IsShown(ms[k], log + [h], base, text, at[k]) && at[k] < |log| {
      assert IsShown(ms[k], log, base, text, at[k]);
    }
    forall p: nat | base <= p < |log + [h]| && (log + [h])[p] != Stored(User, text) ensures p in at + [|log|] {
      if p < |log| {
        assert p in at;
      }
    }
  }

  lemma {:induction false} KeptSelects(log: seq<Stored>, base: nat, text: string) returns (at: seq<nat>)
    requires base <= |log|
    ensures Selects(Kept(log[base..], text), log, base, text, at)
    decreases |log|
  {
    at := [];
    if base < |log| {
      var n := |log| - 1;
      assert log == log[..n] + [log[n]] && log[base..][..n - base] == log[..n][base..];
      at := KeptSelects(log[..n], base, text);
      SelectsNext(Kept(log[..n][base..], text), log[..n], log[n], base, text, at);
      if log[n] != Stored(User, text) {
        at := at + [n];
      }
    }
  }

  /** The window is the end of the log: nothing newer is missing and nothing older than its first message is shown. */
  lemma RecentIsEnd(log: seq<Stored>, limit: nat)
    ensures |Recent(log, limit)| == (if |log| <= limit then |log| else limit)
    ensures forall k | 0 <= k < |Recent(log, limit)| :: Recent(log, limit)[k] == log[|log| - |Recent(log, limit)| + k]
  {
  }

  function Saved(log: seq<Stored>, t: Turn): seq<Stored> {
    if t.faults.save then log else log + [Stored(User, t.text)]
  }

  /** What the model is shown first. */
  lemma FirstRequest(log: seq<Stored>, t: Turn) returns (at: seq<nat>)
    ensures OpensWith(OpeningOf(log, t), at, Saved(log, t), t.prompt, t.text)
  {
    var saved := Saved(log, t);
    var base := if |saved| <= 20 then 0 else |saved| - 20;
    at := KeptSelects(saved, base, t.text);
    assert OpeningOf(log, t)[1..|OpeningOf(log, t)| - 1] == Kept(saved[base..], t.text);
  }

  // ----- from one request to the next -----

  /** The answer to a call: its output, or "error: " and the error's text, under its id and name. */
  ghost predicate IsAnswer(m: Message, c: ToolCall, r: ToolResult) {
    && m.role == Tool && m.toolCalls == [] && m.toolCallId == c.id && m.name == c.name
    && (r.Output? ==> m.content == r.text)
    && (r.ToolError? ==> m.content == "error: " + r.text)
  }

  /** The reply asks for tools and is not marked as the last. */
  ghost predicate GoesOn(r: Reply) { r.toolCalls != [] && r.stopReason != "stop" }

  /** The next request is the last one, the model's reply to it as it came, and the answer to each of its calls; a tool
      sees everything before its own answer. */
  ghost predicate Continues(w: World, before: seq<Message>, after: seq<Message>) {
    && w.model(before).Answered? && GoesOn(w.model(before).reply)
    && var r := w.model(before).reply;
    && before < after && |after| == |before| + 1 + |r.toolCalls|
    && after[|before|] == Message(r.role, r.content, r.toolCalls, "", "")
    && AllAnswered(w, after, |before| + 1, r.toolCalls)
  }

  ghost predicate AllAnswered(w: World, ms: seq<Message>, base: nat, calls: seq<ToolCall>) {
    && |ms| == base + |calls|
    && forall i | 0 <= i < |calls| :: IsAnswer(ms[base + i], calls[i], w.tool(ms[..base + i], calls[i]))
  }

  lemma {:induction false} ResultsAreAnswers(w: World, msgs: seq<Message>, calls: seq<ToolCall>)
    ensures AllAnswered(w, msgs + Results(w, msgs, calls), |msgs|, calls)
  {
    if calls != [] {
      var n := |calls| - 1;
      var init, all := msgs + Results(w, msgs, calls[..n]), msgs + Results(w, msgs, calls);
      ResultsAreAnswers(w, msgs, calls[..n]);
      forall i | 0 <= i < |calls|
        ensures IsAnswer(all[|msgs| + i], calls[i], w.tool(all[..|msgs| + i], calls[i]))
      {
        assert all[..|msgs| + i] == init[..|msgs| + i];
        if i < n {
          assert all[|msgs| + i] == init[|msgs| + i] && calls[..n][i] == calls[i];
        } else {
          assert init[..|msgs| + i] == init;
        }
      }
    }
  }

  lemma NextContinues(w: World, msgs: seq<Message>)
    requires w.model(msgs).Answered? && GoesOn(w.model(msgs).reply)
    ensures Continues(w, msgs, Next(w, msgs, w.model(msgs).reply))
  {
    var r := w.model(msgs).reply;
    ResultsAreAnswers(w, msgs + [ReplyMessage(r)], r.toolCalls);
  }

  /** Every request continues the one before; the conversation stops at the first reply that does not go on, at the
      first failure, or when the rounds are used up. */
  ghost predicate Conversed(w: World, msgs: seq<Message>, requests: seq<seq<Message>>, rounds: nat) {
    && 1 <= |requests| <= rounds && requests[0] == msgs
    && (forall k | 0 <= k < |requests| - 1 :: Continues(w, requests[k], requests[k + 1]))
    && var last := w.model(requests[|requests| - 1]);
       (last.Answered? && GoesOn(last.reply) ==> |requests| == rounds)
  }

  lemma {:induction false} RequestsConverse(w: World, msgs: seq<Message>, rounds: nat)
    requires rounds > 0
    ensures Conversed(w, msgs, Requests(w, msgs, rounds), rounds)
    decreases rounds
  {
    if w.model(msgs).Answered? && GoesOn(w.model(msgs).reply) && rounds > 1 {
      NextContinues(w, msgs);
      RequestsConverse(w, Next(w, msgs, w.model(msgs).reply), rounds - 1);
    }
  }

  // ----- the whole message -----

  /** The user gets the content of the last reply if it ends the conversation and says something, and is otherwise told
      that the limit was reached; nothing if the model failed. */
  ghost predicate Replied(reply: Option<string>, last: Chat) {
    if last.ChatError? then reply.None?
    else if !GoesOn(last.reply) && last.reply.content != "" then reply == Some(last.reply.content)
    else reply == Some("I reached the tool call limit without a final answer. Please try a more specific question.")
  }

  /** The log gains what the user said and what was replied, each unless it could not be saved. */
  ghost predicate Logged(before: seq<Stored>, after: seq<Stored>, t: Turn, reply: Option<string>) {
    after == Saved(before, t) + if reply.None? || t.faults.reply then [] else [Stored(Assistant, reply.value)]
  }

  lemma HandleReplies(log: seq<Stored>, t: Turn)
    requires !t.faults.session && !t.faults.history
    ensures var h := Handle(log, t);
            && h.requests != [] && Replied(h.reply, t.world.model(h.requests[|h.requests| - 1]))
            && Logged(log, h.log, t, h.reply)
  {
    OutcomeMeaning(t.world, OpeningOf(log, t), 8);
  }

  /** One inbound message from beginning to end. */
  lemma HandleAnswers(log: seq<Stored>, t: Turn) returns (at: seq<nat>)
    requires !t.faults.session && !t.faults.history
    ensures var h := Handle(log, t);
            && Conversed(t.world, OpeningOf(log, t), h.requests, 8)
            && OpensWith(h.requests[0], at, Saved(log, t), t.prompt, t.text)
            && Replied(h.reply, t.world.model(h.requests[|h.requests| - 1]))
            && Logged(log, h.log, t, h.reply)
  {
    at := FirstRequest(log, t);
    RequestsConverse(t.world, OpeningOf(log, t), 8);
    HandleReplies(log, t);
  }

  /** Without a session nothing happens; without its history the model is not asked and only the user's words are
      kept. */
  lemma HandleRefused(log: seq<Stored>, t: Turn)
    requires t.faults.session || t.faults.history
    ensures Handle(log, t) == Handled(if t.faults.session then log else Saved(log, t), None, [])
  {
  }

  // ----- whole sessions -----

  /** Nothing fails in the turn, the model included. */
  ghost predicate Undisturbed(log: seq<Stored>, t: Turn) {
    t.faults == Faults(false, false, false, false) && Handle(log, t).reply.Some?
  }

  lemma UndisturbedTurn(log: seq<Stored>, t: Turn)
    requires Undisturbed(log, t)
    ensures Handle(log, t).log == log + [Stored(User, t.text), Stored(Assistant, Handle(log, t).reply.value)]
  {
    HandleReplies(log, t);
  }

  /** The users' texts and the replies, in turn. */
  function Transcript(turns: seq<Turn>, replies: seq<string>): seq<Stored>
    requires |turns| == |replies|
  {
    if turns == [] then []
    else
      var n := |turns| - 1;
      Transcript(turns[..n], replies[..n]) + [Stored(User, turns[n].text), Stored(Assistant, replies[n])]
  }

  /** An undisturbed session's log is the transcript of its turns. */
  lemma {:induction false} UndisturbedTranscript(logs: seq<seq<Stored>>, turns: seq<Turn>)
    returns (replies: seq<string>)
    requires IsSession(logs, turns) && forall k | 0 <= k < |turns| :: Undisturbed(logs[k], turns[k])
    ensures |replies| == |turns| && forall k | 0 <= k < |turns| :: Handle(logs[k], turns[k]).reply == Some(replies[k])
    ensures logs[|turns|] == Transcript(turns, replies)
    decreases |turns|
  {
    replies := [];
    if turns != [] {
      var n := |turns| - 1;
      var init := UndisturbedTranscript(logs[..n + 1], turns[..n]);
      UndisturbedTurn(logs[n], turns[n]);
      replies := init + [Handle(logs[n], turns[n]).reply.value];
      assert replies[..n] == init;
    }
  }
}
