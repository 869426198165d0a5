/** One attempt at a step: the turns between the model and the tools, for arbitrary model replies. */
module ToolTurns {
  import opened PyLists
  import opened MessageWindow

  /** The messages of a turn; only what the loop itself looks at is kept of their content. */
  datatype Message = ContextSummary | Delegation | Assistant(raw: string) | Feedback(about: Topic)
  datatype Topic = RetryHint | Clarification | Handoff | ToolResult(tool: string) | FormatHint

  /**
   The `status` of a reply; a clarification asks a question,
   and one that cannot be sliced makes the logging of it raise.
   */
  datatype Envelope = NoEnvelope | Escalate | ScopeCreep | Block | Clarify(sliceable: bool) | Done | ApprovalRequired

  /** The `type` of a reply that is not an envelope; an unhashable one makes the type lookup raise. */
  datatype Kind = ToolCall(tool: string, dispatchRaises: bool) | Terminal | StepError(recoverable: bool) | Unhashable
    | OtherKind

  /**
   What a model call can bring: an HTTP failure, another exception,
   text without JSON, JSON that is no object, or an object.
   */
  datatype Reply = HttpFailure | CallRaises | NotJson(raw: string) | NotObject(raw: string)
    | Object(raw: string, envelope: Envelope, kind: Kind)

  datatype Settings = Settings(maxToolCalls: int, keep: int, maxRetries: int, reasoner: string)

  datatype ModelCall = ModelCall(model: string, schema: bool, messages: seq<Message>)

  /** How an attempt ends: with a parsed reply, with none, with an HTTP error, or with an exception nobody catches. */
  datatype End = Parsed(reply: Reply) | NoResult | HttpRaised | Crashed

  function InitialMessages(summary: bool): seq<Message> {
    (if summary then [ContextSummary] else []) + [Delegation]
  }

  /** What a failed attempt leaves in the step's error list. */
  datatype Issue = BlockedByAgent | ApprovalMissing | NoValidJson | AgentError | HttpError

  /** What one reply makes the loop do; a dispatch that raises still counts as performed. */
  datatype Reaction = Stop(end: End, issue: Option<Issue>) | Continue(about: Topic)

  function React(reply: Reply): Reaction {
    match reply
    case HttpFailure => Stop(HttpRaised, None)
    case CallRaises => Stop(Crashed, None)
    case NotJson(_) => Continue(RetryHint)
    case NotObject(_) => Stop(Crashed, None)
    case Object(_, Block, _) => Stop(NoResult, Some(BlockedByAgent))
    case Object(_, ApprovalRequired, _) => Stop(NoResult, Some(ApprovalMissing))
    case Object(_, Done, _) => Stop(Parsed(reply), None)
    case Object(_, Clarify(sliceable), _) => if sliceable then Continue(Clarification) else Stop(Crashed, None)
    case Object(_, Escalate, _) => Continue(Handoff)
    case Object(_, ScopeCreep, _) => Continue(Handoff)
    case Object(_, NoEnvelope, ToolCall(tool, raises)) =>
      if raises then Stop(Crashed, None) else Continue(ToolResult(tool))
    case Object(_, NoEnvelope, Terminal) => Stop(Parsed(reply), None)
    case Object(_, NoEnvelope, StepError(_)) => Stop(Parsed(reply), None)
    case Object(_, NoEnvelope, Unhashable) => Stop(Crashed, None)
    case Object(_, NoEnvelope, OtherKind) => Continue(FormatHint)
  }

  /** The reply completes the step: a done envelope, or an object of a terminal type. */
  predicate Completes(reply: Reply) {
    reply.Object? && (reply.envelope == Done || (reply.envelope == NoEnvelope && reply.kind == Terminal))
  }

  /** The reply blocks the attempt. */
  predicate Blocks(reply: Reply) {
    reply.Object? && (reply.envelope == Block || reply.envelope == ApprovalRequired)
  }

  /** The call, or handling its reply, raises an exception that nobody catches. */
  predicate Crashes(reply: Reply) {
    || reply.CallRaises?
    || reply.NotObject?
    || (reply.Object? && reply.envelope == Clarify(false))
    || (reply.Object? && reply.envelope == NoEnvelope && reply.kind == Unhashable)
    || (reply.Object? && reply.envelope == NoEnvelope && reply.kind.ToolCall? && reply.kind.dispatchRaises)
  }

  predicate IsStepError(reply: Reply) {
    reply.Object? && reply.envelope == NoEnvelope && reply.kind.StepError?
  }

  /** Which replies end an attempt, and how. */
  lemma ReactionOf(reply: Reply)
    ensures React(reply) == Stop(Parsed(reply), None) <==> Completes(reply) || IsStepError(reply)
    ensures React(reply).Stop? && React(reply).issue.Some? <==> Blocks(reply)
    ensures Blocks(reply) ==> React(reply).end == NoResult
    ensures React(reply) == Stop(Crashed, None) <==> Crashes(reply)
    ensures React(reply) == Stop(HttpRaised, None) <==> reply == HttpFailure
    ensures React(reply).Continue? <==>
      !Completes(reply) && !IsStepError(reply) && !Blocks(reply) && !Crashes(reply) && reply != HttpFailure
  {
  }

  function DispatchesOf(reply: Reply): seq<string> {
    if reply.Object? && reply.envelope == NoEnvelope && reply.kind.ToolCall? then [reply.kind.tool] else []
  }

  function EnvelopesOf(reply: Reply): seq<Envelope> {
    if reply.Object? && reply.envelope != NoEnvelope then [reply.envelope] else []
  }

  predicate Escalates(reply: Reply) {
    reply.Object? && (reply.envelope == Escalate || reply.envelope == ScopeCreep)
  }

  /** The two messages a turn adds. */
  function Added(reply: Reply): seq<Message> {
    if React(reply).Continue? then [Assistant(reply.raw), Feedback(React(reply).about)] else []
  }

  // ----- an attempt, described by the replies it receives

  /** The number of turns an attempt may take. */
  function Budget(s: Settings): nat {
    if s.maxToolCalls < 0 then 0 else s.maxToolCalls + 1
  }

  /** The number of turns an attempt takes: until a reply stops it, or the budget is spent. */
  function TurnCount(replies: nat -> Reply, next: nat, budget: nat): nat
    decreases budget
  {
    if budget == 0 then 0 else if React(replies(next)).Stop? then 1 else 1 + TurnCount(replies, next + 1, budget - 1)
  }

  /** Only the last reply of an attempt can stop it, and if none does the attempt uses its whole budget. */
  lemma {:induction false} TurnCountLaw(replies: nat -> Reply, next: nat, budget: nat)
    ensures var n := TurnCount(replies, next, budget);
      && n <= budget && (budget > 0 ==> n > 0)
      && (forall k: nat :: next <= k < next + n - 1 ==> React(replies(k)).Continue?)
      && (n < budget ==> React(replies(next + n - 1)).Stop?)
    decreases budget
  {
    if budget > 0 && React(replies(next)).Continue? {
      TurnCountLaw(replies, next + 1, budget - 1);
    }
  }

  /** How an attempt of `n` turns ends: as its last reply says, or without a result when the budget is spent. */
  function EndOf(replies: nat -> Reply, next: nat, n: nat): Reaction {
    if n > 0 && React(replies(next + n - 1)).Stop? then React(replies(next + n - 1)) else Stop(NoResult, None)
  }

  /** The first `i` replies leave the attempt going. */
  ghost predicate GoesOn(replies: nat -> Reply, next: nat, budget: nat, i: nat) {
    && i <= budget && TurnCount(replies, next, budget) == i + TurnCount(replies, next + i, budget - i)
    && EndOf(replies, next, i) == Stop(NoResult, None)
  }

  lemma NextReply(replies: nat -> Reply, next: nat, budget: nat, i: nat)
    requires GoesOn(replies, next, budget, i) && i < budget
    ensures React(replies(next + i)).Continue? ==> GoesOn(replies, next, budget, i + 1)
    ensures React(replies(next + i)).Stop? ==> TurnCount(replies, next, budget) == i + 1
    ensures React(replies(next + i)).Stop? ==> EndOf(replies, next, i + 1) == React(replies(next + i))
  {
  }

  /** The loop's variables. */
  datatype LoopState = LoopState(messages: seq<Message>, model: string, schema: bool)

  /** One turn: prune, ask, and append what the reply calls for. */
  function Advance(s: Settings, st: LoopState, reply: Reply): LoopState {
    LoopState(Prune(st.messages, s.keep) + Added(reply), if Escalates(reply) then s.reasoner else st.model,
              st.schema && !Escalates(reply))
  }

  /** The model call made in a given state. */
  function CallIn(s: Settings, st: LoopState): ModelCall {
    ModelCall(st.model, st.schema, Prune(st.messages, s.keep))
  }

  /** The loop after `n` turns, the k-th of which receives `replies(next + k)`. */
  function StateAfter(s: Settings, replies: nat -> Reply, next: nat, start: LoopState, n: nat): LoopState {
    if n == 0 then start else Advance(s, StateAfter(s, replies, next, start, n - 1), replies(next + n - 1))
  }

  /** What an attempt of `n` turns does: its model calls, tool dispatches and envelopes. */
  datatype Trace = Trace(calls: seq<ModelCall>, dispatches: seq<string>, envelopes: seq<Envelope>) {
    function Then(call: ModelCall, reply: Reply): Trace {
      Trace(calls + [call], dispatches + DispatchesOf(reply), envelopes + EnvelopesOf(reply))
    }
  }

  /** What has been done after `n` turns that follow `before`. */
  function CallsAfter(s: Settings, replies: nat -> Reply, next: nat, start: LoopState, before: seq<ModelCall>,
                      n: nat): (calls: seq<ModelCall>)
    ensures |calls| == |before| + n
  {
    if n == 0 then before
    else CallsAfter(s, replies, next, start, before, n - 1) + [CallIn(s, StateAfter(s, replies, next, start, n - 1))]
  }

  function DispatchesAfter(replies: nat -> Reply, next: nat, before: seq<string>, n: nat): (tools: seq<string>)
    ensures |before| <= |tools| <= |before| + n
  {
    if n == 0 then before else DispatchesAfter(replies, next, before, n - 1) + DispatchesOf(replies(next + n - 1))
  }

  function EnvelopesAfter(replies: nat -> Reply, next: nat, before: seq<Envelope>, n: nat): seq<Envelope> {
    if n == 0 then before else EnvelopesAfter(replies, next, before, n - 1) + EnvelopesOf(replies(next + n - 1))
  }

  function TraceAfter(s: Settings, replies: nat -> Reply, start: LoopState, before: Trace, n: nat): Trace {
    var next := |before.calls|;
    Trace(CallsAfter(s, replies, next, start, before.calls, n), DispatchesAfter(replies, next, before.dispatches, n),
          EnvelopesAfter(replies, next, before.envelopes, n))
  }

  /** An attempt still going after `i` turns, with the variables and the trace it then has. */
  ghost predicate Going(s: Settings, replies: nat -> Reply, start: LoopState, before: Trace, i: nat, st: LoopState,
                        done: Trace) {
    && |done.calls| == |before.calls| + i
    && GoesOn(replies, |before.calls|, Budget(s), i)
    && st == StateAfter(s, replies, |before.calls|, start, i)
    && done == TraceAfter(s, replies, start, before, i)
  }

  /** An attempt that ended after `n` turns with `last`. */
  ghost predicate Ended(s: Settings, replies: nat -> Reply, start: LoopState, before: Trace, n: nat, last: Reaction,
                        done: Trace) {
    && n == TurnCount(replies, |before.calls|, Budget(s))
    && last == EndOf(replies, |before.calls|, n)
    && done == TraceAfter(s, replies, start, before, n)
  }

  /** One more turn adds its call and what its reply brings to the trace. */
  lemma TraceGrows(s: Settings, replies: nat -> Reply, start: LoopState, before: Trace, i: nat, st: LoopState)
    requires st == StateAfter(s, replies, |before.calls|, start, i)
    ensures StateAfter(s, replies, |before.calls|, start, i + 1) == Advance(s, st, replies(|before.calls| + i))
    ensures TraceAfter(s, replies, start, before, i + 1)
         == TraceAfter(s, replies, start, before, i).Then(CallIn(s, st), replies(|before.calls| + i))
  {
  }

  lemma OneMoreTurn(s: Settings, replies: nat -> Reply, start: LoopState, before: Trace, i: nat, st: LoopState,
                    done: Trace)
    requires Going(s, replies, start, before, i, st, done) && i < Budget(s)
    ensures var reply := replies(|done.calls|); var after := done.Then(CallIn(s, st), reply);
      if React(reply).Stop? then Ended(s, replies, start, before, i + 1, React(reply), after)
      else Going(s, replies, start, before, i + 1, Advance(s, st, reply), after)
  {
    assert |done.calls| == |before.calls| + i;
    NextReply(replies, |before.calls|, Budget(s), i);
    TraceGrows(s, replies, start, before, i, st);
  }

  // ----- what an attempt leaves behind

  /** The calls made earlier stay as they are. */
  lemma {:induction false} CallsStay(s: Settings, replies: nat -> Reply, next: nat, start: LoopState,
                                     before: seq<ModelCall>, m: nat, n: nat)
    requires m <= n
    ensures CallsAfter(s, replies, next, start, before, m) <= CallsAfter(s, replies, next, start, before, n)
    decreases n
  {
    if m < n {
      CallsStay(s, replies, next, start, before, m, n - 1);
    }
  }

  /** Call `i` of an attempt is the call made in the loop's state after `i` turns. */
  lemma CallRecordsState(s: Settings, replies: nat -> Reply, next: nat, start: LoopState, before: seq<ModelCall>,
                         n: nat, i: nat)
    requires i < n
    ensures CallsAfter(s, replies, next, start, before, n)[|before| + i] ==
      CallIn(s, StateAfter(s, replies, next, start, i))
  {
    CallsStay(s, replies, next, start, before, i + 1, n);
    assert CallsAfter(s, replies, next, start, before, i + 1)[|before| + i] ==
      CallIn(s, StateAfter(s, replies, next, start, i));
  }

  /** One of the first `n` replies escalates. */
  ghost predicate EscalatedIn(replies: nat -> Reply, next: nat, n: nat) {
    exists k: nat :: next <= k < next + n && replies(k).Object? && replies(k).envelope in {Escalate, ScopeCreep}
  }

  /** Once a reply has escalated, every later call goes to the reasoner without a schema; until then nothing changes. */
  lemma {:induction false} EscalationSticks(s: Settings, replies: nat -> Reply, next: nat, start: LoopState, n: nat)
    ensures var call, escalated := CallIn(s, StateAfter(s, replies, next, start, n)), EscalatedIn(replies, next, n);
      call.model == (if escalated then s.reasoner else start.model) && call.schema == (start.schema && !escalated)
  {
    if n > 0 {
      EscalationSticks(s, replies, next, start, n - 1);
      assert EscalatedIn(replies, next, n) <==> EscalatedIn(replies, next, n - 1) || Escalates(replies(next + n - 1));
    }
  }

  // ----- what replies ask for

  /** The reply asks for a tool. */
  predicate IsToolCall(reply: Reply) {
    reply.Object? && reply.envelope == NoEnvelope && reply.kind.ToolCall?
  }

  predicate IsEnvelope(reply: Reply) {
    reply.Object? && reply.envelope != NoEnvelope
  }

  /** The `n` replies from `from` on. */
  function Received(replies: nat -> Reply, from: nat, n: nat): (received: seq<Reply>)
    ensures |received| == n
  {
    seq(n, i requires 0 <= i < n => replies(from + i))
  }

  /** The tools are those that the replies ask for, in order. */
  predicate ToolsAskedFor(tools: seq<string>, replies: seq<Reply>) {
    var asking := Filter(replies, IsToolCall);
    && |tools| == |asking|
    && forall k :: 0 <= k < |asking| ==> IsToolCall(asking[k]) && tools[k] == asking[k].kind.tool
  }

  /** The envelopes are those among the replies, in order. */
  predicate EnvelopesReceived(envelopes: seq<Envelope>, replies: seq<Reply>) {
    var those := Filter(replies, IsEnvelope);
    && |envelopes| == |those|
    && forall k :: 0 <= k < |those| ==> IsEnvelope(those[k]) && envelopes[k] == those[k].envelope
  }

  lemma ReceivedOneMore(replies: nat -> Reply, from: nat, n: nat)
    ensures Received(replies, from, n + 1) == Received(replies, from, n) + [replies(from + n)]
  {
  }

  lemma OneMoreAsks(tools: seq<string>, received: seq<Reply>, reply: Reply)
    requires ToolsAskedFor(tools, received)
    ensures ToolsAskedFor(tools + DispatchesOf(reply), received + [reply])
  {
    assert (received + [reply])[..|received|] == received;
    FilterLast(received + [reply], IsToolCall);
  }

  /** An attempt dispatches exactly the tools its replies ask for. */
  lemma {:induction false} DispatchesAreAskedFor(replies: nat -> Reply, next: nat, before: seq<string>, n: nat)
    ensures var all := DispatchesAfter(replies, next, before, n);
      before <= all && ToolsAskedFor(all[|before|..], Received(replies, next, n))
  {
    if n > 0 {
      DispatchesAreAskedFor(replies, next, before, n - 1);
      var earlier, reply := DispatchesAfter(replies, next, before, n - 1), replies(next + n - 1);
      ReceivedOneMore(replies, next, n - 1);
      OneMoreAsks(earlier[|before|..], Received(replies, next, n - 1), reply);
      assert (earlier + DispatchesOf(reply))[|before|..] == earlier[|before|..] + DispatchesOf(reply);
    }
  }

  lemma OneMoreEnvelope(envelopes: seq<Envelope>, received: seq<Reply>, reply: Reply)
    requires EnvelopesReceived(envelopes, received)
    ensures EnvelopesReceived(envelopes + EnvelopesOf(reply), received + [reply])
  {
    assert (received + [reply])[..|received|] == received;
    FilterLast(received + [reply], IsEnvelope);
  }

  /** And it records exactly the envelopes among them. */
  lemma {:induction false} EnvelopesAreReceived(replies: nat -> Reply, next: nat, before: seq<Envelope>, n: nat)
    ensures var all := EnvelopesAfter(replies, next, before, n);
      before <= all && EnvelopesReceived(all[|before|..], Received(replies, next, n))
  {
    if n > 0 {
      EnvelopesAreReceived(replies, next, before, n - 1);
      var earlier, reply := EnvelopesAfter(replies, next, before, n - 1), replies(next + n - 1);
      ReceivedOneMore(replies, next, n - 1);
      OneMoreEnvelope(earlier[|before|..], Received(replies, next, n - 1), reply);
      assert (earlier + EnvelopesOf(reply))[|before|..] == earlier[|before|..] + EnvelopesOf(reply);
    }
  }

  /** What the user side says next is an answer to the reply. */
  predicate Answers(topic: Topic, reply: Reply) {
    && (topic == RetryHint <==> reply.NotJson?)
    && (topic == Clarification <==> reply.Object? && reply.envelope.Clarify?)
    && (topic == Handoff <==> reply.Object? && reply.envelope in {Escalate, ScopeCreep})
    && (topic == FormatHint <==> reply.Object? && reply.envelope == NoEnvelope && reply.kind == OtherKind)
    && (topic.ToolResult? <==> IsToolCall(reply)) && (IsToolCall(reply) ==> topic.tool == reply.kind.tool)
  }

  /** The two messages are the text of the reply and an answer to it. */
  predicate Exchange(said: Message, answer: Message, reply: Reply) {
    && (reply.NotJson? || reply.Object?) && said == Assistant(reply.raw)
    && answer.Feedback? && Answers(answer.about, reply)
  }

  lemma AnswerFits(reply: Reply)
    requires React(reply).Continue?
    ensures Exchange(Assistant(reply.raw), Feedback(React(reply).about), reply)
  {
  }

  lemma AnswerIsSeen(s: Settings, st: LoopState, reply: Reply)
    requires s.keep >= 2 && React(reply).Continue?
    ensures var seen := CallIn(s, Advance(s, st, reply)).messages;
      |seen| >= 2 && Exchange(seen[|seen| - 2], seen[|seen| - 1], reply)
  {
    var before, said, answer := Prune(st.messages, s.keep), Assistant(reply.raw), Feedback(React(reply).about);
    PruneKeepsLastTwo(before, said, answer, s.keep);
    assert before + Added(reply) == before + [said] + [answer];
    AnswerFits(reply);
  }

  /** If there is a call after reply `i`, it sees, at the end, that reply and the answer to it. */
  lemma NextCallSeesReply(s: Settings, replies: nat -> Reply, next: nat, start: LoopState, i: nat)
    requires s.keep >= 2 && i + 1 < TurnCount(replies, next, Budget(s))
    ensures var seen := CallIn(s, StateAfter(s, replies, next, start, i + 1)).messages;
      |seen| >= 2 && Exchange(seen[|seen| - 2], seen[|seen| - 1], replies(next + i))
  {
    TurnCountLaw(replies, next, Budget(s));
    var st, reply := StateAfter(s, replies, next, start, i), replies(next + i);
    AnswerIsSeen(s, st, reply);
    assert StateAfter(s, replies, next, start, i + 1) == Advance(s, st, reply);
  }

  // ----- the message window

  /** What each turn adds to the messages. */
  function Turns(replies: nat -> Reply, next: nat): nat -> seq<Message> {
    (k: nat) => Added(replies(next + k))
  }

  lemma MessagesAdvance(s: Settings, st: LoopState, reply: Reply)
    ensures Advance(s, st, reply).messages == Prune(st.messages, s.keep) + Added(reply)
  {
  }

  lemma WindowAdvances(start: seq<Message>, turns: nat -> seq<Message>, n: nat, keep: int, before: seq<Message>,
                       turn: seq<Message>)
    requires n > 0 && before == Windowed(start, turns, n - 1, keep) && turn == turns(n - 1)
    ensures Windowed(start, turns, n, keep) == Prune(before, keep) + turn
  {
  }

  /** The running message list is the windowed one. */
  lemma {:induction false} MessagesAreWindowed(s: Settings, replies: nat -> Reply, next: nat, start: LoopState, n: nat)
    ensures StateAfter(s, replies, next, start, n).messages == Windowed(start.messages, Turns(replies, next), n, s.keep)
  {
    if n > 0 {
      MessagesAreWindowed(s, replies, next, start, n - 1);
      var before, reply := StateAfter(s, replies, next, start, n - 1), replies(next + n - 1);
      MessagesAdvance(s, before, reply);
      assert Turns(replies, next)(n - 1) == Added(reply);
      WindowAdvances(start.messages, Turns(replies, next), n, s.keep, before.messages, Added(reply));
      assert StateAfter(s, replies, next, start, n) == Advance(s, before, reply);
    }
  }

  /** A history that begins with the first messages and goes on with what `i` turns added. */
  ghost predicate IsHistory(h: seq<Message>, start: seq<Message>, i: nat) {
    |h| == |start| + 2 * i && h[..|start|] == start && forall k :: |start| <= k < |h| ==>
      h[k].Assistant? || h[k].Feedback?
  }

  /** A history of turns of two messages each, none of them the delegation. */
  lemma {:induction false} HistoryOfTurns(replies: nat -> Reply, next: nat, start: seq<Message>, n: nat)
    requires forall k: nat :: next <= k < next + n ==> React(replies(k)).Continue?
    ensures IsHistory(Unpruned(start, Turns(replies, next), n), start, n)
  {
    UnprunedKeepsStart(start, Turns(replies, next), n);
    if n > 0 {
      HistoryOfTurns(replies, next, start, n - 1);
      assert Turns(replies, next)(n - 1) == Added(replies(next + n - 1));
      assert React(replies(next + n - 1)).Continue?;
    }
  }

  /**
   With a context summary first, the delegation is the oldest of
   the other messages, so it is seen while the window has room.
   */
  lemma DelegationAfterSummary(h: seq<Message>, keep: nat, i: nat)
    requires keep >= 1 && IsHistory(h, [ContextSummary, Delegation], i)
    ensures Delegation in Prune(h, keep) <==> 2 * i < keep
  {
    assert h[0] == h[..2][0] == ContextSummary && h[1] == h[..2][1] == Delegation;
    var seen := Prune(h, keep);
    if 2 * i < keep {
      assert seen[1] == Delegation;
    } else {
      forall k | 0 <= k < |seen| ensures seen[k] != Delegation {
        assert seen[k] == if k == 0 then h[0] else h[1 + 2 * i - keep + k];
      }
    }
  }

  lemma DelegationInWindow(h: seq<Message>, summary: bool, keep: int, i: nat)
    requires keep >= 1 && IsHistory(h, InitialMessages(summary), i)
    ensures var seen := Prune(h, keep);
      0 < |seen| <= keep + 1 && seen[0] == InitialMessages(summary)[0]
        && (Delegation in seen <==> !summary || 2 * i < keep)
  {
    PruneShape(h, keep);
    assert h[0] == h[..|InitialMessages(summary)|][0];
    if summary {
      DelegationAfterSummary(h, keep, i);
    }
  }

  /**
   What the model sees at call `i` of a fresh attempt: the history pruned once, at most `keep + 1` messages, the first
   of them always the first one. That one is the delegation only when there is no context summary; otherwise the
   delegation is gone as soon as the turns taken fill the window.
   */
  lemma WindowOfACall(s: Settings, replies: nat -> Reply, next: nat, start: LoopState, summary: bool, i: nat)
    requires s.keep >= 1 && i < TurnCount(replies, next, Budget(s)) && start.messages == InitialMessages(summary)
    ensures var seen := CallIn(s, StateAfter(s, replies, next, start, i)).messages;
      && seen == Prune(Unpruned(start.messages, Turns(replies, next), i), s.keep)
      && 0 < |seen| <= s.keep + 1 && seen[0] == start.messages[0]
      && (Delegation in seen <==> !summary || 2 * i < s.keep)
  {
    TurnCountLaw(replies, next, Budget(s));
    MessagesAreWindowed(s, replies, next, start, i);
    PruningIsOneShot(start.messages, Turns(replies, next), i, s.keep);
    HistoryOfTurns(replies, next, start.messages, i);
    DelegationInWindow(Unpruned(start.messages, Turns(replies, next), i), summary, s.keep, i);
  }

  // ----- an attempt as a whole

  /**
   Only the last reply can stop an attempt; `last` is what it
   does, or no result at all when the budget runs out first.
   */
  ghost predicate LastReplyStops(s: Settings, replies: nat -> Reply, from: nat, to: nat, last: Reaction) {
    && (forall k: nat :: from <= k < to - 1 ==> React(replies(k)).Continue?)
    && (if to > from && React(replies(to - 1)).Stop? then last == React(replies(to - 1))
        else to == from + Budget(s) && last == Stop(NoResult, None))
  }

  /**
   A model call that follows the rules of an attempt started
   with `start`, made when the replies `from..k` had come in.
   */
  ghost predicate LawfulCall(s: Settings, replies: nat -> Reply, start: LoopState, from: nat, k: nat, call: ModelCall)
    requires from <= k
  {
    var escalated := EscalatedIn(replies, from, k - from);
    && call.model == (if escalated then s.reasoner else start.model)
    && call.schema == (start.schema && !escalated)
    && (s.keep >= 1 && start.messages != [] ==>
        0 < |call.messages| <= s.keep + 1 && call.messages[0] == start.messages[0])
  }

  /** What an ended attempt has done, whatever the replies were. */
  lemma AttemptLaw(s: Settings, replies: nat -> Reply, start: LoopState, before: Trace, n: nat, last: Reaction,
                   done: Trace)
    requires Ended(s, replies, start, before, n, last, done)
    ensures |done.calls| == |before.calls| + n && n <= Budget(s)
    ensures LastReplyStops(s, replies, |before.calls|, |done.calls|, last)
  {
    TurnCountLaw(replies, |before.calls|, Budget(s));
  }

  /** With a positive window every call of an attempt sees its first message, and no more than the window allows. */
  lemma CallsSeeTheStart(s: Settings, replies: nat -> Reply, next: nat, start: LoopState, i: nat)
    requires s.keep >= 1 && start.messages != []
    ensures var seen := CallIn(s, StateAfter(s, replies, next, start, i)).messages;
      0 < |seen| <= s.keep + 1 && seen[0] == start.messages[0]
  {
    var turns := Turns(replies, next);
    MessagesAreWindowed(s, replies, next, start, i);
    PruningIsOneShot(start.messages, turns, i, s.keep);
    UnprunedKeepsStart(start.messages, turns, i);
    PruneShape(Unpruned(start.messages, turns, i), s.keep);
  }

  /** Every model call of an attempt is lawful. */
  lemma CallsAreLawful(s: Settings, replies: nat -> Reply, start: LoopState, before: Trace, n: nat, last: Reaction,
                       done: Trace, k: nat)
    requires Ended(s, replies, start, before, n, last, done) && |before.calls| <= k < |before.calls| + n
    ensures |done.calls| == |before.calls| + n && LawfulCall(s, replies, start, |before.calls|, k, done.calls[k])
  {
    var i := k - |before.calls|;
    CallRecordsState(s, replies, |before.calls|, start, before.calls, n, i);
    EscalationSticks(s, replies, |before.calls|, start, i);
    if s.keep >= 1 && start.messages != [] {
      CallsSeeTheStart(s, replies, |before.calls|, start, i);
    }
  }

  /** Attempts that follow one another dispatch, and record, what one long attempt over the same replies would. */
  lemma {:induction false} AttemptsChain(replies: nat -> Reply, next: nat, tools: seq<string>,
                                         envelopes: seq<Envelope>, m: nat, n: nat)
    ensures DispatchesAfter(replies, next + m, DispatchesAfter(replies, next, tools, m), n) ==
      DispatchesAfter(replies, next, tools, m + n)
    ensures EnvelopesAfter(replies, next + m, EnvelopesAfter(replies, next, envelopes, m), n) ==
      EnvelopesAfter(replies, next, envelopes, m + n)
  {
    if n > 0 {
      AttemptsChain(replies, next, tools, envelopes, m, n - 1);
    }
  }
}
