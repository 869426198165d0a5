/** The orchestrator's tool-call loop and the retry loop around it, with the model's replies left arbitrary. */
module StepExecution {
  import opened PyLists
  import opened MessageWindow
  import opened ToolTurns
  import opened StepRuns

  class StepRecord {
    const agent: Agent
    var status: StepStatus
    var retries: nat
    var toolCallsMade: nat
    var errors: seq<Issue>
    var output: Option<Reply>

    constructor (agent: Agent)
      ensures this.agent == agent && status == Pending && retries == 0 && toolCallsMade == 0 && errors == []
      ensures output == None
    {
      this.agent, status, retries, toolCallsMade, errors, output := agent, Pending, 0, 0, [], None;
    }
  }

  class Orchestrator {
    const settings: Settings
    var done: Trace
    var summary: bool

    constructor (settings: Settings, summary: bool)
      ensures this.settings == settings && done == Trace([], [], []) && this.summary == summary
    {
      this.settings, done, this.summary := settings, Trace([], [], []), summary;
    }

    /** The step and what has been done so far, as a value. */
    function State(step: StepRecord): StepState
      reads this, step
    {
      StepState(done, summary, step.status, step.retries, step.toolCallsMade, step.errors, step.output)
    }

    /** A blocked turn marks the step as failed and adds one error; any other leaves both as they were. */
    ghost predicate NotedOn(step: StepRecord, r: Reaction, status: StepStatus, errors: seq<Issue>)
      reads step
    {
      if r.Stop? && r.issue.Some? then step.status == Failed && step.errors == errors + [r.issue.value]
      else step.status == status && step.errors == errors
    }

    /** One reply: what it records on the step, what it dispatches, and whether the loop goes on. */
    method Handle(step: StepRecord, reply: Reply) returns (r: Reaction)
      modifies this`done, step`status, step`toolCallsMade, step`errors
      ensures r == React(reply)
      ensures done == old(done).(dispatches := old(done).dispatches + DispatchesOf(reply),
                                 envelopes := old(done).envelopes + EnvelopesOf(reply))
      ensures step.toolCallsMade == old(step.toolCallsMade) + if IsToolCall(reply) then 1 else 0
      ensures done.dispatches == old(done).dispatches + if IsToolCall(reply) then [reply.kind.tool] else []
      ensures done.envelopes == old(done).envelopes + if IsEnvelope(reply) then [reply.envelope] else []
      ensures NotedOn(step, r, old(step.status), old(step.errors))
    {
      match reply {
        case HttpFailure => return Stop(HttpRaised, None);
        case CallRaises => return Stop(Crashed, None);
        case NotJson(_) => return Continue(RetryHint);
        case NotObject(_) => return Stop(Crashed, None);
        case Object(_, envelope, kind) =>
          if envelope != NoEnvelope {
            done := done.(envelopes := done.envelopes + [envelope]);
          }
          if envelope == Block || envelope == ApprovalRequired {
            var issue := if envelope == Block then BlockedByAgent else ApprovalMissing;
            step.errors := step.errors + [issue];
            step.status := Failed;
            return Stop(NoResult, Some(issue));
          }
          if envelope == Envelope.Done {
            return Stop(Parsed(reply), None);
          }
          if envelope.Clarify? {
            return if envelope.sliceable then Continue(Clarification) else Stop(Crashed, None);
          }
          if envelope == Escalate || envelope == ScopeCreep {
            return Continue(Handoff);
          }
          if kind.ToolCall? {
            step.toolCallsMade := step.toolCallsMade + 1;
            done := done.(dispatches := done.dispatches + [kind.tool]);
            return if kind.dispatchRaises then Stop(Crashed, None) else Continue(ToolResult(kind.tool));
          }
          if kind == Unhashable {
            return Stop(Crashed, None);
          }
          if kind == Terminal || kind.StepError? {
            return Stop(Parsed(reply), None);
          }
          return Continue(FormatHint);
      }
    }

    /** One turn of the loop: prune, ask the model, handle the reply, and append to the messages if the loop goes on. */
    method Turn(step: StepRecord, st: LoopState, reply: Reply) returns (next: LoopState, r: Reaction)
      modifies this`done, step`status, step`toolCallsMade, step`errors
      ensures next == Advance(settings, st, reply) && r == React(reply)
      ensures done == old(done).Then(CallIn(settings, st), reply)
      ensures step.toolCallsMade - |done.dispatches| == old(step.toolCallsMade - |done.dispatches|)
      ensures NotedOn(step, r, old(step.status), old(step.errors))
    {
      next := st.(messages := Prune(st.messages, settings.keep));
      done := done.(calls := done.calls + [ModelCall(next.model, next.schema, next.messages)]);
      r := Handle(step, reply);
      if r.Continue? {
        next := next.(messages := next.messages + [Assistant(reply.raw), Feedback(r.about)]);
        if Escalates(reply) {
          next := next.(model := settings.reasoner, schema := false);
        }
      }
    }

    /** `_execute_tool_call_loop`; the reply to the k-th model call of all is `replies(k)`. */
    method ToolLoop(step: StepRecord, model: string, replies: nat -> Reply) returns (end: End)
      modifies this`done, step`status, step`toolCallsMade, step`errors
      ensures (State(step), end) == AfterLoop(settings, step.agent, model, replies, old(State(step)))
    {
      var st := LoopState(InitialMessages(summary), model, step.agent.OtherAgent?);
      ghost var start, before := st, State(step);
      for i := 0 to Budget(settings)
        invariant Going(settings, replies, start, before.done, i, st, done)
        invariant step.toolCallsMade - |done.dispatches| == before.toolCallsMade - |before.done.dispatches|
        invariant step.status == before.status && step.errors == before.errors
      {
        OneMoreTurn(settings, replies, start, before.done, i, st, done);
        var r;
        st, r := Turn(step, st, replies(|done.calls|));
        if r.Stop? {
          LoopEnds(settings, step.agent, model, replies, before, i + 1, r, State(step));
          return r.end;
        }
      }
      LoopEnds(settings, step.agent, model, replies, before, Budget(settings), Stop(NoResult, None), State(step));
      return NoResult;
    }

    /** What the retry loop makes of the end of an attempt. */
    method Judge(step: StepRecord, end: End) returns (verdict: Verdict)
      modifies step`status, step`errors, step`retries, step`output
      ensures State(step) == Judged(old(State(step)), end) && verdict == VerdictOf(end)
    {
      match end {
        case Crashed => return Broken;
        case NoResult =>
          step.errors := step.errors + [NoValidJson];
          step.retries := step.retries + 1;
          return Lost(false);
        case HttpRaised =>
          step.errors := step.errors + [HttpError];
          step.retries := step.retries + 1;
          return Lost(false);
        case Parsed(reply) =>
          if IsStepError(reply) {
            step.errors := step.errors + [AgentError];
            step.retries := step.retries + 1;
            if !reply.kind.recoverable {
              step.status := Failed;
            }
            return Lost(!reply.kind.recoverable);
          }
          step.output := Some(reply);
          step.status := Complete;
          return Won;
      }
    }

    /** One attempt of the retry loop, from memory compression to the verdict on the reply. */
    method Attempt(step: StepRecord, model: string, replies: nat -> Reply, compression: Compression)
      returns (verdict: Verdict)
      modifies this`done, this`summary, step`status, step`toolCallsMade, step`errors, step`retries, step`output
      ensures (State(step), verdict) == AfterAttempt(settings, step.agent, model, replies, compression,
                                                     old(State(step)))
    {
      var end;
      match compression {
        case CompressionCrash => end := Crashed;
        case CompressionHttpError => end := HttpRaised;
        case MemoryUpdated(present) =>
          summary := present;
          end := ToolLoop(step, model, replies);
        case _ => end := ToolLoop(step, model, replies);
      }
      verdict := Judge(step, end);
    }

    /** The retry loop of `_execute_step`. */
    method Retry(step: StepRecord, model: string, replies: nat -> Reply, compressions: nat -> Compression)
      returns (r: StepResult)
      modifies this`done, this`summary, step`status, step`toolCallsMade, step`errors, step`retries, step`output
      ensures (State(step), r) ==
        StepRun(AttemptOf(settings, step.agent, model, replies), Attempts(settings), compressions, old(State(step)), 0)
    {
      ghost var run, start := AttemptOf(settings, step.agent, model, replies), State(step);
      for attempt := 0 to Attempts(settings)
        invariant StepRun(run, Attempts(settings), compressions, State(step), attempt)
               == StepRun(run, Attempts(settings), compressions, start, 0)
      {
        ghost var before := State(step);
        var verdict := Attempt(step, model, replies, compressions(attempt));
        assert run(compressions(attempt), before) == (State(step), verdict);
        match verdict {
          case Won => return Returned(true);
          case Broken => return Escaped;
          case Lost(final) =>
            if final {
              return Returned(false);
            }
        }
      }
      step.status := Failed;
      return Returned(false);
    }

    /**
     `_execute_step`, with the reply to the k-th model call of all
     and the memory compression before the a-th attempt left open.
     */
    method ExecuteStep(step: StepRecord, model: string, replies: nat -> Reply, compressions: nat -> Compression)
      returns (r: StepResult)
      modifies this`done, this`summary, step`status, step`toolCallsMade, step`errors, step`retries, step`output
      ensures (State(step), r) ==
        StepRun(AttemptOf(settings, step.agent, model, replies), Attempts(settings), compressions,
                old(State(step)).(status := Running), 0)
      ensures StepLaw(settings, step.agent, model, replies, compressions, Attempts(settings), 0,
                      old(State(step)).(status := Running), State(step), r)
      ensures Obeys(replies, old(State(step)).(status := Running), State(step))
      ensures WithinSettings(settings, replies, old(State(step)).(status := Running), State(step), r)
    {
      step.status := Running;
      ghost var start := State(step);
      r := Retry(step, model, replies, compressions);
      StepRunIsLawful(settings, step.agent, model, replies, compressions, start);
      StepObeys(settings, step.agent, model, replies, compressions, start);
    }
  }
}
