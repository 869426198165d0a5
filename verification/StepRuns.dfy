/** A step as a value: what one attempt makes of it, what the retry loop makes of it, and what holds of every run. */
module StepRuns {
  import opened PyLists
  import opened MessageWindow
  import opened ToolTurns

  datatype StepStatus = Pending | Running | Complete | Failed

  /**
   What memory compression does before an attempt; only an updated memory decides whether a context summary exists.
   */
  datatype Compression = NotNeeded | MemoryUpdated(summary: bool) | MemoryKept | CompressionHttpError | CompressionCrash

  /** A step returns success or failure, or an exception nobody catches escapes from it. */
  datatype StepResult = Returned(success: bool) | Escaped

  /** One attempt wins, loses (for good when the agent calls its error unrecoverable), or lets an exception through. */
  datatype Verdict = Won | Lost(final: bool) | Broken

  /** The agents whose replies are not constrained by a schema, and all others. */
  datatype Agent = Reasoner | Critic | OtherAgent(name: string)

  /**
   A reply that ends its step and not only its attempt: it
   completes it, crashes it, or reports an unrecoverable error.
   */
  predicate Finishes(reply: Reply) {
    Completes(reply) || Crashes(reply) || (IsStepError(reply) && !reply.kind.recoverable)
  }

  function VerdictOf(end: End): Verdict {
    match end
    case Crashed => Broken
    case NoResult => Lost(false)
    case HttpRaised => Lost(false)
    case Parsed(reply) => if IsStepError(reply) then Lost(!reply.kind.recoverable) else Won
  }

  function IssueOf(end: End): Issue {
    if end.Parsed? then AgentError else if end == HttpRaised then HttpError else NoValidJson
  }

  /**
   What holds of every model call of a step: it is lawful in the attempt that made it, which nothing had stopped yet.
   */
  ghost predicate LawfulInAttempt(s: Settings, agent: Agent, model: string, replies: nat -> Reply, first: nat, k: nat,
                                  call: ModelCall) {
    exists from: nat, summary: bool :: first <= from <= k
      && (forall j: nat :: from <= j < k ==> React(replies(j)).Continue?)
      && LawfulCall(s, replies, Start(summary, agent, model), from, k, call)
  }

  /**
   From `before` to `done` the calls made are lawful, and the tools and envelopes are those of the replies received.
   */
  ghost predicate Extends(s: Settings, agent: Agent, model: string, replies: nat -> Reply, before: Trace, done: Trace) {
    var first := |before.calls|;
    && first <= |done.calls|
    && (forall k: nat :: k < first ==> done.calls[k] == before.calls[k])
    && (forall k: nat :: first <= k < |done.calls| ==>
        LawfulInAttempt(s, agent, model, replies, first, k, done.calls[k]))
    && done.dispatches == DispatchesAfter(replies, first, before.dispatches, |done.calls| - first)
    && done.envelopes == EnvelopesAfter(replies, first, before.envelopes, |done.calls| - first)
  }

  // ----- an attempt, and a step, as functions of the replies

  /** The step record and what the orchestrator has done so far. */
  datatype StepState = StepState(done: Trace, summary: bool, status: StepStatus, retries: nat, toolCallsMade: nat,
                                 errors: seq<Issue>, output: Option<Reply>)

  /** The variables of the tool-call loop at the start of an attempt. */
  function Start(summary: bool, agent: Agent, model: string): LoopState {
    LoopState(InitialMessages(summary), model, agent.OtherAgent?)
  }

  /** The tool-call loop, from the reply it awaits first. */
  function AfterLoop(s: Settings, agent: Agent, model: string, replies: nat -> Reply, st: StepState): (StepState, End) {
    var next := |st.done.calls|;
    var n := TurnCount(replies, next, Budget(s));
    var last, done := EndOf(replies, next, n), TraceAfter(s, replies, Start(st.summary, agent, model), st.done, n);
    var made := |done.dispatches| - |st.done.dispatches|;
    (Noted(st, last.issue).(done := done, toolCallsMade := st.toolCallsMade + made), last.end)
  }

  /** A loop that has ended leaves the step as `AfterLoop` says. */
  lemma LoopEnds(s: Settings, agent: Agent, model: string, replies: nat -> Reply, st: StepState, n: nat,
                 last: Reaction, after: StepState)
    requires last.Stop? && after.summary == st.summary && after.retries == st.retries && after.output == st.output
    requires Ended(s, replies, Start(st.summary, agent, model), st.done, n, last, after.done)
    requires after.toolCallsMade - |after.done.dispatches| == st.toolCallsMade - |st.done.dispatches|
    requires after.status == Noted(st, last.issue).status && after.errors == Noted(st, last.issue).errors
    ensures (after, last.end) == AfterLoop(s, agent, model, replies, st)
  {
  }

  /** A blocked turn marks the step as failed and adds one error. */
  function Noted(st: StepState, issue: Option<Issue>): StepState {
    match issue
    case None => st
    case Some(i) => st.(status := Failed, errors := st.errors + [i])
  }

  /** What the retry loop records of the end of an attempt. */
  function Judged(st: StepState, end: End): StepState {
    match VerdictOf(end)
    case Broken => st
    case Won => st.(output := Some(end.reply), status := Complete)
    case Lost(final) => st.(errors := st.errors + [IssueOf(end)], retries := st.retries + 1,
                            status := if final then Failed else st.status)
  }

  function AfterAttempt(s: Settings, agent: Agent, model: string, replies: nat -> Reply, compression: Compression,
                        st: StepState): (StepState, Verdict) {
    match compression
    case CompressionCrash => (Judged(st, Crashed), Broken)
    case CompressionHttpError => (Judged(st, HttpRaised), Lost(false))
    case MemoryUpdated(summary) => Concluded(AfterLoop(s, agent, model, replies, st.(summary := summary)))
    case _ => Concluded(AfterLoop(s, agent, model, replies, st))
  }

  function Concluded(ended: (StepState, End)): (StepState, Verdict) {
    (Judged(ended.0, ended.1), VerdictOf(ended.1))
  }

  /** An attempt as a function of what varies from one to the next. */
  function AttemptOf(s: Settings, agent: Agent, model: string, replies: nat -> Reply): (Compression,
                     StepState) -> (StepState, Verdict) {
    (compression, st) => AfterAttempt(s, agent, model, replies, compression, st)
  }

  /** The retry loop from attempt number `attempt` on. */
  function StepRun(run: (Compression, StepState) -> (StepState, Verdict), attempts: nat,
                   compressions: nat -> Compression, st: StepState, attempt: nat): (StepState, StepResult)
    requires attempt <= attempts
    decreases attempts - attempt
  {
    if attempt == attempts then (st.(status := Failed), Returned(false))
    else
      var (after, verdict) := run(compressions(attempt), st);
      match verdict
      case Won => (after, Returned(true))
      case Broken => (after, Escaped)
      case Lost(final) => if final then (after, Returned(false))
        else StepRun(run, attempts, compressions, after, attempt + 1)
  }

  lemma OneMoreAttempt(run: (Compression, StepState) -> (StepState, Verdict), attempts: nat,
                       compressions: nat -> Compression, st: StepState, attempt: nat, after: StepState,
                       verdict: Verdict)
    requires attempt < attempts && run(compressions(attempt), st) == (after, verdict)
    ensures StepRun(run, attempts, compressions, st, attempt)
         == if verdict == Lost(false) then StepRun(run, attempts, compressions, after, attempt + 1)
            else (after, if verdict == Broken then Escaped else Returned(verdict == Won))
  {
  }

  function Attempts(s: Settings): nat {
    if s.maxRetries < 0 then 0 else s.maxRetries
  }

  // ----- what holds of every attempt

  /** The last of the replies received finishes the step. */
  predicate EndsFinished(replies: nat -> Reply, from: nat, to: nat) {
    from < to && Finishes(replies(to - 1))
  }

  predicate EndsCompleted(replies: nat -> Reply, from: nat, to: nat) {
    from < to && Completes(replies(to - 1))
  }

  /** What a reply that finishes its step makes of the attempt. */
  function FinalVerdict(reply: Reply): Verdict {
    if Completes(reply) then Won else if Crashes(reply) then Broken else Lost(true)
  }

  /** Only the last reply ends an attempt, and it alone decides what becomes of it. */
  ghost predicate AttemptOutcome(s: Settings, replies: nat -> Reply, from: nat, to: nat, verdict: Verdict) {
    && from <= to <= from + Budget(s)
    && (forall k: nat :: from <= k < to - 1 ==> React(replies(k)).Continue?)
    && verdict == if EndsFinished(replies, from, to) then FinalVerdict(replies(to - 1)) else Lost(false)
  }

  lemma NothingDone(s: Settings, agent: Agent, model: string, replies: nat -> Reply, done: Trace)
    ensures Extends(s, agent, model, replies, done, done)
  {
  }

  /** How an attempt ends, in terms of its last reply. */
  lemma EndedOutcome(s: Settings, replies: nat -> Reply, start: LoopState, before: Trace, n: nat, last: Reaction,
                     done: Trace)
    requires Ended(s, replies, start, before, n, last, done)
    ensures last.Stop? && AttemptOutcome(s, replies, |before.calls|, |done.calls|, VerdictOf(last.end))
    ensures last.Stop? && VerdictOf(last.end) == Won ==> last.end.reply == replies(|done.calls| - 1)
  {
    AttemptLaw(s, replies, start, before, n, last, done);
  }

  lemma EndedExtends(s: Settings, agent: Agent, model: string, summary: bool, replies: nat -> Reply, start: LoopState,
                     before: Trace, n: nat, last: Reaction, done: Trace)
    requires Ended(s, replies, start, before, n, last, done) && start == Start(summary, agent, model)
    ensures Extends(s, agent, model, replies, before, done)
  {
    var first := |before.calls|;
    AttemptLaw(s, replies, start, before, n, last, done);
    CallsStay(s, replies, first, start, before.calls, 0, n);
    forall k: nat | first <= k < |done.calls|
      ensures LawfulInAttempt(s, agent, model, replies, first, k, done.calls[k])
    {
      CallsAreLawful(s, replies, start, before, n, last, done, k);
    }
  }

  lemma LawfulFromEarlier(s: Settings, agent: Agent, model: string, replies: nat -> Reply, first: nat, later: nat,
                          k: nat, call: ModelCall)
    requires LawfulInAttempt(s, agent, model, replies, later, k, call) && first <= later
    ensures LawfulInAttempt(s, agent, model, replies, first, k, call)
  {
  }

  lemma CallsChain(s: Settings, agent: Agent, model: string, replies: nat -> Reply, before: Trace, between: Trace,
                   done: Trace)
    requires Extends(s, agent, model, replies, before, between) && Extends(s, agent, model, replies, between, done)
    ensures forall k: nat :: k < |before.calls| ==> done.calls[k] == before.calls[k]
    ensures forall k: nat :: |before.calls| <= k < |done.calls| ==>
        LawfulInAttempt(s, agent, model, replies, |before.calls|, k, done.calls[k])
  {
    var first, middle := |before.calls|, |between.calls|;
    forall k: nat | first <= k < |done.calls|
      ensures LawfulInAttempt(s, agent, model, replies, first, k, done.calls[k])
    {
      if k >= middle {
        LawfulFromEarlier(s, agent, model, replies, first, middle, k, done.calls[k]);
      }
    }
  }

  lemma ExtendsChains(s: Settings, agent: Agent, model: string, replies: nat -> Reply, before: Trace, between: Trace,
                      done: Trace)
    requires Extends(s, agent, model, replies, before, between) && Extends(s, agent, model, replies, between, done)
    ensures Extends(s, agent, model, replies, before, done)
  {
    var first, middle := |before.calls|, |between.calls|;
    CallsChain(s, agent, model, replies, before, between, done);
    AttemptsChain(replies, first, before.dispatches, before.envelopes, middle - first, |done.calls| - middle);
  }

  /** No reply but the last one finishes the step. */
  ghost predicate NoneFinishesEarlier(replies: nat -> Reply, from: nat, to: nat) {
    forall k: nat :: from <= k < to - 1 ==> !Finishes(replies(k))
  }

  /** What `attempts` attempts in a row may count; a step is complete exactly when its last reply completes it. */
  ghost predicate Counts(s: Settings, replies: nat -> Reply, attempts: nat, st: StepState, after: StepState) {
    var from, to := |st.done.calls|, |after.done.calls|;
    && from <= to <= from + attempts * Budget(s)
    && after.toolCallsMade - st.toolCallsMade == |after.done.dispatches| - |st.done.dispatches|
    && NoneFinishesEarlier(replies, from, to)
    && (after.status == Complete <==> EndsCompleted(replies, from, to))
    && after.output == (if EndsCompleted(replies, from, to) then Some(replies(to - 1)) else st.output)
    && st.retries <= after.retries <= st.retries + attempts
    && after.retries - st.retries <= |after.errors| - |st.errors| <= 2 * (after.retries - st.retries)
  }

  ghost predicate Lawful(s: Settings, agent: Agent, model: string, replies: nat -> Reply, attempts: nat,
                         st: StepState, after: StepState) {
    Extends(s, agent, model, replies, st.done, after.done) && Counts(s, replies, attempts, st, after)
  }

  /** What the tool-call loop does to a step, before the retry loop judges its end. */
  ghost predicate LoopLaw(s: Settings, agent: Agent, model: string, replies: nat -> Reply, st: StepState,
                          after: StepState, end: End) {
    var from, to := |st.done.calls|, |after.done.calls|;
    && Extends(s, agent, model, replies, st.done, after.done) && AttemptOutcome(s, replies, from, to, VerdictOf(end))
    && (VerdictOf(end) == Won ==> end.reply == replies(to - 1))
    && after.toolCallsMade - st.toolCallsMade == |after.done.dispatches| - |st.done.dispatches|
    && after.output == st.output && after.retries == st.retries && after.status != Complete
    && |st.errors| <= |after.errors| <= |st.errors| + (if VerdictOf(end) == Lost(false) then 1 else 0)
  }

  lemma LoopIsLawful(s: Settings, agent: Agent, model: string, replies: nat -> Reply, st: StepState)
    requires st.status != Complete
    ensures var (after, end) := AfterLoop(s, agent, model, replies, st);
      LoopLaw(s, agent, model, replies, st, after, end)
  {
    var n := TurnCount(replies, |st.done.calls|, Budget(s));
    var start, last := Start(st.summary, agent, model), EndOf(replies, |st.done.calls|, n);
    var done := TraceAfter(s, replies, start, st.done, n);
    EndedExtends(s, agent, model, st.summary, replies, start, st.done, n, last, done);
    EndedOutcome(s, replies, start, st.done, n, last, done);
  }

  /**
   What one attempt does: how it ends is decided by a crash of memory compression, or else by its last reply alone.
   */
  ghost predicate AttemptLawful(s: Settings, agent: Agent, model: string, replies: nat -> Reply,
                                compression: Compression, st: StepState, after: StepState, verdict: Verdict) {
    var from, to := |st.done.calls|, |after.done.calls|;
    && Lawful(s, agent, model, replies, 1, st, after)
    && after.retries == st.retries + (if verdict.Lost? then 1 else 0)
    && (verdict == Lost(true) ==> after.status == Failed)
    && (forall k: nat :: from <= k < to - 1 ==> React(replies(k)).Continue?)
    && (if compression == CompressionCrash then verdict == Broken && to == from
        else if EndsFinished(replies, from, to) then verdict == FinalVerdict(replies(to - 1))
        else verdict == Lost(false))
  }

  lemma NoneFinishesBeforeTheEnd(replies: nat -> Reply, from: nat, to: nat)
    requires forall k: nat :: from <= k < to - 1 ==> React(replies(k)).Continue?
    ensures NoneFinishesEarlier(replies, from, to)
  {
  }

  lemma JudgedIsLawful(s: Settings, agent: Agent, model: string, replies: nat -> Reply, compression: Compression,
                       st: StepState, between: StepState, end: End)
    requires LoopLaw(s, agent, model, replies, st, between, end) && compression != CompressionCrash
    ensures AttemptLawful(s, agent, model, replies, compression, st, Judged(between, end), VerdictOf(end))
  {
    NoneFinishesBeforeTheEnd(replies, |st.done.calls|, |between.done.calls|);
  }

  lemma UnbegunIsLawful(s: Settings, agent: Agent, model: string, replies: nat -> Reply, compression: Compression,
                        st: StepState)
    requires st.status != Complete && (compression == CompressionCrash || compression == CompressionHttpError)
    ensures var (after, verdict) := AfterAttempt(s, agent, model, replies, compression, st);
      AttemptLawful(s, agent, model, replies, compression, st, after, verdict)
  {
    NothingDone(s, agent, model, replies, st.done);
  }

  lemma AttemptIsLawful(s: Settings, agent: Agent, model: string, replies: nat -> Reply, compression: Compression,
                        st: StepState)
    requires st.status != Complete
    ensures var (after, verdict) := AfterAttempt(s, agent, model, replies, compression, st);
      AttemptLawful(s, agent, model, replies, compression, st, after, verdict)
  {
    var begun := if compression.MemoryUpdated? then st.(summary := compression.summary) else st;
    if compression == CompressionCrash || compression == CompressionHttpError {
      UnbegunIsLawful(s, agent, model, replies, compression, st);
    } else {
      var (between, end) := AfterLoop(s, agent, model, replies, begun);
      LoopIsLawful(s, agent, model, replies, begun);
      JudgedIsLawful(s, agent, model, replies, compression, begun, between, end);
    }
  }

  // ----- what holds of every step

  /** No memory compression raises before any of `failed` attempts from `attempt` on. */
  ghost predicate NoneCrashes(compressions: nat -> Compression, attempt: nat, failed: nat) {
    forall k: nat :: attempt <= k < attempt + failed ==> compressions(k) != CompressionCrash
  }

  /**
   How a step ends, `attempts` being those left at `attempt`. If the last reply
   received finishes the step, it decides; if not, the step returns failure when every
   attempt has failed, and otherwise only a crash of memory compression ends it.
   */
  ghost predicate ResultLaw(replies: nat -> Reply, compressions: nat -> Compression, attempts: nat, attempt: nat,
                            st: StepState, after: StepState, r: StepResult) {
    var from, to, failed := |st.done.calls|, |after.done.calls|, after.retries - st.retries;
    && failed >= 0 && NoneCrashes(compressions, attempt, failed)
    && (if EndsFinished(replies, from, to) then r == FinalResult(replies(to - 1))
        else if failed == attempts then r == Returned(false)
        else r == Escaped && compressions(attempt + failed) == CompressionCrash)
    && (r == Returned(false) ==> after.status == Failed)
  }

  function FinalResult(reply: Reply): StepResult {
    if Completes(reply) then Returned(true) else if Crashes(reply) then Escaped else Returned(false)
  }

  ghost predicate StepLaw(s: Settings, agent: Agent, model: string, replies: nat -> Reply,
                          compressions: nat -> Compression, attempts: nat, attempt: nat, st: StepState,
                          after: StepState, r: StepResult) {
    Lawful(s, agent, model, replies, attempts, st, after)
      && ResultLaw(replies, compressions, attempts, attempt, st, after, r)
  }

  /** More attempts may do what fewer did. */
  lemma LawfulWithMore(s: Settings, agent: Agent, model: string, replies: nat -> Reply, attempts: nat, st: StepState,
                       after: StepState)
    requires Lawful(s, agent, model, replies, 1, st, after) && attempts >= 1
    ensures Lawful(s, agent, model, replies, attempts, st, after)
  {
    assert 1 * Budget(s) <= attempts * Budget(s);
  }

  lemma FinishesLater(replies: nat -> Reply, from: nat, middle: nat, to: nat)
    requires from <= middle <= to && NoneFinishesEarlier(replies, from, middle) && !EndsFinished(replies, from, middle)
    requires NoneFinishesEarlier(replies, middle, to)
    ensures NoneFinishesEarlier(replies, from, to)
    ensures EndsFinished(replies, from, to) == EndsFinished(replies, middle, to)
    ensures EndsCompleted(replies, from, to) == EndsCompleted(replies, middle, to)
  {
  }

  lemma CountsChain(s: Settings, replies: nat -> Reply, attempts: nat, st: StepState, between: StepState,
                    after: StepState)
    requires Counts(s, replies, 1, st, between) && between.retries == st.retries + 1
    requires !EndsFinished(replies, |st.done.calls|, |between.done.calls|)
    requires Counts(s, replies, attempts, between, after)
    ensures Counts(s, replies, attempts + 1, st, after)
  {
    FinishesLater(replies, |st.done.calls|, |between.done.calls|, |after.done.calls|);
    assert (attempts + 1) * Budget(s) == attempts * Budget(s) + Budget(s);
  }

  lemma LawfulChains(s: Settings, agent: Agent, model: string, replies: nat -> Reply, attempts: nat, st: StepState,
                     between: StepState, after: StepState)
    requires Lawful(s, agent, model, replies, 1, st, between) && between.retries == st.retries + 1
    requires !EndsFinished(replies, |st.done.calls|, |between.done.calls|)
    requires Lawful(s, agent, model, replies, attempts, between, after)
    ensures Lawful(s, agent, model, replies, attempts + 1, st, after)
  {
    ExtendsChains(s, agent, model, replies, st.done, between.done, after.done);
    CountsChain(s, replies, attempts, st, between, after);
  }

  lemma StepEnds(s: Settings, agent: Agent, model: string, replies: nat -> Reply, compressions: nat -> Compression,
                 attempts: nat, attempt: nat, st: StepState, after: StepState, verdict: Verdict)
    requires AttemptLawful(s, agent, model, replies, compressions(attempt), st, after, verdict)
    requires verdict != Lost(false) && attempts >= 1
    ensures var r := if verdict == Broken then Escaped else Returned(verdict == Won);
      StepLaw(s, agent, model, replies, compressions, attempts, attempt, st, after, r)
  {
    LawfulWithMore(s, agent, model, replies, attempts, st, after);
  }

  lemma NoAttemptLeft(s: Settings, agent: Agent, model: string, replies: nat -> Reply, compressions: nat -> Compression,
                      attempt: nat, st: StepState)
    requires st.status != Complete
    ensures StepLaw(s, agent, model, replies, compressions, 0, attempt, st, st.(status := Failed), Returned(false))
  {
    NothingDone(s, agent, model, replies, st.done);
  }

  lemma StepGoesOn(s: Settings, agent: Agent, model: string, replies: nat -> Reply, compressions: nat -> Compression,
                   attempts: nat, attempt: nat, st: StepState, between: StepState, after: StepState, r: StepResult)
    requires AttemptLawful(s, agent, model, replies, compressions(attempt), st, between, Lost(false))
    requires StepLaw(s, agent, model, replies, compressions, attempts, attempt + 1, between, after, r)
    ensures StepLaw(s, agent, model, replies, compressions, attempts + 1, attempt, st, after, r)
  {
    LawfulChains(s, agent, model, replies, attempts, st, between, after);
    FinishesLater(replies, |st.done.calls|, |between.done.calls|, |after.done.calls|);
  }

  /** One attempt, and what the rest of the run does if it is merely lost. */
  lemma AttemptThenRest(s: Settings, agent: Agent, model: string, replies: nat -> Reply,
                        run: (Compression, StepState) -> (StepState, Verdict), attempts: nat,
                        compressions: nat -> Compression, st: StepState, attempt: nat, between: StepState,
                        verdict: Verdict)
    requires attempt < attempts && run(compressions(attempt), st) == (between, verdict)
    requires AttemptLawful(s, agent, model, replies, compressions(attempt), st, between, verdict)
    requires verdict == Lost(false) ==> var (after, r) := StepRun(run, attempts, compressions, between, attempt + 1);
      StepLaw(s, agent, model, replies, compressions, attempts - attempt - 1, attempt + 1, between, after, r)
    ensures var (after, r) := StepRun(run, attempts, compressions, st, attempt);
      StepLaw(s, agent, model, replies, compressions, attempts - attempt, attempt, st, after, r)
  {
    var left := attempts - attempt;
    OneMoreAttempt(run, attempts, compressions, st, attempt, between, verdict);
    if verdict == Lost(false) {
      var (after, r) := StepRun(run, attempts, compressions, between, attempt + 1);
      StepGoesOn(s, agent, model, replies, compressions, left - 1, attempt, st, between, after, r);
    } else {
      StepEnds(s, agent, model, replies, compressions, left, attempt, st, between, verdict);
    }
  }

  lemma LostIsIncomplete(s: Settings, agent: Agent, model: string, replies: nat -> Reply, compression: Compression,
                         st: StepState, after: StepState)
    requires AttemptLawful(s, agent, model, replies, compression, st, after, Lost(false))
    ensures after.status != Complete
  {
  }

  /** The attempt that `run` makes of a state is lawful. */
  ghost predicate LawfulAt(s: Settings, agent: Agent, model: string, replies: nat -> Reply,
                           run: (Compression, StepState) -> (StepState, Verdict), c: Compression, t: StepState) {
    t.status != Complete ==> AttemptLawful(s, agent, model, replies, c, t, run(c, t).0, run(c, t).1)
  }

  lemma {:induction false} RunOfLawfulAttempts(s: Settings, agent: Agent, model: string, replies: nat -> Reply,
                                               run: (Compression, StepState) -> (StepState, Verdict), attempts: nat,
                                               compressions: nat -> Compression, st: StepState, attempt: nat)
    requires attempt <= attempts && st.status != Complete
    requires forall c, t {:trigger LawfulAt(s, agent, model, replies, run, c, t)} ::
      LawfulAt(s, agent, model, replies, run, c, t)
    ensures var (after, r) := StepRun(run, attempts, compressions, st, attempt);
      StepLaw(s, agent, model, replies, compressions, attempts - attempt, attempt, st, after, r)
    decreases attempts - attempt
  {
    if attempt == attempts {
      NoAttemptLeft(s, agent, model, replies, compressions, attempt, st);
    } else {
      assert LawfulAt(s, agent, model, replies, run, compressions(attempt), st);
      var (between, verdict) := run(compressions(attempt), st);
      if verdict == Lost(false) {
        LostIsIncomplete(s, agent, model, replies, compressions(attempt), st, between);
        RunOfLawfulAttempts(s, agent, model, replies, run, attempts, compressions, between, attempt + 1);
      }
      AttemptThenRest(s, agent, model, replies, run, attempts, compressions, st, attempt, between, verdict);
    }
  }

  /**
   Every run of a step. It makes at most one model call per turn of each attempt and counts exactly
   the tools it dispatches. It succeeds, fails for good or lets an exception through exactly when
   the last reply received completes the step, reports an unrecoverable error or crashes; any other
   last reply leaves it to fail after the last attempt, and no other reply ends it.
   */
  lemma StepRunIsLawful(s: Settings, agent: Agent, model: string, replies: nat -> Reply,
                        compressions: nat -> Compression, st: StepState)
    requires st.status != Complete
    ensures var (after, r) := StepRun(AttemptOf(s, agent, model, replies), Attempts(s), compressions, st, 0);
      StepLaw(s, agent, model, replies, compressions, Attempts(s), 0, st, after, r)
  {
    var run := AttemptOf(s, agent, model, replies);
    forall c, t ensures LawfulAt(s, agent, model, replies, run, c, t) {
      if t.status != Complete {
        AttemptIsLawful(s, agent, model, replies, c, t);
      }
    }
    RunOfLawfulAttempts(s, agent, model, replies, run, Attempts(s), compressions, st, 0);
  }

  // ----- a step in terms of its replies

  /** A step dispatches, counts and records exactly what the replies it received ask for. */
  ghost predicate Obeys(replies: nat -> Reply, st: StepState, after: StepState) {
    var from, to := |st.done.calls|, |after.done.calls|;
    && from <= to && st.done.dispatches <= after.done.dispatches && st.done.envelopes <= after.done.envelopes
    && ToolsAskedFor(after.done.dispatches[|st.done.dispatches|..], Received(replies, from, to - from))
    && after.toolCallsMade - st.toolCallsMade == |Filter(Received(replies, from, to - from), IsToolCall)|
    && EnvelopesReceived(after.done.envelopes[|st.done.envelopes|..], Received(replies, from, to - from))
  }

  lemma LawfulObeys(s: Settings, agent: Agent, model: string, replies: nat -> Reply, attempts: nat, st: StepState,
                    after: StepState)
    requires Lawful(s, agent, model, replies, attempts, st, after)
    ensures Obeys(replies, st, after)
  {
    var from, n := |st.done.calls|, |after.done.calls| - |st.done.calls|;
    DispatchesAreAskedFor(replies, from, st.done.dispatches, n);
    EnvelopesAreReceived(replies, from, st.done.envelopes, n);
  }

  /** How many calls a step may make, and how many attempts it fails before it gives up, in terms of the settings. */
  ghost predicate WithinSettings(s: Settings, replies: nat -> Reply, st: StepState, after: StepState, r: StepResult) {
    var from, to := |st.done.calls|, |after.done.calls|;
    && (s.maxRetries <= 0 || s.maxToolCalls < 0 ==> to == from)
    && (s.maxRetries > 0 && s.maxToolCalls >= 0 ==> from <= to <= from + s.maxRetries * (s.maxToolCalls + 1))
    && (r == Returned(false) && !EndsFinished(replies, from, to) ==>
          after.retries - st.retries == if s.maxRetries < 0 then 0 else s.maxRetries)
  }

  lemma LawWithinSettings(s: Settings, replies: nat -> Reply, compressions: nat -> Compression, st: StepState,
                          after: StepState, r: StepResult)
    requires Counts(s, replies, Attempts(s), st, after)
    requires ResultLaw(replies, compressions, Attempts(s), 0, st, after, r)
    ensures WithinSettings(s, replies, st, after, r)
  {
    if s.maxRetries > 0 && s.maxToolCalls >= 0 {
      assert Attempts(s) * Budget(s) == s.maxRetries * (s.maxToolCalls + 1);
    } else {
      assert Attempts(s) * Budget(s) == 0;
    }
  }

  /** Every step obeys the replies it receives, within its settings. */
  lemma StepObeys(s: Settings, agent: Agent, model: string, replies: nat -> Reply,
                  compressions: nat -> Compression, st: StepState)
    requires st.status != Complete
    ensures var (after, r) := StepRun(AttemptOf(s, agent, model, replies), Attempts(s), compressions, st, 0);
      Obeys(replies, st, after) && WithinSettings(s, replies, st, after, r)
  {
    var (after, r) := StepRun(AttemptOf(s, agent, model, replies), Attempts(s), compressions, st, 0);
    StepRunIsLawful(s, agent, model, replies, compressions, st);
    LawfulObeys(s, agent, model, replies, Attempts(s), st, after);
    LawWithinSettings(s, replies, compressions, st, after, r);
  }

  /** A reply after which the attempt makes no further call. */
  predicate EndsAttempt(reply: Reply) {
    Completes(reply) || IsStepError(reply) || Blocks(reply) || Crashes(reply) || reply == HttpFailure
  }

  /** The summary an attempt works with. */
  function SummaryIn(compression: Compression, st: StepState): bool {
    if compression.MemoryUpdated? then compression.summary else st.summary
  }

  /** The `n` calls from `from` on use up the allowed tool calls and one more, or the last of them ends the attempt. */
  ghost predicate TakesTurns(s: Settings, replies: nat -> Reply, from: nat, n: int) {
    && 0 < n <= s.maxToolCalls + 1
    && (forall k: nat :: from <= k < from + n - 1 ==> !EndsAttempt(replies(k)))
    && (n < s.maxToolCalls + 1 ==> EndsAttempt(replies(from + n - 1)))
  }

  lemma TurnsTaken(s: Settings, replies: nat -> Reply, next: nat)
    ensures if s.maxToolCalls < 0 then TurnCount(replies, next, Budget(s)) == 0
            else TakesTurns(s, replies, next, TurnCount(replies, next, Budget(s)))
  {
    TurnCountLaw(replies, next, Budget(s));
    forall k: nat ensures EndsAttempt(replies(k)) <==> React(replies(k)).Stop? {
      ReactionOf(replies(k));
    }
  }

  /** Memory compression did not fail, so that the attempt begins. */
  predicate Begins(compression: Compression) {
    compression != CompressionCrash && compression != CompressionHttpError
  }

  lemma BegunAttempt(s: Settings, agent: Agent, model: string, replies: nat -> Reply, compression: Compression,
                     st: StepState)
    requires Begins(compression)
    ensures AfterAttempt(s, agent, model, replies, compression, st) ==
      Concluded(AfterLoop(s, agent, model, replies, st.(summary := SummaryIn(compression, st))))
  {
    assert compression.MemoryUpdated? || st.(summary := SummaryIn(compression, st)) == st;
  }

  lemma DoneInAttempt(s: Settings, agent: Agent, model: string, replies: nat -> Reply, compression: Compression,
                      st: StepState)
    ensures var after := AfterAttempt(s, agent, model, replies, compression, st).0;
      if Begins(compression) then
        && after.summary == SummaryIn(compression, st)
        && after.done == TraceAfter(s, replies, Start(SummaryIn(compression, st), agent, model), st.done,
                                    TurnCount(replies, |st.done.calls|, Budget(s)))
      else after.done == st.done && after.summary == st.summary
  {
    if Begins(compression) {
      BegunAttempt(s, agent, model, replies, compression, st);
      LoopDone(s, agent, model, replies, st.(summary := SummaryIn(compression, st)));
    }
  }

  lemma LoopDone(s: Settings, agent: Agent, model: string, replies: nat -> Reply, st: StepState)
    ensures var after := Concluded(AfterLoop(s, agent, model, replies, st)).0;
      && after.summary == st.summary
      && after.done == TraceAfter(s, replies, Start(st.summary, agent, model), st.done,
                                  TurnCount(replies, |st.done.calls|, Budget(s)))
  {
  }

  /**
   An attempt makes no call if memory compression fails; otherwise it goes on until a
   reply ends it or the allowed tool calls, and one more, have been used up.
   */
  lemma AttemptTakesItsTurns(s: Settings, agent: Agent, model: string, replies: nat -> Reply,
                             compression: Compression, st: StepState)
    ensures var after := AfterAttempt(s, agent, model, replies, compression, st).0;
      var n := |after.done.calls| - |st.done.calls|;
      if Begins(compression) && s.maxToolCalls >= 0
      then TakesTurns(s, replies, |st.done.calls|, n) && after.summary == SummaryIn(compression, st) else n == 0
  {
    DoneInAttempt(s, agent, model, replies, compression, st);
    TurnsTaken(s, replies, |st.done.calls|);
  }

  /**
   The first call of an attempt goes to the model given, with a schema unless the agent does
   without, and sees the summary, if there is one, and the delegation.
   */
  lemma FirstCall(s: Settings, agent: Agent, model: string, replies: nat -> Reply, compression: Compression,
                  st: StepState)
    requires s.keep >= 1 && s.maxToolCalls >= 0 && Begins(compression)
    ensures var calls := AfterAttempt(s, agent, model, replies, compression, st).0.done.calls;
      && |calls| > |st.done.calls|
      && calls[|st.done.calls|] == ModelCall(model, agent != Reasoner && agent != Critic,
                                            if SummaryIn(compression, st) then [ContextSummary, Delegation]
                                            else [Delegation])
  {
    var next, n := |st.done.calls|, TurnCount(replies, |st.done.calls|, Budget(s));
    var start := Start(SummaryIn(compression, st), agent, model);
    DoneInAttempt(s, agent, model, replies, compression, st);
    TurnCountLaw(replies, next, Budget(s));
    CallRecordsState(s, replies, next, start, st.done.calls, n, 0);
    assert Prune(start.messages, s.keep) == start.messages;
    assert [ContextSummary] + [Delegation] == [ContextSummary, Delegation] && [] + [Delegation] == [Delegation];
  }

  /** What the last reply of an attempt puts on the step's error list; no reply that ends it counts as no valid JSON. */
  function IssuesOf(last: Option<Reply>): seq<Issue> {
    match last
    case None => [NoValidJson]
    case Some(reply) =>
      if Blocks(reply) then [if reply.envelope == Block then BlockedByAgent else ApprovalMissing, NoValidJson]
      else if reply == HttpFailure then [HttpError]
      else if IsStepError(reply) then [AgentError]
      else if Completes(reply) || Crashes(reply) then []
      else [NoValidJson]
  }

  /** The status an attempt leaves behind. */
  function StatusAfter(last: Option<Reply>, before: StepStatus): StepStatus {
    if last.Some? && Completes(last.value) then Complete
    else if last.Some? && (Blocks(last.value) || (IsStepError(last.value) && !last.value.kind.recoverable)) then Failed
    else before
  }

  lemma EndIsRecorded(replies: nat -> Reply, next: nat, n: nat, st: StepState)
    ensures var reaction, last := EndOf(replies, next, n), if n > 0 then Some(replies(next + n - 1)) else None;
      reaction.Stop? && var judged := Judged(Noted(st, reaction.issue), reaction.end);
      judged.errors == st.errors + IssuesOf(last) && judged.status == StatusAfter(last, st.status)
  {
    if n > 0 {
      ReactionOf(replies(next + n - 1));
    }
  }

  lemma LoopRecorded(s: Settings, agent: Agent, model: string, replies: nat -> Reply, st: StepState)
    ensures var after := Concluded(AfterLoop(s, agent, model, replies, st)).0;
      var reaction := EndOf(replies, |st.done.calls|, TurnCount(replies, |st.done.calls|, Budget(s)));
      reaction.Stop? && var judged := Judged(Noted(st, reaction.issue), reaction.end);
      after.errors == judged.errors && after.status == judged.status
  {
  }

  /** What an attempt records on the step: the errors its last reply amounts to, and a status. */
  lemma AttemptRecords(s: Settings, agent: Agent, model: string, replies: nat -> Reply, compression: Compression,
                       st: StepState)
    ensures var after := AfterAttempt(s, agent, model, replies, compression, st).0;
      var from, to := |st.done.calls|, |after.done.calls|;
      if Begins(compression) then
        var last := if from < to then Some(replies(to - 1)) else None;
        from <= to && after.errors == st.errors + IssuesOf(last) && after.status == StatusAfter(last, st.status)
      else
        && after.status == st.status
        && after.errors == st.errors + if compression == CompressionHttpError then [HttpError] else []
  {
    DoneInAttempt(s, agent, model, replies, compression, st);
    if Begins(compression) {
      var begun := st.(summary := SummaryIn(compression, st));
      BegunAttempt(s, agent, model, replies, compression, st);
      LoopRecorded(s, agent, model, replies, begun);
      EndIsRecorded(replies, |st.done.calls|, TurnCount(replies, |st.done.calls|, Budget(s)), begun);
    }
  }

  // ----- a blocked attempt

  /** The state in which attempt `a` begins, if the step gets that far. */
  function Reached(run: (Compression, StepState) -> (StepState, Verdict), compressions: nat -> Compression,
                   st: StepState, a: nat): Option<StepState> {
    if a == 0 then Some(st)
    else match Reached(run, compressions, st, a - 1)
         case None => None
         case Some(before) =>
           var (after, verdict) := run(compressions(a - 1), before);
           if verdict == Lost(false) then Some(after) else None
  }

  /** The step ends with attempt `a`. */
  predicate EndsWith(run: (Compression, StepState) -> (StepState, Verdict), attempts: nat,
                     compressions: nat -> Compression, st: StepState, a: nat) {
    Reached(run, compressions, st, a).Some? && a < attempts
    && (a + 1 == attempts || Reached(run, compressions, st, a + 1) == None)
  }

  /** What a step still has to do when it reaches attempt `a` decides its result. */
  lemma {:induction false} RunFromReached(run: (Compression, StepState) -> (StepState, Verdict), attempts: nat,
                                          compressions: nat -> Compression, st: StepState, a: nat)
    requires a <= attempts && Reached(run, compressions, st, a).Some?
    ensures StepRun(run, attempts, compressions, st, 0)
         == StepRun(run, attempts, compressions, Reached(run, compressions, st, a).value, a)
  {
    if a > 0 {
      RunFromReached(run, attempts, compressions, st, a - 1);
    }
  }

  lemma {:induction false} ReachedIsIncomplete(s: Settings, agent: Agent, model: string, replies: nat -> Reply,
                                               compressions: nat -> Compression, st: StepState, a: nat)
    requires st.status != Complete && Reached(AttemptOf(s, agent, model, replies), compressions, st, a).Some?
    ensures Reached(AttemptOf(s, agent, model, replies), compressions, st, a).value.status != Complete
  {
    if a > 0 {
      ReachedIsIncomplete(s, agent, model, replies, compressions, st, a - 1);
      var before := Reached(AttemptOf(s, agent, model, replies), compressions, st, a - 1).value;
      AttemptIsLawful(s, agent, model, replies, compressions(a - 1), before);
    }
  }

  /** An attempt that is merely lost ends the step exactly when it is the last one allowed, and then in failure. */
  lemma LostAttempt(run: (Compression, StepState) -> (StepState, Verdict), attempts: nat,
                    compressions: nat -> Compression, st: StepState, a: nat, begun: StepState, after: StepState)
    requires a < attempts && Reached(run, compressions, st, a) == Some(begun)
    requires run(compressions(a), begun) == (after, Lost(false))
    ensures EndsWith(run, attempts, compressions, st, a) <==> a + 1 == attempts
    ensures a + 1 == attempts ==> StepRun(run, attempts, compressions, st, 0).1 == Returned(false)
  {
    RunFromReached(run, attempts, compressions, st, a + 1);
  }

  lemma BlockLoses(s: Settings, agent: Agent, model: string, replies: nat -> Reply, compression: Compression,
                   st: StepState, k: nat)
    requires st.status != Complete
    requires |st.done.calls| <= k < |AfterAttempt(s, agent, model, replies, compression, st).0.done.calls|
    requires Blocks(replies(k))
    ensures AfterAttempt(s, agent, model, replies, compression, st).1 == Lost(false)
  {
    AttemptIsLawful(s, agent, model, replies, compression, st);
    ReactionOf(replies(k));
  }

  /**
   A blocking reply received in attempt `a`, whatever came before: the step ends with that attempt if and only if it
   is the last one allowed, and then returns failure; otherwise the next attempt begins.
   */
  lemma BlockEndsOnlyTheLastAttempt(s: Settings, agent: Agent, model: string, replies: nat -> Reply,
                                    compressions: nat -> Compression, st: StepState, a: nat, k: nat)
    requires st.status != Complete && a < Attempts(s)
    requires var begun := Reached(AttemptOf(s, agent, model, replies), compressions, st, a);
      begun.Some? && Blocks(replies(k))
      && |begun.value.done.calls| <= k
      && k < |AfterAttempt(s, agent, model, replies, compressions(a), begun.value).0.done.calls|
    ensures var run := AttemptOf(s, agent, model, replies);
      && (EndsWith(run, Attempts(s), compressions, st, a) <==> a + 1 == Attempts(s))
      && (a + 1 == Attempts(s) ==> StepRun(run, Attempts(s), compressions, st, 0).1 == Returned(false))
  {
    var run := AttemptOf(s, agent, model, replies);
    var begun := Reached(run, compressions, st, a).value;
    ReachedIsIncomplete(s, agent, model, replies, compressions, st, a);
    BlockLoses(s, agent, model, replies, compressions(a), begun, k);
    LostAttempt(run, Attempts(s), compressions, st, a, begun, run(compressions(a), begun).0);
  }

  /** A block and then a terminal reply: with a second attempt allowed the step completes. */
  lemma BlockedThenComplete(s: Settings, agent: Agent, model: string, st: StepState)
    requires s.maxRetries >= 2 && s.maxToolCalls >= 0 && st.status != Complete && st.done.calls == []
    ensures var replies :=
        (k: nat) => if k == 0 then Object("", Block, OtherKind) else Object("", NoEnvelope, Terminal);
      StepRun(AttemptOf(s, agent, model, replies), Attempts(s), _ => NotNeeded, st, 0).1 == Returned(true)
  {
    var replies := (k: nat) => if k == 0 then Object("", Block, OtherKind) else Object("", NoEnvelope, Terminal);
    var run := AttemptOf(s, agent, model, replies);
    var (first, verdict) := run(NotNeeded, st);
    assert TurnCount(replies, 0, Budget(s)) == 1;
    assert verdict == Lost(false) && |first.done.calls| == 1;
    assert TurnCount(replies, 1, Budget(s)) == 1;
    assert run(NotNeeded, first).1 == Won;
  }
}
