/** Executing a plan: every task is either held for approval or drafted, reviewed and refined within a budget. */
module PlanExecutor {
  import opened PyLists

  /** What a call of the language model brings. */
  datatype Generated = Text(text: string) | Raises

  /** The answers the executor gets from outside: the k-th generated text of all, and the two judgements it asks for. */
  datatype Oracles = Oracles(replies: nat -> Generated, needsRefinement: (string, string) -> bool,
                             approvalRequired: string -> bool)

  datatype Pressure = Critical | High | Lower | Unknown

  datatype Config = Config(maxIterations: int, evaluatorPasses: int, autonomous: bool)

  datatype Artifact =
    | Held(task: string, owner: string, risk: string)
    | Finished(task: string, owner: string, risk: string, draft: string, review: string, final: string,
               notes: seq<string>)
    | Refinement(pass: nat, output: string)
    | TestRun(command: string, exitCode: int)

  datatype TestRunResult = NoTests(command: string)
    | Ran(command: string, exitCode: int, stdout: string, stderr: string)

  datatype Confidence = HIGH | MEDIUM | LOW

  datatype RunRecord = RunRecord(success: bool, evidence: seq<string>, artifacts: seq<Artifact>, blocked: seq<string>,
                                 approvals: nat, passes: nat, confidence: Confidence)

  /** The cap on refinement under memory pressure; when the pressure cannot be read there is none. */
  function Capped(maxIterations: int, pressure: Pressure): int {
    match pressure
    case Critical => Min(maxIterations, 1)
    case High => Min(maxIterations, 2)
    case _ => maxIterations
  }

  /** How many answers a task may take, the first included. */
  function Budget(maxIterations: int, cfg: Config, active: bool): (n: nat)
    ensures n >= 1
  {
    var n := Min(maxIterations, cfg.evaluatorPasses);
    if active && n > 1 then n else 1
  }

  /** How many refinement passes the whole run gets. */
  function RunPasses(maxIterations: int, cfg: Config, active: bool): nat {
    var requested := Min(maxIterations, Min(cfg.maxIterations, cfg.evaluatorPasses));
    if requested <= 0 then 0 else if active then requested else 1
  }

  function ConfidenceOf(blocked: nat, test: TestRunResult): Confidence {
    var testFailed := test.Ran? && test.exitCode != 0;
    if blocked >= 5 || (testFailed && blocked >= 2) then LOW else if blocked >= 1 || testFailed then MEDIUM else HIGH
  }

  // ----- what a finished task is

  /** The text of reply `k`, which has to be one. */
  ghost predicate Said(o: Oracles, k: nat, text: string) {
    o.replies(k) == Text(text)
  }

  /**
   The artifact of a finished task that used the replies from `from` on. Answers and reviews alternate; every review
   but the last asked for another answer, and the last one did not, or the budget was spent.
   */
  ghost predicate FinishedLaw(o: Oracles, budget: nat, from: nat, a: Artifact)
    requires a.Finished?
  {
    var n := |a.notes|;
    && n < budget
    && Said(o, from, a.draft) && Said(o, from + 2 * n, a.final) && Said(o, from + 2 * n + 1, a.review)
    && (forall j: nat :: j < n ==> NoteLaw(o, from, j, a.notes[j]))
    && (n < budget - 1 ==> !o.needsRefinement(a.review, a.final))
  }

  /** Note `j` of a task is the (shortened) review that rejected answer `j`. */
  ghost predicate NoteLaw(o: Oracles, from: nat, j: nat, note: string) {
    exists answer, review :: Said(o, from + 2 * j, answer) && Said(o, from + 2 * j + 1, review)
                             && o.needsRefinement(review, answer) && note == Cut(review, 800)
  }

  /** How many replies an artifact of the task loop used. */
  function CallsFor(a: Artifact): nat {
    if a.Finished? then 2 * (1 + |a.notes|) else 0
  }

  /** How many replies the first `n` artifacts used. */
  function CallsForAll(artifacts: seq<Artifact>, n: nat): nat
    requires n <= |artifacts|
  {
    if n == 0 then 0 else CallsForAll(artifacts, n - 1) + CallsFor(artifacts[n - 1])
  }

  function HeldBy(a: Artifact): seq<string> {
    if a.Held? then [a.task] else []
  }

  /** The titles of the tasks, among the first `n`, that wait for approval. */
  function HeldTitles(artifacts: seq<Artifact>, n: nat): seq<string>
    requires n <= |artifacts|
  {
    if n == 0 then [] else HeldTitles(artifacts, n - 1) + HeldBy(artifacts[n - 1])
  }

  function EvidenceOf(a: Artifact): seq<string> {
    if a.Finished? then [a.draft, a.review, a.final] else []
  }

  function TaskEvidence(artifacts: seq<Artifact>, n: nat): seq<string>
    requires n <= |artifacts|
  {
    if n == 0 then [] else TaskEvidence(artifacts, n - 1) + EvidenceOf(artifacts[n - 1])
  }

  class Task {
    const title: string
    const owner: string
    const risk: string
    var done: bool
    var evidence: seq<string>
    var artifacts: seq<nat>

    constructor (title: string, owner: string, risk: string)
      ensures this.title == title && this.owner == owner && this.risk == risk && !done && evidence == []
      ensures artifacts == []
    {
      this.title, this.owner, this.risk, done, evidence, artifacts := title, owner, risk, false, [], [];
    }
  }

  /**
   The artifact of one task: it is about that task, held exactly
   when approval is required, and otherwise finished lawfully.
   */
  ghost predicate ArtifactLaw(o: Oracles, budget: nat, from: nat, task: Task, a: Artifact) {
    && (a.Held? || a.Finished?)
    && a.task == task.title && a.owner == task.owner && a.risk == task.risk
    && (a.Held? <==> o.approvalRequired(task.risk))
    && (a.Finished? ==> FinishedLaw(o, budget, from, a))
  }

  /**
   The first `n` artifacts are those of the first `n` tasks,
   in order, the replies being used one task after the other.
   */
  ghost predicate PlanLaw(o: Oracles, budget: nat, from: nat, tasks: seq<Task>, artifacts: seq<Artifact>, n: nat)
    requires n <= |tasks| && n <= |artifacts|
  {
    n == 0 || (PlanLaw(o, budget, from, tasks, artifacts, n - 1)
               && ArtifactLaw(o, budget, from + CallsForAll(artifacts, n - 1), tasks[n - 1], artifacts[n - 1]))
  }

  function Outputs(refinements: seq<Artifact>): (texts: seq<string>)
    requires forall a <- refinements :: a.Refinement?
    ensures |texts| == |refinements|
  {
    seq(|refinements|, i requires 0 <= i < |refinements| => refinements[i].output)
  }

  /** The artifacts of the refinement passes, made from the replies from `from` on. */
  ghost predicate PassesLaw(o: Oracles, from: nat, passes: nat, artifacts: seq<Artifact>) {
    |artifacts| == passes && forall p: nat :: p < passes ==>
      artifacts[p].Refinement? && artifacts[p].pass == p + 1 && Said(o, from + p, artifacts[p].output)
  }

  function TestArtifacts(test: TestRunResult): seq<Artifact> {
    if test.Ran? then [TestRun(test.command, test.exitCode)] else []
  }

  predicate TestsFailed(test: TestRunResult) {
    test.Ran? && test.exitCode != 0
  }

  /**
   Confidence is high exactly when nothing was held and no test failed,
   and low from five held tasks on, or one if the tests failed.
   */
  ghost predicate ConfidenceLaw(c: Confidence, held: nat, testsFailed: bool) {
    && (c == HIGH <==> held == 0 && !testsFailed)
    && (c == LOW <==> held >= 5 || (testsFailed && held >= 1))
  }

  /**
   The model calls of a run, artifact by artifact: `from` and
   `to` are the numbers of replies used before and after it.
   */
  ghost predicate ArtifactsLaw(o: Oracles, budget: nat, from: nat, to: nat, tasks: seq<Task>, made: seq<Artifact>,
                               passes: seq<Artifact>) {
    var n := |tasks|;
    && |made| == n && PlanLaw(o, budget, from, tasks, made, n)
    && PassesLaw(o, from + CallsForAll(made, n), |passes|, passes)
    && to == from + CallsForAll(made, n) + |passes|
  }

  /** The verdict on a run in which the tasks `held` wait for approval. */
  ghost predicate VerdictLaw(held: seq<string>, test: TestRunResult, r: RunRecord) {
    && r.blocked == held + (if TestsFailed(test) then ["tests:" + test.command] else [])
    && r.approvals == |held|
    && (r.success <==> r.blocked == [])
    && ConfidenceLaw(r.confidence, r.approvals, TestsFailed(test))
  }

  /** The record of a run whose artifacts are those of the tasks, of the passes and of the tests. */
  ghost predicate PartsLaw(o: Oracles, budget: nat, test: TestRunResult, from: nat, to: nat, tasks: seq<Task>,
                           made: seq<Artifact>, passes: seq<Artifact>, tests: seq<Artifact>, r: RunRecord) {
    && ArtifactsLaw(o, budget, from, to, tasks, made, passes)
    && tests == TestArtifacts(test)
    && VerdictLaw(HeldTitles(made, |made|), test, r)
    && r.evidence == TaskEvidence(made, |made|) + Outputs(passes)
      + (if test.Ran? then [test.stdout, test.stderr] else [])
  }

  /** What the record of a completed run says. */
  ghost predicate RecordLaw(o: Oracles, iterations: int, active: bool, cfg: Config, test: TestRunResult, from: nat,
                            to: nat, tasks: seq<Task>, r: RunRecord) {
    var n := |tasks|;
    && |r.artifacts| >= n + r.passes && r.passes == RunPasses(iterations, cfg, active)
    && PartsLaw(o, Budget(iterations, cfg, active), test, from, to, tasks, r.artifacts[..n],
                r.artifacts[n..n + r.passes], r.artifacts[n + r.passes..], r)
  }

  lemma ArtifactsAreLawful(o: Oracles, budget: nat, from: nat, middle: nat, to: nat, tasks: seq<Task>,
                           made: seq<Artifact>, passes: seq<Artifact>)
    requires |made| == |tasks| && PlanLaw(o, budget, from, tasks, made, |tasks|)
    requires middle == from + CallsForAll(made, |tasks|) && to == middle + |passes|
    requires PassesLaw(o, middle, |passes|, passes)
    ensures ArtifactsLaw(o, budget, from, to, tasks, made, passes)
  {
  }

  lemma VerdictIsLawful(held: seq<string>, test: TestRunResult, r: RunRecord)
    requires r.blocked == held + (if TestsFailed(test) then ["tests:" + test.command] else [])
    requires r.approvals == |held| && (r.success <==> r.blocked == [])
    requires r.confidence == ConfidenceOf(|r.blocked|, test)
    ensures VerdictLaw(held, test, r)
  {
  }

  /** A record put together as the executor does is lawful. */
  lemma RecordIsLawful(o: Oracles, iterations: int, active: bool, cfg: Config, test: TestRunResult, from: nat, to: nat,
                       tasks: seq<Task>, made: seq<Artifact>, passes: seq<Artifact>, r: RunRecord)
    requires PartsLaw(o, Budget(iterations, cfg, active), test, from, to, tasks, made, passes, TestArtifacts(test), r)
    requires |passes| == r.passes == RunPasses(iterations, cfg, active)
    requires r.artifacts == made + passes + TestArtifacts(test)
    ensures RecordLaw(o, iterations, active, cfg, test, from, to, tasks, r)
  {
    Parts(r.artifacts, made, passes, TestArtifacts(test));
  }

  /** The record of a run that got through its tasks, its passes and its tests is lawful. */
  lemma CompletedRun(o: Oracles, iterations: int, active: bool, cfg: Config, test: TestRunResult, from: nat,
                     middle: nat, to: nat, tasks: seq<Task>, made: seq<Artifact>, passes: seq<Artifact>, r: RunRecord)
    requires |made| == |tasks| && PlanLaw(o, Budget(iterations, cfg, active), from, tasks, made, |tasks|)
    requires middle == from + CallsForAll(made, |tasks|) && to == middle + |passes|
    requires PassesLaw(o, middle, |passes|, passes) && |passes| == r.passes == RunPasses(iterations, cfg, active)
    requires r.artifacts == made + passes + TestArtifacts(test)
    requires VerdictLaw(HeldTitles(made, |made|), test, r)
    requires r.evidence == TaskEvidence(made, |made|) + Outputs(passes)
      + (if test.Ran? then [test.stdout, test.stderr] else [])
    ensures RecordLaw(o, iterations, active, cfg, test, from, to, tasks, r)
  {
    ArtifactsAreLawful(o, Budget(iterations, cfg, active), from, middle, to, tasks, made, passes);
    RecordIsLawful(o, iterations, active, cfg, test, from, to, tasks, made, passes, r);
  }

  /** Each task of a plan has its own lawful artifact at its own place. */
  lemma {:induction false} ArtifactOfTask(o: Oracles, budget: nat, from: nat, tasks: seq<Task>,
                                          artifacts: seq<Artifact>, n: nat, i: nat)
    requires i < n <= |tasks| && n <= |artifacts| && PlanLaw(o, budget, from, tasks, artifacts, n)
    ensures ArtifactLaw(o, budget, from + CallsForAll(artifacts, i), tasks[i], artifacts[i])
  {
    if i < n - 1 {
      ArtifactOfTask(o, budget, from, tasks, artifacts, n - 1, i);
    }
  }

  lemma OneTaskMore(budget: nat, open: nat)
    ensures 2 * budget * open + 2 * budget == 2 * budget * (open + 1)
  {
  }

  /** The model is called at most twice the budget for every task that is not held. */
  lemma {:induction false} CallsBound(o: Oracles, budget: nat, from: nat, tasks: seq<Task>, artifacts: seq<Artifact>,
                                      n: nat)
    requires n <= |tasks| && n <= |artifacts| && PlanLaw(o, budget, from, tasks, artifacts, n)
    ensures |HeldTitles(artifacts, n)| <= n
    ensures CallsForAll(artifacts, n) <= 2 * budget * (n - |HeldTitles(artifacts, n)|)
  {
    if n > 0 {
      CallsBound(o, budget, from, tasks, artifacts, n - 1);
      var open := n - 1 - |HeldTitles(artifacts, n - 1)|;
      OneTaskMore(budget, open);
      if artifacts[n - 1].Held? {
        assert n - |HeldTitles(artifacts, n)| == open && CallsForAll(artifacts, n) == CallsForAll(artifacts, n - 1);
      } else {
        assert n - |HeldTitles(artifacts, n)| == open + 1 && CallsFor(artifacts[n - 1]) <= 2 * budget;
      }
    }
  }

  /**
   A run calls the model at most twice the budget for every task that is not
   held, and once per refinement pass. Critical memory pressure leaves one answer
   and one review per task and at most one pass; high pressure leaves twice that.
   */
  lemma RunCost(o: Oracles, maxIterations: int, pressure: Pressure, active: bool, cfg: Config, test: TestRunResult,
                from: nat, to: nat, tasks: seq<Task>, r: RunRecord)
    requires RecordLaw(o, Capped(maxIterations, pressure), active, cfg, test, from, to, tasks, r)
    ensures r.approvals <= |tasks|
    ensures var open := |tasks| - r.approvals;
      && to - from <= 2 * Budget(Capped(maxIterations, pressure), cfg, active) * open + r.passes
      && (pressure == Critical ==> to - from <= 2 * open + 1)
      && (pressure == High ==> to - from <= 4 * open + 2)
  {
    var budget := Budget(Capped(maxIterations, pressure), cfg, active);
    CallsBound(o, budget, from, tasks, r.artifacts[..|tasks|], |tasks|);
    var open := |tasks| - r.approvals;
    if pressure == Critical {
      assert budget == 1;
    } else if pressure == High {
      assert budget == 1 || budget == 2;
    }
  }

  // ----- the record of a run in terms of its inputs

  /** Number `n`, counted from zero, is below the iterations asked for and below what memory pressure leaves of them. */
  predicate Below(n: nat, maxIterations: int, pressure: Pressure) {
    n < maxIterations && (pressure == Critical ==> n < 1) && (pressure == High ==> n < 2)
  }

  /** A task may have answer number `n`, counted from zero. */
  predicate MayAnswer(n: nat, maxIterations: int, pressure: Pressure, cfg: Config, active: bool) {
    n == 0 || (active && Below(n, maxIterations, pressure) && n < cfg.evaluatorPasses)
  }

  /** The run may have refinement pass number `p`, counted from zero. */
  predicate MayPass(p: nat, maxIterations: int, pressure: Pressure, cfg: Config, active: bool) {
    Below(p, maxIterations, pressure) && p < cfg.maxIterations && p < cfg.evaluatorPasses && (active || p == 0)
  }

  lemma CapIsBelow(n: nat, maxIterations: int, pressure: Pressure)
    ensures n < Capped(maxIterations, pressure) <==> Below(n, maxIterations, pressure)
  {
  }

  lemma BudgetIsAllowed(n: nat, maxIterations: int, pressure: Pressure, cfg: Config, active: bool)
    ensures n < Budget(Capped(maxIterations, pressure), cfg, active) <==>
      MayAnswer(n, maxIterations, pressure, cfg, active)
  {
    CapIsBelow(n, maxIterations, pressure);
  }

  /** The run has exactly the refinement passes allowed. */
  lemma PassesOfARun(o: Oracles, maxIterations: int, pressure: Pressure, active: bool, cfg: Config,
                     test: TestRunResult, from: nat, to: nat, tasks: seq<Task>, r: RunRecord, p: nat)
    requires RecordLaw(o, Capped(maxIterations, pressure), active, cfg, test, from, to, tasks, r)
    ensures p < r.passes <==> MayPass(p, maxIterations, pressure, cfg, active)
  {
    CapIsBelow(p, maxIterations, pressure);
  }

  /** The artifacts after those of the tasks: the passes, numbered from one, from the last replies; then the tests. */
  lemma LastArtifacts(o: Oracles, iterations: int, active: bool, cfg: Config, test: TestRunResult, from: nat, to: nat,
                      tasks: seq<Task>, r: RunRecord)
    requires RecordLaw(o, iterations, active, cfg, test, from, to, tasks, r)
    ensures |r.artifacts| == |tasks| + r.passes + if test.Ran? then 1 else 0
    ensures r.passes <= to && PassesLaw(o, to - r.passes, r.passes, r.artifacts[|tasks|..|tasks| + r.passes])
    ensures test.Ran? ==> r.artifacts[|tasks| + r.passes] == TestRun(test.command, test.exitCode)
  {
    var n := |tasks|;
    assert r.artifacts[n + r.passes..] == TestArtifacts(test);
  }

  /** A task that is not held has no more answers than it may, and fewer only if its last review is content. */
  lemma AnswersOfATask(o: Oracles, maxIterations: int, pressure: Pressure, active: bool, cfg: Config,
                       test: TestRunResult, from: nat, to: nat, tasks: seq<Task>, r: RunRecord, i: nat)
    requires RecordLaw(o, Capped(maxIterations, pressure), active, cfg, test, from, to, tasks, r) && i < |tasks|
    ensures |r.artifacts| >= |tasks| && (r.artifacts[i].Held? || r.artifacts[i].Finished?)
    ensures r.artifacts[i].Held? <==> o.approvalRequired(tasks[i].risk)
    ensures r.artifacts[i].Finished? ==>
      var a := r.artifacts[i];
      && MayAnswer(|a.notes|, maxIterations, pressure, cfg, active)
      && (MayAnswer(|a.notes| + 1, maxIterations, pressure, cfg, active) ==> !o.needsRefinement(a.review, a.final))
  {
    var budget := Budget(Capped(maxIterations, pressure), cfg, active);
    var made := r.artifacts[..|tasks|];
    ArtifactOfTask(o, budget, from, tasks, made, |tasks|, i);
    assert made[i] == r.artifacts[i];
    if made[i].Finished? {
      BudgetIsAllowed(|made[i].notes|, maxIterations, pressure, cfg, active);
      BudgetIsAllowed(|made[i].notes| + 1, maxIterations, pressure, cfg, active);
    }
  }

  /** A critique of the first answer is heeded as soon as a second answer is allowed. */
  lemma FirstCritiqueIsHeeded(o: Oracles, maxIterations: int, pressure: Pressure, active: bool, cfg: Config,
                              test: TestRunResult, from: nat, to: nat, tasks: seq<Task>, r: RunRecord, draft: string,
                              review: string)
    requires RecordLaw(o, Capped(maxIterations, pressure), active, cfg, test, from, to, tasks, r)
    requires tasks != [] && !o.approvalRequired(tasks[0].risk) && MayAnswer(1, maxIterations, pressure, cfg, active)
    requires o.replies(from) == Text(draft) && o.replies(from + 1) == Text(review) && o.needsRefinement(review, draft)
    ensures |r.artifacts| > 0 && r.artifacts[0].Finished? && |r.artifacts[0].notes| >= 1
  {
    AnswersOfATask(o, maxIterations, pressure, active, cfg, test, from, to, tasks, r, 0);
    var made := r.artifacts[..|tasks|];
    ArtifactOfTask(o, Budget(Capped(maxIterations, pressure), cfg, active), from, tasks, made, |tasks|, 0);
    assert made[0] == r.artifacts[0] && CallsForAll(made, 0) == 0;
  }

  /** With three iterations asked for and allowed, a critic who is never content gets its three answers. */
  lemma NeverContent(o: Oracles, test: TestRunResult, from: nat, to: nat, tasks: seq<Task>, r: RunRecord)
    requires RecordLaw(o, Capped(3, Lower), true, Config(3, 3, true), test, from, to, tasks, r)
    requires |tasks| == 1 && !o.approvalRequired(tasks[0].risk)
    requires forall review, answer :: o.needsRefinement(review, answer)
    ensures |r.artifacts| > 0 && r.artifacts[0].Finished? && |r.artifacts[0].notes| == 2 && r.passes == 3
  {
    AnswersOfATask(o, 3, Lower, true, Config(3, 3, true), test, from, to, tasks, r, 0);
    PassesOfARun(o, 3, Lower, true, Config(3, 3, true), test, from, to, tasks, r, 2);
    PassesOfARun(o, 3, Lower, true, Config(3, 3, true), test, from, to, tasks, r, 3);
  }

  /** The titles of those among the first `n` tasks that need approval, in plan order. */
  function WaitingTitles(o: Oracles, tasks: seq<Task>, n: nat): seq<string>
    requires n <= |tasks|
  {
    if n == 0 then []
    else
      WaitingTitles(o, tasks, n - 1) + if o.approvalRequired(tasks[n - 1].risk) then [tasks[n - 1].title] else []
  }

  lemma {:induction false} HeldAreWaiting(o: Oracles, budget: nat, from: nat, tasks: seq<Task>,
                                          artifacts: seq<Artifact>, n: nat)
    requires n <= |tasks| && n <= |artifacts| && PlanLaw(o, budget, from, tasks, artifacts, n)
    ensures HeldTitles(artifacts, n) == WaitingTitles(o, tasks, n)
  {
    if n > 0 {
      HeldAreWaiting(o, budget, from, tasks, artifacts, n - 1);
    }
  }

  lemma {:induction false} NoneWaits(o: Oracles, tasks: seq<Task>, n: nat)
    requires n <= |tasks|
    ensures WaitingTitles(o, tasks, n) == [] <==> forall i :: 0 <= i < n ==> !o.approvalRequired(tasks[i].risk)
  {
    if n > 0 {
      NoneWaits(o, tasks, n - 1);
    }
  }

  /** The run is blocked by the tasks that wait for approval, in plan order, and then by its tests, if they failed. */
  lemma BlockedOfARun(o: Oracles, iterations: int, active: bool, cfg: Config, test: TestRunResult, from: nat, to: nat,
                      tasks: seq<Task>, r: RunRecord)
    requires RecordLaw(o, iterations, active, cfg, test, from, to, tasks, r)
    ensures var waiting, failed := WaitingTitles(o, tasks, |tasks|), test.Ran? && test.exitCode != 0;
      && r.blocked == waiting + (if failed then ["tests:" + test.command] else []) && r.approvals == |waiting|
      && (r.success <==> !failed && forall i :: 0 <= i < |tasks| ==> !o.approvalRequired(tasks[i].risk))
      && (r.confidence == HIGH <==> r.success)
      && (r.confidence == LOW <==> |waiting| >= 5 || (failed && |waiting| >= 1))
  {
    var made := r.artifacts[..|tasks|];
    HeldAreWaiting(o, Budget(iterations, cfg, active), from, tasks, made, |tasks|);
    NoneWaits(o, tasks, |tasks|);
  }

  predicate IsFinished(a: Artifact) {
    a.Finished?
  }

  /** How many of the first `n` artifacts are those of finished tasks. */
  function FinishedAmong(artifacts: seq<Artifact>, n: nat): nat
    requires n <= |artifacts|
  {
    |Filter(artifacts[..n], IsFinished)|
  }

  lemma OneMoreFinished(artifacts: seq<Artifact>, n: nat)
    requires n < |artifacts|
    ensures FinishedAmong(artifacts, n + 1) == FinishedAmong(artifacts, n) + if artifacts[n].Finished? then 1 else 0
  {
    assert artifacts[..n + 1][..n] == artifacts[..n];
    FilterLast(artifacts[..n + 1], IsFinished);
  }

  lemma {:induction false} EvidenceLength(artifacts: seq<Artifact>, n: nat)
    requires n <= |artifacts|
    ensures |TaskEvidence(artifacts, n)| == 3 * FinishedAmong(artifacts, n)
  {
    if n > 0 {
      EvidenceLength(artifacts, n - 1);
      OneMoreFinished(artifacts, n - 1);
    }
  }

  lemma {:induction false} EvidenceStays(artifacts: seq<Artifact>, m: nat, n: nat)
    requires m <= n <= |artifacts|
    ensures TaskEvidence(artifacts, m) <= TaskEvidence(artifacts, n)
  {
    if m < n {
      EvidenceStays(artifacts, m, n - 1);
    }
  }

  /** Draft, review and final answer of a task are quoted in the evidence, from place `at` on. */
  ghost predicate Quoted(evidence: seq<string>, at: nat, a: Artifact)
    requires a.Finished?
  {
    at + 3 <= |evidence| && evidence[at..at + 3] == [a.draft, a.review, a.final]
  }

  /** Every finished task is quoted, after those before it. */
  ghost predicate TasksQuoted(told: seq<string>, made: seq<Artifact>) {
    && |told| == 3 * FinishedAmong(made, |made|)
    && forall i {:trigger made[i]} :: 0 <= i < |made| && made[i].Finished? ==>
        Quoted(told, 3 * FinishedAmong(made, i), made[i])
  }

  lemma TaskIsQuoted(made: seq<Artifact>, i: nat)
    requires i < |made| && made[i].Finished?
    ensures Quoted(TaskEvidence(made, |made|), 3 * FinishedAmong(made, i), made[i])
  {
    var before, upTo := TaskEvidence(made, i), TaskEvidence(made, i + 1);
    EvidenceLength(made, i);
    EvidenceStays(made, i + 1, |made|);
    assert upTo == before + [made[i].draft, made[i].review, made[i].final];
    assert upTo[|before|..] == TaskEvidence(made, |made|)[|before|..|before| + 3];
  }

  lemma TaskEvidenceQuotes(made: seq<Artifact>)
    ensures TasksQuoted(TaskEvidence(made, |made|), made)
  {
    EvidenceLength(made, |made|);
    forall i | 0 <= i < |made| && made[i].Finished?
      ensures Quoted(TaskEvidence(made, |made|), 3 * FinishedAmong(made, i), made[i])
    {
      TaskIsQuoted(made, i);
    }
  }

  /** The evidence quotes every finished task, in plan order, the passes, and what the tests printed; nothing else. */
  ghost predicate EvidenceLaw(made: seq<Artifact>, passes: seq<Artifact>, test: TestRunResult,
                              evidence: seq<string>) {
    var all := 3 * FinishedAmong(made, |made|);
    && |evidence| >= all + |passes| && TasksQuoted(evidence[..all], made)
    && (forall p :: 0 <= p < |passes| ==>
        passes[p].Refinement? && evidence[all..all + |passes|][p] == passes[p].output)
    && evidence[all + |passes|..] == if test.Ran? then [test.stdout, test.stderr] else []
  }

  lemma EvidenceOfParts(made: seq<Artifact>, passes: seq<Artifact>, test: TestRunResult, evidence: seq<string>)
    requires forall a <- passes :: a.Refinement?
    requires evidence == (TaskEvidence(made, |made|) + Outputs(passes)
                          + (if test.Ran? then [test.stdout, test.stderr] else []))
    ensures EvidenceLaw(made, passes, test, evidence)
  {
    TaskEvidenceQuotes(made);
    Parts(evidence, TaskEvidence(made, |made|), Outputs(passes), if test.Ran? then [test.stdout, test.stderr] else []);
  }

  lemma EvidenceOfLawfulParts(o: Oracles, budget: nat, test: TestRunResult, from: nat, to: nat, tasks: seq<Task>,
                              made: seq<Artifact>, passes: seq<Artifact>, tests: seq<Artifact>, r: RunRecord)
    requires PartsLaw(o, budget, test, from, to, tasks, made, passes, tests, r)
    ensures EvidenceLaw(made, passes, test, r.evidence)
  {
    EvidenceOfParts(made, passes, test, r.evidence);
  }

  lemma EvidenceOfARun(o: Oracles, iterations: int, active: bool, cfg: Config, test: TestRunResult, from: nat,
                       to: nat, tasks: seq<Task>, r: RunRecord, made: seq<Artifact>, passes: seq<Artifact>)
    requires RecordLaw(o, iterations, active, cfg, test, from, to, tasks, r)
    requires made == r.artifacts[..|tasks|] && passes == r.artifacts[|tasks|..|tasks| + r.passes]
    ensures EvidenceLaw(made, passes, test, r.evidence)
  {
    EvidenceOfLawfulParts(o, Budget(iterations, cfg, active), test, from, to, tasks, made, passes,
                          r.artifacts[|tasks| + r.passes..], r);
  }

  /** What is said of the first `n` artifacts depends on nothing after them. */
  lemma {:induction false} SamePrefix(a: seq<Artifact>, b: seq<Artifact>, n: nat)
    requires n <= |a| && n <= |b| && forall k :: 0 <= k < n ==> a[k] == b[k]
    ensures CallsForAll(a, n) == CallsForAll(b, n) && HeldTitles(a, n) == HeldTitles(b, n)
    ensures TaskEvidence(a, n) == TaskEvidence(b, n)
  {
    if n > 0 {
      SamePrefix(a, b, n - 1);
    }
  }

  lemma {:induction false} SamePlan(o: Oracles, budget: nat, from: nat, tasks: seq<Task>, a: seq<Artifact>,
                                    b: seq<Artifact>, n: nat)
    requires n <= |a| && n <= |b| && n <= |tasks| && forall k :: 0 <= k < n ==> a[k] == b[k]
    requires PlanLaw(o, budget, from, tasks, a, n)
    ensures PlanLaw(o, budget, from, tasks, b, n)
  {
    if n > 0 {
      SamePrefix(a, b, n - 1);
      SamePlan(o, budget, from, tasks, a, b, n - 1);
    }
  }

  lemma Parts<T>(whole: seq<T>, a: seq<T>, b: seq<T>, c: seq<T>)
    requires whole == a + b + c
    ensures whole[..|a|] == a && whole[|a|..|a| + |b|] == b && whole[|a| + |b|..] == c
  {
  }

  /** The task loop after `|made|` tasks, with `to` replies used. */
  ghost predicate Progress(o: Oracles, budget: nat, from: nat, to: nat, tasks: seq<Task>, made: seq<Artifact>,
                           blocked: seq<string>, evidence: seq<string>) {
    var n := |made|;
    && n <= |tasks| && PlanLaw(o, budget, from, tasks, made, n) && to == from + CallsForAll(made, n)
    && blocked == HeldTitles(made, n) && evidence == TaskEvidence(made, n)
  }

  lemma ProgressGrows(o: Oracles, budget: nat, from: nat, at: nat, to: nat, tasks: seq<Task>, made: seq<Artifact>,
                      a: Artifact, blocked: seq<string>, evidence: seq<string>)
    requires Progress(o, budget, from, at, tasks, made, blocked, evidence) && |made| < |tasks|
    requires ArtifactLaw(o, budget, at, tasks[|made|], a) && to == at + CallsFor(a)
    ensures Progress(o, budget, from, to, tasks, made + [a], blocked + HeldBy(a), evidence + EvidenceOf(a))
  {
    var n, next := |made|, made + [a];
    SamePrefix(made, next, n);
    SamePlan(o, budget, from, tasks, made, next, n);
    assert next[n] == a;
    assert PlanLaw(o, budget, from, tasks, next, n + 1);
    assert HeldTitles(next, n + 1) == HeldTitles(next, n) + HeldBy(a);
    assert TaskEvidence(next, n + 1) == TaskEvidence(next, n) + EvidenceOf(a);
  }

  class Executor {
    const o: Oracles
    var calls: nat

    constructor (o: Oracles)
      ensures this.o == o && calls == 0
    {
      this.o, calls := o, 0;
    }

    method Generate() returns (g: Generated)
      modifies this
      ensures g == o.replies(old(calls)) && calls == old(calls) + 1
    {
      g := o.replies(calls);
      calls := calls + 1;
    }

    /** An answer and the review of it. */
    method AnswerAndReview() returns (pair: Option<(string, string)>)
      modifies this
      ensures calls <= old(calls) + 2
      ensures pair.Some? ==> calls == old(calls) + 2 && Said(o, old(calls), pair.value.0)
      ensures pair.Some? ==> Said(o, old(calls) + 1, pair.value.1)
      ensures pair == None ==> calls > old(calls) && o.replies(calls - 1) == Raises
    {
      var answer := Generate();
      if answer == Raises {
        return None;
      }
      var review := Generate();
      if review == Raises {
        return None;
      }
      return Some((answer.text, review.text));
    }

    /** Drafts, reviews and refines one task; no artifact when a call of the model raised. */
    method FinishTask(task: Task, position: nat, budget: nat) returns (a: Option<Artifact>)
      requires budget >= 1
      modifies this, task
      ensures calls <= old(calls) + 2 * budget
      ensures a == None ==> calls > old(calls) && o.replies(calls - 1) == Raises
      ensures a == None ==> task.done == old(task.done) && task.evidence == old(task.evidence)
      ensures a == None ==> task.artifacts == old(task.artifacts)
      ensures a.Some? ==> a.value.Finished? && a.value.task == task.title && a.value.owner == task.owner
      ensures a.Some? ==> a.value.risk == task.risk
      ensures a.Some? ==> FinishedLaw(o, budget, old(calls), a.value) && calls == old(calls) + CallsFor(a.value)
      ensures a.Some? ==> task.done && task.artifacts == old(task.artifacts) + [position + 1]
      ensures a.Some? ==>
        task.evidence == (old(task.evidence)
                          + [Cut(a.value.draft, 1000), Cut(a.value.review, 1000), Cut(a.value.final, 1000)])
    {
      var first := AnswerAndReview();
      if first == None {
        return None;
      }
      var draft, refined, review, notes := first.value.0, first.value.0, first.value.1, [];
      ghost var from := old(calls);
      while |notes| < budget - 1 && o.needsRefinement(review, refined)
        invariant |notes| < budget && calls == from + 2 * |notes| + 2
        invariant Said(o, from, draft) && Said(o, from + 2 * |notes|, refined)
        invariant Said(o, from + 2 * |notes| + 1, review)
        invariant forall j: nat :: j < |notes| ==> NoteLaw(o, from, j, notes[j])
        invariant task.done == old(task.done) && task.evidence == old(task.evidence)
        invariant task.artifacts == old(task.artifacts)
        decreases budget - |notes|
      {
        assert NoteLaw(o, from, |notes|, Cut(review, 800));
        var again := AnswerAndReview();
        if again == None {
          return None;
        }
        notes := notes + [Cut(review, 800)];
        refined, review := again.value.0, again.value.1;
      }
      task.evidence := task.evidence + [Cut(draft, 1000), Cut(review, 1000), Cut(refined, 1000)];
      task.done := true;
      task.artifacts := task.artifacts + [position + 1];
      return Some(Finished(task.title, task.owner, task.risk, draft, review, refined, notes));
    }

    /** One task: held when approval is required, finished otherwise. */
    method HandleTask(task: Task, position: nat, budget: nat) returns (a: Option<Artifact>)
      requires budget >= 1
      modifies this, if o.approvalRequired(task.risk) then {} else {task}
      ensures a == None ==> calls > old(calls) && o.replies(calls - 1) == Raises
      ensures a.Some? ==> ArtifactLaw(o, budget, old(calls), task, a.value) && calls == old(calls) + CallsFor(a.value)
      ensures a.Some? && !o.approvalRequired(task.risk) ==> task.done
      ensures old(task.done) ==> task.done
    {
      if o.approvalRequired(task.risk) {
        return Some(Held(task.title, task.owner, task.risk));
      }
      a := FinishTask(task, position, budget);
    }

    /** The task loop; no artifacts when a call of the model raised. */
    method RunTasks(tasks: seq<Task>, budget: nat, ghost open: set<Task>)
      returns (artifacts: Option<seq<Artifact>>, evidence: seq<string>, blocked: seq<string>)
      requires budget >= 1 && forall k :: 0 <= k < |tasks| ==> o.approvalRequired(tasks[k].risk) || tasks[k] in open
      modifies this, open
      ensures artifacts == None ==> calls > old(calls) && o.replies(calls - 1) == Raises
      ensures artifacts.Some? ==> |artifacts.value| == |tasks|
      ensures artifacts.Some? ==> PlanLaw(o, budget, old(calls), tasks, artifacts.value, |tasks|)
      ensures artifacts.Some? ==> calls == old(calls) + CallsForAll(artifacts.value, |tasks|)
      ensures artifacts.Some? ==> blocked == HeldTitles(artifacts.value, |tasks|)
      ensures artifacts.Some? ==> evidence == TaskEvidence(artifacts.value, |tasks|)
      ensures artifacts.Some? ==> forall k :: 0 <= k < |tasks| ==> o.approvalRequired(tasks[k].risk) || tasks[k].done
    {
      var made: seq<Artifact> := [];
      evidence, blocked := [], [];
      for i := 0 to |tasks|
        invariant |made| == i && Progress(o, budget, old(calls), calls, tasks, made, blocked, evidence)
        invariant forall k :: 0 <= k < i ==> o.approvalRequired(tasks[k].risk) || tasks[k].done
      {
        ghost var at := calls;
        var a := HandleTask(tasks[i], i, budget);
        if a == None {
          return None, evidence, blocked;
        }
        ProgressGrows(o, budget, old(calls), at, calls, tasks, made, a.value, blocked, evidence);
        made, blocked, evidence := made + [a.value], blocked + HeldBy(a.value), evidence + EvidenceOf(a.value);
      }
      return Some(made), evidence, blocked;
    }

    /** The refinement passes over the whole run. */
    method RefineRun(passes: nat) returns (made: Option<seq<Artifact>>)
      modifies this
      ensures made == None ==> old(calls) < calls <= old(calls) + passes && o.replies(calls - 1) == Raises
      ensures made.Some? ==> calls == old(calls) + passes && PassesLaw(o, old(calls), passes, made.value)
    {
      var artifacts: seq<Artifact> := [];
      for pass := 0 to passes
        invariant calls == old(calls) + pass && PassesLaw(o, old(calls), pass, artifacts)
      {
        var g := Generate();
        if g == Raises {
          return None;
        }
        artifacts := artifacts + [Refinement(pass + 1, g.text)];
      }
      return Some(artifacts);
    }

    /** The tests, the verdict and the record of a run. */
    method Conclude(taskArtifacts: seq<Artifact>, refinements: seq<Artifact>, taskEvidence: seq<string>,
                    held: seq<string>, passes: nat, test: TestRunResult)
      returns (r: RunRecord)
      requires forall a <- refinements :: a.Refinement?
      ensures r.artifacts == taskArtifacts + refinements + TestArtifacts(test) && r.passes == passes
      ensures r.approvals == |held|
      ensures r.evidence == taskEvidence + Outputs(refinements) + (if test.Ran? then [test.stdout, test.stderr] else [])
      ensures r.blocked == held + (if TestsFailed(test) then ["tests:" + test.command] else [])
      ensures r.success <==> r.blocked == []
      ensures r.confidence == ConfidenceOf(|r.blocked|, test)
    {
      var artifacts, evidence, blocked := taskArtifacts + refinements, taskEvidence + Outputs(refinements), held;
      var success := true;
      if test.Ran? {
        artifacts := artifacts + [TestRun(test.command, test.exitCode)];
        evidence := evidence + [test.stdout, test.stderr];
        if test.exitCode != 0 {
          success := false;
          blocked := blocked + ["tests:" + test.command];
        }
      }
      if blocked != [] && success {
        success := false;
      }
      return RunRecord(success, evidence, artifacts, blocked, |held|, passes, ConfidenceOf(|blocked|, test));
    }

    /** `execute_plan`: the tasks, the passes over the run, the tests, and the verdict. */
    method ExecutePlan(tasks: seq<Task>, maxIterations: int, pressure: Pressure, autonomous: bool, cfg: Config,
                       test: TestRunResult, ghost open: set<Task>)
      returns (r: Option<RunRecord>)
      requires forall k :: 0 <= k < |tasks| ==> o.approvalRequired(tasks[k].risk) || tasks[k] in open
      modifies this, open
      ensures r == None ==> calls > old(calls) && o.replies(calls - 1) == Raises
      ensures r == None || RecordLaw(o, Capped(maxIterations, pressure), autonomous && cfg.autonomous, cfg, test,
                                     old(calls), calls, tasks, r.value)
      ensures r.Some? ==> forall k :: 0 <= k < |tasks| ==> o.approvalRequired(tasks[k].risk) || tasks[k].done
    {
      var iterations, active := Capped(maxIterations, pressure), autonomous && cfg.autonomous;
      var taskArtifacts, evidence, blocked := RunTasks(tasks, Budget(iterations, cfg, active), open);
      if taskArtifacts == None {
        return None;
      }
      ghost var middle := calls;
      var passes := RunPasses(iterations, cfg, active);
      var refinements := RefineRun(passes);
      if refinements == None {
        return None;
      }
      var record := Conclude(taskArtifacts.value, refinements.value, evidence, blocked, passes, test);
      VerdictIsLawful(blocked, test, record);
      CompletedRun(o, iterations, active, cfg, test, old(calls), middle, calls, tasks, taskArtifacts.value,
                   refinements.value, record);
      return Some(record);
    }
  }
}
