/** What the guards guarantee over whole runs in which calls of any tools overlap. */
module ToolTraces {
  import opened PyLists
  import opened ToolDispatch

  /** Thresholds and limits stay fixed over a run. */
  datatype Context = Context(limits: Limits, registry: set<string>)

  datatype Event = StartCall(tool: string, checkedAt: real, admittedAt: real)
    | EndCall(call: nat, ending: Ending, now: real)

  /**
   The guards together with what an observer sees: the calls in flight, the clock, every admission so far,
   and when each tool last reached the rate limiter.
   */
  datatype World = World(guards: Guards, inFlight: map<nat, string>, calls: nat, clock: real,
                         admitted: map<string, seq<real>>, checked: map<string, real>)
  {
    function History(tool: string): seq<real> {
      if tool in admitted then admitted[tool] else []
    }

    function LastChecked(tool: string): Option<real> {
      if tool in checked then Some(checked[tool]) else None
    }
  }

  function Verdict(ctx: Context, w: World, e: Event): Admission
    requires e.StartCall?
  {
    Begin(ctx.limits, ctx.registry, w.guards, e.tool, e.checkedAt, e.admittedAt).1
  }

  function Step(ctx: Context, w: World, e: Event): World {
    match e
    case StartCall(tool, checkedAt, admittedAt) =>
      var (g, r) := Begin(ctx.limits, ctx.registry, w.guards, tool, checkedAt, admittedAt);
      var seen := w.(guards := g, clock := admittedAt,
                     checked := if r == Admitted || r == RateLimited then w.checked[tool := admittedAt] else w.checked);
      if r != Admitted then seen
      else seen.(inFlight := w.inFlight[w.calls := tool], calls := w.calls + 1,
                 admitted := w.admitted[tool := w.History(tool) + [admittedAt]])
    case EndCall(call, ending, now) =>
      if call !in w.inFlight then w
      else w.(guards := Finish(ctx.limits, w.guards, w.inFlight[call], ending, now), inFlight := w.inFlight - {call},
              clock := now)
  }

  /** The world after the first `k` events. */
  function After(ctx: Context, es: seq<Event>, k: nat): World
    requires k <= |es|
  {
    if k == 0 then World(Guards(map[], map[]), map[], 0, 0.0, map[], map[])
    else Step(ctx, After(ctx, es, k - 1), es[k - 1])
  }

  /** The clock does not run backwards, and only calls in flight end. */
  ghost predicate LegalStep(w: World, e: Event) {
    match e
    case StartCall(_, checkedAt, admittedAt) => w.clock <= checkedAt <= admittedAt
    case EndCall(call, _, now) => call in w.inFlight && w.clock <= now
  }

  ghost predicate Legal(ctx: Context, es: seq<Event>) {
    forall k {:trigger After(ctx, es, k)} :: 0 <= k < |es| ==> LegalStep(After(ctx, es, k), es[k])
  }

  // ----- circuit breaker

  /** The event ends a call of `tool` with a timeout or an exception. */
  predicate FailsTool(w: World, e: Event, tool: string) {
    e.EndCall? && e.call in w.inFlight && w.inFlight[e.call] == tool && (e.ending.TimedOut? || e.ending.RaisedError?)
  }

  /** The event ends a call of `tool` with a result. */
  predicate ReturnsTool(w: World, e: Event, tool: string) {
    e.EndCall? && e.call in w.inFlight && w.inFlight[e.call] == tool && e.ending.ReturnedResult?
  }

  /** What an observer of the calls keeps of a tool: its failures in a row, and when they last reached the threshold. */
  datatype Watch = Watch(streak: nat, since: real) {
    predicate Reached(limits: Limits) {
      streak >= limits.threshold
    }

    /** A call at time `at` comes too early after the failures that reached the threshold. */
    predicate TooEarly(limits: Limits, at: real) {
      Reached(limits) && at - since < limits.resetSeconds
    }
  }

  /** The event is a call of `tool` that comes late enough to be let through again. */
  predicate Expires(ctx: Context, e: Event, tool: string, h: Watch) {
    e.StartCall? && e.tool == tool && tool in ctx.registry && h.Reached(ctx.limits)
      && !h.TooEarly(ctx.limits, e.checkedAt)
  }

  /** A failure prolongs the row; a result, and a call let through again, end it. */
  function Observe(ctx: Context, w: World, e: Event, tool: string, h: Watch): Watch {
    if FailsTool(w, e, tool) then Watch(h.streak + 1, if h.streak + 1 == ctx.limits.threshold then e.now else h.since)
    else if ReturnsTool(w, e, tool) || Expires(ctx, e, tool, h) then Watch(0, h.since)
    else h
  }

  /** What the first `k` events of a run say about a tool, without a look at its breaker. */
  function Watched(ctx: Context, es: seq<Event>, k: nat, tool: string): Watch
    requires k <= |es|
  {
    if k == 0 then Watch(0, 0.0)
    else Observe(ctx, After(ctx, es, k - 1), es[k - 1], tool, Watched(ctx, es, k - 1, tool))
  }

  /** The breaker says what an observer knows. */
  ghost predicate Agrees(limits: Limits, b: Breaker, h: Watch) {
    b.failures == h.streak && (b.open <==> h.Reached(limits)) && (b.open ==> b.openedAt == h.since)
  }

  lemma ObserveStep(ctx: Context, w: World, e: Event, tool: string, h: Watch)
    requires ctx.limits.threshold >= 1 && Agrees(ctx.limits, w.guards.BreakerOf(tool), h)
    ensures Agrees(ctx.limits, Step(ctx, w, e).guards.BreakerOf(tool), Observe(ctx, w, e, tool, h))
  {
  }

  /**
   In every state of every run the failure count is the number of failures in a row, and the circuit is open exactly
   when they have reached the threshold, since the moment they did.
   */
  lemma {:induction false} OpenIffThresholdReached(ctx: Context, es: seq<Event>, k: nat, tool: string)
    requires ctx.limits.threshold >= 1 && k <= |es|
    ensures var b, h := After(ctx, es, k).guards.BreakerOf(tool), Watched(ctx, es, k, tool);
      b.failures == h.streak && (b.open <==> h.streak >= ctx.limits.threshold) && (b.open ==> b.openedAt == h.since)
  {
    if k > 0 {
      OpenIffThresholdReached(ctx, es, k - 1, tool);
      ObserveStep(ctx, After(ctx, es, k - 1), es[k - 1], tool, Watched(ctx, es, k - 1, tool));
    }
  }

  /** Between two points of a run no call of `tool`, in flight at the first point, returned a result. */
  ghost predicate NoneReturned(es: seq<Event>, inFlight: map<nat, string>, tool: string, i: nat, k: nat)
    requires k <= |es|
  {
    forall m :: i < m < k && es[m].EndCall? && es[m].call in inFlight && inFlight[es[m].call] == tool ==>
      !es[m].ending.ReturnedResult?
  }

  /** The circuit has stayed open since it was opened at `since`, and no further call of `tool` has started. */
  ghost predicate StillOpen(w: World, tool: string, since: real, inFlight: map<nat, string>) {
    && w.guards.BreakerOf(tool).open && w.guards.BreakerOf(tool).openedAt == since
    && (forall c :: c in w.inFlight && w.inFlight[c] == tool ==> c in inFlight && inFlight[c] == tool)
  }

  lemma StillOpenStep(ctx: Context, w: World, e: Event, tool: string, since: real, inFlight: map<nat, string>)
    requires LegalStep(w, e) && StillOpen(w, tool, since, inFlight)
    requires e.EndCall? && e.call in inFlight && inFlight[e.call] == tool ==> !e.ending.ReturnedResult?
    ensures StillOpen(Step(ctx, w, e), tool, since, inFlight)
      || Step(ctx, w, e).clock >= since + ctx.limits.resetSeconds
  {
  }

  /** While nothing returns, an opened circuit stays open until the reset time has passed. */
  lemma {:induction false} OpenOrExpired(ctx: Context, es: seq<Event>, i: nat, k: nat, tool: string)
    requires Legal(ctx, es) && i < k <= |es|
    requires After(ctx, es, i + 1).guards.BreakerOf(tool).open
    requires NoneReturned(es, After(ctx, es, i + 1).inFlight, tool, i, k)
    ensures var start := After(ctx, es, i + 1);
      var since := start.guards.BreakerOf(tool).openedAt;
      StillOpen(After(ctx, es, k), tool, since, start.inFlight)
        || After(ctx, es, k).clock >= since + ctx.limits.resetSeconds
  {
    if k > i + 1 {
      OpenOrExpired(ctx, es, i, k - 1, tool);
      var start, w := After(ctx, es, i + 1), After(ctx, es, k - 1);
      var since := start.guards.BreakerOf(tool).openedAt;
      assert LegalStep(w, es[k - 1]);
      if StillOpen(w, tool, since, start.inFlight) {
        StillOpenStep(ctx, w, es[k - 1], tool, since, start.inFlight);
      }
    }
  }

  /**
   Failures that reach the threshold keep every call of their tool out for the reset time, unless a call that was
   already in flight then has returned in the meantime.
   */
  lemma NoStartWithinReset(ctx: Context, es: seq<Event>, i: nat, j: nat)
    requires ctx.limits.threshold >= 1 && Legal(ctx, es) && i < j < |es|
    requires es[j].StartCall? && Verdict(ctx, After(ctx, es, j), es[j]) == Admitted
    requires Watched(ctx, es, i + 1, es[j].tool).TooEarly(ctx.limits, es[j].checkedAt)
    ensures var inFlight := After(ctx, es, i + 1).inFlight;
      exists m :: i < m < j && es[m].EndCall? && es[m].ending.ReturnedResult? && es[m].call in inFlight
                  && inFlight[es[m].call] == es[j].tool
  {
    var start := After(ctx, es, i + 1);
    OpenIffThresholdReached(ctx, es, i + 1, es[j].tool);
    assert LegalStep(After(ctx, es, j), es[j]);
    if NoneReturned(es, start.inFlight, es[j].tool, i, j) {
      OpenOrExpired(ctx, es, i, j, es[j].tool);
    }
  }

  /**
   A call is refused by its circuit exactly when the failures
   in a row have reached the threshold too short a time ago.
   */
  lemma RefusedIffTooEarly(ctx: Context, es: seq<Event>, j: nat)
    requires ctx.limits.threshold >= 1 && j < |es| && es[j].StartCall?
    ensures Verdict(ctx, After(ctx, es, j), es[j]) == CircuitOpen <==>
      es[j].tool in ctx.registry && Watched(ctx, es, j, es[j].tool).TooEarly(ctx.limits, es[j].checkedAt)
  {
    OpenIffThresholdReached(ctx, es, j, es[j].tool);
  }

  /** The failures of a tool from event `from` up to event `to` of a run. */
  function FailuresBetween(ctx: Context, es: seq<Event>, from: nat, to: nat, tool: string): nat
    requires from <= to <= |es|
  {
    if from == to then 0
    else
      FailuresBetween(ctx, es, from, to - 1, tool)
      + if FailsTool(After(ctx, es, to - 1), es[to - 1], tool) then 1 else 0
  }

  /** Event `m` of the run is no returned call of the tool, and no call let through again. */
  ghost predicate KeepsRow(ctx: Context, es: seq<Event>, m: nat, tool: string)
    requires m < |es|
  {
    !ReturnsTool(After(ctx, es, m), es[m], tool) && !Expires(ctx, es[m], tool, Watched(ctx, es, m, tool))
  }

  ghost predicate Unbroken(ctx: Context, es: seq<Event>, from: nat, to: nat, tool: string)
    requires from <= to <= |es|
  {
    forall m {:trigger KeepsRow(ctx, es, m, tool)} :: from <= m < to ==> KeepsRow(ctx, es, m, tool)
  }

  lemma {:induction false} FailuresAddUp(ctx: Context, es: seq<Event>, from: nat, to: nat, tool: string)
    requires from <= to <= |es| && Unbroken(ctx, es, from, to, tool)
    ensures Watched(ctx, es, to, tool).streak ==
      Watched(ctx, es, from, tool).streak + FailuresBetween(ctx, es, from, to, tool)
  {
    if from < to {
      FailuresAddUp(ctx, es, from, to - 1, tool);
      assert KeepsRow(ctx, es, to - 1, tool);
    }
  }

  /**
   A call let through after the reset time ends the row: the
   circuit is closed again, rather than half open for one probe.
   */
  lemma ExpiryEndsStreak(ctx: Context, es: seq<Event>, k: nat, tool: string)
    requires ctx.limits.threshold >= 1 && k < |es| && Expires(ctx, es[k], tool, Watched(ctx, es, k, tool))
    ensures Watched(ctx, es, k + 1, tool).streak == 0 && !After(ctx, es, k + 1).guards.BreakerOf(tool).open
  {
    OpenIffThresholdReached(ctx, es, k + 1, tool);
  }

  /**
   As long as the row is unbroken, the circuit is open exactly
   when the failures recorded anew complete a full threshold.
   */
  lemma OpenAfterFullThreshold(ctx: Context, es: seq<Event>, from: nat, to: nat, tool: string)
    requires ctx.limits.threshold >= 1 && from <= to <= |es| && Unbroken(ctx, es, from, to, tool)
    ensures After(ctx, es, to).guards.BreakerOf(tool).open <==>
      Watched(ctx, es, from, tool).streak + FailuresBetween(ctx, es, from, to, tool) >= ctx.limits.threshold
  {
    OpenIffThresholdReached(ctx, es, to, tool);
    FailuresAddUp(ctx, es, from, to, tool);
  }

  const PROBED := Context(Limits(1, 60.0, map[], 30), {"t"})

  const PROBES := [StartCall("t", 0.0, 0.0), EndCall(0, TimedOut, 1.0), StartCall("t", 61.0, 61.0),
                   StartCall("t", 61.0, 61.0)]

  lemma OpenedOnce()
    ensures After(PROBED, PROBES, 1).clock == 0.0 && 0 in After(PROBED, PROBES, 1).inFlight
    ensures var w := After(PROBED, PROBES, 2);
      && w.guards == Guards(map["t" := Breaker(1, true, 1.0)], map["t" := [0.0]]) && w.calls == 1 && w.clock == 1.0
  {
    var w0, w1 := After(PROBED, PROBES, 0), After(PROBED, PROBES, 1);
    assert w1 == Step(PROBED, w0, PROBES[0]) && w1.guards.WindowOf("t") == [0.0] && w1.inFlight == map[0 := "t"];
    assert After(PROBED, PROBES, 2) == Step(PROBED, w1, PROBES[1]);
  }

  /**
   Two calls that both come after the reset time are both let through, the second while the first is still in flight.
   */
  lemma TwoProbes()
    ensures Legal(PROBED, PROBES) && After(PROBED, PROBES, 2).guards.BreakerOf("t").open
    ensures Verdict(PROBED, After(PROBED, PROBES, 2), PROBES[2]) == Admitted
    ensures Verdict(PROBED, After(PROBED, PROBES, 3), PROBES[3]) == Admitted && 1 in After(PROBED, PROBES, 3).inFlight
  {
    OpenedOnce();
    var w2, w3 := After(PROBED, PROBES, 2), After(PROBED, PROBES, 3);
    assert Prune([0.0], 61.0) == [] && Prune([61.0], 61.0) == [61.0];
    assert w3 == Step(PROBED, w2, PROBES[2]) && w3.guards.BreakerOf("t") == Breaker(0, false, 1.0);
    assert w3.guards.WindowOf("t") == [61.0] && w3.clock == 61.0;
  }

  // ----- rate limiter

  ghost predicate Sorted(s: seq<real>) {
    forall i, j :: 0 <= i <= j < |s| ==> s[i] <= s[j]
  }

  /** Pruning again later is pruning once at the later time. */
  lemma {:induction false} PruneTwice(s: seq<real>, earlier: real, now: real)
    requires earlier <= now
    ensures Prune(Prune(s, earlier), now) == Prune(s, now)
  {
    if s != [] && earlier - s[0] > WINDOW_SECONDS {
      PruneTwice(s[1..], earlier, now);
    }
  }

  lemma {:induction false} PruneAppend(s: seq<real>, now: real)
    ensures Prune(s + [now], now) == Prune(s, now) + [now]
  {
    if s == [] {
      assert s + [now] == [now];
    } else if now - s[0] > WINDOW_SECONDS {
      PruneAppend(s[1..], now);
      assert (s + [now])[1..] == s[1..] + [now];
    } else {
      assert (s + [now])[0] == s[0];
    }
  }

  /** Pruning cuts an ordered history exactly between what is older than a window and what is not. */
  lemma {:induction false} PruneIsRecentSuffix(s: seq<real>, now: real)
    ensures |Prune(s, now)| <= |s| && Prune(s, now) == s[|s| - |Prune(s, now)|..]
    ensures forall i :: 0 <= i < |s| - |Prune(s, now)| ==> now - s[i] > WINDOW_SECONDS
    ensures Sorted(s) ==> forall i :: |s| - |Prune(s, now)| <= i < |s| ==> now - s[i] <= WINDOW_SECONDS
  {
    if s != [] && now - s[0] > WINDOW_SECONDS {
      PruneIsRecentSuffix(s[1..], now);
      var kept := |Prune(s, now)|;
      assert s[1..][|s| - 1 - kept..] == s[|s| - kept..];
      forall i | 0 <= i < |s| - kept
        ensures now - s[i] > WINDOW_SECONDS
      {
        if i > 0 {
          assert s[i] == s[1..][i - 1];
        }
      }
      if Sorted(s) {
        assert Sorted(s[1..]);
        forall i | |s| - kept <= i < |s|
          ensures now - s[i] <= WINDOW_SECONDS
        {
          assert s[i] == s[1..][i - 1];
        }
      }
    }
  }

  /** Admissions a limit apart in the history are more than a window apart in time. */
  ghost predicate Spaced(history: seq<real>, limit: int) {
    if limit <= 0 then history == []
    else forall i, j :: 0 <= i && j == i + limit < |history| ==> history[j] - history[i] > WINDOW_SECONDS
  }

  /** The deque is the still-recent part of the full history of admissions, and the history respects the limit. */
  ghost predicate RateLaw(history: seq<real>, window: seq<real>, checked: Option<real>, clock: real, limit: int) {
    && Sorted(history) && Spaced(history, limit)
    && (history != [] ==> history[|history| - 1] <= clock)
    && (match checked
        case Some(at) => at <= clock && window == Prune(history, at)
        case None => history == [] && window == [])
  }

  ghost predicate RateInvariant(ctx: Context, w: World, tool: string) {
    RateLaw(w.History(tool), w.guards.WindowOf(tool), w.LastChecked(tool), w.clock, ctx.limits.LimitOf(tool))
  }

  lemma SpacedAppend(history: seq<real>, limit: int, now: real)
    requires Spaced(history, limit) && |Prune(history, now)| < limit
    ensures Spaced(history + [now], limit)
  {
    PruneIsRecentSuffix(history, now);
  }

  lemma RateCheckKeepsLaw(history: seq<real>, window: seq<real>, checked: Option<real>, clock: real, limit: int,
                          now: real)
    requires RateLaw(history, window, checked, clock, limit) && clock <= now
    ensures var recent := Prune(window, now);
      if |recent| < limit then RateLaw(history + [now], recent + [now], Some(now), now, limit)
      else RateLaw(history, recent, Some(now), now, limit)
  {
    if checked.Some? {
      PruneTwice(history, checked.value, now);
    }
    PruneAppend(history, now);
    if |Prune(window, now)| < limit {
      SpacedAppend(history, limit, now);
    }
  }

  /** What a step does to one tool's side of the rate limiter. */
  lemma RateProjection(ctx: Context, w: World, e: Event, tool: string)
    ensures var w' := Step(ctx, w, e);
      var recent := Prune(w.guards.WindowOf(tool), if e.StartCall? then e.admittedAt else 0.0);
      if e.StartCall? && e.tool == tool && Verdict(ctx, w, e) == Admitted then
        && |recent| < ctx.limits.LimitOf(tool)
        && w'.History(tool) == w.History(tool) + [e.admittedAt] && w'.guards.WindowOf(tool) == recent + [e.admittedAt]
        && w'.LastChecked(tool) == Some(e.admittedAt) && w'.clock == e.admittedAt
      else if e.StartCall? && e.tool == tool && Verdict(ctx, w, e) == RateLimited then
        && |recent| >= ctx.limits.LimitOf(tool)
        && w'.History(tool) == w.History(tool) && w'.guards.WindowOf(tool) == recent
        && w'.LastChecked(tool) == Some(e.admittedAt) && w'.clock == e.admittedAt
      else
        && w'.History(tool) == w.History(tool) && w'.guards.WindowOf(tool) == w.guards.WindowOf(tool)
        && w'.LastChecked(tool) == w.LastChecked(tool) && (LegalStep(w, e) ==> w'.clock >= w.clock)
  {
  }

  lemma RateStep(ctx: Context, w: World, e: Event, tool: string)
    requires RateInvariant(ctx, w, tool) && LegalStep(w, e)
    ensures RateInvariant(ctx, Step(ctx, w, e), tool)
  {
    RateProjection(ctx, w, e, tool);
    if e.StartCall? && e.tool == tool && (Verdict(ctx, w, e) == Admitted || Verdict(ctx, w, e) == RateLimited) {
      RateCheckKeepsLaw(w.History(tool), w.guards.WindowOf(tool), w.LastChecked(tool), w.clock,
                        ctx.limits.LimitOf(tool), e.admittedAt);
    }
  }

  lemma {:induction false} RateInvariantHolds(ctx: Context, es: seq<Event>, k: nat, tool: string)
    requires Legal(ctx, es) && k <= |es|
    ensures RateInvariant(ctx, After(ctx, es, k), tool)
  {
    if k > 0 {
      RateInvariantHolds(ctx, es, k - 1, tool);
      RateStep(ctx, After(ctx, es, k - 1), es[k - 1], tool);
    }
  }

  // ----- counting admissions in a window

  /** The positions of the history whose admission falls into the closed window starting at `a`. */
  ghost function InWindow(history: seq<real>, a: real): set<int> {
    set i | 0 <= i < |history| && a <= history[i] <= a + 60.0
  }

  function Range(lo: int, n: nat): (r: set<int>)
    ensures forall i :: i in r <==> lo <= i < lo + n
    ensures |r| == n
  {
    if n == 0 then {} else Range(lo, n - 1) + {lo + n - 1}
  }

  /** The first position at or after time `a`. */
  function FirstFrom(history: seq<real>, a: real): (first: nat)
    ensures first <= |history| && (forall i :: 0 <= i < first ==> history[i] < a)
    ensures first < |history| ==> history[first] >= a
  {
    if history == [] || history[0] >= a then 0 else 1 + FirstFrom(history[1..], a)
  }

  /** Every closed interval of one minute holds at most `limit` admissions of a tool, over any run. */
  lemma AtMostLimitPerWindow(ctx: Context, es: seq<Event>, k: nat, tool: string, a: real)
    requires Legal(ctx, es) && k <= |es|
    ensures var limit := ctx.limits.LimitOf(tool);
      |InWindow(After(ctx, es, k).History(tool), a)| <= if limit > 0 then limit else 0
  {
    RateInvariantHolds(ctx, es, k, tool);
    var history, limit := After(ctx, es, k).History(tool), ctx.limits.LimitOf(tool);
    var first := FirstFrom(history, a);
    if limit > 0 {
      if first + limit < |history| {
        assert history[first + limit] - history[first] > WINDOW_SECONDS;
      }
      assert InWindow(history, a) <= Range(first, limit);
      SubsetOfSameSize(InWindow(history, a), Range(first, limit));
    }
  }

  /** The deque is exactly the part of the history that was at most a window old at the last check. */
  lemma DequeIsRecentHistory(ctx: Context, es: seq<Event>, k: nat, tool: string)
    requires Legal(ctx, es) && k <= |es| && tool in After(ctx, es, k).checked
    ensures var w := After(ctx, es, k);
      var history, deque, now := w.History(tool), w.guards.WindowOf(tool), w.checked[tool];
      && |deque| <= |history| && deque == history[|history| - |deque|..]
      && forall i :: 0 <= i < |history| ==> (now - history[i] <= 60.0 <==> i >= |history| - |deque|)
  {
    RateInvariantHolds(ctx, es, k, tool);
    PruneIsRecentSuffix(After(ctx, es, k).History(tool), After(ctx, es, k).checked[tool]);
  }

  // ----- the verdict on every call

  /** The admissions at most a window old at time `now`. */
  ghost function Recent(history: seq<real>, now: real): set<int> {
    set i | 0 <= i < |history| && now - history[i] <= 60.0
  }

  lemma RecentIsPruned(history: seq<real>, now: real)
    requires Sorted(history)
    ensures |Recent(history, now)| == |Prune(history, now)|
  {
    PruneIsRecentSuffix(history, now);
    var kept := |Prune(history, now)|;
    assert Recent(history, now) == Range(|history| - kept, kept);
  }

  /**
   What becomes of any call of any run: the circuit refuses it exactly when the failures in a row have reached the
   threshold too short a time ago, the limiter exactly when the limit of admissions lies within the last minute.
   */
  lemma VerdictOnEveryCall(ctx: Context, es: seq<Event>, j: nat)
    requires ctx.limits.threshold >= 1 && Legal(ctx, es) && j < |es| && es[j].StartCall?
    ensures var w, tool := After(ctx, es, j), es[j].tool;
      Verdict(ctx, w, es[j]) ==
        if tool !in ctx.registry then UnknownTool
        else if Watched(ctx, es, j, tool).TooEarly(ctx.limits, es[j].checkedAt) then CircuitOpen
        else if |Recent(w.History(tool), es[j].admittedAt)| >=
          (if tool in ctx.limits.perTool then ctx.limits.perTool[tool] else ctx.limits.perMinute) then RateLimited
        else Admitted
  {
    var w, tool, now := After(ctx, es, j), es[j].tool, es[j].admittedAt;
    RefusedIffTooEarly(ctx, es, j);
    RateInvariantHolds(ctx, es, j, tool);
    assert LegalStep(w, es[j]);
    RecentIsPruned(w.History(tool), now);
    if w.LastChecked(tool).Some? {
      PruneTwice(w.History(tool), w.LastChecked(tool).value, now);
    }
    RateProjection(ctx, w, es[j], tool);
  }
}
