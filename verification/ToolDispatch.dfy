/** The guards around every tool call: a sliding-window rate limiter and a circuit breaker per tool. */
module ToolDispatch {
  import opened PyLists

  const WINDOW_SECONDS := 60.0

  datatype Breaker = Breaker(failures: int, open: bool, openedAt: real)

  datatype Limits = Limits(threshold: int, resetSeconds: real, perTool: map<string, int>, perMinute: int) {
    function LimitOf(tool: string): int {
      if tool in perTool then perTool[tool] else perMinute
    }
  }

  /** The two module-level dictionaries. */
  datatype Guards = Guards(breakers: map<string, Breaker>, windows: map<string, seq<real>>) {
    function BreakerOf(tool: string): Breaker {
      if tool in breakers then breakers[tool] else Breaker(0, false, 0.0)
    }

    function WindowOf(tool: string): seq<real> {
      if tool in windows then windows[tool] else []
    }
  }

  datatype Admission = UnknownTool | CircuitOpen | RateLimited | Admitted

  /**
   How a call ends; a tool that returns an error status has still returned, and a cancelled call is never recorded.
   */
  datatype Ending = ReturnedResult(status: string) | TimedOut | RaisedError | Cancelled

  // ----- the guards as functions

  function CheckCircuit(limits: Limits, g: Guards, tool: string, now: real): (r: (Guards, bool)) {
    if tool !in g.breakers || !g.breakers[tool].open then (g, true)
    else if now - g.breakers[tool].openedAt < limits.resetSeconds then (g, false)
    else (g.(breakers := g.breakers[tool := g.breakers[tool].(open := false, failures := 0)]), true)
  }

  function RecordCall(limits: Limits, g: Guards, tool: string, success: bool, now: real): Guards {
    var b := g.BreakerOf(tool);
    var failures := b.failures + 1;
    g.(breakers := g.breakers[tool :=
      if success then Breaker(0, false, b.openedAt)
      else if failures >= limits.threshold && !b.open then Breaker(failures, true, now)
      else b.(failures := failures)])
  }

  /** Drops admissions more than a window old from the front. */
  function Prune(window: seq<real>, now: real): seq<real> {
    if window != [] && now - window[0] > WINDOW_SECONDS then Prune(window[1..], now) else window
  }

  function CheckRate(limits: Limits, g: Guards, tool: string, now: real): (Guards, bool) {
    var recent := Prune(g.WindowOf(tool), now);
    var ok := |recent| < limits.LimitOf(tool);
    (g.(windows := g.windows[tool := if ok then recent + [now] else recent]), ok)
  }

  /** The atomic first half of a dispatch; the two guards read the clock separately. */
  function Begin(limits: Limits, registry: set<string>, g: Guards, tool: string, checkedAt: real,
                 admittedAt: real): (Guards, Admission) {
    if tool !in registry then (g, UnknownTool)
    else
      var (g1, closed) := CheckCircuit(limits, g, tool, checkedAt);
      if !closed then (g1, CircuitOpen)
      else
        var (g2, ok) := CheckRate(limits, g1, tool, admittedAt);
        (g2, if ok then Admitted else RateLimited)
  }

  /** The atomic second half: what the ending of a call records. */
  function Finish(limits: Limits, g: Guards, tool: string, ending: Ending, now: real): Guards {
    match ending
    case Cancelled => g
    case ReturnedResult(_) => RecordCall(limits, g, tool, true, now)
    case _ => RecordCall(limits, g, tool, false, now)
  }

  // ----- the guards as the code keeps them

  class ToolDispatcher {
    var registry: set<string>
    var limits: Limits
    var breakers: map<string, Breaker>
    var windows: map<string, seq<real>>

    function State(): Guards
      reads this
    {
      Guards(breakers, windows)
    }

    constructor (registry: set<string>, limits: Limits)
      ensures this.registry == registry && this.limits == limits && State() == Guards(map[], map[])
    {
      this.registry, this.limits, breakers, windows := registry, limits, map[], map[];
    }

    /** A limit set through the interface never shuts the tool out, and concerns no other tool. */
    method SetPerToolRateLimit(tool: string, perMinute: int)
      modifies this`limits
      ensures limits.LimitOf(tool) >= 1 && limits.LimitOf(tool) >= perMinute
      ensures limits.LimitOf(tool) == 1 || limits.LimitOf(tool) == perMinute
      ensures forall other :: other != tool ==> limits.LimitOf(other) == old(limits).LimitOf(other)
      ensures limits.threshold == old(limits).threshold && limits.resetSeconds == old(limits).resetSeconds
    {
      limits := limits.(perTool := limits.perTool[tool := if perMinute > 1 then perMinute else 1]);
    }

    /** Thresholds set through the interface are at least one failure and one second. */
    method SetCircuitBreakerThresholds(threshold: Option<int>, resetSeconds: Option<real>)
      modifies this`limits
      ensures limits.perTool == old(limits).perTool && limits.perMinute == old(limits).perMinute
      ensures limits.threshold ==
        if threshold == None then old(limits).threshold
        else if threshold.value > 1 then threshold.value else 1
      ensures limits.resetSeconds ==
        if resetSeconds == None then old(limits).resetSeconds
        else if resetSeconds.value > 1.0 then resetSeconds.value else 1.0
    {
      if threshold.Some? {
        limits := limits.(threshold := if threshold.value > 1 then threshold.value else 1);
      }
      if resetSeconds.Some? {
        limits := limits.(resetSeconds := if resetSeconds.value > 1.0 then resetSeconds.value else 1.0);
      }
    }

    method CbCheck(tool: string, now: real) returns (closed: bool)
      modifies this`breakers
      ensures (State(), closed) == CheckCircuit(limits, old(State()), tool, now)
    {
      if tool !in breakers {
        return true;
      }
      var state := breakers[tool];
      if state.open {
        if now - state.openedAt < limits.resetSeconds {
          return false;
        }
        breakers := breakers[tool := state.(open := false, failures := 0)];
      }
      return true;
    }

    method CbRecord(tool: string, success: bool, now: real)
      modifies this`breakers
      ensures State() == RecordCall(limits, old(State()), tool, success, now)
    {
      if tool !in breakers {
        breakers := breakers[tool := Breaker(0, false, 0.0)];
      }
      var state := breakers[tool];
      if success {
        state := state.(failures := 0, open := false);
      } else {
        state := state.(failures := state.failures + 1);
        if state.failures >= limits.threshold && !state.open {
          state := state.(open := true, openedAt := now);
        }
      }
      breakers := breakers[tool := state];
    }

    method CheckRateLimit(tool: string, now: real) returns (ok: bool)
      modifies this`windows
      ensures (State(), ok) == CheckRate(limits, old(State()), tool, now)
    {
      var window := if tool in windows then windows[tool] else [];
      while window != [] && now - window[0] > WINDOW_SECONDS
        invariant Prune(window, now) == Prune(old(State()).WindowOf(tool), now)
        decreases |window|
      {
        window := window[1..];
      }
      ok := |window| < limits.LimitOf(tool);
      if ok {
        window := window + [now];
      }
      windows := windows[tool := window];
    }

    /** Admits or refuses a call. A call refused by an open circuit leaves its window, and so its quota, alone. */
    method BeginDispatch(tool: string, checkedAt: real, admittedAt: real) returns (r: Admission)
      modifies this`breakers, this`windows
      ensures (State(), r) == Begin(limits, registry, old(State()), tool, checkedAt, admittedAt)
      ensures r == CircuitOpen || r == UnknownTool ==> windows == old(windows)
    {
      if tool !in registry {
        return UnknownTool;
      }
      var closed := CbCheck(tool, checkedAt);
      if !closed {
        return CircuitOpen;
      }
      var ok := CheckRateLimit(tool, admittedAt);
      return if ok then Admitted else RateLimited;
    }

    method FinishDispatch(tool: string, ending: Ending, now: real)
      modifies this`breakers
      ensures State() == Finish(limits, old(State()), tool, ending, now)
    {
      match ending {
        case Cancelled =>
        case ReturnedResult(_) => CbRecord(tool, true, now);
        case _ => CbRecord(tool, false, now);
      }
    }
  }
}
