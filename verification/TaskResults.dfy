/** What executing a task graph should return: a recursive definition, and what it says about failures. */
module TaskResults {
  import opened PyLists
  import opened DependencyGraphs

  datatype Status = Complete | Failed | Skipped

  datatype TaskNodeResult<+V> = TaskNodeResult(nodeId: string, status: Status, result: Option<V>,
                                               error: Option<string>, dependencyErrors: seq<string>)
  {
    predicate Ok() {
      status == Complete
    }
  }

  /** How a dispatcher call ends: with a value, or with an exception of some type. */
  datatype Outcome<+V> = Returned(value: V) | Raised(kind: string, message: string)

  function StatusText(s: Status): string {
    match s
    case Complete => "complete"
    case Failed => "failed"
    case Skipped => "skipped"
  }

  function DependencyError<V>(dep: string, r: TaskNodeResult<V>): string {
    "dep '" + dep + "' failed: "
      + if r.error.Some? && r.error.value != "" then r.error.value else StatusText(r.status)
  }

  function SkippedResult<V>(n: string, errors: seq<string>): TaskNodeResult<V> {
    TaskNodeResult(n, Skipped, None, Some("Skipped due to dependency failure(s)"), errors)
  }

  function DispatchedResult<V>(n: string, outcome: Outcome<V>): TaskNodeResult<V> {
    match outcome
    case Returned(v) => TaskNodeResult(n, Complete, Some(v), None, [])
    case Raised(kind, message) => TaskNodeResult(n, Failed, None, Some(kind + ": " + message), [])
  }

  /** The notes on failed or skipped dependencies, in the order the dependencies are listed. */
  function DependencyErrors<V>(ds: seq<string>, results: map<string, TaskNodeResult<V>>): seq<string> {
    if ds == [] then []
    else (if ds[0] in results && !results[ds[0]].Ok() then [DependencyError(ds[0], results[ds[0]])] else [])
         + DependencyErrors(ds[1..], results)
  }

  lemma {:induction false} NoDependencyErrors<V>(ds: seq<string>, results: map<string, TaskNodeResult<V>>)
    ensures DependencyErrors(ds, results) == [] <==> forall d :: d in ds && d in results ==> results[d].Ok()
  {
    if ds != [] {
      NoDependencyErrors(ds[1..], results);
    }
  }

  lemma {:induction false} DependencyErrorsAgree<V>(ds: seq<string>, r0: map<string, TaskNodeResult<V>>,
                                                    r1: map<string, TaskNodeResult<V>>)
    requires forall d :: d in ds ==> d in r0 && d in r1 && r0[d] == r1[d]
    ensures DependencyErrors(ds, r0) == DependencyErrors(ds, r1)
  {
    if ds != [] {
      DependencyErrorsAgree(ds[1..], r0, r1);
    }
  }

  /** The result of a node, given the notes on its dependencies and what dispatching it would produce. */
  function NodeResult<V>(n: string, errors: seq<string>, skip: bool, outcome: Outcome<V>): TaskNodeResult<V> {
    if errors != [] && skip then SkippedResult(n, errors) else DispatchedResult(n, outcome)
  }

  /**
   The result of node `n`, defined by recursion over its dependencies alone: no levels, no order of completion.
   `outcomes` is what dispatching each node would produce.
   */
  ghost function Reference<V>(g: Graph, outcomes: string -> Outcome<V>, skip: bool, n: string): TaskNodeResult<V>
    requires g.Valid() && Acyclic(g) && n in g.deps
    decreases Depth(g, n)
  {
    var results := map d | d in g.deps[n] :: d := (DependencyIsShallower(g, n, d); Reference(g, outcomes, skip, d));
    NodeResult(n, DependencyErrors(g.deps[n], results), skip, outcomes(n))
  }

  /** The results recorded so far are the reference ones. */
  ghost predicate Settled<V>(g: Graph, outcomes: string -> Outcome<V>, skip: bool,
                             results: map<string, TaskNodeResult<V>>)
    requires g.Valid() && Acyclic(g)
  {
    forall n :: n in results ==> n in g.deps && results[n] == Reference(g, outcomes, skip, n)
  }

  /** Once all dependencies of a node are settled, the recorded results determine its own. */
  lemma SettleNode<V>(g: Graph, outcomes: string -> Outcome<V>, skip: bool, results: map<string, TaskNodeResult<V>>,
                      n: string)
    requires g.Valid() && Acyclic(g) && Settled(g, outcomes, skip, results) && n in g.deps
    requires forall d :: d in g.deps[n] ==> d in results
    ensures Reference(g, outcomes, skip, n) == NodeResult(n, DependencyErrors(g.deps[n], results), skip, outcomes(n))
  {
    var below := map d | d in g.deps[n] :: d := (DependencyIsShallower(g, n, d); Reference(g, outcomes, skip, d));
    DependencyErrorsAgree(g.deps[n], results, below);
  }

  // ----- what a result tells

  /** A result is about its node, and tells how its dispatcher call ended, or that there was none. */
  ghost predicate Tells<V>(r: TaskNodeResult<V>, n: string, outcome: Outcome<V>) {
    && r.nodeId == n
    && (r.status == Complete ==> outcome.Returned? && r.result == Some(outcome.value) && r.error == None)
    && (r.status == Failed ==>
        outcome.Raised? && r.result == None && r.error == Some(outcome.kind + ": " + outcome.message))
    && (r.status == Skipped ==> r.result == None && r.error == Some("Skipped due to dependency failure(s)"))
    && (r.status != Skipped ==> r.dependencyErrors == [])
  }

  /** The dependencies that are there and have not completed. */
  function Unfinished<V>(results: map<string, TaskNodeResult<V>>): string -> bool {
    d => d in results && results[d].status != Complete
  }

  /** There is one note for each dependency, in list order, that has not completed, and it quotes its error. */
  predicate NotesTell<V>(notes: seq<string>, ds: seq<string>, results: map<string, TaskNodeResult<V>>) {
    var bad := Filter(ds, Unfinished(results));
    && |notes| == |bad|
    && forall k :: 0 <= k < |bad| ==>
        bad[k] in results && results[bad[k]].error.Some?
        && notes[k] == "dep '" + bad[k] + "' failed: " + results[bad[k]].error.value
  }

  lemma {:induction false} NotesInOrder<V>(ds: seq<string>, results: map<string, TaskNodeResult<V>>)
    requires forall d :: d in ds && d in results && results[d].status != Complete ==>
      results[d].error.Some? && results[d].error.value != ""
    ensures NotesTell(DependencyErrors(ds, results), ds, results)
  {
    if ds != [] {
      NotesInOrder(ds[1..], results);
      var head := if Unfinished(results)(ds[0]) then [ds[0]] else [];
      assert Filter(ds, Unfinished(results)) == head + Filter(ds[1..], Unfinished(results));
    }
  }

  lemma ReferenceTells<V>(g: Graph, outcomes: string -> Outcome<V>, skip: bool, n: string)
    requires g.Valid() && Acyclic(g) && n in g.deps
    ensures Tells(Reference(g, outcomes, skip, n), n, outcomes(n))
    ensures Reference(g, outcomes, skip, n).status != Complete ==>
      Reference(g, outcomes, skip, n).error.Some? && Reference(g, outcomes, skip, n).error.value != ""
  {
    if outcomes(n).Raised? {
      assert (outcomes(n).kind + ": " + outcomes(n).message)[|outcomes(n).kind|] == ':';
    }
  }

  /** Settled results tell how the calls ended, and a skip lists exactly the dependencies that stood in its way. */
  lemma SettledTell<V>(g: Graph, outcomes: string -> Outcome<V>, skip: bool, results: map<string, TaskNodeResult<V>>,
                       n: string)
    requires g.Valid() && Acyclic(g) && Settled(g, outcomes, skip, results) && n in results
    requires forall d :: d in g.deps[n] ==> d in results
    ensures Tells(results[n], n, outcomes(n))
    ensures results[n].status == Skipped ==>
      skip && results[n].dependencyErrors != [] && NotesTell(results[n].dependencyErrors, g.deps[n], results)
  {
    SettleNode(g, outcomes, skip, results, n);
    ReferenceTells(g, outcomes, skip, n);
    forall d | d in g.deps[n] && d in results && results[d].status != Complete
      ensures results[d].error.Some? && results[d].error.value != ""
    {
      ReferenceTells(g, outcomes, skip, d);
    }
    NotesInOrder(g.deps[n], results);
  }

  /** The records that results leave on their nodes. */
  ghost function AsRecords<V>(results: map<string, TaskNodeResult<V>>): map<string, Option<TaskNodeResult<V>>> {
    map id | id in results :: Some(results[id])
  }

  lemma RecordOne<V>(before: map<string, Option<TaskNodeResult<V>>>, results: map<string, TaskNodeResult<V>>,
                     id: string, r: TaskNodeResult<V>)
    ensures before + AsRecords(results[id := r]) == (before + AsRecords(results))[id := Some(r)]
  {
  }

  lemma RecordMore<V>(before: map<string, Option<TaskNodeResult<V>>>, results: map<string, TaskNodeResult<V>>,
                      more: map<string, TaskNodeResult<V>>)
    ensures before + AsRecords(results) + AsRecords(more) == before + AsRecords(results + more)
  {
  }

  // ----- the order of dispatcher calls

  /** Observable steps of an execution: a dispatcher call begins, or ends. */
  datatype Event = Started(id: string) | Finished(id: string)

  /** Every call that has finished started earlier in the log. */
  ghost predicate StartsFirst(events: seq<Event>) {
    forall i {:trigger events[i]} :: 0 <= i < |events| && events[i].Finished? ==> Started(events[i].id) in events[..i]
  }

  /** The log of a partial run: the ids in `started` have started once, those in `finished` have also finished once. */
  ghost predicate Log(events: seq<Event>, started: set<string>, finished: set<string>) {
    && Distinct(events) && StartsFirst(events)
    && (forall id {:trigger Started(id) in events} :: id in started <==> Started(id) in events)
    && (forall id {:trigger Finished(id) in events} :: id in finished <==> Finished(id) in events)
  }

  lemma StartsFirstAppend(events: seq<Event>, e: Event)
    requires StartsFirst(events) && (e.Finished? ==> Started(e.id) in events)
    ensures StartsFirst(events + [e])
  {
    forall i | 0 <= i < |events + [e]| && (events + [e])[i].Finished?
      ensures Started((events + [e])[i].id) in (events + [e])[..i]
    {
      assert (events + [e])[..i] == events[..i];
      if i < |events| {
        assert events[i].Finished?;
      }
    }
  }

  lemma LogStart(events: seq<Event>, started: set<string>, finished: set<string>, id: string)
    requires Log(events, started, finished) && id !in started
    ensures Log(events + [Started(id)], started + {id}, finished)
  {
    DistinctAppend(events, Started(id));
    StartsFirstAppend(events, Started(id));
  }

  lemma LogFinish(events: seq<Event>, started: set<string>, finished: set<string>, id: string)
    requires Log(events, started, finished) && id in started && id !in finished
    ensures Log(events + [Finished(id)], started, finished + {id})
  {
    DistinctAppend(events, Finished(id));
    StartsFirstAppend(events, Finished(id));
  }

  /** Logs of runs over disjoint sets of nodes concatenate. */
  lemma LogConcat(first: seq<Event>, second: seq<Event>, a: set<string>, b: set<string>)
    requires Log(first, a, a) && Log(second, b, b) && a !! b
    ensures Log(first + second, a + b, a + b)
  {
    var events := first + second;
    forall e | e in first
      ensures e !in second
    {
      if e.Started? {
        assert Started(e.id) in first;
      } else {
        assert Finished(e.id) in first;
      }
    }
    DistinctConcat(first, second);
    forall i | 0 <= i < |events| && events[i].Finished?
      ensures Started(events[i].id) in events[..i]
    {
      if i < |first| {
        assert events[..i] == first[..i] && first[i].Finished?;
      } else {
        assert events[..i] == first + second[..i - |first|] && second[i - |first|].Finished?;
      }
    }
  }

  /** `d` has its result by the time the events so far have happened. */
  ghost predicate HasResult<V>(d: string, results: map<string, TaskNodeResult<V>>, soFar: seq<Event>) {
    d in results && (results[d].status == Skipped || Finished(d) in soFar)
  }

  /** When the event at `i` starts a node, all dependencies of the node have results. */
  ghost predicate ReadyAt<V>(g: Graph, results: map<string, TaskNodeResult<V>>, events: seq<Event>, i: nat)
    requires i < |events|
  {
    events[i].Started? && events[i].id in g.deps ==>
      forall d :: d in g.deps[events[i].id] ==> HasResult(d, results, events[..i])
  }

  /** A node is dispatched only after all its dependencies have results. */
  ghost predicate DependenciesFirst<V>(g: Graph, results: map<string, TaskNodeResult<V>>, events: seq<Event>) {
    forall i :: 0 <= i < |events| ==> ReadyAt(g, results, events, i)
  }

  /** The nodes that were dispatched rather than skipped. */
  ghost function DispatchedNodes<V>(results: map<string, TaskNodeResult<V>>): set<string> {
    set n | n in results && results[n].status != Skipped
  }

  /** Running a level whose dependencies all have results keeps the dispatch order right. */
  lemma DependenciesFirstConcat<V>(g: Graph, before: map<string, TaskNodeResult<V>>,
                                   after: map<string, TaskNodeResult<V>>,
                                   first: seq<Event>, second: seq<Event>, batch: set<string>)
    requires DependenciesFirst(g, before, first) && Log(first, DispatchedNodes(before), DispatchedNodes(before))
    requires Log(second, batch, batch)
    requires forall n :: n in before ==> n in after && after[n] == before[n]
    requires forall n :: n in batch && n in g.deps ==> forall d :: d in g.deps[n] ==> d in before
    ensures DependenciesFirst(g, after, first + second)
  {
    var events := first + second;
    forall i | 0 <= i < |events|
      ensures ReadyAt(g, after, events, i)
    {
      if i < |first| {
        assert ReadyAt(g, before, first, i) && events[..i] == first[..i];
      } else if events[i].Started? && events[i].id in g.deps {
        var n := events[i].id;
        assert events[i] == second[i - |first|] && Started(n) in second && n in batch;
        assert events[..i] == first + second[..i - |first|];
        forall d | d in g.deps[n]
          ensures HasResult(d, after, events[..i])
        {
          assert d in before && (d in DispatchedNodes(before) <==> Finished(d) in first);
        }
      }
    }
  }

  /** Some proper, possibly indirect, dependency of `n` would raise when dispatched. */
  ghost predicate AncestorRaises<V>(g: Graph, outcomes: string -> Outcome<V>, n: string) {
    exists p {:trigger ChainFrom(g, p, n)} :: ChainFrom(g, p, n) && |p| > 1 && outcomes(p[|p| - 1]).Raised?
  }

  /** A raising ancestor is a raising direct dependency, or a raising ancestor of one. */
  lemma AncestorRaisesStep<V>(g: Graph, outcomes: string -> Outcome<V>, n: string)
    requires g.Valid() && n in g.deps
    ensures AncestorRaises(g, outcomes, n) <==>
      exists d :: d in g.deps[n] && (outcomes(d).Raised? || AncestorRaises(g, outcomes, d))
  {
    assert g.DepsKnown(n);
    if AncestorRaises(g, outcomes, n) {
      var p :| ChainFrom(g, p, n) && |p| > 1 && outcomes(p[|p| - 1]).Raised?;
      SubChain(g, p, 1, |p|);
      var rest := p[1..|p|];
      assert Link(g, p, 0) && rest[|rest| - 1] == p[|p| - 1];
      assert p[1] in g.deps[n] && (outcomes(p[1]).Raised? || AncestorRaises(g, outcomes, p[1]));
    }
    if d :| d in g.deps[n] && (outcomes(d).Raised? || AncestorRaises(g, outcomes, d)) {
      var rest := [d];
      if !outcomes(d).Raised? {
        rest :| ChainFrom(g, rest, d) && |rest| > 1 && outcomes(rest[|rest| - 1]).Raised?;
      }
      ExtendChain(g, n, rest);
      assert ([n] + rest)[|rest|] == rest[|rest| - 1];
    }
  }

  /**
   The recursion in closed form. With skipping on, a node is skipped exactly when some transitive dependency
   raises; otherwise its own outcome decides. With skipping off, its own outcome always decides.
   */
  lemma {:induction false} StatusClosedForm<V>(g: Graph, outcomes: string -> Outcome<V>, skip: bool, n: string)
    requires g.Valid() && Acyclic(g) && n in g.deps
    ensures Reference(g, outcomes, skip, n).status ==
      if skip && AncestorRaises(g, outcomes, n) then Skipped else if outcomes(n).Raised? then Failed else Complete
    decreases Depth(g, n)
  {
    var results := map d | d in g.deps[n] :: d := (DependencyIsShallower(g, n, d); Reference(g, outcomes, skip, d));
    NoDependencyErrors(g.deps[n], results);
    AncestorRaisesStep(g, outcomes, n);
    forall d | d in g.deps[n]
      ensures skip ==> results[d].Ok() == !(outcomes(d).Raised? || AncestorRaises(g, outcomes, d))
    {
      DependencyIsShallower(g, n, d);
      StatusClosedForm(g, outcomes, skip, d);
    }
  }

  /** A chain from a dependency of `n` becomes a chain from `n` with the same end. */
  lemma ChainThrough(g: Graph, n: string, d: string, rest: seq<string>) returns (p: seq<string>)
    requires ChainFrom(g, rest, d) && n in g.deps && d in g.deps[n]
    ensures ChainFrom(g, p, n) && |p| > 1 && p[|p| - 1] == rest[|rest| - 1]
  {
    ExtendChain(g, n, rest);
    p := [n] + rest;
  }

  /** Behind a raising ancestor stands a first one: a raising ancestor that has no raising ancestor itself. */
  lemma {:induction false} FirstRaise<V>(g: Graph, outcomes: string -> Outcome<V>, n: string) returns (p: seq<string>)
    requires g.Valid() && Acyclic(g) && n in g.deps && AncestorRaises(g, outcomes, n)
    ensures ChainFrom(g, p, n) && |p| > 1 && p[|p| - 1] in g.deps
    ensures outcomes(p[|p| - 1]).Raised? && !AncestorRaises(g, outcomes, p[|p| - 1])
    decreases Depth(g, n)
  {
    AncestorRaisesStep(g, outcomes, n);
    var d :| d in g.deps[n] && (outcomes(d).Raised? || AncestorRaises(g, outcomes, d));
    DependencyIsShallower(g, n, d);
    var rest := [d];
    if AncestorRaises(g, outcomes, d) {
      rest := FirstRaise(g, outcomes, d);
    }
    p := ChainThrough(g, n, d, rest);
  }

  /**
   Behind every skip stands a dispatch that failed: a chain of
   dependencies leads from the skipped node to another one that did.
   */
  lemma SkippedHasFailedAncestor<V>(g: Graph, outcomes: string -> Outcome<V>, skip: bool, n: string)
    returns (p: seq<string>)
    requires g.Valid() && Acyclic(g) && n in g.deps && Reference(g, outcomes, skip, n).status == Skipped
    ensures ChainFrom(g, p, n) && |p| > 1 && p[|p| - 1] in g.deps
    ensures Reference(g, outcomes, skip, p[|p| - 1]).status == Failed
  {
    StatusClosedForm(g, outcomes, skip, n);
    p := FirstRaise(g, outcomes, n);
    StatusClosedForm(g, outcomes, skip, p[|p| - 1]);
  }
}
