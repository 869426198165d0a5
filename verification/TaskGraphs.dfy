/** The task graph object: construction, validation, and concurrent execution level by level. */
module TaskGraphs {
  import opened PyLists
  import opened DependencyGraphs
  import opened KahnLevels
  import opened TaskResults

  datatype BuildError = UnknownDependency(node: string, dep: string) | DependencyCycle(nodes: seq<string>)

  datatype Built<T, V> = Accepted(graph: TaskGraph<T, V>) | Rejected(error: BuildError)

  class TaskNode<T, V> {
    const nodeId: string
    const task: T
    const dependsOn: seq<string>
    var result: Option<TaskNodeResult<V>>

    constructor (nodeId: string, task: T, dependsOn: seq<string>)
      ensures this.nodeId == nodeId && this.task == task && this.dependsOn == dependsOn && result == None
    {
      this.nodeId, this.task, this.dependsOn, this.result := nodeId, task, dependsOn, None;
    }
  }

  /** The ids of a node list, each at its first position. */
  function IdsOf<T, V>(list: seq<TaskNode<T, V>>): seq<string> {
    if list == [] then []
    else
      var ids, id := IdsOf(list[..|list| - 1]), list[|list| - 1].nodeId;
      if id in ids then ids else ids + [id]
  }

  /** The dictionary of a node list: a later node replaces an earlier one with the same id. */
  function NodesOf<T, V>(list: seq<TaskNode<T, V>>): map<string, TaskNode<T, V>> {
    if list == [] then map[] else NodesOf(list[..|list| - 1])[list[|list| - 1].nodeId := list[|list| - 1]]
  }

  ghost function ShapeOf<T, V>(list: seq<TaskNode<T, V>>): Graph {
    Graph(IdsOf(list), map id | id in NodesOf(list) :: NodesOf(list)[id].dependsOn)
  }

  /** Position `i` is the first at which the list has a node with this id. */
  ghost predicate FirstAt<T, V>(list: seq<TaskNode<T, V>>, i: nat, id: string) {
    i < |list| && list[i].nodeId == id && forall k :: 0 <= k < i ==> list[k].nodeId != id
  }

  lemma FirstInLonger<T, V>(list: seq<TaskNode<T, V>>, n: nat, i: nat, id: string)
    requires n <= |list| && FirstAt(list[..n], i, id)
    ensures FirstAt(list, i, id)
  {
    forall k | 0 <= k < i ensures list[k].nodeId != id {
      assert list[k] == list[..n][k];
    }
  }

  /** No id is missing. */
  lemma {:induction false} IdsCover<T, V>(list: seq<TaskNode<T, V>>, i: nat)
    requires i < |list|
    ensures list[i].nodeId in IdsOf(list)
  {
    var n := |list| - 1;
    if i < n {
      IdsCover(list[..n], i);
      assert list[i] == list[..n][i];
    }
  }

  lemma NewIdIsFirst<T, V>(list: seq<TaskNode<T, V>>, n: nat)
    requires n < |list| && list[n].nodeId !in IdsOf(list[..n])
    ensures FirstAt(list, n, list[n].nodeId)
  {
    forall k | 0 <= k < n ensures list[k].nodeId != list[n].nodeId {
      IdsCover(list[..n], k);
      assert list[k] == list[..n][k];
    }
  }

  /** The ids are those of the list, in the order of their first positions. */
  lemma {:induction false} IdsInOrder<T, V>(list: seq<TaskNode<T, V>>) returns (at: seq<nat>)
    ensures |at| == |IdsOf(list)|
    ensures forall a :: 0 <= a < |at| ==> FirstAt(list, at[a], IdsOf(list)[a])
    ensures forall a, b :: 0 <= a < b < |at| ==> at[a] < at[b]
  {
    at := [];
    if list != [] {
      var n := |list| - 1;
      var earlier := IdsInOrder(list[..n]);
      forall a | 0 <= a < |earlier| ensures FirstAt(list, earlier[a], IdsOf(list[..n])[a]) {
        FirstInLonger(list, n, earlier[a], IdsOf(list[..n])[a]);
      }
      at := earlier;
      if list[n].nodeId !in IdsOf(list[..n]) {
        NewIdIsFirst(list, n);
        assert forall a :: 0 <= a < |earlier| ==> FirstAt(list[..n], earlier[a], IdsOf(list[..n])[a]);
        at := earlier + [n];
      }
    }
  }

  /** The last node of the list that bears an id. */
  ghost predicate LastAt<T, V>(list: seq<TaskNode<T, V>>, i: nat, id: string) {
    i < |list| && list[i].nodeId == id && forall k :: i < k < |list| ==> list[k].nodeId != id
  }

  /** The dictionary has under each id the last node that bears it. */
  lemma {:induction false} LastNodeCounts<T, V>(list: seq<TaskNode<T, V>>, i: nat, id: string)
    requires LastAt(list, i, id)
    ensures id in NodesOf(list) && NodesOf(list)[id] == list[i]
  {
    var n := |list| - 1;
    if i < n {
      assert list[n].nodeId != id;
      assert forall k :: i < k < n ==> list[..n][k] == list[k];
      LastNodeCounts(list[..n], i, id);
    }
  }

  /** And it has no other ids. */
  lemma {:induction false} NoOtherNodes<T, V>(list: seq<TaskNode<T, V>>, id: string) returns (i: nat)
    requires id in NodesOf(list)
    ensures i < |list| && list[i].nodeId == id
  {
    var n := |list| - 1;
    if list[n].nodeId == id {
      i := n;
    } else {
      i := NoOtherNodes(list[..n], id);
    }
  }

  class TaskGraph<T, V> {
    const order: seq<string>
    const nodes: map<string, TaskNode<T, V>>

    function Shape(): Graph {
      Graph(order, map id | id in nodes :: nodes[id].dependsOn)
    }

    /** The nodes are filed under their own ids; in particular they are distinct objects. */
    ghost predicate Filed() {
      && Distinct(order)
      && (forall id :: id in order <==> id in nodes)
      && (forall id :: id in nodes ==> nodes[id].nodeId == id)
    }

    /** What construction guarantees: dependencies resolve and form no cycle. */
    ghost predicate Valid() {
      Filed() && Shape().Valid() && Acyclic(Shape())
    }

    ghost function NodeObjects(): set<object> {
      set id | id in nodes :: nodes[id]
    }

    constructor (list: seq<TaskNode<T, V>>)
      ensures order == IdsOf(list) && nodes == NodesOf(list) && Filed()
    {
      var ids: seq<string> := [];
      var filed: map<string, TaskNode<T, V>> := map[];
      for i := 0 to |list|
        invariant ids == IdsOf(list[..i]) && filed == NodesOf(list[..i])
        invariant Distinct(ids)
        invariant forall id :: id in ids <==> id in filed
        invariant forall id :: id in filed ==> filed[id].nodeId == id
      {
        var id := list[i].nodeId;
        assert list[..i + 1][..i] == list[..i];
        if id !in ids {
          DistinctAppend(ids, id);
          ids := ids + [id];
        }
        filed := filed[id := list[i]];
      }
      assert list[..|list|] == list;
      order, nodes := ids, filed;
    }

    /** Finds the first reference, in node and list order, to a node that does not exist. */
    method ValidateIds() returns (bad: Option<BuildError>)
      requires Filed()
      ensures bad == None <==> Shape().Valid()
      ensures bad.Some? ==> FirstDangling(Shape(), bad.value)
    {
      var g := Shape();
      for i := 0 to |order|
        invariant forall k :: 0 <= k < i ==> g.DepsKnown(order[k])
      {
        var ds := nodes[order[i]].dependsOn;
        for j := 0 to |ds|
          invariant forall k :: 0 <= k < j ==> ds[k] in nodes
        {
          if ds[j] !in nodes {
            assert DanglesAt(g, i, j) && !g.DepsKnown(order[i]);
            return Some(UnknownDependency(order[i], ds[j]));
          }
        }
      }
      return None;
    }

    // ----- execution

    /** What dispatching each node would produce. */
    ghost function Outcomes(dispatcher: (string, T) -> Outcome<V>): string -> Outcome<V> {
      id => if id in nodes then dispatcher(id, nodes[id].task) else Raised("KeyError", id)
    }

    /** One dispatcher call and the record it leaves on its node. */
    method RunOne(id: string, dispatcher: (string, T) -> Outcome<V>) returns (r: TaskNodeResult<V>)
      requires Filed() && id in nodes
      modifies nodes[id]
      ensures r == DispatchedResult(id, dispatcher(id, nodes[id].task)) && Records() == old(Records())[id := Some(r)]
      ensures Tells(r, id, dispatcher(id, nodes[id].task)) && r.status != Skipped
    {
      r := DispatchedResult(id, dispatcher(id, nodes[id].task));
      nodes[id].result := Some(r);
    }

    /** What the nodes currently carry. */
    ghost function Records(): map<string, Option<TaskNodeResult<V>>>
      reads NodeObjects()
    {
      map id | id in nodes :: nodes[id].result
    }

    /**
     Runs the dispatcher calls of one level concurrently. Which call starts or finishes
     next is left open at every step, so whatever is proved holds for every order.
     */
    method Gather(batch: seq<string>, dispatcher: (string, T) -> Outcome<V>,
                  ghost expected: map<string, TaskNodeResult<V>>)
      returns (gathered: map<string, TaskNodeResult<V>>, events: seq<Event>)
      requires Filed() && forall id :: id in batch ==> id in nodes
      requires forall id :: id in batch ==>
        id in expected && expected[id] == DispatchedResult(id, dispatcher(id, nodes[id].task))
      modifies NodeObjects()
      ensures gathered == map id | id in Elements(batch) :: expected[id]
      ensures Records() == old(Records()) + AsRecords(gathered)
      ensures Log(events, Elements(batch), Elements(batch))
    {
      var all := set id | id in batch;
      var started := {};
      gathered, events := map[], [];
      while
        invariant gathered.Keys <= started <= all
        invariant forall id {:trigger gathered[id]} :: id in gathered ==> gathered[id] == expected[id]
        invariant Records() == old(Records()) + AsRecords(gathered)
        invariant Log(events, started, gathered.Keys)
        decreases all - started, started - gathered.Keys
      {
        case all - started != {} =>
          var id :| id in all - started;
          LogStart(events, started, gathered.Keys, id);
          events := events + [Started(id)];
          started := started + {id};
        case started - gathered.Keys != {} =>
          var id :| id in started - gathered.Keys;
          LogFinish(events, started, gathered.Keys, id);
          var r := RunOne(id, dispatcher);
          RecordOne(old(Records()), gathered, id, r);
          events := events + [Finished(id)];
          gathered := gathered[id := r];
      }
      NoneLeft(all, started);
      NoneLeft(started, gathered.Keys);
    }

    /** What becomes of `id` once the nodes in `results` have their results. */
    function Decided(id: string, results: map<string, TaskNodeResult<V>>, skip: bool,
                     dispatcher: (string, T) -> Outcome<V>)
      : TaskNodeResult<V>
      requires id in nodes
    {
      NodeResult(id, DependencyErrors(nodes[id].dependsOn, results), skip, dispatcher(id, nodes[id].task))
    }

    /** `id` has no result yet, its dependencies have, and `expected` says what becomes of it. */
    ghost predicate Predicted(id: string, results: map<string, TaskNodeResult<V>>, skip: bool,
                              dispatcher: (string, T) -> Outcome<V>, expected: map<string, TaskNodeResult<V>>)
    {
      && id in nodes && id !in results && id in expected
      && (forall d :: d in nodes[id].dependsOn ==> d in results)
      && expected[id] == Decided(id, results, skip, dispatcher)
    }

    ghost predicate AllPredicted(ids: set<string>, results: map<string, TaskNodeResult<V>>, skip: bool,
                                 dispatcher: (string, T) -> Outcome<V>, expected: map<string, TaskNodeResult<V>>)
    {
      forall id {:trigger Predicted(id, results, skip, dispatcher, expected)} ::
        id in ids ==> Predicted(id, results, skip, dispatcher, expected)
    }

    /** Results of other nodes of the same level do not matter to a node. */
    lemma DecidedEarly(id: string, level: set<string>, results0: map<string, TaskNodeResult<V>>,
                       more: map<string, TaskNodeResult<V>>,
                       skip: bool, dispatcher: (string, T) -> Outcome<V>, expected: map<string, TaskNodeResult<V>>)
      requires AllPredicted(level, results0, skip, dispatcher, expected) && id in level && more.Keys <= level
      ensures id in nodes && id in expected && Decided(id, results0 + more, skip, dispatcher) == expected[id]
    {
      assert Predicted(id, results0, skip, dispatcher, expected);
      forall n | n in more
        ensures n !in results0
      {
        assert Predicted(n, results0, skip, dispatcher, expected);
      }
      DependencyErrorsAgree(nodes[id].dependsOn, results0, results0 + more);
    }

    /**
     The planning pass after the nodes in `seen`: the `skipped`
     ones have joined `results0`, the others are in `batch`.
     */
    ghost predicate Planned(seen: set<string>, skipped: map<string, TaskNodeResult<V>>, batch: set<string>,
                            results0: map<string, TaskNodeResult<V>>, results: map<string, TaskNodeResult<V>>,
                            expected: map<string, TaskNodeResult<V>>)
    {
      && seen <= expected.Keys
      && skipped == (map id | id in seen && expected[id].status == Skipped :: expected[id])
      && batch == seen - skipped.Keys
      && results == results0 + skipped
    }

    lemma PlanStep(id: string, seen: set<string>, skipped: map<string, TaskNodeResult<V>>, batch: set<string>,
                   results0: map<string, TaskNodeResult<V>>, results: map<string, TaskNodeResult<V>>,
                   expected: map<string, TaskNodeResult<V>>)
      requires Planned(seen, skipped, batch, results0, results, expected) && id in expected
      ensures if expected[id].status == Skipped
        then Planned(seen + {id}, skipped[id := expected[id]], batch, results0, results[id := expected[id]], expected)
        else Planned(seen + {id}, skipped, batch + {id}, results0, results, expected)
    {
    }

    /** Skips a node whose dependencies failed, or leaves it for dispatch. */
    method PlanNode(id: string, results0: map<string, TaskNodeResult<V>>, skip: bool,
                    dispatcher: (string, T) -> Outcome<V>)
      returns (results: map<string, TaskNodeResult<V>>, queued: bool)
      requires Filed() && id in nodes
      modifies nodes[id]
      ensures var r := Decided(id, results0, skip, dispatcher);
        && queued == (r.status != Skipped)
        && results == (if queued then results0 else results0[id := r])
        && Records() == if queued then old(Records()) else old(Records())[id := Some(r)]
    {
      var errors := DependencyErrors(nodes[id].dependsOn, results0);
      results, queued := results0, true;
      if errors != [] && skip {
        results := results[id := SkippedResult(id, errors)];
        nodes[id].result := Some(results[id]);
        queued := false;
      }
    }

    /**
     The planning pass over a level: nodes with failed dependencies
     are recorded as skipped, the others are queued for dispatch.
     */
    method PlanLevel(level: seq<string>, results0: map<string, TaskNodeResult<V>>, skip: bool,
                     dispatcher: (string, T) -> Outcome<V>,
                     ghost expected: map<string, TaskNodeResult<V>>)
      returns (results: map<string, TaskNodeResult<V>>, batch: seq<string>,
               ghost skipped: map<string, TaskNodeResult<V>>)
      requires Filed() && AllPredicted(Elements(level), results0, skip, dispatcher, expected)
      modifies NodeObjects()
      ensures Planned(Elements(level), skipped, Elements(batch), results0, results, expected)
      ensures Records() == old(Records()) + AsRecords(skipped)
    {
      results, batch, skipped := results0, [], map[];
      for i := 0 to |level|
        invariant Planned(Elements(level[..i]), skipped, Elements(batch), results0, results, expected)
        invariant Records() == old(Records()) + AsRecords(skipped)
      {
        var id := level[i];
        DecidedEarly(id, Elements(level), results0, skipped, skip, dispatcher, expected);
        PlanStep(id, Elements(level[..i]), skipped, Elements(batch), results0, results, expected);
        var queued;
        results, queued := PlanNode(id, results, skip, dispatcher);
        if queued {
          ElementsAppend(batch, id);
          batch := batch + [id];
        } else {
          RecordOne(old(Records()), skipped, id, expected[id]);
          skipped := skipped[id := expected[id]];
        }
        assert level[..i + 1] == level[..i] + [id];
        ElementsAppend(level[..i], id);
      }
      assert level[..|level|] == level;
    }

    /** The reference result of every node. */
    ghost function Expected(dispatcher: (string, T) -> Outcome<V>, skip: bool): map<string, TaskNodeResult<V>>
      requires Valid()
    {
      map id | id in nodes :: Reference(Shape(), Outcomes(dispatcher), skip, id)
    }

    /**
     The result of a node tells how its own dispatcher call ended; if there was
     none, it lists exactly the dependencies, in order, that did not complete.
     */
    ghost predicate Told(id: string, results: map<string, TaskNodeResult<V>>, dispatcher: (string, T) -> Outcome<V>,
                   skip: bool)
      requires id in nodes
    {
      && id in results && Tells(results[id], id, dispatcher(id, nodes[id].task))
      && (results[id].status == Skipped ==>
          && skip && results[id].dependencyErrors != []
          && NotesTell(results[id].dependencyErrors, nodes[id].dependsOn, results))
    }

    lemma ExpectedIsTold(dispatcher: (string, T) -> Outcome<V>, skip: bool)
      requires Valid()
      ensures forall id :: id in nodes ==> Told(id, Expected(dispatcher, skip), dispatcher, skip)
    {
      var g, outcomes, expected := Shape(), Outcomes(dispatcher), Expected(dispatcher, skip);
      forall id | id in nodes ensures Told(id, expected, dispatcher, skip) {
        assert g.DepsKnown(id) && g.deps[id] == nodes[id].dependsOn;
        SettledTell(g, outcomes, skip, expected, id);
      }
    }

    /** `level` is the next thing to run after `done`: new nodes whose dependencies are all done. */
    ghost predicate Ready(level: set<string>, done: set<string>) {
      && level <= nodes.Keys && done <= nodes.Keys && level !! done
      && (forall id {:trigger nodes[id]} :: id in level ==> forall d :: d in nodes[id].dependsOn ==> d in done)
    }

    /** The reference results of the nodes in `done`. */
    ghost function Part(done: set<string>, expected: map<string, TaskNodeResult<V>>): map<string, TaskNodeResult<V>>
      requires done <= expected.Keys
    {
      map id | id in done :: expected[id]
    }

    lemma ReadyIsPredicted(level: set<string>, done: set<string>, skip: bool, dispatcher: (string, T) -> Outcome<V>)
      requires Valid() && Ready(level, done)
      ensures var expected := Expected(dispatcher, skip);
        AllPredicted(level, Part(done, expected), skip, dispatcher, expected)
    {
      var g, expected := Shape(), Expected(dispatcher, skip);
      var results := Part(done, expected);
      forall id | id in level
        ensures Predicted(id, results, skip, dispatcher, expected)
      {
        assert nodes[id].dependsOn == g.deps[id];
        SettleNode(g, Outcomes(dispatcher), skip, results, id);
      }
    }

    /** The state between two levels. */
    ghost predicate After(done: set<string>, results: map<string, TaskNodeResult<V>>, log: seq<Event>,
                          expected: map<string, TaskNodeResult<V>>, before: map<string, Option<TaskNodeResult<V>>>)
      requires done <= expected.Keys
      reads NodeObjects()
    {
      && results == Part(done, expected)
      && Records() == before + AsRecords(results)
      && Log(log, DispatchedNodes(results), DispatchedNodes(results))
      && DependenciesFirst(Shape(), results, log)
    }

    lemma NothingDone(expected: map<string, TaskNodeResult<V>>, before: map<string, Option<TaskNodeResult<V>>>)
      requires Records() == before
      ensures After({}, map[], [], expected, before)
    {
    }

    /** When all nodes are done, the results are all that is expected, and every record has been overwritten. */
    lemma WholeGraph(done: set<string>, expected: map<string, TaskNodeResult<V>>,
                     before: map<string, Option<TaskNodeResult<V>>>)
      requires done == expected.Keys == before.Keys
      ensures Part(done, expected) == expected && before + AsRecords(expected) == AsRecords(expected)
    {
    }

    /** Skipped and gathered results together are the results of the level. */
    lemma LevelCloses(level: set<string>, done: set<string>, skipped: map<string, TaskNodeResult<V>>,
                      gathered: map<string, TaskNodeResult<V>>, expected: map<string, TaskNodeResult<V>>)
      requires level + done <= expected.Keys && level !! done
      requires skipped == map id | id in level && expected[id].status == Skipped :: expected[id]
      requires gathered == map id | id in level - skipped.Keys :: expected[id]
      ensures Part(done, expected) + skipped + gathered == Part(done + level, expected)
      ensures DispatchedNodes(Part(done, expected)) !! gathered.Keys
      ensures DispatchedNodes(Part(done + level, expected)) == DispatchedNodes(Part(done, expected)) + gathered.Keys
    {
    }

    method ExecuteLevel(level: seq<string>, results0: map<string, TaskNodeResult<V>>, log0: seq<Event>, skip: bool,
                        dispatcher: (string, T) -> Outcome<V>, ghost done: set<string>,
                        ghost expected: map<string, TaskNodeResult<V>>,
                        ghost before: map<string, Option<TaskNodeResult<V>>>)
      returns (results: map<string, TaskNodeResult<V>>, log: seq<Event>)
      requires Filed() && Ready(Elements(level), done) && expected.Keys == nodes.Keys
      requires AllPredicted(Elements(level), Part(done, expected), skip, dispatcher, expected)
      requires After(done, results0, log0, expected, before)
      modifies NodeObjects()
      ensures After(done + Elements(level), results, log, expected, before)
    {
      var batch;
      ghost var skipped;
      results, batch, skipped := PlanLevel(level, results0, skip, dispatcher, expected);
      RecordMore(before, results0, skipped);
      forall id | id in batch
        ensures id in nodes && id in expected && expected[id] == DispatchedResult(id, dispatcher(id, nodes[id].task))
      {
        assert id in Elements(batch);
        assert Predicted(id, results0, skip, dispatcher, expected);
      }
      ghost var planned := results;
      var gathered, events := Gather(batch, dispatcher, expected);
      RecordMore(before, planned, gathered);
      results := results + gathered;
      log := log0 + events;
      LevelCloses(Elements(level), done, skipped, gathered, expected);
      LogConcat(log0, events, DispatchedNodes(results0), gathered.Keys);
      DependenciesFirstConcat(Shape(), results0, results, log0, events, gathered.Keys);
    }

    lemma LevelIsReady(levels: seq<seq<string>>, i: nat, skip: bool, dispatcher: (string, T) -> Outcome<V>)
      requires Valid() && IsLeveling(Shape(), levels) && i < |levels|
      ensures Ready(Elements(levels[i]), NodesBefore(levels, i))
      ensures NodesBefore(levels, i + 1) == NodesBefore(levels, i) + Elements(levels[i])
      ensures var expected := Expected(dispatcher, skip);
        AllPredicted(Elements(levels[i]), Part(NodesBefore(levels, i), expected), skip, dispatcher, expected)
    {
      var g := Shape();
      forall n | n in levels[i]
        ensures n in nodes && n !in NodesBefore(levels, i) && forall d :: d in nodes[n].dependsOn ==>
          d in NodesBefore(levels, i)
      {
        LevelComesAfterDependencies(g, levels, i, n);
        assert g.deps[n] == nodes[n].dependsOn;
      }
      forall n | n in NodesBefore(levels, i)
        ensures n in nodes
      {
        var j :| 0 <= j < i && n in levels[j];
        LevelComesAfterDependencies(g, levels, j, n);
      }
      ReadyIsPredicted(Elements(levels[i]), NodesBefore(levels, i), skip, dispatcher);
    }

    /**
     Runs the graph level by level. Whatever order the calls of a level finish
     in, the result is the recursive reference, every node that is not skipped is
     dispatched once, and no node starts before its dependencies have results.
     */
    method Execute(dispatcher: (string, T) -> Outcome<V>, skip: bool)
      returns (results: map<string, TaskNodeResult<V>>, log: seq<Event>)
      requires Valid()
      modifies NodeObjects()
      ensures results == Expected(dispatcher, skip)
      ensures results.Keys == nodes.Keys
      ensures forall id {:trigger results[id]} :: id in nodes ==> Told(id, results, dispatcher, skip)
      ensures Records() == AsRecords(results)
      ensures Log(log, DispatchedNodes(results), DispatchedNodes(results))
      ensures DependenciesFirst(Shape(), results, log)
    {
      ghost var expected, before := Expected(dispatcher, skip), Records();
      var sorted := TopologicalLevels(Shape());
      var levels := sorted.levels;
      results, log := map[], [];
      NothingDone(expected, before);
      assert NodesBefore(levels, 0) == {};
      for i := 0 to |levels|
        invariant NodesBefore(levels, i) <= nodes.Keys
        invariant After(NodesBefore(levels, i), results, log, expected, before)
      {
        LevelIsReady(levels, i, skip, dispatcher);
        results, log := ExecuteLevel(levels[i], results, log, skip, dispatcher, NodesBefore(levels, i), expected,
                                     before);
      }
      LevelsCover(Shape(), levels);
      WholeGraph(NodesBefore(levels, |levels|), expected, before);
      ExpectedIsTold(dispatcher, skip);
    }
  }

  /** Dependency `j` of node `i` is the first, in node and list order, that is not itself a node. */
  ghost predicate DanglesAt(g: Graph, i: nat, j: nat) {
    && i < |g.order| && g.order[i] in g.deps && j < |g.deps[g.order[i]]| && g.deps[g.order[i]][j] !in g.deps
    && (forall k :: 0 <= k < i ==> g.order[k] in g.deps && g.DepsKnown(g.order[k]))
    && (forall k :: 0 <= k < j ==> g.deps[g.order[i]][k] in g.deps)
  }

  ghost predicate FirstDangling(g: Graph, error: BuildError) {
    exists i: nat, j: nat :: DanglesAt(g, i, j) && error == UnknownDependency(g.order[i], g.deps[g.order[i]][j])
  }

  /** There is at most one first dangling dependency, so the error is determined by the list. */
  lemma FirstDanglingUnique(g: Graph, e: BuildError, f: BuildError)
    requires FirstDangling(g, e) && FirstDangling(g, f)
    ensures e == f
  {
    var i: nat, j: nat :| DanglesAt(g, i, j) && e == UnknownDependency(g.order[i], g.deps[g.order[i]][j]);
    var k: nat, l: nat :| DanglesAt(g, k, l) && f == UnknownDependency(g.order[k], g.deps[g.order[k]][l]);
    assert !g.DepsKnown(g.order[i]) && !g.DepsKnown(g.order[k]);
  }

  /**
   Construction as callers see it: the graph, or the error that
   is raised, and which of them is decided by the node list.
   */
  method Build<T, V>(list: seq<TaskNode<T, V>>) returns (r: Built<T, V>)
    ensures r.Accepted? <==> ShapeOf(list).Valid() && Acyclic(ShapeOf(list))
    ensures r.Accepted? ==> r.graph.Valid() && r.graph.Shape() == ShapeOf(list) && r.graph.nodes == NodesOf(list)
    ensures !ShapeOf(list).Valid() ==> r.Rejected? && FirstDangling(ShapeOf(list), r.error)
    ensures ShapeOf(list).Valid() && !Acyclic(ShapeOf(list)) ==>
      r == Rejected(DependencyCycle(Select(IdsOf(list), CyclicNodes(ShapeOf(list)))))
  {
    var graph := new TaskGraph(list);
    assert graph.Shape() == ShapeOf(list);
    var bad := graph.ValidateIds();
    if bad.Some? {
      return Rejected(bad.value);
    }
    var levels := TopologicalLevels(graph.Shape());
    if levels.CycleDetected? {
      return Rejected(DependencyCycle(levels.nodes));
    }
    return Accepted(graph);
  }

  // ----- summary

  datatype Summary = Summary(total: nat, completed: nat, failed: nat, skipped: nat, success: bool,
                             errors: map<string, Option<string>>)

  function WithStatus<V>(results: map<string, TaskNodeResult<V>>, status: Status): set<string> {
    set n | n in results && results[n].status == status
  }

  function Summarize<V>(results: map<string, TaskNodeResult<V>>): Summary {
    var failed, skipped := WithStatus(results, Failed), WithStatus(results, Skipped);
    Summary(|results|, |WithStatus(results, Complete)|, |failed|, |skipped|, |failed| == 0 && |skipped| == 0,
            map n | n in failed :: results[n].error)
  }

  lemma CountsPartition<V>(results: map<string, TaskNodeResult<V>>)
    ensures var s := Summarize(results);
      s.total == s.completed + s.failed + s.skipped && (s.success <==> s.completed == s.total)
  {
    var completed, failed, skipped := WithStatus(results, Complete), WithStatus(results, Failed),
      WithStatus(results, Skipped);
    assert results.Keys == completed + failed + skipped;
    assert |completed + failed| == |completed| + |failed|;
    assert |completed + failed + skipped| == |completed + failed| + |skipped|;
  }

  /** The nodes that are never dispatched: with skipping on, those with a raising ancestor. */
  ghost function CutOff<V>(g: Graph, outcomes: string -> Outcome<V>, skip: bool): set<string> {
    set id | id in g.deps && skip && AncestorRaises(g, outcomes, id)
  }

  /** The other nodes whose calls raise. */
  ghost function Raising<V>(g: Graph, outcomes: string -> Outcome<V>, skip: bool): set<string> {
    set id | id in g.deps && id !in CutOff(g, outcomes, skip) && outcomes(id).Raised?
  }

  lemma StatusOfAll<T, V>(graph: TaskGraph<T, V>, dispatcher: (string, T) -> Outcome<V>, skip: bool)
    requires graph.Valid()
    ensures var results, g, outcomes := graph.Expected(dispatcher, skip), graph.Shape(), graph.Outcomes(dispatcher);
      && WithStatus(results, Skipped) == CutOff(g, outcomes, skip)
      && WithStatus(results, Failed) == Raising(g, outcomes, skip)
      && WithStatus(results, Complete) == g.deps.Keys - CutOff(g, outcomes, skip) - Raising(g, outcomes, skip)
  {
    forall id | id in graph.nodes
      ensures graph.Expected(dispatcher, skip)[id].status ==
        if skip && AncestorRaises(graph.Shape(), graph.Outcomes(dispatcher), id) then Skipped
        else if graph.Outcomes(dispatcher)(id).Raised? then Failed else Complete
    {
      StatusClosedForm(graph.Shape(), graph.Outcomes(dispatcher), skip, id);
    }
  }

  /** The summary of an execution counts the nodes that are cut off, that raise, and that complete. */
  lemma CountsOfExecution<T, V>(graph: TaskGraph<T, V>, dispatcher: (string, T) -> Outcome<V>, skip: bool)
    requires graph.Valid()
    ensures var s := Summarize(graph.Expected(dispatcher, skip));
      var g, outcomes := graph.Shape(), graph.Outcomes(dispatcher);
      && s.total == |g.deps| && s.skipped == |CutOff(g, outcomes, skip)| && s.failed == |Raising(g, outcomes, skip)|
      && s.completed == |g.deps.Keys - CutOff(g, outcomes, skip) - Raising(g, outcomes, skip)|
  {
    assert graph.Expected(dispatcher, skip).Keys == graph.nodes.Keys == graph.Shape().deps.Keys;
    StatusOfAll(graph, dispatcher, skip);
  }

  /** It lists an error for exactly the calls that raise, with what they raised. */
  lemma ErrorsOfExecution<T, V>(graph: TaskGraph<T, V>, dispatcher: (string, T) -> Outcome<V>, skip: bool)
    requires graph.Valid()
    ensures var errors, outcomes := Summarize(graph.Expected(dispatcher, skip)).errors, graph.Outcomes(dispatcher);
      && errors.Keys == Raising(graph.Shape(), outcomes, skip)
      && forall id :: id in errors ==>
          outcomes(id).Raised? && errors[id] == Some(outcomes(id).kind + ": " + outcomes(id).message)
  {
    var results, outcomes := graph.Expected(dispatcher, skip), graph.Outcomes(dispatcher);
    StatusOfAll(graph, dispatcher, skip);
    forall id | id in results ensures Tells(results[id], id, outcomes(id)) {
      ReferenceTells(graph.Shape(), outcomes, skip, id);
    }
    ErrorsTell(results, outcomes);
  }

  lemma ErrorsTell<V>(results: map<string, TaskNodeResult<V>>, outcomes: string -> Outcome<V>)
    requires forall id {:trigger results[id]} :: id in results ==> Tells(results[id], id, outcomes(id))
    ensures Summarize(results).errors.Keys == WithStatus(results, Failed)
    ensures forall id :: id in Summarize(results).errors ==>
      && outcomes(id).Raised?
      && Summarize(results).errors[id] == Some(outcomes(id).kind + ": " + outcomes(id).message)
  {
  }

  /** It reports success exactly when no dispatcher call raises; a skip never stands without a failure. */
  lemma SummaryOfExecution<T, V>(graph: TaskGraph<T, V>, dispatcher: (string, T) -> Outcome<V>, skip: bool)
    requires graph.Valid()
    ensures var s := Summarize(graph.Expected(dispatcher, skip));
      && (s.success <==> s.failed == 0)
      && (s.success <==> forall id :: id in graph.nodes ==> graph.Outcomes(dispatcher)(id).Returned?)
  {
    var g, outcomes := graph.Shape(), graph.Outcomes(dispatcher);
    var results := graph.Expected(dispatcher, skip);
    StatusOfAll(graph, dispatcher, skip);
    if id :| id in WithStatus(results, Skipped) {
      var p := SkippedHasFailedAncestor(g, outcomes, skip, id);
      assert p[|p| - 1] in WithStatus(results, Failed);
    }
    if id :| id in graph.nodes && outcomes(id).Raised? {
      assert id in WithStatus(results, Failed) || id in WithStatus(results, Skipped);
    }
    if id :| id in WithStatus(results, Failed) {
      assert outcomes(id).Raised?;
    }
  }
}
