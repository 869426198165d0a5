/** Kahn's algorithm as the scheduler runs it: in-degree and children tables, then one level at a time. */
module KahnLevels {
  import opened PyLists
  import opened DependencyGraphs

  datatype LevelsOrCycle = Levels(levels: seq<seq<string>>) | CycleDetected(nodes: seq<string>)

  /**
   `levels` groups the nodes of `g` by the length of their longest dependency chain, with no gap and no repetition.
   */
  ghost predicate IsLeveling(g: Graph, levels: seq<seq<string>>) {
    && (forall i :: 0 <= i < |levels| ==> levels[i] != [] && Distinct(levels[i]))
    && (forall i, n {:trigger HasDepth(g, n, i)} :: 0 <= i < |levels| ==>
        (n in levels[i] <==> n in g.deps && HasDepth(g, n, i)))
    && (forall n :: n in g.deps ==> exists i :: 0 <= i < |levels| && n in levels[i])
  }

  // ----- counting unprocessed dependencies

  /** How many entries of a dependency list are not yet processed, counting repetitions. */
  ghost function Pending(ds: seq<string>, done: set<string>): nat {
    if ds == [] then 0 else (if ds[0] in done then 0 else 1) + Pending(ds[1..], done)
  }

  lemma {:induction false} PendingNone(ds: seq<string>, done: set<string>)
    ensures Pending(ds, done) == 0 <==> forall d :: d in ds ==> d in done
  {
    if ds != [] {
      PendingNone(ds[1..], done);
    }
  }

  lemma {:induction false} PendingAll(ds: seq<string>)
    ensures Pending(ds, {}) == |ds|
  {
    if ds != [] {
      PendingAll(ds[1..]);
    }
  }

  lemma {:induction false} PendingProcess(ds: seq<string>, done: set<string>, x: string)
    requires x !in done
    ensures Pending(ds, done) == Pending(ds, done + {x}) + multiset(ds)[x]
  {
    if ds != [] {
      PendingProcess(ds[1..], done, x);
      assert ds == [ds[0]] + ds[1..];
    }
  }

  // ----- the two tables

  function Kids(children: map<string, seq<string>>, d: string): seq<string> {
    if d in children then children[d] else []
  }

  /** How often `n` is listed as a child of `d`. */
  ghost function ChildCount(children: map<string, seq<string>>, d: string, n: string): nat {
    multiset(Kids(children, d))[n]
  }

  /** `children` holds one entry for every occurrence of a dependency in a list. */
  ghost predicate IndexesChildren(g: Graph, children: map<string, seq<string>>) {
    forall d, n {:trigger ChildCount(children, d, n)} ::
      ChildCount(children, d, n) == if n in g.deps then multiset(g.deps[n])[d] else 0
  }

  lemma AddChild(children: map<string, seq<string>>, d: string, id: string)
    ensures var added := children[d := Kids(children, d) + [id]];
      forall e, n :: ChildCount(added, e, n) == ChildCount(children, e, n) + if e == d && n == id then 1 else 0
  {
  }

  /** The inner loop of the indexing pass: one node's dependency list. */
  method IndexNode(id: string, ds: seq<string>, inDegree0: map<string, int>, children0: map<string, seq<string>>)
    returns (inDegree: map<string, int>, children: map<string, seq<string>>)
    requires id in inDegree0
    ensures inDegree == inDegree0[id := inDegree0[id] + |ds|]
    ensures forall d, n ::
      ChildCount(children, d, n) == ChildCount(children0, d, n) + (if n == id then multiset(ds)[d] else 0)
  {
    inDegree, children := inDegree0, children0;
    for j := 0 to |ds|
      invariant inDegree == inDegree0[id := inDegree0[id] + j]
      invariant forall d, n ::
        ChildCount(children, d, n) == ChildCount(children0, d, n) + (if n == id then multiset(ds[..j])[d] else 0)
    {
      AddChild(children, ds[j], id);
      inDegree := inDegree[id := inDegree[id] + 1];
      children := children[ds[j] := Kids(children, ds[j]) + [id]];
      assert ds[..j + 1] == ds[..j] + [ds[j]];
    }
    assert ds[..|ds|] == ds;
  }

  method IndexDependencies(g: Graph) returns (inDegree: map<string, int>, children: map<string, seq<string>>)
    requires g.Valid()
    ensures inDegree.Keys == g.deps.Keys
    ensures forall n :: n in g.deps ==> inDegree[n] == |g.deps[n]|
    ensures IndexesChildren(g, children)
  {
    inDegree := map n | n in g.deps :: 0;
    children := map[];
    for i := 0 to |g.order|
      invariant inDegree.Keys == g.deps.Keys
      invariant forall n :: n in g.deps ==> inDegree[n] == if n in g.order[..i] then |g.deps[n]| else 0
      invariant forall d, n :: ChildCount(children, d, n) == if n in g.order[..i] then multiset(g.deps[n])[d] else 0
    {
      var id := g.order[i];
      DistinctPrefix(g.order, i);
      inDegree, children := IndexNode(id, g.deps[id], inDegree, children);
      assert g.order[..i + 1] == g.order[..i] + [id];
    }
    assert g.order[..|g.order|] == g.order;
  }

  // ----- releasing the children of a processed node

  /**
   The in-degree of `n` counts its unprocessed dependencies,
   less the decrements already `taken`; at zero `n` has a level.
   */
  ghost predicate CountsPending(g: Graph, inDegree: map<string, int>, done: set<string>, rank: map<string, nat>,
                                taken: multiset<string>, n: string)
    requires n in g.deps && n in inDegree
  {
    && inDegree[n] == Pending(g.deps[n], done) - taken[n]
    && (n in rank <==> inDegree[n] == 0)
  }

  /**
   The tables mid-run: in-degrees count unprocessed dependencies, and exactly the zero entries have a level.
   `taken` counts the decrements made so far on behalf of the node being released.
   */
  ghost predicate Releasing(g: Graph, inDegree: map<string, int>, done: set<string>, rank: map<string, nat>,
                            taken: multiset<string>) {
    && inDegree.Keys == g.deps.Keys
    && Ranking(g, rank)
    && (forall n {:trigger CountsPending(g, inDegree, done, rank, taken, n)} :: n in g.deps ==>
        CountsPending(g, inDegree, done, rank, taken, n))
  }

  ghost predicate Counted(g: Graph, inDegree: map<string, int>, done: set<string>, rank: map<string, nat>) {
    Releasing(g, inDegree, done, rank, multiset{})
  }

  /** `bucket` lists, once each, the nodes of level `k`. */
  ghost predicate Bucket(bucket: seq<string>, rank: map<string, nat>, k: nat) {
    Distinct(bucket) && forall n {:trigger n in bucket} :: n in bucket <==> n in rank && rank[n] == k
  }

  /** `rank` adds nodes of level `k` to `rank0` and nothing else. */
  ghost predicate Extends(rank0: map<string, nat>, rank: map<string, nat>, k: nat) {
    && (forall n {:trigger n in rank0} :: n in rank0 ==> n in rank && rank[n] == rank0[n])
    && (forall n {:trigger n in rank} :: n in rank && n !in rank0 ==> rank[n] == k)
  }

  lemma RankNewNode(g: Graph, rank: map<string, nat>, n: string, k: nat, below: string)
    requires Ranking(g, rank) && n in g.deps && n !in rank
    requires forall d :: d in g.deps[n] ==> d in rank && rank[d] <= k
    requires below in g.deps[n] && rank[below] == k
    ensures Ranking(g, rank[n := k + 1])
  {
    var added := rank[n := k + 1];
    forall m | m in added
      ensures WellRanked(g, added, m)
    {
      if m == n {
        assert below in added;
      } else {
        assert WellRanked(g, rank, m);
        if rank[m] > 0 {
          var d :| d in g.deps[m] && d in rank && rank[d] + 1 == rank[m];
          assert d in added;
        }
      }
    }
  }

  /** `kids` counts, for every node, how often it lists `nid` as a dependency. */
  ghost predicate ChildrenOf(g: Graph, nid: string, kids: multiset<string>) {
    forall n {:trigger kids[n]} :: kids[n] == if n in g.deps then multiset(g.deps[n])[nid] else 0
  }

  lemma NextChild(kids: seq<string>, j: nat)
    requires j < |kids|
    ensures multiset(kids[..j + 1]) == multiset(kids[..j]) + multiset{kids[j]}
    ensures multiset(kids[..j])[kids[j]] < multiset(kids)[kids[j]]
  {
    assert kids[..j + 1] == kids[..j] + [kids[j]];
    assert kids == kids[..j + 1] + kids[j + 1..];
  }

  ghost function Ranked(rank: map<string, nat>, n: string, k: nat, yes: bool): map<string, nat> {
    if yes then rank[n := k] else rank
  }

  /** A decrement never goes below zero, and at zero everything the child depends on has a level. */
  lemma ChildReady(g: Graph, nid: string, kids: multiset<string>, taken: multiset<string>, child: string,
                   inDegree: map<string, int>, done: set<string>, rank: map<string, nat>)
    requires ChildrenOf(g, nid, kids) && taken[child] < kids[child] && nid in rank && nid !in done
    requires forall n {:trigger n in done} :: n in done ==> n in rank && rank[n] <= rank[nid]
    requires Releasing(g, inDegree, done, rank, taken)
    ensures child in g.deps && nid in g.deps[child] && inDegree[child] > 0 && child !in rank
    ensures inDegree[child] == 1 ==> forall d :: d in g.deps[child] ==> d in rank && rank[d] <= rank[nid]
  {
    assert CountsPending(g, inDegree, done, rank, taken, child);
    PendingProcess(g.deps[child], done, nid);
    PendingNone(g.deps[child], done + {nid});
  }

  lemma ReleaseOne(g: Graph, nid: string, kids: multiset<string>, taken: multiset<string>, child: string,
                   inDegree: map<string, int>, done: set<string>, rank: map<string, nat>)
    requires ChildrenOf(g, nid, kids) && taken[child] < kids[child] && nid in rank && nid !in done
    requires forall n {:trigger n in done} :: n in done ==> n in rank && rank[n] <= rank[nid]
    requires Releasing(g, inDegree, done, rank, taken)
    ensures child in g.deps && child !in rank
    ensures var left := inDegree[child] - 1;
      Releasing(g, inDegree[child := left], done, Ranked(rank, child, rank[nid] + 1, left == 0),
                taken + multiset{child})
  {
    ChildReady(g, nid, kids, taken, child, inDegree, done, rank);
    var left := inDegree[child] - 1;
    var after, rank' := inDegree[child := left], Ranked(rank, child, rank[nid] + 1, left == 0);
    if left == 0 {
      RankNewNode(g, rank, child, rank[nid], nid);
    }
    forall n | n in g.deps
      ensures CountsPending(g, after, done, rank', taken + multiset{child}, n)
    {
      assert CountsPending(g, inDegree, done, rank, taken, n);
    }
  }

  lemma ReleaseDone(g: Graph, nid: string, kids: multiset<string>, inDegree: map<string, int>, done: set<string>,
                    rank: map<string, nat>)
    requires nid !in done && Releasing(g, inDegree, done, rank, kids) && ChildrenOf(g, nid, kids)
    ensures Counted(g, inDegree, done + {nid}, rank)
  {
    forall n | n in g.deps
      ensures CountsPending(g, inDegree, done + {nid}, rank, multiset{}, n)
    {
      assert CountsPending(g, inDegree, done, rank, kids, n);
      PendingProcess(g.deps[n], done, nid);
    }
  }

  /** The next level collected so far: `rank` adds to `rank0` exactly the nodes listed in `next`, at level `k`. */
  ghost predicate Collected(next: seq<string>, rank0: map<string, nat>, rank: map<string, nat>, k: nat) {
    Extends(rank0, rank, k) && Bucket(next, rank, k)
  }

  lemma Collect(next: seq<string>, rank0: map<string, nat>, rank: map<string, nat>, k: nat, child: string)
    requires Collected(next, rank0, rank, k) && child !in rank
    ensures Collected(next + [child], rank0, rank[child := k], k)
  {
    DistinctAppend(next, child);
  }

  method ReleaseChildren(g: Graph, nid: string, kids: seq<string>, inDegree0: map<string, int>, next0: seq<string>,
                         ghost k: nat,
                         ghost done: set<string>, ghost start: map<string, nat>, ghost rank0: map<string, nat>)
    returns (inDegree: map<string, int>, next: seq<string>, ghost rank: map<string, nat>)
    requires Counted(g, inDegree0, done, rank0) && ChildrenOf(g, nid, multiset(kids))
    requires nid in rank0 && rank0[nid] == k && nid !in done
    requires forall n {:trigger n in done} :: n in done ==> n in start && start[n] <= k
    requires Collected(next0, start, rank0, k + 1)
    ensures Counted(g, inDegree, done + {nid}, rank) && Collected(next, start, rank, k + 1)
  {
    inDegree, next, rank := inDegree0, next0, rank0;
    assert multiset(kids[..0]) == multiset{};
    for j := 0 to |kids|
      invariant Releasing(g, inDegree, done, rank, multiset(kids[..j]))
      invariant Collected(next, start, rank, k + 1) && nid in rank && rank[nid] == k
    {
      var child := kids[j];
      NextChild(kids, j);
      ReleaseOne(g, nid, multiset(kids), multiset(kids[..j]), child, inDegree, done, rank);
      inDegree := inDegree[child := inDegree[child] - 1];
      if inDegree[child] == 0 {
        Collect(next, start, rank, k + 1, child);
        rank := rank[child := k + 1];
        next := next + [child];
      }
    }
    assert kids[..|kids|] == kids;
    ReleaseDone(g, nid, multiset(kids), inDegree, done, rank);
  }

  // ----- levels

  /** `done` holds the ranked nodes below level `k`, and no node ranks above `k`. */
  ghost predicate DoneBelow(done: set<string>, rank: map<string, nat>, k: nat) {
    done <= rank.Keys && forall n {:trigger n in rank} :: n in rank ==> rank[n] <= k && (n in done <==> rank[n] < k)
  }

  /** The front of the queue is unprocessed, sits at the current level, and everything processed sits no higher. */
  lemma PopFront(level: seq<string>, queue: seq<string>, done: set<string>, start: map<string, nat>, k: nat)
    requires queue != [] && DoneBelow(done, start, k) && Bucket(level + queue, start, k)
    ensures queue[0] !in done + Elements(level)
    ensures queue[0] in start && start[queue[0]] == k
    ensures forall n {:trigger n in done + Elements(level)} :: n in done + Elements(level) ==>
      n in start && start[n] <= k
  {
    DistinctSplit(level, queue);
    assert queue[0] in queue && queue[0] in level + queue;
    assert forall n :: n in level ==> n in level + queue;
  }

  /** One level: pops every queued node and collects the nodes it makes ready. */
  method DrainLevel(g: Graph, children: map<string, seq<string>>, queue0: seq<string>, inDegree0: map<string, int>,
                    ghost k: nat,
                    ghost done: set<string>, ghost start: map<string, nat>)
    returns (level: seq<string>, next: seq<string>, inDegree: map<string, int>, ghost rank: map<string, nat>)
    requires IndexesChildren(g, children) && Counted(g, inDegree0, done, start)
    requires DoneBelow(done, start, k) && Bucket(queue0, start, k)
    ensures level == queue0
    ensures Counted(g, inDegree, done + Elements(level), rank) && Collected(next, start, rank, k + 1)
  {
    var queue := queue0;
    level, next, inDegree, rank := [], [], inDegree0, start;
    assert done + Elements(level) == done;
    while queue != []
      invariant level + queue == queue0
      invariant Counted(g, inDegree, done + Elements(level), rank)
      invariant Collected(next, start, rank, k + 1)
      decreases |queue|
    {
      var nid := queue[0];
      PopFront(level, queue, done, start, k);
      assert ChildrenOf(g, nid, multiset(Kids(children, nid))) by {
        assert forall n :: multiset(Kids(children, nid))[n] == ChildCount(children, nid, n);
      }
      inDegree, next, rank := ReleaseChildren(g, nid, Kids(children, nid), inDegree, next, k, done + Elements(level),
                                              start, rank);
      assert done + Elements(level) + {nid} == done + Elements(level + [nid]);
      queue := queue[1..];
      level := level + [nid];
    }
    assert level == queue0;
  }

  // ----- what the tables say when the queue runs dry

  /** The nodes of `order` in `members`, in that order. */
  function Select(order: seq<string>, members: set<string>): (r: seq<string>)
    ensures forall n :: n in r <==> n in order && n in members
  {
    if order == [] then [] else (if order[0] in members then [order[0]] else []) + Select(order[1..], members)
  }

  /** They are picked from the order, which is kept. */
  lemma {:induction false} SelectKeepsOrder(order: seq<string>, members: set<string>) returns (at: seq<nat>)
    ensures Picks(order, n => n in members, at, Select(order, members))
  {
    at := FilterPicks(order, n => n in members);
    SelectIsFilter(order, n => n in members, members);
  }

  lemma {:induction false} SelectIsFilter(order: seq<string>, keep: string -> bool, members: set<string>)
    requires forall n :: keep(n) <==> n in members
    ensures Select(order, members) == Filter(order, keep)
  {
    if order != [] {
      SelectIsFilter(order[1..], keep, members);
    }
  }

  lemma {:induction false} SelectDistinct(order: seq<string>, members: set<string>)
    requires Distinct(order)
    ensures Distinct(Select(order, members))
  {
    if order != [] {
      assert order == [order[0]] + order[1..];
      DistinctSplit([order[0]], order[1..]);
      SelectDistinct(order[1..], members);
    }
  }

  /** Before anything is processed, the nodes without dependencies form level 0. */
  lemma StartCounted(g: Graph, inDegree: map<string, int>, ready: set<string>, rank: map<string, nat>)
    requires g.Valid() && inDegree.Keys == g.deps.Keys
    requires forall n :: n in g.deps ==> inDegree[n] == |g.deps[n]|
    requires ready == set n | n in g.deps && inDegree[n] == 0
    requires rank == map n | n in ready :: 0
    ensures Counted(g, inDegree, {}, rank) && Bucket(Select(g.order, ready), rank, 0)
  {
    SelectDistinct(g.order, ready);
    forall n | n in g.deps
      ensures CountsPending(g, inDegree, {}, rank, multiset{}, n)
    {
      PendingAll(g.deps[n]);
    }
    forall n | n in rank
      ensures WellRanked(g, rank, n)
    {
      assert g.deps[n] == [];
    }
  }

  ghost function CyclicNodes(g: Graph): set<string> {
    set n | n in g.deps && ReachesCycle(g, n)
  }

  lemma AcyclicIffNoCyclicNodes(g: Graph)
    ensures Acyclic(g) <==> CyclicNodes(g) == {}
  {
    if n :| OnCycle(g, n) {
      CycleReachesItself(g, n);
      assert n in CyclicNodes(g);
    } else {
      assert forall n :: !ReachesCycle(g, n);
    }
  }

  lemma UnrankedAreStuck(g: Graph, inDegree: map<string, int>, rank: map<string, nat>)
    requires g.Valid() && Counted(g, inDegree, rank.Keys, rank)
    ensures Stuck(g, g.deps.Keys - rank.Keys)
  {
    var stuck := g.deps.Keys - rank.Keys;
    forall n | n in stuck
      ensures DependsOnMember(g, stuck, n)
    {
      assert g.DepsKnown(n) && CountsPending(g, inDegree, rank.Keys, rank, multiset{}, n);
      PendingNone(g.deps[n], rank.Keys);
    }
  }

  /** Once every ranked node is processed, the unranked ones are exactly those that reach a cycle. */
  lemma UnrankedAreCyclic(g: Graph, inDegree: map<string, int>, rank: map<string, nat>)
    requires g.Valid() && Counted(g, inDegree, rank.Keys, rank)
    ensures CyclicNodes(g) == g.deps.Keys - rank.Keys
  {
    var stuck := g.deps.Keys - rank.Keys;
    UnrankedAreStuck(g, inDegree, rank);
    forall n | n in g.deps
      ensures ReachesCycle(g, n) <==> n in stuck
    {
      if n in stuck {
        StuckReachesCycle(g, stuck, n);
      } else {
        RankedIsSafe(g, rank, n);
      }
    }
  }

  lemma UnrankedHavePositiveDegree(g: Graph, inDegree: map<string, int>, rank: map<string, nat>)
    requires Counted(g, inDegree, rank.Keys, rank)
    ensures (set n | n in g.deps && inDegree[n] > 0) == g.deps.Keys - rank.Keys
  {
    forall n | n in g.deps
      ensures inDegree[n] > 0 <==> n !in rank
    {
      assert CountsPending(g, inDegree, rank.Keys, rank, multiset{}, n);
    }
  }

  /** The levels built so far hold exactly the ranked nodes below the current level. */
  ghost predicate Built(levels: seq<seq<string>>, rank: map<string, nat>) {
    forall i :: 0 <= i < |levels| ==> levels[i] != [] && Bucket(levels[i], rank, i)
  }

  lemma BuiltIsLeveling(g: Graph, levels: seq<seq<string>>, rank: map<string, nat>)
    requires Ranking(g, rank) && rank.Keys == g.deps.Keys
    requires Built(levels, rank) && forall n {:trigger n in rank} :: n in rank ==> rank[n] < |levels|
    ensures IsLeveling(g, levels)
  {
    forall i, n | 0 <= i < |levels|
      ensures n in levels[i] <==> n in g.deps && HasDepth(g, n, i)
    {
      if n in g.deps {
        RankIsDepth(g, rank, n);
        if HasDepth(g, n, i) {
          DepthUnique(g, n, i, rank[n]);
        }
      }
    }
    forall n | n in g.deps
      ensures exists i :: 0 <= i < |levels| && n in levels[i]
    {
      assert n in levels[rank[n]];
    }
  }

  ghost predicate LevelsLaw(g: Graph, r: LevelsOrCycle) {
    match r
    case Levels(levels) => Acyclic(g) && IsLeveling(g, levels)
    case CycleDetected(nodes) => !Acyclic(g) && nodes == Select(g.order, CyclicNodes(g))
  }

  lemma BuiltAppend(levels: seq<seq<string>>, level: seq<string>, rank0: map<string, nat>, rank: map<string, nat>)
    requires Built(levels, rank0) && level != [] && Bucket(level, rank0, |levels|)
    requires Extends(rank0, rank, |levels| + 1)
    ensures Built(levels + [level], rank)
  {
    forall i | 0 <= i < |levels + [level]|
      ensures (levels + [level])[i] != [] && Bucket((levels + [level])[i], rank, i)
    {
      var bucket := if i < |levels| then levels[i] else level;
      assert Bucket(bucket, rank0, i) && (levels + [level])[i] == bucket;
    }
  }

  lemma CloseLevel(nodes: set<string>, level: seq<string>, k: nat, done: set<string>, rank0: map<string, nat>,
                   rank: map<string, nat>)
    requires level != [] && Bucket(level, rank0, k) && Extends(rank0, rank, k + 1) && rank.Keys <= nodes
    requires DoneBelow(done, rank0, k)
    ensures DoneBelow(done + Elements(level), rank, k + 1)
    ensures |done + Elements(level)| == |done| + |level|
    ensures |nodes - (done + Elements(level))| < |nodes - done|
  {
    assert level[0] in level;
    assert forall n :: n in level ==> n !in done;
    DistinctCount(level);
    assert nodes - done == (nodes - (done + Elements(level))) + Elements(level);
    forall n | n in rank
      ensures rank[n] <= k + 1 && (n in done + Elements(level) <==> rank[n] < k + 1)
    {
      assert n in level <==> n in rank0 && rank0[n] == k;
    }
  }

  /** The state between levels. */
  ghost predicate AtLevel(g: Graph, inDegree: map<string, int>, levels: seq<seq<string>>, queue: seq<string>,
                          done: set<string>, rank: map<string, nat>)
  {
    && Counted(g, inDegree, done, rank)
    && DoneBelow(done, rank, |levels|)
    && Bucket(queue, rank, |levels|)
    && Built(levels, rank)
    && TotalLength(levels) == |done|
  }

  /** What the scheduled total says about the graph once the queue is empty. */
  lemma Verdict(g: Graph, inDegree: map<string, int>, levels: seq<seq<string>>, done: set<string>,
                rank: map<string, nat>)
    requires g.Valid() && AtLevel(g, inDegree, levels, [], done, rank)
    ensures TotalLength(levels) == |g.deps| ==> LevelsLaw(g, Levels(levels))
    ensures TotalLength(levels) != |g.deps| ==>
      !Acyclic(g) && (set n | n in g.deps && inDegree[n] > 0) == CyclicNodes(g)
  {
    assert done == rank.Keys by {
      var queue: seq<string> := [];
      assert forall n :: n in rank ==> n !in queue;
    }
    SubsetOfSameSize(done, g.deps.Keys);
    UnrankedAreCyclic(g, inDegree, rank);
    UnrankedHavePositiveDegree(g, inDegree, rank);
    AcyclicIffNoCyclicNodes(g);
    if done == g.deps.Keys {
      BuiltIsLeveling(g, levels, rank);
    } else {
      var n :| n in g.deps && n !in done;
      assert n in CyclicNodes(g);
    }
  }

  /** The body of the outer loop. */
  method RunLevel(g: Graph, children: map<string, seq<string>>, levels0: seq<seq<string>>, queue: seq<string>,
                  inDegree0: map<string, int>, ghost done0: set<string>, ghost rank0: map<string, nat>)
    returns (levels: seq<seq<string>>, next: seq<string>, inDegree: map<string, int>, ghost done: set<string>,
             ghost rank: map<string, nat>)
    requires IndexesChildren(g, children) && AtLevel(g, inDegree0, levels0, queue, done0, rank0) && queue != []
    ensures AtLevel(g, inDegree, levels, next, done, rank)
    ensures |g.deps.Keys - done| < |g.deps.Keys - done0|
  {
    var level;
    level, next, inDegree, rank := DrainLevel(g, children, queue, inDegree0, |levels0|, done0, rank0);
    BuiltAppend(levels0, level, rank0, rank);
    CloseLevel(g.deps.Keys, level, |levels0|, done0, rank0, rank);
    levels := levels0 + [level];
    done := done0 + Elements(level);
    assert levels[..|levels0|] == levels0;
  }

  method TopologicalLevels(g: Graph) returns (r: LevelsOrCycle)
    requires g.Valid()
    ensures LevelsLaw(g, r)
  {
    var inDegree, children := IndexDependencies(g);
    var levels: seq<seq<string>> := [];
    var ready := set n | n in g.deps && inDegree[n] == 0;
    var queue := Select(g.order, ready);
    ghost var done: set<string>, rank: map<string, nat> := {}, map n | n in ready :: 0;
    StartCounted(g, inDegree, ready, rank);
    while queue != []
      invariant AtLevel(g, inDegree, levels, queue, done, rank)
      decreases |g.deps.Keys - done|
    {
      levels, queue, inDegree, done, rank := RunLevel(g, children, levels, queue, inDegree, done, rank);
    }
    Verdict(g, inDegree, levels, done, rank);
    if TotalLength(levels) != |g.deps| {
      return CycleDetected(Select(g.order, set n | n in g.deps && inDegree[n] > 0));
    }
    return Levels(levels);
  }

  // ----- walking the levels

  /** The nodes of the first `k` levels. */
  ghost function NodesBefore(levels: seq<seq<string>>, k: nat): set<string>
    requires k <= |levels|
  {
    set i, n | 0 <= i < k && n in levels[i] :: n
  }

  lemma LevelIffDepth(g: Graph, levels: seq<seq<string>>, i: nat, n: string)
    requires IsLeveling(g, levels) && i < |levels|
    ensures n in levels[i] <==> n in g.deps && HasDepth(g, n, i)
  {
    var deep := HasDepth(g, n, i);
  }

  lemma LevelsCover(g: Graph, levels: seq<seq<string>>)
    requires IsLeveling(g, levels)
    ensures NodesBefore(levels, |levels|) == g.deps.Keys
  {
    forall n
      ensures n in NodesBefore(levels, |levels|) <==> n in g.deps
    {
      if n in g.deps {
        var i :| 0 <= i < |levels| && n in levels[i];
      }
      if n in NodesBefore(levels, |levels|) {
        var i :| 0 <= i < |levels| && n in levels[i];
        LevelIffDepth(g, levels, i, n);
      }
    }
  }

  /** Level `k` is new, and everything it depends on lies in the levels before it. */
  lemma LevelComesAfterDependencies(g: Graph, levels: seq<seq<string>>, k: nat, n: string)
    requires g.Valid() && Acyclic(g) && IsLeveling(g, levels) && k < |levels| && n in levels[k]
    ensures n in g.deps && n !in NodesBefore(levels, k)
    ensures forall d :: d in g.deps[n] ==> d in NodesBefore(levels, k)
  {
    LevelIffDepth(g, levels, k, n);
    DepthIs(g, n, k);
    if n in NodesBefore(levels, k) {
      var i :| 0 <= i < k && n in levels[i];
      LevelIffDepth(g, levels, i, n);
      DepthUnique(g, n, i, k);
    }
    forall d | d in g.deps[n]
      ensures d in NodesBefore(levels, k)
    {
      DependencyIsShallower(g, n, d);
      var i :| 0 <= i < |levels| && d in levels[i];
      LevelIffDepth(g, levels, i, d);
      DepthIs(g, d, i);
    }
  }
}
