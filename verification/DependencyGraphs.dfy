/**
 The theory of dependency graphs behind the task scheduler: chains,
 cycles and levels, stated without reference to any algorithm.
 */
module DependencyGraphs {
  import opened PyLists

  /** Node ids in insertion order, with the dependency list of each. A list may repeat an id or name its own node. */
  datatype Graph = Graph(order: seq<string>, deps: map<string, seq<string>>) {
    /** Every dependency of `n` is a node. */
    ghost predicate DepsKnown(n: string)
      requires n in deps
    {
      forall d :: d in deps[n] ==> d in deps
    }

    /** What id validation establishes, on top of the ids being dictionary keys. */
    ghost predicate Valid() {
      && Distinct(order)
      && (forall n :: n in order <==> n in deps)
      && (forall n {:trigger DepsKnown(n)} :: n in deps ==> DepsKnown(n))
    }
  }

  /** The element of `p` at `i` depends directly on the one after it. */
  ghost predicate Link(g: Graph, p: seq<string>, i: nat)
    requires i + 1 < |p| && p[i] in g.deps
  {
    p[i + 1] in g.deps[p[i]]
  }

  /** Each element of `p` depends directly on the next. */
  ghost predicate Chain(g: Graph, p: seq<string>) {
    && |p| > 0
    && (forall i :: 0 <= i < |p| ==> p[i] in g.deps)
    && (forall i :: 0 <= i < |p| - 1 ==> Link(g, p, i))
  }

  ghost predicate ChainFrom(g: Graph, p: seq<string>, n: string) {
    Chain(g, p) && p[0] == n
  }

  ghost predicate OnCycle(g: Graph, n: string) {
    exists p {:trigger ChainFrom(g, p, n)} :: ChainFrom(g, p, n) && |p| > 1 && p[|p| - 1] == n
  }

  /** `n` lies on a cycle or depends, through any number of steps, on a node that does. */
  ghost predicate ReachesCycle(g: Graph, n: string) {
    exists p {:trigger ChainFrom(g, p, n)} :: ChainFrom(g, p, n) && OnCycle(g, p[|p| - 1])
  }

  ghost predicate Acyclic(g: Graph) {
    forall n :: !OnCycle(g, n)
  }

  /** The longest dependency chain starting at `n` takes `k` steps. */
  ghost predicate HasDepth(g: Graph, n: string, k: nat) {
    && (exists p :: ChainFrom(g, p, n) && |p| == k + 1)
    && (forall p :: ChainFrom(g, p, n) ==> |p| <= k + 1)
  }

  /** The dependencies of `n` all rank below it, and unless it has none, one of them ranks just below. */
  ghost predicate WellRanked(g: Graph, rank: map<string, nat>, n: string)
    requires n in rank && n in g.deps
  {
    && (forall d :: d in g.deps[n] ==> d in rank && rank[d] < rank[n])
    && (rank[n] > 0 ==> exists d :: d in g.deps[n] && d in rank && rank[d] + 1 == rank[n])
  }

  /** A partial assignment of levels in which every node with a level is well ranked. */
  ghost predicate Ranking(g: Graph, rank: map<string, nat>) {
    && rank.Keys <= g.deps.Keys
    && (forall n {:trigger WellRanked(g, rank, n)} :: n in rank ==> WellRanked(g, rank, n))
  }

  /** Along a chain from a ranked node the rank drops at every step. */
  lemma {:induction false} ChainDescends(g: Graph, rank: map<string, nat>, p: seq<string>, i: nat)
    requires Ranking(g, rank) && Chain(g, p) && p[0] in rank && i < |p|
    ensures p[i] in rank && rank[p[i]] + i <= rank[p[0]]
  {
    if i > 0 {
      ChainDescends(g, rank, p, i - 1);
      assert Link(g, p, i - 1) && WellRanked(g, rank, p[i - 1]);
    }
  }

  lemma ExtendChain(g: Graph, n: string, rest: seq<string>)
    requires Chain(g, rest) && n in g.deps && rest[0] in g.deps[n]
    ensures ChainFrom(g, [n] + rest, n)
  {
    var p := [n] + rest;
    forall i | 0 <= i < |p| - 1
      ensures Link(g, p, i)
    {
      if i > 0 {
        assert Link(g, rest, i - 1);
      }
    }
  }

  lemma SubChain(g: Graph, p: seq<string>, i: nat, j: nat)
    requires Chain(g, p) && i < j <= |p|
    ensures ChainFrom(g, p[i..j], p[i])
  {
    var c := p[i..j];
    forall k | 0 <= k < |c| - 1
      ensures Link(g, c, k)
    {
      assert Link(g, p, i + k);
    }
  }

  lemma {:induction false} ChainOfLength(g: Graph, rank: map<string, nat>, n: string) returns (p: seq<string>)
    requires Ranking(g, rank) && n in rank
    ensures ChainFrom(g, p, n) && |p| == rank[n] + 1
    decreases rank[n]
  {
    assert WellRanked(g, rank, n);
    if rank[n] == 0 {
      p := [n];
    } else {
      var d :| d in g.deps[n] && d in rank && rank[d] + 1 == rank[n];
      var rest := ChainOfLength(g, rank, d);
      ExtendChain(g, n, rest);
      p := [n] + rest;
    }
  }

  /** A ranking is exactly the longest-chain depth. */
  lemma RankIsDepth(g: Graph, rank: map<string, nat>, n: string)
    requires Ranking(g, rank) && n in rank
    ensures HasDepth(g, n, rank[n])
  {
    var p := ChainOfLength(g, rank, n);
    forall q | ChainFrom(g, q, n)
      ensures |q| <= rank[n] + 1
    {
      ChainDescends(g, rank, q, |q| - 1);
    }
  }

  lemma DepthUnique(g: Graph, n: string, j: nat, k: nat)
    requires HasDepth(g, n, j) && HasDepth(g, n, k)
    ensures j == k
  {
    var p :| ChainFrom(g, p, n) && |p| == j + 1;
    var q :| ChainFrom(g, q, n) && |q| == k + 1;
  }

  lemma RankedIsSafe(g: Graph, rank: map<string, nat>, n: string)
    requires Ranking(g, rank) && n in rank
    ensures !ReachesCycle(g, n)
  {
    if ReachesCycle(g, n) {
      var p :| ChainFrom(g, p, n) && OnCycle(g, p[|p| - 1]);
      ChainDescends(g, rank, p, |p| - 1);
      var m := p[|p| - 1];
      var c :| ChainFrom(g, c, m) && |c| > 1 && c[|c| - 1] == m;
      ChainDescends(g, rank, c, |c| - 1);
    }
  }

  ghost predicate DependsOnMember(g: Graph, members: set<string>, n: string)
    requires n in g.deps
  {
    exists d :: d in g.deps[n] && d in members
  }

  /** `stuck` never lets go: each member depends on another member. */
  ghost predicate Stuck(g: Graph, stuck: set<string>) {
    && stuck <= g.deps.Keys
    && (forall n {:trigger DependsOnMember(g, stuck, n)} :: n in stuck ==> DependsOnMember(g, stuck, n))
  }

  lemma {:induction false} ChainWithin(g: Graph, stuck: set<string>, n: string, len: nat) returns (p: seq<string>)
    requires Stuck(g, stuck) && n in stuck && len > 0
    ensures ChainFrom(g, p, n) && |p| == len && forall i :: 0 <= i < len ==> p[i] in stuck
    decreases len
  {
    if len == 1 {
      p := [n];
    } else {
      assert DependsOnMember(g, stuck, n);
      var d :| d in g.deps[n] && d in stuck;
      var rest := ChainWithin(g, stuck, d, len - 1);
      ExtendChain(g, n, rest);
      p := [n] + rest;
    }
  }

  /** Following dependencies inside a stuck set for long enough revisits a node, so it finds a cycle. */
  lemma StuckReachesCycle(g: Graph, stuck: set<string>, n: string)
    requires Stuck(g, stuck) && n in stuck
    ensures ReachesCycle(g, n)
  {
    var p := ChainWithin(g, stuck, n, |stuck| + 1);
    Pigeonhole(p, stuck);
    var i, j :| 0 <= i < j < |p| && p[i] == p[j];
    SubChain(g, p, 0, i + 1);
    SubChain(g, p, i, j + 1);
    var toCycle := p[0..i + 1];
    assert toCycle[|toCycle| - 1] == p[i];
    assert OnCycle(g, p[i]) by {
      assert ChainFrom(g, p[i..j + 1], p[i]);
    }
  }

  /** A node on a cycle reaches one, by the one-element chain. */
  lemma CycleReachesItself(g: Graph, n: string)
    requires OnCycle(g, n)
    ensures ReachesCycle(g, n) && n in g.deps
  {
    var c :| ChainFrom(g, c, n) && |c| > 1 && c[|c| - 1] == n;
    assert ChainFrom(g, [n], n);
    assert OnCycle(g, [n][|[n]| - 1]);
  }

  // ----- depth as a function, on acyclic graphs

  /** A chain longer than the number of nodes repeats one, so an acyclic graph has none. */
  lemma ChainsAreShort(g: Graph, p: seq<string>)
    requires Acyclic(g) && Chain(g, p)
    ensures |p| <= |g.deps.Keys|
  {
    if |p| > |g.deps.Keys| {
      Pigeonhole(p, g.deps.Keys);
      var i, j :| 0 <= i < j < |p| && p[i] == p[j];
      SubChain(g, p, i, j + 1);
      assert OnCycle(g, p[i]) by {
        assert ChainFrom(g, p[i..j + 1], p[i]);
      }
    }
  }

  lemma {:induction false} LongestChain(g: Graph, p: seq<string>) returns (longest: seq<string>)
    requires Acyclic(g) && Chain(g, p)
    ensures ChainFrom(g, longest, p[0]) && HasDepth(g, p[0], |longest| - 1)
    decreases |g.deps.Keys| - |p|
  {
    if q :| ChainFrom(g, q, p[0]) && |q| > |p| {
      ChainsAreShort(g, q);
      longest := LongestChain(g, q);
    } else {
      longest := p;
      assert ChainFrom(g, p, p[0]);
    }
  }

  lemma DepthExists(g: Graph, n: string)
    requires Acyclic(g) && n in g.deps
    ensures exists k: nat :: HasDepth(g, n, k)
  {
    var p := LongestChain(g, [n]);
  }

  /** The length, in steps, of the longest dependency chain starting at `n`. */
  ghost function Depth(g: Graph, n: string): nat
    requires Acyclic(g) && n in g.deps
  {
    DepthExists(g, n);
    var k: nat :| HasDepth(g, n, k);
    k
  }

  lemma DepthIs(g: Graph, n: string, k: nat)
    requires Acyclic(g) && n in g.deps
    ensures HasDepth(g, n, k) <==> Depth(g, n) == k
  {
    DepthExists(g, n);
    assert HasDepth(g, n, Depth(g, n));
    if HasDepth(g, n, k) {
      DepthUnique(g, n, k, Depth(g, n));
    }
  }

  lemma DependencyIsShallower(g: Graph, n: string, d: string)
    requires g.Valid() && Acyclic(g) && n in g.deps && d in g.deps[n]
    ensures d in g.deps && Depth(g, d) < Depth(g, n)
  {
    assert g.DepsKnown(n);
    var k := Depth(g, d);
    DepthIs(g, d, k);
    DepthIs(g, n, Depth(g, n));
    assert HasDepth(g, d, k) && HasDepth(g, n, Depth(g, n));
    var p :| ChainFrom(g, p, d) && |p| == k + 1;
    ExtendChain(g, n, p);
  }
}
