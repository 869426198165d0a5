/** The memory graph: a node counter and an edge counter filled row by row, and what they conserve. */
module MemoryGraph {
  import opened PyLists

  datatype NodeKind = MemoryNode | RunNode | MissionNode | EventNode | KindNode | TagNode | TokenNode | WorkflowNode
    | RiskNode

  /** A node of the graph; its id is the kind, a colon and the name. */
  datatype Node = Node(kind: NodeKind, name: string)

  datatype Edge = Edge(source: Node, target: Node)

  function KindName(kind: NodeKind): string {
    match kind
    case MemoryNode => "memory"
    case RunNode => "run"
    case MissionNode => "mission"
    case EventNode => "event"
    case KindNode => "kind"
    case TagNode => "tag"
    case TokenNode => "token"
    case WorkflowNode => "workflow"
    case RiskNode => "risk"
  }

  function IdOf(n: Node): string {
    KindName(n.kind) + ":" + n.name
  }

  /** Two nodes never share an id, whatever their names: the counters could as well be kept by id. */
  lemma IdsAreDistinct(a: Node, b: Node)
    requires IdOf(a) == IdOf(b)
    ensures a == b
  {
    var k, l := KindName(a.kind), KindName(b.kind);
    assert IdOf(a)[0] == k[0] && IdOf(a)[1] == k[1];
    assert IdOf(b)[0] == l[0] && IdOf(b)[1] == l[1];
    assert a.kind == b.kind;
    assert a.name == IdOf(a)[|k| + 1..] == IdOf(b)[|l| + 1..] == b.name;
  }

  /** The rows the graph is built from, with their texts already split into tokens. A missing text is empty. */
  datatype Row =
    | Memory(id: string, kind: string, tags: seq<string>, tokens: seq<string>, sourceRun: string)
    | Run(id: string, workflow: string, tokens: seq<string>)
    | Mission(id: string, workflow: string, risk: string, tokens: seq<string>)
    | Event(kind: string, tokens: seq<string>)

  function OrElse(s: string, default: string): string {
    if s == "" then default else s
  }

  // ----- what a row contributes

  /** The node a row stands for. */
  function NodeOf(row: Row): Node {
    match row
    case Memory(id, _, _, _, _) => Node(MemoryNode, id)
    case Run(id, _, _) => Node(RunNode, id)
    case Mission(id, _, _, _) => Node(MissionNode, id)
    case Event(kind, _) => Node(EventNode, OrElse(kind, "event"))
  }

  /** All the counters of the graph. */
  datatype Counters = Counters(nodes: multiset<Node>, edges: multiset<Edge>, kinds: multiset<string>,
                               tags: multiset<string>, workflows: multiset<string>, events: multiset<string>)

  const ZERO := Counters(multiset{}, multiset{}, multiset{}, multiset{}, multiset{}, multiset{})

  /** `counter[x] += 1`. */
  function Bump<T>(counter: multiset<T>, x: T): multiset<T> {
    counter[x := counter[x] + 1]
  }

  /** One connection: an edge, a touch of both its ends, and a count of the name when its kind is counted. */
  function Link(c: Counters, source: Node, kind: NodeKind, name: string): Counters {
    Counters(Bump(Bump(c.nodes, source), Node(kind, name)), Bump(c.edges, Edge(source, Node(kind, name))),
             if kind == KindNode then Bump(c.kinds, name) else c.kinds,
             if kind == TagNode then Bump(c.tags, name) else c.tags,
             if kind == WorkflowNode then Bump(c.workflows, name) else c.workflows, c.events)
  }

  /** Connections to the first `n` of the named nodes. */
  function LinkAll(c: Counters, source: Node, kind: NodeKind, names: seq<string>, n: nat): Counters
    requires n <= |names|
  {
    if n == 0 then c else Link(LinkAll(c, source, kind, names, n - 1), source, kind, names[n - 1])
  }

  lemma LinkOneMore(start: Counters, before: Counters, source: Node, kind: NodeKind, names: seq<string>, i: nat)
    requires i < |names| && before == LinkAll(start, source, kind, names, i)
    ensures LinkAll(start, source, kind, names, i + 1) == Link(before, source, kind, names[i])
  {
  }

  function Links(c: Counters, source: Node, kind: NodeKind, names: seq<string>): Counters {
    LinkAll(c, source, kind, names, |names|)
  }

  function TouchRow(c: Counters, row: Row): Counters {
    c.(nodes := Bump(c.nodes, NodeOf(row)), events := if row.Event? then Bump(c.events, NodeOf(row).name) else c.events)
  }

  /** The counters after one more row. */
  function AfterRow(before: Counters, row: Row, blank: string -> bool): Counters {
    var n, c := NodeOf(row), TouchRow(before, row);
    match row
    case Memory(_, kind, tags, tokens, sourceRun) =>
      Links(Links(Links(Link(c, n, KindNode, OrElse(kind, "lesson")), n, TagNode, Filter(tags, t => !blank(t))), n,
                  TokenNode, Cut(tokens, 10)),
            n, RunNode, if sourceRun == "" then [] else [sourceRun])
    case Run(_, workflow, tokens) =>
      Links(Link(c, n, WorkflowNode, OrElse(workflow, "unknown")), n, TokenNode, Cut(tokens, 12))
    case Mission(_, workflow, risk, tokens) =>
      Links(Link(Link(c, n, WorkflowNode, OrElse(workflow, "mission")), n, RiskNode, OrElse(risk, "unknown")), n,
            TokenNode, Cut(tokens, 12))
    case Event(_, tokens) => Links(c, n, TokenNode, Cut(tokens, 5))
  }

  /** The counters after the first `n` rows. */
  function AfterRows(rows: seq<Row>, blank: string -> bool, n: nat): Counters
    requires n <= |rows|
  {
    if n == 0 then ZERO else AfterRow(AfterRows(rows, blank, n - 1), rows[n - 1], blank)
  }

  /** The nodes the first `n` rows stand for. */
  function NodesOfAll(rows: seq<Row>, n: nat): (nodes: multiset<Node>)
    requires n <= |rows|
    ensures |nodes| == n
  {
    if n == 0 then multiset{} else Bump(NodesOfAll(rows, n - 1), NodeOf(rows[n - 1]))
  }

  // ----- which connections a row makes

  /** The node is the one a row stands for, by the id under which it is kept. */
  predicate IsRow(n: Node, row: Row) {
    IdOf(n) == match row
      case Memory(id, _, _, _, _) => "memory:" + id
      case Run(id, _, _) => "run:" + id
      case Mission(id, _, _, _) => "mission:" + id
      case Event(kind, _) => "event:" + if kind == "" then "event" else kind
  }

  lemma RowHasItsNode(n: Node, row: Row)
    ensures IsRow(n, row) <==> n == NodeOf(row)
  {
    assert IsRow(NodeOf(row), row) by {
      var k := NodeOf(row).kind;
      assert KindName(k) + ":" == match row
        case Memory(_, _, _, _, _) => "memory:"
        case Run(_, _, _) => "run:"
        case Mission(_, _, _, _) => "mission:"
        case Event(_, _) => "event:";
    }
    if IsRow(n, row) {
      IdsAreDistinct(n, NodeOf(row));
    }
  }

  /** How often a name occurs among the first `limit` of the names. */
  function Occurs(name: string, names: seq<string>, limit: nat): nat {
    multiset(names[..Min(|names|, limit)])[name]
  }

  /** How often a row connects its node to the node of the given kind and name. */
  function Connects(row: Row, blank: string -> bool, target: Node): nat {
    var kind, name := target.kind, target.name;
    match row
    case Memory(_, k, tags, tokens, sourceRun) =>
      if kind == KindNode then (if name == (if k == "" then "lesson" else k) then 1 else 0)
      else if kind == TagNode then (if blank(name) then 0 else multiset(tags)[name])
      else if kind == TokenNode then Occurs(name, tokens, 10)
      else if kind == RunNode && sourceRun != "" && name == sourceRun then 1
      else 0
    case Run(_, workflow, tokens) =>
      if kind == WorkflowNode then (if name == (if workflow == "" then "unknown" else workflow) then 1 else 0)
      else if kind == TokenNode then Occurs(name, tokens, 12)
      else 0
    case Mission(_, workflow, risk, tokens) =>
      if kind == WorkflowNode then (if name == (if workflow == "" then "mission" else workflow) then 1 else 0)
      else if kind == RiskNode then (if name == (if risk == "" then "unknown" else risk) then 1 else 0)
      else if kind == TokenNode then Occurs(name, tokens, 12)
      else 0
    case Event(_, tokens) => if kind == TokenNode then Occurs(name, tokens, 5) else 0
  }

  function ConnectsAlong(row: Row, blank: string -> bool, e: Edge): nat {
    if IsRow(e.source, row) then Connects(row, blank, e.target) else 0
  }

  /** How often an edge is among the connections of a node to the named ones of a kind. */
  function Among(e: Edge, source: Node, kind: NodeKind, names: seq<string>): nat {
    if e.source == source && e.target.kind == kind then multiset(names)[e.target.name] else 0
  }

  lemma OneAmong(e: Edge, source: Node, kind: NodeKind, name: string)
    ensures Among(e, source, kind, [name]) == if e == Edge(source, Node(kind, name)) then 1 else 0
  {
  }

  lemma AmongOneMore(e: Edge, source: Node, kind: NodeKind, names: seq<string>, n: nat)
    requires n < |names|
    ensures Among(e, source, kind, names[..n + 1]) ==
      Among(e, source, kind, names[..n]) + if e == Edge(source, Node(kind, names[n])) then 1 else 0
  {
    PrefixCounts(names, n, e.target.name);
  }

  lemma BumpCounts<T>(counter: multiset<T>, x: T, y: T)
    ensures Bump(counter, x)[y] == counter[y] + if x == y then 1 else 0
  {
  }

  /** What connections to the first `n` of the named nodes make of the edges. */
  function LinkedEdges(edges: multiset<Edge>, source: Node, kind: NodeKind, names: seq<string>, n: nat): multiset<Edge>
    requires n <= |names|
  {
    if n == 0 then edges
    else Bump(LinkedEdges(edges, source, kind, names, n - 1), Edge(source, Node(kind, names[n - 1])))
  }

  lemma {:induction false} LinkAllEdges(c: Counters, source: Node, kind: NodeKind, names: seq<string>, n: nat)
    requires n <= |names|
    ensures LinkAll(c, source, kind, names, n).edges == LinkedEdges(c.edges, source, kind, names, n)
  {
    if n > 0 {
      LinkAllEdges(c, source, kind, names, n - 1);
    }
  }

  lemma {:induction false} LinkedEdgesCount(edges: multiset<Edge>, source: Node, kind: NodeKind, names: seq<string>,
                                            n: nat, e: Edge)
    requires n <= |names|
    ensures LinkedEdges(edges, source, kind, names, n)[e] == edges[e] + Among(e, source, kind, names[..n])
  {
    if n > 0 {
      LinkedEdgesCount(edges, source, kind, names, n - 1, e);
      BumpCounts(LinkedEdges(edges, source, kind, names, n - 1), Edge(source, Node(kind, names[n - 1])), e);
      AmongOneMore(e, source, kind, names, n - 1);
    }
  }

  lemma LinkEdges(c: Counters, source: Node, kind: NodeKind, name: string, e: Edge)
    ensures Link(c, source, kind, name).edges[e] == c.edges[e] + Among(e, source, kind, [name])
  {
    BumpCounts(c.edges, Edge(source, Node(kind, name)), e);
    OneAmong(e, source, kind, name);
  }

  lemma LinksEdges(c: Counters, source: Node, kind: NodeKind, names: seq<string>, e: Edge)
    ensures Links(c, source, kind, names).edges[e] == c.edges[e] + Among(e, source, kind, names)
  {
    LinkAllEdges(c, source, kind, names, |names|);
    LinkedEdgesCount(c.edges, source, kind, names, |names|, e);
    assert names[..|names|] == names;
  }

  /** The connections of a row, kind by kind. */
  function RowAmong(row: Row, blank: string -> bool, e: Edge): nat {
    var n := NodeOf(row);
    match row
    case Memory(_, kind, tags, tokens, sourceRun) =>
      Among(e, n, KindNode, [OrElse(kind, "lesson")]) + Among(e, n, TagNode, Filter(tags, t => !blank(t)))
      + Among(e, n, TokenNode, Cut(tokens, 10)) + Among(e, n, RunNode, if sourceRun == "" then [] else [sourceRun])
    case Run(_, workflow, tokens) =>
      Among(e, n, WorkflowNode, [OrElse(workflow, "unknown")]) + Among(e, n, TokenNode, Cut(tokens, 12))
    case Mission(_, workflow, risk, tokens) =>
      Among(e, n, WorkflowNode, [OrElse(workflow, "mission")]) + Among(e, n, RiskNode, [OrElse(risk, "unknown")])
      + Among(e, n, TokenNode, Cut(tokens, 12))
    case Event(_, tokens) => Among(e, n, TokenNode, Cut(tokens, 5))
  }

  lemma MemoryLinks(before: Counters, row: Row, blank: string -> bool, e: Edge)
    requires row.Memory?
    ensures AfterRow(before, row, blank).edges[e] == before.edges[e] + RowAmong(row, blank, e)
  {
    var n, kept := NodeOf(row), Filter(row.tags, t => !blank(t));
    var c0 := TouchRow(before, row);
    var c1 := Link(c0, n, KindNode, OrElse(row.kind, "lesson"));
    var c2 := Links(c1, n, TagNode, kept);
    var c3 := Links(c2, n, TokenNode, Cut(row.tokens, 10));
    LinkEdges(c0, n, KindNode, OrElse(row.kind, "lesson"), e);
    LinksEdges(c1, n, TagNode, kept, e);
    LinksEdges(c2, n, TokenNode, Cut(row.tokens, 10), e);
    LinksEdges(c3, n, RunNode, if row.sourceRun == "" then [] else [row.sourceRun], e);
  }

  lemma MissionLinks(before: Counters, row: Row, blank: string -> bool, e: Edge)
    requires row.Mission?
    ensures AfterRow(before, row, blank).edges[e] == before.edges[e] + RowAmong(row, blank, e)
  {
    var n, c0 := NodeOf(row), TouchRow(before, row);
    var c1 := Link(c0, n, WorkflowNode, OrElse(row.workflow, "mission"));
    var c2 := Link(c1, n, RiskNode, OrElse(row.risk, "unknown"));
    LinkEdges(c0, n, WorkflowNode, OrElse(row.workflow, "mission"), e);
    LinkEdges(c1, n, RiskNode, OrElse(row.risk, "unknown"), e);
    LinksEdges(c2, n, TokenNode, Cut(row.tokens, 12), e);
  }

  lemma RowLinks(before: Counters, row: Row, blank: string -> bool, e: Edge)
    ensures AfterRow(before, row, blank).edges[e] == before.edges[e] + RowAmong(row, blank, e)
  {
    match row
    case Memory(_, _, _, _, _) =>
      MemoryLinks(before, row, blank, e);
    case Run(_, workflow, tokens) =>
      var n, c := NodeOf(row), TouchRow(before, row);
      LinkEdges(c, n, WorkflowNode, OrElse(workflow, "unknown"), e);
      LinksEdges(Link(c, n, WorkflowNode, OrElse(workflow, "unknown")), n, TokenNode, Cut(tokens, 12), e);
    case Mission(_, _, _, _) =>
      MissionLinks(before, row, blank, e);
    case Event(_, tokens) =>
      LinksEdges(TouchRow(before, row), NodeOf(row), TokenNode, Cut(tokens, 5), e);
  }

  lemma TokensAmong(e: Edge, source: Node, tokens: seq<string>, limit: nat)
    ensures Among(e, source, TokenNode, Cut(tokens, limit)) ==
      if e.source == source && e.target.kind == TokenNode then Occurs(e.target.name, tokens, limit) else 0
  {
    assert Cut(tokens, limit) == tokens[..Min(|tokens|, limit)];
  }

  lemma MemoryConnects(row: Row, blank: string -> bool, e: Edge)
    requires row.Memory?
    ensures RowAmong(row, blank, e) == if e.source == NodeOf(row) then Connects(row, blank, e.target) else 0
  {
    var n := NodeOf(row);
    OneAmong(e, n, KindNode, OrElse(row.kind, "lesson"));
    FilterCounts(row.tags, t => !blank(t), e.target.name);
    TokensAmong(e, n, row.tokens, 10);
    if row.sourceRun != "" {
      OneAmong(e, n, RunNode, row.sourceRun);
    }
  }

  lemma RowConnects(row: Row, blank: string -> bool, e: Edge)
    ensures RowAmong(row, blank, e) == if e.source == NodeOf(row) then Connects(row, blank, e.target) else 0
  {
    var n := NodeOf(row);
    match row
    case Memory(_, _, _, _, _) =>
      MemoryConnects(row, blank, e);
    case Run(_, workflow, tokens) =>
      OneAmong(e, n, WorkflowNode, OrElse(workflow, "unknown"));
      TokensAmong(e, n, tokens, 12);
    case Mission(_, workflow, risk, tokens) =>
      OneAmong(e, n, WorkflowNode, OrElse(workflow, "mission"));
      OneAmong(e, n, RiskNode, OrElse(risk, "unknown"));
      TokensAmong(e, n, tokens, 12);
    case Event(_, tokens) =>
      TokensAmong(e, n, tokens, 5);
  }

  /** A row adds to the weight of an edge just what it connects, and only to edges from its own node. */
  lemma RowAddsEdges(before: Counters, row: Row, blank: string -> bool, e: Edge)
    ensures AfterRow(before, row, blank).edges[e] ==
      before.edges[e] + ConnectsAlong(row, blank, e)
  {
    RowHasItsNode(e.source, row);
    RowLinks(before, row, blank, e);
    RowConnects(row, blank, e);
  }

  // ----- incident weight

  /** How often a node is an end of an edge; a loop counts twice. */
  function Ends(e: Edge, n: Node): nat {
    (if e.source == n then 1 else 0) + (if e.target == n then 1 else 0)
  }

  /** The total weight of the edges at a node. */
  ghost function Incident(edges: multiset<Edge>, n: Node): nat
    decreases |edges|
  {
    if edges == multiset{} then 0 else var e :| e in edges; Ends(e, n) + Incident(edges - multiset{e}, n)
  }

  /** Any edge can be split off the sum. */
  lemma {:induction false} IncidentSplit(edges: multiset<Edge>, e: Edge, n: Node)
    requires e in edges
    ensures Incident(edges, n) == Ends(e, n) + Incident(edges - multiset{e}, n)
    decreases |edges|
  {
    var d :| d in edges && Incident(edges, n) == Ends(d, n) + Incident(edges - multiset{d}, n);
    if d != e {
      var others := edges - multiset{d} - multiset{e};
      assert others == edges - multiset{e} - multiset{d};
      IncidentSplit(edges - multiset{d}, e, n);
      IncidentSplit(edges - multiset{e}, d, n);
      assert Incident(edges - multiset{e}, n) == Ends(d, n) + Incident(others, n);
    }
  }

  lemma IncidentBump(edges: multiset<Edge>, e: Edge, n: Node)
    ensures Incident(Bump(edges, e), n) == Incident(edges, n) + Ends(e, n)
  {
    IncidentSplit(Bump(edges, e), e, n);
    assert Bump(edges, e) - multiset{e} == edges;
  }

  // ----- conservation

  predicate StandsForRow(kind: NodeKind) {
    kind == MemoryNode || kind == RunNode || kind == MissionNode || kind == EventNode
  }

  /** Every touch of a node is a row standing for it (`rows`) or an edge ending at it. */
  ghost predicate NodeBalanced(c: Counters, rows: multiset<Node>, n: Node) {
    c.nodes[n] == Incident(c.edges, n) + rows[n]
  }

  ghost predicate Balanced(c: Counters, rows: multiset<Node>) {
    && |c.nodes| == 2 * |c.edges| + |rows|
    && forall n: Node {:trigger NodeBalanced(c, rows, n)} :: NodeBalanced(c, rows, n)
  }

  /** The other counters agree with the nodes. */
  ghost predicate Tallied(c: Counters, rows: multiset<Node>) {
    && (forall s: string :: c.nodes[Node(KindNode, s)] == c.kinds[s])
    && (forall s: string :: c.nodes[Node(TagNode, s)] == c.tags[s])
    && (forall s: string :: c.nodes[Node(WorkflowNode, s)] == c.workflows[s])
    && (forall s: string :: rows[Node(EventNode, s)] == c.events[s])
  }

  /** Edges lead from rows to something else, so there are no loops. */
  ghost predicate LeadsOut(edges: multiset<Edge>) {
    forall e: Edge :: e in edges ==> StandsForRow(e.source.kind) && e.target.kind != e.source.kind
  }

  ghost predicate Sound(c: Counters, rows: multiset<Node>) {
    Balanced(c, rows) && Tallied(c, rows) && LeadsOut(c.edges)
  }

  /** Touching both ends of an edge touches a node as often as it is an end. */
  lemma EndsAreTouched(nodes: multiset<Node>, e: Edge, n: Node)
    ensures Bump(Bump(nodes, e.source), e.target)[n] == nodes[n] + Ends(e, n)
  {
  }

  lemma LinkBalances(c: Counters, rows: multiset<Node>, source: Node, kind: NodeKind, name: string)
    requires Balanced(c, rows)
    ensures Balanced(Link(c, source, kind, name), rows)
  {
    var e, linked := Edge(source, Node(kind, name)), Link(c, source, kind, name);
    forall n: Node ensures NodeBalanced(linked, rows, n) {
      EndsAreTouched(c.nodes, e, n);
      IncidentBump(c.edges, e, n);
      assert NodeBalanced(c, rows, n);
    }
  }

  /** A connection adds one touch to its target, and none to other nodes that no row stands for. */
  lemma LinkTouches(c: Counters, source: Node, kind: NodeKind, name: string, n: Node)
    requires StandsForRow(source.kind) && !StandsForRow(n.kind)
    ensures Link(c, source, kind, name).nodes[n] == c.nodes[n] + (if n == Node(kind, name) then 1 else 0)
  {
  }

  lemma LinkTallies(c: Counters, rows: multiset<Node>, source: Node, kind: NodeKind, name: string)
    requires Tallied(c, rows) && StandsForRow(source.kind)
    ensures Tallied(Link(c, source, kind, name), rows)
  {
    var linked := Link(c, source, kind, name);
    forall s: string ensures linked.nodes[Node(KindNode, s)] == linked.kinds[s] {
      LinkTouches(c, source, kind, name, Node(KindNode, s));
    }
    forall s: string ensures linked.nodes[Node(TagNode, s)] == linked.tags[s] {
      LinkTouches(c, source, kind, name, Node(TagNode, s));
    }
    forall s: string ensures linked.nodes[Node(WorkflowNode, s)] == linked.workflows[s] {
      LinkTouches(c, source, kind, name, Node(WorkflowNode, s));
    }
  }

  lemma LinkIsSound(c: Counters, rows: multiset<Node>, source: Node, kind: NodeKind, name: string)
    requires Sound(c, rows) && StandsForRow(source.kind) && kind != source.kind
    ensures Sound(Link(c, source, kind, name), rows)
  {
    LinkBalances(c, rows, source, kind, name);
    LinkTallies(c, rows, source, kind, name);
    forall e: Edge | e in Link(c, source, kind, name).edges
      ensures StandsForRow(e.source.kind) && e.target.kind != e.source.kind
    {
      assert e in c.edges || e == Edge(source, Node(kind, name));
    }
  }

  lemma {:induction false} LinksAreSound(c: Counters, rows: multiset<Node>, source: Node, kind: NodeKind,
                                         names: seq<string>, n: nat)
    requires n <= |names| && Sound(c, rows) && StandsForRow(source.kind) && kind != source.kind
    ensures Sound(LinkAll(c, source, kind, names, n), rows)
  {
    if n > 0 {
      LinksAreSound(c, rows, source, kind, names, n - 1);
      var before, linked := LinkAll(c, source, kind, names, n - 1), LinkAll(c, source, kind, names, n);
      LinkIsSound(before, rows, source, kind, names[n - 1]);
      assert linked == Link(before, source, kind, names[n - 1]);
      assert Sound(linked, rows);
    }
  }

  lemma TouchIsSound(c: Counters, rows: multiset<Node>, row: Row)
    requires Sound(c, rows)
    ensures Sound(TouchRow(c, row), Bump(rows, NodeOf(row)))
  {
    forall n: Node ensures NodeBalanced(TouchRow(c, row), Bump(rows, NodeOf(row)), n) {
      assert NodeBalanced(c, rows, n);
    }
  }

  lemma RowIsSound(before: Counters, nodes: multiset<Node>, row: Row, blank: string -> bool)
    requires Sound(before, nodes)
    ensures Sound(AfterRow(before, row, blank), Bump(nodes, NodeOf(row)))
  {
    var n, rows, c := NodeOf(row), Bump(nodes, NodeOf(row)), TouchRow(before, row);
    TouchIsSound(before, nodes, row);
    match row
    case Memory(_, kind, tags, tokens, sourceRun) =>
      LinkIsSound(c, rows, n, KindNode, OrElse(kind, "lesson"));
      c := Link(c, n, KindNode, OrElse(kind, "lesson"));
      var kept, run := Filter(tags, t => !blank(t)), if sourceRun == "" then [] else [sourceRun];
      LinksAreSound(c, rows, n, TagNode, kept, |kept|);
      c := Links(c, n, TagNode, kept);
      LinksAreSound(c, rows, n, TokenNode, Cut(tokens, 10), |Cut(tokens, 10)|);
      c := Links(c, n, TokenNode, Cut(tokens, 10));
      LinksAreSound(c, rows, n, RunNode, run, |run|);
    case Run(_, workflow, tokens) =>
      LinkIsSound(c, rows, n, WorkflowNode, OrElse(workflow, "unknown"));
      c := Link(c, n, WorkflowNode, OrElse(workflow, "unknown"));
      LinksAreSound(c, rows, n, TokenNode, Cut(tokens, 12), |Cut(tokens, 12)|);
    case Mission(_, workflow, risk, tokens) =>
      LinkIsSound(c, rows, n, WorkflowNode, OrElse(workflow, "mission"));
      c := Link(c, n, WorkflowNode, OrElse(workflow, "mission"));
      LinkIsSound(c, rows, n, RiskNode, OrElse(risk, "unknown"));
      c := Link(c, n, RiskNode, OrElse(risk, "unknown"));
      LinksAreSound(c, rows, n, TokenNode, Cut(tokens, 12), |Cut(tokens, 12)|);
    case Event(_, tokens) =>
      LinksAreSound(c, rows, n, TokenNode, Cut(tokens, 5), |Cut(tokens, 5)|);
  }

  /** The graph of any rows is sound. */
  lemma {:induction false} GraphIsSound(rows: seq<Row>, blank: string -> bool, n: nat)
    requires n <= |rows|
    ensures Sound(AfterRows(rows, blank, n), NodesOfAll(rows, n))
  {
    if n > 0 {
      GraphIsSound(rows, blank, n - 1);
      RowIsSound(AfterRows(rows, blank, n - 1), NodesOfAll(rows, n - 1), rows[n - 1], blank);
    }
  }

  lemma {:induction false} IncidentCountsEveryCopy(edges: multiset<Edge>, e: Edge, n: Node)
    requires e.source == n || e.target == n
    ensures edges[e] <= Incident(edges, n)
    decreases edges[e]
  {
    if e in edges {
      IncidentSplit(edges, e, n);
      IncidentCountsEveryCopy(edges - multiset{e}, e, n);
    }
  }

  /** Both ends of an edge are nodes, counted at least as often as the edge weighs, and different. */
  lemma EndsAreNodes(rows: seq<Row>, blank: string -> bool, e: Edge)
    requires e in AfterRows(rows, blank, |rows|).edges
    ensures var c := AfterRows(rows, blank, |rows|);
      c.edges[e] <= c.nodes[e.source] && c.edges[e] <= c.nodes[e.target] && e.source != e.target
  {
    var c := AfterRows(rows, blank, |rows|);
    GraphIsSound(rows, blank, |rows|);
    assert NodeBalanced(c, NodesOfAll(rows, |rows|), e.source) && NodeBalanced(c, NodesOfAll(rows, |rows|), e.target);
    IncidentCountsEveryCopy(c.edges, e, e.source);
    IncidentCountsEveryCopy(c.edges, e, e.target);
  }

  class GraphBuilder {
    const blank: string -> bool
    var nodeCounts: multiset<Node>
    var edges: multiset<Edge>
    var kindCounts: multiset<string>
    var tagCounts: multiset<string>
    var workflowCounts: multiset<string>
    var eventCounts: multiset<string>

    function Now(): Counters
      reads this
    {
      Counters(nodeCounts, edges, kindCounts, tagCounts, workflowCounts, eventCounts)
    }

    constructor (blank: string -> bool)
      ensures this.blank == blank && Now() == ZERO
    {
      this.blank := blank;
      nodeCounts, edges := multiset{}, multiset{};
      kindCounts, tagCounts, workflowCounts, eventCounts := multiset{}, multiset{}, multiset{}, multiset{};
    }

    method Touch(n: Node)
      modifies this`nodeCounts
      ensures |nodeCounts| == |old(nodeCounts)| + 1
      ensures forall m: Node :: nodeCounts[m] == old(nodeCounts)[m] + (if m == n then 1 else 0)
    {
      nodeCounts := Bump(nodeCounts, n);
    }

    method Connect(source: Node, target: Node)
      modifies this`nodeCounts, this`edges
      ensures nodeCounts == Bump(Bump(old(nodeCounts), source), target)
      ensures edges == Bump(old(edges), Edge(source, target))
    {
      edges := Bump(edges, Edge(source, target));
      Touch(source);
      Touch(target);
      assert nodeCounts == Bump(Bump(old(nodeCounts), source), target);
    }

    method Count(kind: NodeKind, name: string)
      modifies this`kindCounts, this`tagCounts, this`workflowCounts
      ensures kindCounts == if kind == KindNode then Bump(old(kindCounts), name) else old(kindCounts)
      ensures tagCounts == if kind == TagNode then Bump(old(tagCounts), name) else old(tagCounts)
      ensures workflowCounts == if kind == WorkflowNode then Bump(old(workflowCounts), name) else old(workflowCounts)
    {
      if kind == KindNode {
        kindCounts := Bump(kindCounts, name);
      } else if kind == TagNode {
        tagCounts := Bump(tagCounts, name);
      } else if kind == WorkflowNode {
        workflowCounts := Bump(workflowCounts, name);
      }
    }

    /** One connection, with the count of the name that goes with it. */
    method ConnectAndCount(source: Node, kind: NodeKind, name: string)
      modifies this
      ensures Now() == Link(old(Now()), source, kind, name)
    {
      Count(kind, name);
      Connect(source, Node(kind, name));
    }

    method ConnectAll(source: Node, kind: NodeKind, names: seq<string>)
      modifies this
      ensures Now() == Links(old(Now()), source, kind, names)
    {
      ghost var start := Now();
      for i := 0 to |names|
        invariant Now() == LinkAll(start, source, kind, names, i)
      {
        ghost var before := Now();
        ConnectAndCount(source, kind, names[i]);
        LinkOneMore(start, before, source, kind, names, i);
      }
    }

    method AddMemory(row: Row)
      requires row.Memory?
      modifies this
      ensures Now() == AfterRow(old(Now()), row, blank)
    {
      var n := Node(MemoryNode, row.id);
      Touch(n);
      assert nodeCounts == Bump(old(nodeCounts), n);
      ConnectAndCount(n, KindNode, OrElse(row.kind, "lesson"));
      ConnectAll(n, TagNode, Filter(row.tags, t => !blank(t)));
      ConnectAll(n, TokenNode, Cut(row.tokens, 10));
      ConnectAll(n, RunNode, if row.sourceRun == "" then [] else [row.sourceRun]);
    }

    method AddRun(row: Row)
      requires row.Run?
      modifies this
      ensures Now() == AfterRow(old(Now()), row, blank)
    {
      var n := Node(RunNode, row.id);
      Touch(n);
      assert nodeCounts == Bump(old(nodeCounts), n);
      ConnectAndCount(n, WorkflowNode, OrElse(row.workflow, "unknown"));
      ConnectAll(n, TokenNode, Cut(row.tokens, 12));
    }

    method AddMission(row: Row)
      requires row.Mission?
      modifies this
      ensures Now() == AfterRow(old(Now()), row, blank)
    {
      var n := Node(MissionNode, row.id);
      Touch(n);
      assert nodeCounts == Bump(old(nodeCounts), n);
      ConnectAndCount(n, WorkflowNode, OrElse(row.workflow, "mission"));
      ConnectAndCount(n, RiskNode, OrElse(row.risk, "unknown"));
      ConnectAll(n, TokenNode, Cut(row.tokens, 12));
    }

    method AddEvent(row: Row)
      requires row.Event?
      modifies this
      ensures Now() == AfterRow(old(Now()), row, blank)
    {
      var kind := OrElse(row.kind, "event");
      eventCounts := Bump(eventCounts, kind);
      Touch(Node(EventNode, kind));
      assert nodeCounts == Bump(old(nodeCounts), Node(EventNode, kind));
      ConnectAll(Node(EventNode, kind), TokenNode, Cut(row.tokens, 5));
    }

    /** The whole graph: a fresh builder fed with all rows. */
    method Build(rows: seq<Row>)
      requires Now() == ZERO
      modifies this
      ensures Now() == AfterRows(rows, blank, |rows|)
    {
      for i := 0 to |rows|
        invariant Now() == AfterRows(rows, blank, i)
      {
        match rows[i] {
          case Memory(_, _, _, _, _) => AddMemory(rows[i]);
          case Run(_, _, _) => AddRun(rows[i]);
          case Mission(_, _, _, _) => AddMission(rows[i]);
          case Event(_, _) => AddEvent(rows[i]);
        }
      }
    }
  }
}
