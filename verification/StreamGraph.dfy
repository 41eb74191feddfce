/** The typed front-end (v2/flow/graph): single-input nodes, their adapters, and the lowering of a graph to
    the flow the engine compiles. */
module StreamGraph {
  import opened Prelude
  import opened FlowIr
  import opened LayeredEngine

  const PORT_IN := "in"
  const PORT_OUT := "out"
  const GRAPH_IN := "__graph_in"
  const GRAPH_OUT := "__graph_out"

  /** What a stream yields until io.EOF. */
  datatype Frame = Elem(v: Value) | Broken

  /** Lambda, template and tool nodes are Plain; None is a failed type assertion or an error. */
  datatype Kind =
    | Plain(fn: Value -> Option<Value>)
    | Passthrough
    | ChatModel(generate: Value -> Option<Value>, stream: Value -> Option<seq<Frame>>)
    | Branch(key: Value -> Option<string>, routes: seq<string>)

  datatype GraphNode = GraphNode(id: string, kind: Kind, inT: string)

  datatype GraphEdge = GraphEdge(source: string, fromPort: string, target: string, toPort: string)

  /** outT is the graph output type, which isOut recognises. */
  datatype Graph = Graph(nodes: seq<GraphNode>, edges: seq<GraphEdge>, entry: string, exit: string, outT: string,
                         isOut: Value -> bool)

  // ---------------------------------------------------------------- nodes

  /** The port and value a node emits for an input value. */
  function Yields(k: Kind, v: Value): Option<(string, Value)> {
    match k
    case Plain(fn) => (match fn(v) case Some(w) => Some((PORT_OUT, w)) case None => None)
    case Passthrough => Some((PORT_OUT, v))
    case ChatModel(generate, _) => (match generate(v) case Some(w) => Some((PORT_OUT, w)) case None => None)
    case Branch(key, routes) =>
      match key(v)
      case None => None
      case Some(r) => if r in routes then Some((r, v)) else None
  }

  /** The adapters' Run: one input port in, one output port out. */
  function RunAdapter(k: Kind, ports: map<string, Value>): Outcome {
    if PORT_IN !in ports then Failure([])
    else match Yields(k, ports[PORT_IN])
      case None => Failure([])
      case Some((port, w)) => Done(map[port := w], [])
  }

  function OutPorts(k: Kind): seq<string> {
    if k.Branch? then k.routes else [PORT_OUT]
  }

  function Adapter(k: Kind): NodeKind {
    NodeKind([PORT_IN], OutPorts(k), false, (ports, cell) => RunAdapter(k, ports))
  }

  /** An adapter's run, kind by kind. It needs a value on "in". A branch passes it on as it is, on the port its key
      names if that is one of its routes; the others put what they make of it on "out". */
  lemma AdapterRuns(k: Kind, ports: map<string, Value>, cell: Option<Value>)
    ensures var o := Adapter(k).run(ports, cell);
            if "in" !in ports then o == Failure([])
            else
              var v := ports["in"];
              match k
              case Plain(fn) => if fn(v).Some? then o == Done(map["out" := fn(v).value], []) else o == Failure([])
              case Passthrough => o == Done(map["out" := v], [])
              case ChatModel(generate, _) => if generate(v).Some? then o == Done(map["out" := generate(v).value], []) else o == Failure([])
              case Branch(key, routes) =>
                if key(v).Some? && key(v).value in routes then o == Done(map[key(v).value := v], []) else o == Failure([])
  {
  }

  // ---------------------------------------------------------------- lowering

  function GraphIds(g: Graph): (r: seq<string>)
    ensures |r| == |g.nodes| && forall i :: 0 <= i < |r| ==> r[i] == g.nodes[i].id
  {
    seq(|g.nodes|, i requires 0 <= i < |g.nodes| => g.nodes[i].id)
  }

  /** The flow Graph.Compile hands to the engine. Node types are synthetic there; the model uses the id. */
  function Lower(g: Graph): (f: Flow)
    ensures Ids(f) == GraphIds(g) && |f.edges| == |g.edges|
  {
    Flow("graph",
         seq(|g.nodes|, i requires 0 <= i < |g.nodes| => NodeDecl(g.nodes[i].id, g.nodes[i].id, "")),
         seq(|g.edges|, i requires 0 <= i < |g.edges| =>
           Edge(PortRef(g.edges[i].source, g.edges[i].fromPort), PortRef(g.edges[i].target, g.edges[i].toPort), "")),
         [],
         [NamedPortRef(GRAPH_IN, g.entry, PORT_IN)],
         [NamedPortRef(GRAPH_OUT, g.exit, PORT_OUT)])
  }

  /** The kind of the first node with that id; ids are distinct in a compiled graph. */
  function NodeAt(nodes: seq<GraphNode>, id: string): Option<GraphNode> {
    if nodes == [] then None else if nodes[0].id == id then Some(nodes[0]) else NodeAt(nodes[1..], id)
  }

  lemma {:induction false} NodeAtIs(nodes: seq<GraphNode>, id: string)
    ensures match NodeAt(nodes, id)
            case Some(n) => n in nodes && n.id == id
            case None => forall i :: 0 <= i < |nodes| ==> nodes[i].id != id
  {
    if nodes != [] && nodes[0].id != id { NodeAtIs(nodes[1..], id); }
  }

  /** The engine Graph.Compile builds for g. */
  ghost predicate EngineOf(e: Engine, g: Graph) {
    && Compiled(e) && e.flow == Lower(g)
    && forall n :: n in GraphIds(g) ==> NodeAt(g.nodes, n).Some? && e.nodes[n] == Adapter(NodeAt(g.nodes, n).value.kind)
  }

  /** What the builder methods guarantee about edges: an ordinary node emits on its one output port, a branch
      has routes and an edge for each of them. AddEdge also accepts a branch as its source: that edge leaves the
      port "out" and is dead unless "out" is a route. */
  ghost predicate WellBuilt(g: Graph) {
    && g.entry in GraphIds(g) && g.exit in GraphIds(g)
    && (forall i :: 0 <= i < |g.edges| ==>
          var n := NodeAt(g.nodes, g.edges[i].source);
          n.Some? && (g.edges[i].fromPort == PORT_OUT || g.edges[i].fromPort in OutPorts(n.value.kind)))
    && (forall n :: n in g.nodes && n.kind.Branch? ==> n.kind.routes != [])
    && (forall n, r :: n in g.nodes && n.kind.Branch? && r in n.kind.routes ==> EdgeFrom(g, n.id, r).Some?)
  }

  // ---------------------------------------------------------------- the single route

  /** The target of the first edge, from index i on, that leaves port p of node n. */
  function EdgeFromAt(g: Graph, n: string, p: string, i: nat): Option<string>
    requires i <= |g.edges|
    decreases |g.edges| - i
  {
    if i == |g.edges| then None
    else if g.edges[i].source == n && g.edges[i].fromPort == p then Some(g.edges[i].target)
    else EdgeFromAt(g, n, p, i + 1)
  }

  lemma {:induction false} EdgeFromIs(g: Graph, n: string, p: string, i: nat)
    requires i <= |g.edges|
    ensures match EdgeFromAt(g, n, p, i)
            case Some(t) => exists j :: i <= j < |g.edges| && g.edges[j].source == n && g.edges[j].fromPort == p && g.edges[j].target == t
            case None => forall j :: i <= j < |g.edges| ==> !(g.edges[j].source == n && g.edges[j].fromPort == p)
    decreases |g.edges| - i
  {
    if i < |g.edges| && !(g.edges[i].source == n && g.edges[i].fromPort == p) { EdgeFromIs(g, n, p, i + 1); }
  }

  /** chainNext. */
  function EdgeFrom(g: Graph, n: string, p: string): Option<string> { EdgeFromAt(g, n, p, 0) }

  /** No source port feeds two edges, so a node's value goes to one place. */
  ghost predicate NoTee(g: Graph) {
    forall i, j :: 0 <= i < j < |g.edges| ==> g.edges[i].source != g.edges[j].source || g.edges[i].fromPort != g.edges[j].fromPort
  }

  ghost predicate OnlyIn(g: Graph) { forall i :: 0 <= i < |g.edges| ==> g.edges[i].toPort == PORT_IN }

  ghost predicate ExitIsSink(g: Graph) { forall i :: 0 <= i < |g.edges| ==> g.edges[i].source != g.exit }

  /** Every node but the entry is fed by some edge. */
  ghost predicate Fed(g: Graph) {
    forall n :: n in GraphIds(g) && n != g.entry ==> exists i :: 0 <= i < |g.edges| && g.edges[i].target == n
  }

  /** What makes a run of g a single walk from the entry, but for routes named after the input port. */
  ghost predicate SingleRoute(g: Graph) { WellBuilt(g) && NoTee(g) && OnlyIn(g) && ExitIsSink(g) && Fed(g) }

  // ---------------------------------------------------------------- walks to a sink

  /** The edge leaves a port its source can emit on. */
  ghost predicate Live(g: Graph, i: nat)
    requires i < |g.edges|
  {
    var n := NodeAt(g.nodes, g.edges[i].source);
    n.Some? && g.edges[i].fromPort in OutPorts(n.value.kind)
  }

  /** A live edge leads from u to v. */
  ghost predicate Passes(g: Graph, u: string, v: string) {
    exists i :: 0 <= i < |g.edges| && Live(g, i) && g.edges[i].source == u && g.edges[i].target == v
  }

  ghost predicate Sink(g: Graph, n: string) {
    n in GraphIds(g) && forall i :: 0 <= i < |g.edges| && Live(g, i) ==> g.edges[i].source != n
  }

  /** w leads from n to s along live edges. */
  ghost predicate Leads(g: Graph, w: seq<string>, n: string, s: string) {
    w != [] && w[0] == n && w[|w| - 1] == s && forall k :: 0 <= k < |w| - 1 ==> Passes(g, w[k], w[k + 1])
  }

  ghost predicate GetsTo(g: Graph, n: string, s: string) { exists w :: Leads(g, w, n, s) }

  /** Whichever way a walk goes from n, it ends at the exit. */
  ghost predicate EndsAtExit(g: Graph, n: string) {
    forall s :: GetsTo(g, n, s) && Sink(g, s) ==> s == g.exit
  }

  /** The exit is the only sink that a walk from the entry can end at. */
  ghost predicate OnlySink(g: Graph) { EndsAtExit(g, g.entry) }

  /** Whichever way a walk goes from n, it meets x before it ends. */
  ghost predicate Inevitable(g: Graph, n: string, x: string) {
    forall w, s :: Leads(g, w, n, s) && Sink(g, s) ==> x in w
  }

  /** The engine keeps inputs and outputs of a node in one port map, so the edge of a route named "in" fires
      whichever route was selected. Its target then runs too; here it is on the way of every other route that a
      walk from the entry can take. */
  ghost predicate Remeets(g: Graph) {
    forall i, j ::
      0 <= i < |g.edges| && 0 <= j < |g.edges| && g.edges[i].source == g.edges[j].source && g.edges[i].fromPort == PORT_IN != g.edges[j].fromPort &&
      Live(g, j) && GetsTo(g, g.entry, g.edges[j].source) ==>
        Inevitable(g, g.edges[j].target, g.edges[i].target)
  }
}
