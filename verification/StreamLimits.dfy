/** Two graphs that get a stream plan on which Stream and Invoke give different answers. */
module StreamLimits {
  import opened Prelude
  import opened FlowIr
  import opened Topology
  import opened Layering
  import opened Validation
  import opened Wiring
  import opened LayeredEngine
  import opened Dataflow
  import opened Equations
  import opened StreamGraph
  import opened Streaming
  import opened StreamWalk
  import opened StreamTail
  import opened StreamPlan
  import opened StreamWiring

  function Anything(): Value -> bool { (v: Value) => true }

  function Choose(route: string): Value -> Option<string> { (v: Value) => Some(route) }

  function Fails(): Value -> Option<Value> { (v: Value) => None }

  // ---------------------------------------------------------------- a route named after the input port

  /** b always selects r, which leads to the exit; its route named "in" leads to a node that fails. */
  function InRoute(): Graph {
    Graph([GraphNode("b", Branch(Choose("r"), ["in", "r"]), "T"), GraphNode("x", Plain(Fails()), "T"), GraphNode("z", Passthrough, "T")],
          [GraphEdge("b", "in", "x", "in"), GraphEdge("b", "r", "z", "in"), GraphEdge("x", "out", "z", "in")], "b", "z", "T", Anything())
  }

  const IN_LAYERS: seq<seq<string>> := [["b"], ["x"], ["z"]]

  /** b always selects r, which leads to a second sink. */
  function TwoSinks(): Graph {
    Graph([GraphNode("b", Branch(Choose("r"), ["l", "r"]), "T"), GraphNode("x", Passthrough, "T"), GraphNode("z", Passthrough, "T")],
          [GraphEdge("b", "l", "z", "in"), GraphEdge("b", "r", "x", "in")], "b", "z", "T", Anything())
  }

  const SINK_LAYERS: seq<seq<string>> := [["b"], ["z", "x"]]

  function EngineFor(g: Graph, layers: seq<seq<string>>): Engine
    requires |g.nodes| == 3
  {
    Engine.Engine(Lower(g), map["b" := Adapter(g.nodes[0].kind), "x" := Adapter(g.nodes[1].kind), "z" := Adapter(g.nodes[2].kind)], layers,
                  (text, value) => Fires, false, "", "")
  }

  // ---------------------------------------------------------------- both compile

  ghost predicate ThreeNamed(g: Graph) { |g.nodes| == 3 && g.nodes[0].id == "b" && g.nodes[1].id == "x" && g.nodes[2].id == "z" }

  lemma ThreeIds(g: Graph)
    requires ThreeNamed(g)
    ensures GraphIds(g) == ["b", "x", "z"]
  {
  }

  lemma ThreeValid(g: Graph, layers: seq<seq<string>>)
    requires ThreeNamed(g) && g.entry in ["b", "x", "z"] && g.exit in ["b", "x", "z"]
    requires IsLayering(["b", "x", "z"], Arcs(Lower(g)), layers)
    requires forall i :: 0 <= i < |Lower(g).edges| ==> EdgeOk(Lower(g), i)
    requires forall a :: a in Arcs(Lower(g)) ==> a.to in ["b", "x", "z"]
    ensures Valid(Lower(g)) && Ids(Lower(g)) == ["b", "x", "z"]
  {
    hide EdgeOk, IsLayering, Arcs, Acyclic;
    var f := Lower(g);
    ThreeIds(g);
    assert Ids(f)[..0] == [] && Ids(f)[..1] == ["b"] && Ids(f)[..2] == ["b", "x"];
    forall i | 0 <= i < |f.nodes| ensures NodeOk(f, i) {}
    LayeringMeansAcyclic(Ids(f), Arcs(f), layers);
  }

  /** Three nodes b, x, z with the given arcs. */
  lemma Compiles(g: Graph, layers: seq<seq<string>>)
    requires ThreeNamed(g) && g.entry in ["b", "x", "z"] && g.exit in ["b", "x", "z"]
    requires IsLayering(["b", "x", "z"], Arcs(Lower(g)), layers)
    requires forall i :: 0 <= i < |Lower(g).edges| ==> EdgeOk(Lower(g), i)
    requires forall a :: a in Arcs(Lower(g)) ==> a.to in ["b", "x", "z"]
    ensures EngineOf(EngineFor(g, layers), g)
  {
    hide Valid, EdgeOk, IsLayering, Arcs, NodeAt, Lower;
    ThreeValid(g, layers);
    ThreeIds(g);
    var e := EngineFor(g, layers);
    assert Compiled(e);
    forall n | n in GraphIds(g)
      ensures NodeAt(g.nodes, n).Some? && e.nodes[n] == Adapter(NodeAt(g.nodes, n).value.kind)
    {
      ThreeNodes(g, n);
    }
  }

  lemma ThreeNodes(g: Graph, n: string)
    requires ThreeNamed(g)
    ensures NodeAt(g.nodes, "b") == Some(g.nodes[0]) && NodeAt(g.nodes, "x") == Some(g.nodes[1])
    ensures NodeAt(g.nodes, "z") == Some(g.nodes[2])
    ensures n !in ["b", "x", "z"] ==> NodeAt(g.nodes, n) == None
  {
    var t, u := g.nodes[1..], g.nodes[2..];
    assert t[1..] == u && u[1..] == [] && t[0] == g.nodes[1] && u[0] == g.nodes[2];
    forall m ensures NodeAt(u, m) == if m == "z" then Some(g.nodes[2]) else None {}
    forall m ensures NodeAt(t, m) == if m == "x" then Some(g.nodes[1]) else NodeAt(u, m) {}
    forall m ensures NodeAt(g.nodes, m) == if m == "b" then Some(g.nodes[0]) else NodeAt(t, m) {}
  }

  lemma InLayering()
    ensures IsLayering(["b", "x", "z"], [Arc("b", "x"), Arc("b", "z"), Arc("x", "z")], IN_LAYERS)
  {
    var arcs := [Arc("b", "x"), Arc("b", "z"), Arc("x", "z")];
    forall k, n ensures In(IN_LAYERS, k, n) <==> (k == 0 && n == "b") || (k == 1 && n == "x") || (k == 2 && n == "z") {}
    assert In(IN_LAYERS, 0, "b") && In(IN_LAYERS, 1, "x") && In(IN_LAYERS, 2, "z");
    assert LayeredBefore(IN_LAYERS, 1, "b") && LayeredBefore(IN_LAYERS, 2, "b") && LayeredBefore(IN_LAYERS, 2, "x");
    assert FedBy(arcs, IN_LAYERS, 0, "x") && FedBy(arcs, IN_LAYERS, 1, "z");
  }

  lemma SinkLayering()
    ensures IsLayering(["b", "x", "z"], [Arc("b", "z"), Arc("b", "x")], SINK_LAYERS)
  {
    var arcs := [Arc("b", "z"), Arc("b", "x")];
    forall k, n ensures In(SINK_LAYERS, k, n) <==> (k == 0 && n == "b") || (k == 1 && (n == "x" || n == "z")) {}
    assert In(SINK_LAYERS, 0, "b") && In(SINK_LAYERS, 1, "x") && In(SINK_LAYERS, 1, "z");
    assert LayeredBefore(SINK_LAYERS, 1, "b");
    assert FedBy(arcs, SINK_LAYERS, 0, "x") && FedBy(arcs, SINK_LAYERS, 0, "z");
  }

  lemma ArcsOfTwo(f: Flow)
    requires |f.edges| == 2 && f.mappings == []
    ensures Arcs(f) == [Arc(f.edges[0].source.node, f.edges[0].target.node), Arc(f.edges[1].source.node, f.edges[1].target.node)]
  {
    EdgeArcsSnoc(f.edges, 0);
    EdgeArcsSnoc(f.edges, 1);
    assert f.edges[..0] == [] && f.edges[..2] == f.edges;
  }

  lemma ArcsOfThree(f: Flow)
    requires |f.edges| == 3 && f.mappings == []
    ensures Arcs(f) == [Arc(f.edges[0].source.node, f.edges[0].target.node), Arc(f.edges[1].source.node, f.edges[1].target.node),
                        Arc(f.edges[2].source.node, f.edges[2].target.node)]
  {
    EdgeArcsSnoc(f.edges, 0);
    EdgeArcsSnoc(f.edges, 1);
    EdgeArcsSnoc(f.edges, 2);
    assert f.edges[..0] == [] && f.edges[..3] == f.edges;
  }

  lemma InRouteCompiles()
    ensures EngineOf(EngineFor(InRoute(), IN_LAYERS), InRoute())
  {
    hide EngineFor, EngineOf, Arcs, IsLayering, EdgeOk;
    InLayering();
    ArcsOfThree(Lower(InRoute()));
    InKeys(InRoute());
    Compiles(InRoute(), IN_LAYERS);
  }

  lemma InKeys(g: Graph)
    requires g == InRoute()
    ensures forall i :: 0 <= i < |Lower(g).edges| ==> EdgeOk(Lower(g), i)
  {
    var f := Lower(g);
    assert Ids(f) == ["b", "x", "z"];
    assert EdgeKey(f.edges[0])[2] == 'i' && EdgeKey(f.edges[1])[2] == 'r' && EdgeKey(f.edges[2])[0] == 'x';
    assert EdgeKey(f.edges[0])[0] == 'b' && EdgeKey(f.edges[1])[0] == 'b';
  }

  lemma SinkKeys(g: Graph)
    requires g == TwoSinks()
    ensures forall i :: 0 <= i < |Lower(g).edges| ==> EdgeOk(Lower(g), i)
  {
    var f := Lower(g);
    assert Ids(f) == ["b", "x", "z"];
    assert EdgeKey(f.edges[0])[2] == 'l' && EdgeKey(f.edges[1])[2] == 'r';
  }

  lemma TwoSinksCompiles()
    ensures EngineOf(EngineFor(TwoSinks(), SINK_LAYERS), TwoSinks())
  {
    hide EngineFor, EngineOf, Arcs, IsLayering, EdgeOk;
    SinkLayering();
    ArcsOfTwo(Lower(TwoSinks()));
    SinkKeys(TwoSinks());
    Compiles(TwoSinks(), SINK_LAYERS);
  }

  // ---------------------------------------------------------------- what they do

  /** Where the edges of either graph start. */
  lemma Built(g: Graph)
    requires ThreeNamed(g) && g.entry == "b" && g.exit == "z" && g.nodes[0].kind.Branch? && !g.nodes[1].kind.Branch?
    requires !g.nodes[2].kind.Branch?
    requires |g.nodes[0].kind.routes| == 2 && |g.edges| >= 2
    requires g.edges[0].source == g.edges[1].source == "b"
    requires g.edges[0].fromPort == g.nodes[0].kind.routes[0] && g.edges[1].fromPort == g.nodes[0].kind.routes[1]
    requires forall i :: 2 <= i < |g.edges| ==> g.edges[i].source == "x" && g.edges[i].fromPort == PORT_OUT
    ensures WellBuilt(g)
  {
    ThreeIds(g);
    ThreeNodes(g, "b");
    hide NodeAt, EdgeFromAt;
    EdgeFromIs(g, "b", g.edges[0].fromPort, 0);
    EdgeFromIs(g, "b", g.edges[1].fromPort, 0);
    forall n | n in g.nodes ensures n == g.nodes[0] || n == g.nodes[1] || n == g.nodes[2] {}
  }

  lemma InRouteRouted()
    ensures Routed(EngineFor(InRoute(), IN_LAYERS), InRoute()) && OnlySink(InRoute()) && StreamShape(InRoute())
  {
    hide EngineOf, WellBuilt, EngineFor, OnlySink, AllReachable;
    var g := InRoute();
    InRouteCompiles();
    Built(g);
    ThreeIds(g);
    assert g.edges[0].target == "x" && g.edges[1].target == "z";
    EndsAtZ(g);
    Shaped(g);
  }

  /** z is the only node without a live edge. */
  lemma EndsAtZ(g: Graph)
    requires g == InRoute()
    ensures OnlySink(g)
  {
    ThreeIds(g);
    ThreeNodes(g, "b");
    hide NodeAt;
    assert g.nodes[0].kind.routes[0] == "in" && Live(g, 0) && Live(g, 2);
    forall s | Sink(g, s) ensures s == "z" {}
  }

  /** Both are graphs buildStreamPlan plans: b reaches x and z. */
  lemma Shaped(g: Graph)
    requires ThreeNamed(g) && g.entry == "b" && HasBranch(g) && OnlyIn(g) && NoTee(g) && ExitIsSink(g)
    requires |g.edges| >= 2 && g.edges[0].source == g.edges[1].source == "b"
    requires (g.edges[0].target == "x" && g.edges[1].target == "z") || (g.edges[0].target == "z" && g.edges[1].target == "x")
    ensures StreamShape(g)
  {
    hide Trail;
    ThreeIds(g);
    assert Trail(g, [], "b") by { BranchTrail(g); }
    TrailStep(g, [], "b", 0);
    TrailStep(g, [], "b", 1);
    forall n | n in GraphIds(g) ensures Reachable(g, n) {}
  }

  lemma BranchTrail(g: Graph)
    requires g.entry == "b"
    ensures Trail(g, [], "b")
  {
    assert [] + ["b"] == ["b"];
  }

  lemma TwoSinksRouted()
    ensures Routed(EngineFor(TwoSinks(), SINK_LAYERS), TwoSinks()) && StreamShape(TwoSinks()) && Remeets(TwoSinks())
  {
    hide EngineOf, WellBuilt, EngineFor, AllReachable;
    var g := TwoSinks();
    TwoSinksCompiles();
    Built(g);
    ThreeIds(g);
    assert g.edges[0].target == "z" && g.edges[1].target == "x";
    Shaped(g);
  }

  /** The walk of either graph: b takes its route r, and the node there passes the value on to nobody. */
  lemma WalksRoute(e: Engine, g: Graph, t: string, v: Value)
    requires Routed(e, g) && IsNode(g, "b") && IsNode(g, t) && g.entry == "b"
    requires Yields(KindAt(g, "b"), v) == Some(("r", v)) && EdgeFrom(g, "b", "r") == Some(t)
    requires Yields(KindAt(g, t), v) == Some((PORT_OUT, v)) && EdgeFrom(g, t, PORT_OUT).None?
    ensures EngineOf(e, g) && Layered(e.layers, "b")
    ensures var c := Follow(e, g, "b", v); c.Ended? && c.sink == t && c.v == v
  {
    hide EngineOf, NodeAt, EdgeFrom, Yields;
    RoutedIs(e, g);
    NodesAreNodes(e, g, "b");
    NodesAreNodes(e, g, t);
    FollowIs(e, g, "b", v);
    FollowIs(e, g, t, v);
  }

  lemma RouteR(g: Graph)
    requires |g.edges| >= 2 && g.edges[1].source == "b" && g.edges[1].fromPort == "r" != g.edges[0].fromPort
    ensures EdgeFrom(g, "b", "r") == Some(g.edges[1].target)
  {
    assert EdgeFromAt(g, "b", "r", 1) == Some(g.edges[1].target);
  }

  lemma AllFaithful(g: Graph, folders: Folders)
    requires forall i :: 0 <= i < |g.nodes| ==> !g.nodes[i].kind.ChatModel?
    ensures Faithful(g, folders) && FoldersExist(g, folders) && forall n :: n in g.nodes ==> !n.kind.ChatModel?
  {
    forall id ensures NodeAt(g.nodes, id).Some? ==> !NodeAt(g.nodes, id).value.kind.ChatModel? { NodeAtIs(g.nodes, id); }
  }

  /** On every input Stream yields the input where Invoke fails: the engine also runs the node the route named
      "in" leads to. */
  lemma InRouteDiverges(folders: Folders, v: Value)
    ensures var e, g := EngineFor(InRoute(), IN_LAYERS), InRoute();
            && Routed(e, g) && StreamShape(g) && FoldersExist(g, folders) && OnlySink(g) && Faithful(g, folders)
            && g.entry in GraphIds(g)
            && Streamed(e, g, folders, v) == Some(v) && Invoke(e, g, v).None?
  {
    hide EngineOf, NodeAt, EdgeFromAt, OnlySink, SingleRoute, StreamShape, FoldersExist, Faithful, Chain, Follow;
    hide FreshRun, Solution, EngineFor;
    var e, g, inputs := EngineFor(InRoute(), IN_LAYERS), InRoute(), map[GRAPH_IN := v];
    InRouteRouted();
    RoutedIs(e, g);
    AllFaithful(g, folders);
    ThreeNodes(g, "b");
    assert GraphIds(g) == ["b", "x", "z"];
    RouteR(g);
    EdgeFromIs(g, "z", PORT_OUT, 0);
    assert g.nodes[0].kind.routes[1] == "r" && Choose("r")(v) == Some("r");
    WalksRoute(e, g, "z", v);
    WalkOnValues(e, g, folders, "b", v);
    var f := FreshRun(e, None, None, inputs, false);
    EngineIs(e, g);
    var C := FinishedRunSolves(e, None, None, inputs);
    if f.Finished? {
      EntryRuns(e, g, inputs);
      InRouteAlwaysFires(e, g, v, 0);
      NeverRuns(e, g, inputs, f.run.net, C);
    }
  }

  lemma NeverRuns(e: Engine, g: Graph, inputs: map<string, Value>, net: Net, C: seq<Option<Value>>)
    requires EngineOf(e, g) && "x" in GraphIds(g) && NodeAt(g.nodes, "x") == Some(GraphNode("x", Plain(Fails()), "T"))
    requires Solution(e, None, None, inputs, net.active, net.ports, C)
    ensures "x" !in net.active
  {
    hide EngineOf, NodeAt, Solution;
    if "x" in net.active { var u := RanWell(e, g, inputs, net.active, net.ports, C, "x"); }
  }

  /** On every input Stream yields the value found at the second sink where Invoke reports that the declared
      output is missing. */
  lemma SecondSinkDiverges(folders: Folders, v: Value)
    ensures var e, g := EngineFor(TwoSinks(), SINK_LAYERS), TwoSinks();
            && Routed(e, g) && StreamShape(g) && FoldersExist(g, folders) && Remeets(g) && Faithful(g, folders)
            && g.entry in GraphIds(g)
            && Streamed(e, g, folders, v) == Some(v) && Invoke(e, g, v).None?
  {
    hide EngineOf, NodeAt, EdgeFromAt, SingleRoute, StreamShape, FoldersExist, Remeets, Faithful, Chain, Follow;
    hide FreshRun, EngineFor;
    var e, g := EngineFor(TwoSinks(), SINK_LAYERS), TwoSinks();
    TwoSinksRouted();
    RoutedIs(e, g);
    AllFaithful(g, folders);
    ThreeNodes(g, "b");
    assert GraphIds(g) == ["b", "x", "z"];
    RouteR(g);
    EdgeFromIs(g, "x", PORT_OUT, 0);
    assert g.nodes[0].kind.routes[1] == "r" && Choose("r")(v) == Some("r");
    WalksRoute(e, g, "x", v);
    WalkOnValues(e, g, folders, "b", v);
    AllTracked(e, g, v);
    InvokeIsWalk(e, g, v);
  }
}
