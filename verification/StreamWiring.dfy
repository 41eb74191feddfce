/** For which wirings Stream and Invoke agree whatever the nodes do: exactly those in which every walk from the
    entry ends at the exit and, at each branch it meets, a route named after the input port leads where every
    other route leads too. */
module StreamWiring {
  import opened Prelude
  import opened FlowIr
  import opened Layering
  import opened Validation
  import opened Wiring
  import opened LayeredEngine
  import opened Equations
  import opened Dataflow
  import opened Lifecycle
  import opened StreamGraph
  import opened Streaming
  import opened StreamWalk
  import opened StreamTail

  // ---------------------------------------------------------------- graphs of one wiring

  /** Branches stay branches with their routes; every other node may do anything. */
  ghost predicate SameSlot(x: GraphNode, y: GraphNode) {
    x.id == y.id && x.inT == y.inT && (if x.kind.Branch? then y.kind.Branch? && y.kind.routes == x.kind.routes else !y.kind.Branch?)
  }

  ghost predicate SameWiring(g: Graph, g': Graph) {
    && g'.edges == g.edges && g'.entry == g.entry && g'.exit == g.exit && g'.outT == g.outT && g'.isOut == g.isOut
    && |g'.nodes| == |g.nodes| && forall i :: 0 <= i < |g.nodes| ==> SameSlot(g.nodes[i], g'.nodes[i])
  }

  lemma {:induction false} SameNodeAt(nodes: seq<GraphNode>, nodes': seq<GraphNode>, id: string)
    requires |nodes| == |nodes'| && forall i :: 0 <= i < |nodes| ==> SameSlot(nodes[i], nodes'[i])
    ensures NodeAt(nodes, id).Some? == NodeAt(nodes', id).Some?
    ensures NodeAt(nodes, id).Some? ==> SameSlot(NodeAt(nodes, id).value, NodeAt(nodes', id).value)
  {
    if nodes != [] {
      assert SameSlot(nodes[0], nodes'[0]);
      forall i | 0 <= i < |nodes[1..]|
        ensures SameSlot(nodes[1..][i], nodes'[1..][i])
      {
        assert SameSlot(nodes[i + 1], nodes'[i + 1]);
      }
      SameNodeAt(nodes[1..], nodes'[1..], id);
    }
  }

  lemma SameLowering(g: Graph, g': Graph)
    requires SameWiring(g, g')
    ensures GraphIds(g') == GraphIds(g) && Lower(g') == Lower(g)
  {
    forall i | 0 <= i < |g.nodes| ensures g'.nodes[i].id == g.nodes[i].id { assert SameSlot(g.nodes[i], g'.nodes[i]); }
    assert Lower(g').nodes == Lower(g).nodes && Lower(g').edges == Lower(g).edges;
  }

  lemma SameEdgeFrom(g: Graph, g': Graph, n: string, p: string, i: nat)
    requires g'.edges == g.edges && i <= |g.edges|
    ensures EdgeFromAt(g', n, p, i) == EdgeFromAt(g, n, p, i)
    decreases |g.edges| - i
  {
    if i < |g.edges| { SameEdgeFrom(g, g', n, p, i + 1); }
  }

  /** Everything the hypotheses of the stream theorems ask of the wiring, they ask of every graph with it. */
  lemma SameShapeOfGraph(g: Graph, g': Graph)
    requires SameWiring(g, g')
    ensures SingleRoute(g) ==> SingleRoute(g')
    ensures OnlySink(g) <==> OnlySink(g')
    ensures Remeets(g) <==> Remeets(g')
  {
    SameLowering(g, g');
    SameLive(g, g');
    hide Live;
    forall u, v ensures Passes(g, u, v) <==> Passes(g', u, v) {}
    hide Passes;
    forall n, s, w ensures Leads(g, w, n, s) <==> Leads(g', w, n, s) {}
    forall n, s ensures GetsTo(g, n, s) <==> GetsTo(g', n, s) {}
    forall n ensures Sink(g, n) <==> Sink(g', n) {}
    forall n, x ensures Inevitable(g, n, x) <==> Inevitable(g', n, x) {}
    if SingleRoute(g) { SameBuilt(g, g'); }
  }

  lemma SameLive(g: Graph, g': Graph)
    requires SameWiring(g, g')
    ensures forall i :: 0 <= i < |g.edges| ==> (Live(g, i) <==> Live(g', i))
  {
    hide NodeAt;
    forall i | 0 <= i < |g.edges|
      ensures Live(g, i) <==> Live(g', i)
    {
      SameNodeAt(g.nodes, g'.nodes, g.edges[i].source);
    }
  }

  lemma SameBuilt(g: Graph, g': Graph)
    requires SameWiring(g, g') && WellBuilt(g)
    ensures WellBuilt(g')
  {
    hide NodeAt, EdgeFromAt;
    SameLowering(g, g');
    forall i | 0 <= i < |g'.edges|
      ensures NodeAt(g'.nodes, g'.edges[i].source).Some?
      ensures g'.edges[i].fromPort == PORT_OUT || g'.edges[i].fromPort in OutPorts(NodeAt(g'.nodes, g'.edges[i].source).value.kind)
    {
      SameNodeAt(g.nodes, g'.nodes, g'.edges[i].source);
    }
    forall n | n in g'.nodes && n.kind.Branch?
      ensures n.kind.routes != [] && forall r :: r in n.kind.routes ==> EdgeFrom(g', n.id, r).Some?
    {
      var i :| 0 <= i < |g'.nodes| && g'.nodes[i] == n;
      assert SameSlot(g.nodes[i], n) && g.nodes[i] in g.nodes;
      forall r | r in n.kind.routes ensures EdgeFrom(g', n.id, r).Some? { SameEdgeFrom(g, g', n.id, r, 0); }
    }
  }

  // ---------------------------------------------------------------- steering a graph along a path

  /** A walk from the entry to a sink. */
  ghost predicate Path(g: Graph, P: seq<string>) {
    P != [] && Leads(g, P, g.entry, P[|P| - 1]) && Sink(g, P[|P| - 1])
  }

  ghost predicate FollowedBy(P: seq<string>, n: string, t: string) {
    exists i :: 0 <= i < |P| - 1 && P[i] == n && P[i + 1] == t
  }

  /** A live edge from n that stays on the path. */
  ghost predicate Stays(g: Graph, P: seq<string>, n: string, j: int) {
    0 <= j < |g.edges| && Live(g, j) && g.edges[j].source == n && FollowedBy(P, n, g.edges[j].target)
  }

  /** Its port. */
  ghost function Toward(g: Graph, P: seq<string>, n: string): string {
    if exists j :: Stays(g, P, n, j) then var j :| Stays(g, P, n, j); g.edges[j].fromPort else ""
  }

  lemma TowardStays(g: Graph, P: seq<string>, n: string)
    requires exists j :: Stays(g, P, n, j)
    ensures exists j: nat :: Stays(g, P, n, j) && g.edges[j].fromPort == Toward(g, P, n)
  {
    var j :| Stays(g, P, n, j) && g.edges[j].fromPort == Toward(g, P, n);
    assert j >= 0;
  }

  /** On the path a branch selects the path's route and any other node passes its value on; off the path every
      node fails. */
  ghost function Steer(g: Graph, P: seq<string>, n: GraphNode): GraphNode {
    var route := Toward(g, P, n.id);
    n.(kind := if n.kind.Branch? then Branch((v: Value) => if n.id in P then Some(route) else None, n.kind.routes)
               else if n.id in P then Passthrough else Plain((v: Value) => None))
  }

  ghost function SteerAll(g: Graph, P: seq<string>, nodes: seq<GraphNode>): (r: seq<GraphNode>)
    ensures |r| == |nodes| && forall i :: 0 <= i < |nodes| ==> r[i] == Steer(g, P, nodes[i])
  {
    if nodes == [] then [] else [Steer(g, P, nodes[0])] + SteerAll(g, P, nodes[1..])
  }

  ghost function Steered(g: Graph, P: seq<string>): Graph { g.(nodes := SteerAll(g, P, g.nodes)) }

  lemma {:induction false} SteeredNodeAt(g: Graph, P: seq<string>, nodes: seq<GraphNode>, id: string)
    ensures NodeAt(SteerAll(g, P, nodes), id) == match NodeAt(nodes, id) case Some(n) => Some(Steer(g, P, n)) case None => None
  {
    if nodes != [] { SteeredNodeAt(g, P, nodes[1..], id); }
  }

  lemma SteeredWiring(g: Graph, P: seq<string>)
    ensures SameWiring(g, Steered(g, P))
  {
  }

  /** The engine of the steered graph. */
  ghost function SteeredEngine(e: Engine, g: Graph, P: seq<string>): Engine
    requires EngineOf(e, g)
  {
    var g' := Steered(g, P);
    e.(nodes := map n | n in e.nodes :: if NodeAt(g'.nodes, n).Some? then Adapter(NodeAt(g'.nodes, n).value.kind) else e.nodes[n])
  }

  lemma SteeredCompiles(e: Engine, g: Graph, P: seq<string>)
    requires EngineOf(e, g)
    ensures EngineOf(SteeredEngine(e, g, P), Steered(g, P))
  {
    hide Valid, IsLayering;
    var e', g' := SteeredEngine(e, g, P), Steered(g, P);
    SteeredWiring(g, P);
    SameLowering(g, g');
    forall n | n in GraphIds(g)
      ensures n in e'.nodes && NodeAt(g'.nodes, n).Some? && e'.nodes[n] == Adapter(NodeAt(g'.nodes, n).value.kind)
    {
      SteeredNodeAt(g, P, g.nodes, n);
      assert n in Ids(e.flow);
    }
    if e.hasStore {
      forall k | 0 <= k < |e.layers| ensures AtMostOneInterrupt(e', e'.layers[k]) {
        forall i | 0 <= i < |e.layers[k]| ensures !CanInterrupt(e', e.layers[k][i]) {
          assert In(e.layers, k, e.layers[k][i]);
          LayeredDeclared(e, e.layers[k][i]);
        }
      }
    }
  }

  lemma LayeredDeclared(e: Engine, n: string)
    requires Compiled(e) && Layered(e.layers, n)
    ensures n in Ids(e.flow)
  {
  }

  lemma PathDistinct(e: Engine, g: Graph, P: seq<string>, i: nat, j: nat)
    requires EngineOf(e, g) && Path(g, P) && i < j < |P| && g.entry in GraphIds(g)
    ensures P[i] != P[j]
  {
    hide EngineOf, LayerOf;
    NodesAreNodes(e, g, g.entry);
    var s := P[|P| - 1];
    if i > 0 { WalkRises(e, g, P, g.entry, s, i); }
    WalkFrom(g, P, g.entry, s, i);
    assert P[i..][0] == P[i] && P[i..][j - i] == P[j];
    WalkRises(e, g, P[i..], P[i], s, j - i);
  }

  lemma WalkFrom(g: Graph, w: seq<string>, n: string, s: string, i: nat)
    requires Leads(g, w, n, s) && i < |w|
    ensures Leads(g, w[i..], w[i], s)
  {
    var t := w[i..];
    forall k | 0 <= k < |t| - 1 ensures Passes(g, t[k], t[k + 1]) { assert Passes(g, w[i + k], w[i + k + 1]); }
  }

  lemma OneFollower(e: Engine, g: Graph, P: seq<string>, i: nat, t: string)
    requires EngineOf(e, g) && Path(g, P) && g.entry in GraphIds(g) && i + 1 < |P| && FollowedBy(P, P[i], t)
    ensures t == P[i + 1]
  {
    hide EngineOf, Path;
    var k :| 0 <= k < |P| - 1 && P[k] == P[i] && P[k + 1] == t;
    if k < i { PathDistinct(e, g, P, k, i); }
    if i < k { PathDistinct(e, g, P, i, k); }
  }

  lemma SomeToward(g: Graph, P: seq<string>, i: nat) returns (j: nat)
    requires Path(g, P) && i + 1 < |P|
    ensures Stays(g, P, P[i], j) && g.edges[j].fromPort == Toward(g, P, P[i])
  {
    assert Passes(g, P[i], P[i + 1]);
    var a: nat :| a < |g.edges| && Live(g, a) && g.edges[a].source == P[i] && g.edges[a].target == P[i + 1];
    assert FollowedBy(P, P[i], g.edges[a].target);
    assert Stays(g, P, P[i], a);
    TowardStays(g, P, P[i]);
    j :| Stays(g, P, P[i], j) && g.edges[j].fromPort == Toward(g, P, P[i]);
  }

  /** On the path a node's steered port leads to the next node of the path. */
  lemma TowardNext(e: Engine, g: Graph, P: seq<string>, i: nat) returns (j: nat)
    requires Routed(e, g) && Path(g, P) && i + 1 < |P|
    ensures var port := Toward(g, P, P[i]);
            && EdgeFrom(g, P[i], port) == Some(P[i + 1])
            && j < |g.edges| && Live(g, j) && g.edges[j].source == P[i] && g.edges[j].fromPort == port
            && g.edges[j].target == P[i + 1]
  {
    hide NodeAt, EngineOf, EdgeFromAt, Path, Toward, FollowedBy;
    RoutedIs(e, g);
    j := SomeToward(g, P, i);
    OneFollower(e, g, P, i, g.edges[j].target);
    EdgeFromIs(g, P[i], Toward(g, P, P[i]), 0);
  }

  // ---------------------------------------------------------------- what a steered graph does

  lemma SteeredKind(e: Engine, g: Graph, P: seq<string>, n: string)
    requires EngineOf(e, g) && n in GraphIds(g)
    ensures IsNode(g, n) && IsNode(Steered(g, P), n)
    ensures KindAt(Steered(g, P), n) == Steer(g, P, NodeAt(g.nodes, n).value).kind
    ensures NodeAt(g.nodes, n).value.id == n && NodeAt(g.nodes, n).value in g.nodes
  {
    NodesAreNodes(e, g, n);
    SteeredNodeAt(g, P, g.nodes, n);
    NodeAtIs(g.nodes, n);
    SteeredWiring(g, P);
    SameLowering(g, Steered(g, P));
  }

  lemma OnPathDeclared(e: Engine, g: Graph, P: seq<string>, i: nat)
    requires EngineOf(e, g) && g.entry in GraphIds(g) && Path(g, P) && i < |P|
    ensures P[i] in GraphIds(g) && Layered(e.layers, P[i])
  {
    NodesAreNodes(e, g, g.entry);
    if i > 0 { WalkRises(e, g, P, g.entry, P[|P| - 1], i); }
    assert IsNode(g, P[i]);
  }

  /** A branch on the path has the steered route; a node that is not a branch emits on its output port. */
  lemma SteeredPort(e: Engine, g: Graph, P: seq<string>, i: nat, v: Value)
    requires Routed(e, g) && Path(g, P) && i + 1 < |P|
    ensures IsNode(Steered(g, P), P[i]) && Yields(KindAt(Steered(g, P), P[i]), v) == Some((Toward(g, P, P[i]), v))
  {
    hide NodeAt, EngineOf, EdgeFromAt, Path, Toward, WellBuilt, Steered;
    RoutedIs(e, g);
    RoutedBuilt(e, g);
    OnPathDeclared(e, g, P, i);
    SteeredKind(e, g, P, P[i]);
    var j := TowardNext(e, g, P, i);
    var n := NodeAt(g.nodes, P[i]).value;
  }

  /** The sink at the end of the path is an ordinary node. */
  lemma EndIsOrdinary(e: Engine, g: Graph, P: seq<string>, v: Value)
    requires Routed(e, g) && Path(g, P)
    ensures var s := P[|P| - 1];
            && IsNode(Steered(g, P), s) && !KindAt(Steered(g, P), s).Branch?
            && Yields(KindAt(Steered(g, P), s), v) == Some((PORT_OUT, v)) && EdgeFrom(g, s, PORT_OUT).None?
  {
    hide NodeAt, EngineOf, EdgeFromAt, Toward;
    RoutedIs(e, g);
    RoutedBuilt(e, g);
    var s := P[|P| - 1];
    OnPathDeclared(e, g, P, |P| - 1);
    SteeredKind(e, g, P, s);
    EdgeFromIs(g, s, PORT_OUT, 0);
    if NodeAt(g.nodes, s).value.kind.Branch? { BranchIsNoSink(g, NodeAt(g.nodes, s).value); }
  }

  lemma BranchIsNoSink(g: Graph, n: GraphNode)
    requires WellBuilt(g) && n in g.nodes && n.kind.Branch? && NodeAt(g.nodes, n.id) == Some(n)
    ensures !Sink(g, n.id)
  {
    var r := n.kind.routes[0];
    assert r in n.kind.routes;
    EdgeFromIs(g, n.id, r, 0);
    var j :| 0 <= j < |g.edges| && g.edges[j].source == n.id && g.edges[j].fromPort == r;
    assert Live(g, j);
  }

  /** The walk of the steered graph is the path, with the input untouched. */
  lemma {:induction false} SteeredWalk(e: Engine, g: Graph, P: seq<string>, i: nat, v: Value)
    requires Routed(e, g) && Path(g, P) && i < |P|
    ensures var e', g' := SteeredEngine(e, g, P), Steered(g, P);
            && EngineOf(e', g') && IsNode(g', P[i]) && Layered(e'.layers, P[i])
            && var c := Follow(e', g', P[i], v); c.Ended? && c.sink == P[|P| - 1] && c.v == v
    decreases |P| - i
  {
    hide NodeAt, EngineOf, EdgeFromAt, Path, Toward, Follow, Layered, Yields, SteeredEngine;
    RoutedIs(e, g);
    SteeredCompiles(e, g, P);
    var e', g' := SteeredEngine(e, g, P), Steered(g, P);
    SameLayersOf(e, g, P);
    OnPathDeclared(e, g, P, i);
    if i + 1 < |P| {
      SteeredPort(e, g, P, i, v);
      var j := TowardNext(e, g, P, i);
      SameEdgeFrom(g, g', P[i], Toward(g, P, P[i]), 0);
      SteeredWalk(e, g, P, i + 1, v);
    } else {
      EndIsOrdinary(e, g, P, v);
      SameEdgeFrom(g, g', P[i], PORT_OUT, 0);
    }
    SteeredRouted(e, g, P);
    FollowIs(e', g', P[i], v);
  }

  lemma SameLayersOf(e: Engine, g: Graph, P: seq<string>)
    requires EngineOf(e, g)
    ensures SteeredEngine(e, g, P).layers == e.layers && SteeredEngine(e, g, P).flow == e.flow
  {
  }

  lemma SteeredRouted(e: Engine, g: Graph, P: seq<string>)
    requires Routed(e, g)
    ensures Routed(SteeredEngine(e, g, P), Steered(g, P))
  {
    hide EngineOf, SingleRoute;
    RoutedIs(e, g);
    SteeredCompiles(e, g, P);
    SteeredWiring(g, P);
    SameShapeOfGraph(g, Steered(g, P));
    RoutedSingle(e, g);
  }

  lemma RoutedSingle(e: Engine, g: Graph)
    requires Routed(e, g)
    ensures SingleRoute(g)
  {
  }

  /** So Stream yields the input, if it is of the output type. */
  lemma SteeredStreams(e: Engine, g: Graph, P: seq<string>, folders: Folders, v: Value)
    requires Routed(e, g) && Path(g, P) && g.isOut(v)
    ensures var e', g' := SteeredEngine(e, g, P), Steered(g, P);
            && Routed(e', g') && Faithful(g', folders) && g'.entry in GraphIds(g')
            && Streamed(e', g', folders, v) == Some(v)
  {
    hide EngineOf, SingleRoute, NodeAt, Follow, Chain, SteeredEngine;
    SteeredRouted(e, g, P);
    var e', g' := SteeredEngine(e, g, P), Steered(g, P);
    RoutedIs(e', g');
    RoutedBuilt(e', g');
    SteeredWalk(e, g, P, 0, v);
    NoChats(g, P);
    WalkOnValues(e', g', folders, g'.entry, v);
  }

  lemma NoChats(g: Graph, P: seq<string>)
    ensures forall n :: n in Steered(g, P).nodes ==> !n.kind.ChatModel?
    ensures forall folders :: Faithful(Steered(g, P), folders)
  {
    var g' := Steered(g, P);
    forall n | n in g'.nodes ensures !n.kind.ChatModel? {
      var i :| 0 <= i < |g'.nodes| && g'.nodes[i] == n;
    }
    forall id ensures NodeAt(g'.nodes, id).Some? ==> !NodeAt(g'.nodes, id).value.kind.ChatModel? { NodeAtIs(g'.nodes, id); }
  }

  /** A node off the path fails whatever it is given. */
  lemma OffPathFails(e: Engine, g: Graph, P: seq<string>, n: string, u: Value)
    requires EngineOf(e, g) && n in GraphIds(g) && n !in P
    ensures IsNode(Steered(g, P), n) && Yields(KindAt(Steered(g, P), n), u).None?
  {
    hide EngineOf, Toward;
    SteeredKind(e, g, P, n);
  }

  /** In a finished run of the steered graph every node of the path is active. */
  lemma {:induction false} PathRuns(e: Engine, g: Graph, P: seq<string>, v: Value, C: seq<Option<Value>>, i: nat)
    requires Routed(e, g) && Path(g, P) && i < |P|
    requires var f := FreshRun(SteeredEngine(e, g, P), None, None, map[GRAPH_IN := v], false);
             f.Finished? && Solution(SteeredEngine(e, g, P), None, None, map[GRAPH_IN := v], f.run.net.active, f.run.net.ports, C)
    ensures P[i] in FreshRun(SteeredEngine(e, g, P), None, None, map[GRAPH_IN := v], false).run.net.active
  {
    hide EngineOf, NodeAt, SteeredEngine, Steered, Solution, Toward, FreshRun, Path, Yields, EdgeFromAt;
    var e', g', inputs := SteeredEngine(e, g, P), Steered(g, P), map[GRAPH_IN := v];
    RoutedIs(e, g);
    SteeredCompiles(e, g, P);
    SteeredWiring(g, P);
    SameLowering(g, g');
    OnPathDeclared(e, g, P, i);
    var net := FreshRun(e', None, None, inputs, false).run.net;
    if i == 0 {
      EntryRuns(e', g', inputs);
      PathStarts(g, P);
    } else {
      PathRuns(e, g, P, v, C, i - 1);
      OnPathDeclared(e, g, P, i - 1);
      var u := RanWell(e', g', inputs, net.active, net.ports, C, P[i - 1]);
      SteeredPort(e, g, P, i - 1, u);
      var j := TowardNext(e, g, P, i - 1);
      HeldPortFires(e', g', inputs, j);
      TargetRuns(e', g', inputs, j);
    }
  }

  lemma PathStarts(g: Graph, P: seq<string>)
    requires Path(g, P)
    ensures P[0] == g.entry
  {
  }

  lemma EntryRuns(e: Engine, g: Graph, inputs: map<string, Value>)
    requires EngineOf(e, g) && g.entry in GraphIds(g)
    ensures var f := FreshRun(e, None, None, inputs, false); f.Finished? ==> g.entry in f.run.net.active
  {
    ActiveExactlyWhen(e, None, None, inputs, g.entry);
    assert e.flow.inputs[0].node == g.entry;
    assert GivenInput(e.flow, g.entry);
  }

  /** An edge whose active source holds the port has fired. */
  lemma HeldPortFires(e: Engine, g: Graph, inputs: map<string, Value>, j: nat)
    requires EngineOf(e, g) && j < |g.edges|
    ensures var f := FreshRun(e, None, None, inputs, false);
            f.Finished? && g.edges[j].source in f.run.net.active && PortKey(g.edges[j].source, g.edges[j].fromPort) in f.run.net.ports ==>
              |f.run.net.edges| == |g.edges| && f.run.net.edges[j] == Fired
  {
    hide FreshRun;
    FinalEdgesExplained(e, None, None, inputs);
    FinishedFits(e, inputs);
    assert e.flow.edges[j] == Edge(PortRef(g.edges[j].source, g.edges[j].fromPort), PortRef(g.edges[j].target, g.edges[j].toPort), "");
  }

  lemma FinishedFits(e: Engine, inputs: map<string, Value>)
    ensures var f := FreshRun(e, None, None, inputs, false); f.Finished? ==> Fits(e, f.run)
  {
  }

  /** A path that does not end at the exit, or that a route named "in" leaves for good. */
  ghost predicate Astray(g: Graph, P: seq<string>) {
    Path(g, P) && (P[|P| - 1] != g.exit || exists i :: 0 <= i < |g.edges| && LeavesPath(g, P, i))
  }

  ghost predicate LeavesPath(g: Graph, P: seq<string>, i: nat)
    requires i < |g.edges|
  {
    g.edges[i].source in P && g.edges[i].fromPort == PORT_IN && g.edges[i].target !in P
  }

  /** Steered along such a path the engine has no output to give: it activates a node that fails, or never
      reaches the exit. */
  lemma AstrayInvokes(e: Engine, g: Graph, P: seq<string>, v: Value)
    requires Routed(e, g) && Astray(g, P)
    ensures Invoke(SteeredEngine(e, g, P), Steered(g, P), v).None?
  {
    hide EngineOf, NodeAt, SteeredEngine, Steered, Toward, FreshRun, Yields, EdgeFromAt, Solution, SingleRoute;
    var e', g', inputs := SteeredEngine(e, g, P), Steered(g, P), map[GRAPH_IN := v];
    RoutedIs(e, g);
    RoutedSingle(e, g);
    SteeredCompiles(e, g, P);
    SteeredWiring(g, P);
    SameLowering(g, g');
    var f := FreshRun(e', None, None, inputs, false);
    EngineIs(e', g');
    var C := FinishedRunSolves(e', None, None, inputs);
    if f.Finished? {
      if P[|P| - 1] != g.exit {
        ExitOffPath(g, P);
        OffPathRests(e, g, P, inputs, f.run.net, C, g.exit);
        OneOutput(g', f.run.net);
      } else {
        var i: nat :| i < |g.edges| && LeavesPath(g, P, i);
        var k :| 0 <= k < |P| && P[k] == g.edges[i].source;
        PathRuns(e, g, P, v, C, k);
        OnPathDeclared(e, g, P, k);
        InRouteAlwaysFires(e', g', v, i);
        TargetDeclared(e, g, i);
        OffPathRests(e, g, P, inputs, f.run.net, C, g.edges[i].target);
      }
    }
  }

  lemma EngineIs(e: Engine, g: Graph)
    requires EngineOf(e, g)
    ensures Compiled(e) && e.flow == Lower(g)
  {
  }

  lemma ExitOffPath(g: Graph, P: seq<string>)
    requires SingleRoute(g) && Path(g, P) && P[|P| - 1] != g.exit
    ensures g.exit !in P && g.exit in GraphIds(g)
  {
    forall k | 0 <= k < |P| - 1 ensures P[k] != g.exit { assert Passes(g, P[k], P[k + 1]); }
  }

  /** A finished run has activated no node that fails. */
  lemma OffPathRests(e: Engine, g: Graph, P: seq<string>, inputs: map<string, Value>, net: Net, C: seq<Option<Value>>,
                     n: string)
    requires EngineOf(e, g) && n in GraphIds(g) && n !in P
    requires Solution(SteeredEngine(e, g, P), None, None, inputs, net.active, net.ports, C)
    ensures n !in net.active
  {
    hide EngineOf, NodeAt, SteeredEngine, Steered, Yields, Solution;
    SteeredCompiles(e, g, P);
    SteeredWiring(g, P);
    SameLowering(g, Steered(g, P));
    if n in net.active {
      var u := RanWell(SteeredEngine(e, g, P), Steered(g, P), inputs, net.active, net.ports, C, n);
      OffPathFails(e, g, P, n, u);
    }
  }

  // ---------------------------------------------------------------- the exact condition

  ghost predicate StreamAgrees(e: Engine, g: Graph, folders: Folders, v: Value)
    requires EngineOf(e, g) && g.entry in GraphIds(g)
  {
    Streamed(e, g, folders, v) == Invoke(e, g, v)
  }

  /** Whatever the nodes of graphs with this wiring do, and on every input. */
  ghost predicate WiringAgrees(g: Graph) {
    forall g', e', folders, v :: SameWiring(g, g') && Routed(e', g') && Faithful(g', folders) ==> StreamAgrees(e', g', folders, v)
  }

  /** A walk from the entry, carried on to a sink. */
  lemma WalksJoin(g: Graph, u: seq<string>, n: string, w: seq<string>, s: string)
    requires Leads(g, u, g.entry, n) && Leads(g, w, n, s) && Sink(g, s)
    ensures Path(g, u + w[1..]) && (u + w[1..])[|u| - 1] == n
  {
    var P := u + w[1..];
    forall k | 0 <= k < |P| - 1 ensures Passes(g, P[k], P[k + 1]) {
      if k < |u| - 1 {
        assert Passes(g, u[k], u[k + 1]);
      } else {
        assert Passes(g, w[k - |u| + 1], w[k - |u| + 1 + 1]);
      }
    }
  }

  /** A walk that ends at a second sink is astray. */
  lemma SecondSinkStrays(g: Graph) returns (P: seq<string>)
    requires !OnlySink(g)
    ensures Astray(g, P)
  {
    var s :| GetsTo(g, g.entry, s) && Sink(g, s) && s != g.exit;
    P :| Leads(g, P, g.entry, s);
  }

  /** Another route of a branch can miss the target of its route named "in". */
  lemma MissedTargetStrays(e: Engine, g: Graph, i: nat, j: nat) returns (P: seq<string>)
    requires Routed(e, g) && i < |g.edges| && j < |g.edges| && Live(g, j) && GetsTo(g, g.entry, g.edges[j].source)
    requires g.edges[i].source == g.edges[j].source && g.edges[i].fromPort == PORT_IN
    requires !Inevitable(g, g.edges[j].target, g.edges[i].target)
    ensures Astray(g, P)
  {
    hide EngineOf, NodeAt, Inevitable;
    RoutedIs(e, g);
    var b, t, x := g.edges[i].source, g.edges[j].target, g.edges[i].target;
    var w, s := Missing(g, t, x);
    var u :| Leads(g, u, g.entry, b);
    assert Passes(g, b, t);
    LeadsOn(g, w, b, t, s);
    WalksJoin(g, u, b, [b] + w, s);
    P := u + w;
    assert ([b] + w)[1..] == w;
    if x in P { BehindBranch(e, g, i, u, x); }
    assert LeavesPath(g, P, i);
  }

  lemma Missing(g: Graph, t: string, x: string) returns (w: seq<string>, s: string)
    requires !Inevitable(g, t, x)
    ensures Leads(g, w, t, s) && Sink(g, s) && x !in w
  {
    w, s :| Leads(g, w, t, s) && Sink(g, s) && x !in w;
  }

  /** The target of an edge is not on a walk that leads to its source. */
  lemma BehindBranch(e: Engine, g: Graph, i: nat, u: seq<string>, x: string)
    requires EngineOf(e, g) && i < |g.edges| && Leads(g, u, g.entry, g.edges[i].source) && x == g.edges[i].target
    ensures x !in u
  {
    var b := g.edges[i].source;
    WalkEdge(e, g, i);
    if k :| 0 <= k < |u| && u[k] == x {
      WalkFrom(g, u, g.entry, b, k);
      if k < |u| - 1 { WalkRises(e, g, u[k..], x, b, |u| - 1 - k); }
    }
  }

  /** The exact condition on the wiring. For a single-route graph whose output type has a value: Stream and Invoke
      agree for all node functions, all folders that obey the law, and all inputs, exactly when every walk from
      the entry ends at the exit and no route named after the input port leads anywhere the other routes of its
      branch can miss. */
  lemma WiringDecides(e: Engine, g: Graph)
    requires Routed(e, g) && exists v :: g.isOut(v)
    ensures WiringAgrees(g) <==> OnlySink(g) && Remeets(g)
  {
    hide EngineOf, NoTee, OnlyIn, Fed, Faithful, OnlySink, Remeets;
    if OnlySink(g) && Remeets(g) {
      forall g', e', folders, v | SameWiring(g, g') && Routed(e', g') && Faithful(g', folders)
        ensures StreamAgrees(e', g', folders, v)
      {
        SameShapeOfGraph(g, g');
        AllTracked(e', g', v);
        StreamIsInvoke(e', g', folders, v);
      }
    } else {
      var P := SomeStrays(e, g);
      var v :| g.isOut(v);
      var e', g' := SteeredEngine(e, g, P), Steered(g, P);
      SteeredStreams(e, g, P, map[], v);
      AstrayInvokes(e, g, P, v);
      SteeredWiring(g, P);
      assert !StreamAgrees(e', g', map[], v);
    }
  }

  lemma AllTracked(e: Engine, g: Graph, v: Value)
    requires EngineOf(e, g) && g.entry in GraphIds(g) && Remeets(g)
    ensures Tracked(e, g, v)
  {
    hide EngineOf;
    NodesAreNodes(e, g, g.entry);
    GetsToSelf(g, g.entry);
    RemeetsTracks(e, g, g.entry, v);
  }

  lemma SomeStrays(e: Engine, g: Graph) returns (P: seq<string>)
    requires Routed(e, g) && !(OnlySink(g) && Remeets(g))
    ensures Astray(g, P)
  {
    hide EngineOf, NodeAt, Inevitable, Astray, OnlySink, GetsTo, Live;
    if !OnlySink(g) {
      P := SecondSinkStrays(g);
    } else {
      var i, j :| 0 <= i < |g.edges| && 0 <= j < |g.edges| && g.edges[i].source == g.edges[j].source && Live(g, j)
                  && GetsTo(g, g.entry, g.edges[j].source)
                  && g.edges[i].fromPort == PORT_IN != g.edges[j].fromPort && !Inevitable(g, g.edges[j].target, g.edges[i].target);
      P := MissedTargetStrays(e, g, i, j);
    }
  }
}
