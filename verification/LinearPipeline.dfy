/** The linear chain (v2/flow/graph/runnable.go): recognising it, and running it without the engine. */
module LinearPipeline {
  import opened Prelude
  import opened FlowIr
  import opened Layering
  import opened LayeredEngine
  import opened StreamGraph
  import opened Streaming
  import opened StreamWalk
  import StreamPlan

  /** order lists the nodes from the entry to the exit, and the edges are exactly the steps of the list. */
  ghost predicate IsChain(g: Graph, order: seq<string>) {
    && order != [] && order[0] == g.entry && order[|order| - 1] == g.exit && Distinct(order)
    && (forall n :: n in order <==> n in GraphIds(g))
    && (forall i :: 0 <= i < |g.edges| ==> g.edges[i].fromPort == PORT_OUT && g.edges[i].toPort == PORT_IN && Steps(g, order, i))
    && (forall k :: 0 <= k < |order| - 1 ==> Joined(g, order[k], order[k + 1]))
    && forall i, j :: 0 <= i < j < |g.edges| ==> g.edges[i].source != g.edges[j].source
  }

  ghost predicate Steps(g: Graph, order: seq<string>, i: nat)
    requires i < |g.edges|
  {
    exists k :: 0 <= k < |order| - 1 && g.edges[i].source == order[k] && g.edges[i].target == order[k + 1]
  }

  ghost predicate Joined(g: Graph, a: string, b: string) {
    exists i :: 0 <= i < |g.edges| && g.edges[i].source == a && g.edges[i].target == b
  }

  // ---------------------------------------------------------------- degrees

  function End(e: GraphEdge, outward: bool): string { if outward then e.source else e.target }

  /** How many of the edges leave (or enter) n. */
  function Degree(edges: seq<GraphEdge>, n: string, outward: bool): nat {
    if edges == [] then 0
    else Degree(edges[..|edges| - 1], n, outward) + if End(edges[|edges| - 1], outward) == n then 1 else 0
  }

  lemma {:induction false} DegreeNone(edges: seq<GraphEdge>, n: string, outward: bool)
    ensures Degree(edges, n, outward) == 0 <==> forall i :: 0 <= i < |edges| ==> End(edges[i], outward) != n
  {
    if edges != [] { DegreeNone(edges[..|edges| - 1], n, outward); }
  }

  lemma {:induction false} DegreeOne(edges: seq<GraphEdge>, n: string, outward: bool)
    ensures Degree(edges, n, outward) <= 1 <==>
            forall i, j :: 0 <= i < j < |edges| ==> !(End(edges[i], outward) == n && End(edges[j], outward) == n)
  {
    if edges != [] {
      var rest := edges[..|edges| - 1];
      DegreeOne(rest, n, outward);
      DegreeNone(rest, n, outward);
    }
  }

  function Get(m: map<string, nat>, n: string): nat { if n in m then m[n] else 0 }

  // ---------------------------------------------------------------- recognising a chain

  datatype Verdict = Pipeline(order: seq<string>) | NotLinear | MissingFolder

  ghost predicate Counted(edges: seq<GraphEdge>, m: map<string, nat>, outward: bool) {
    forall n :: Get(m, n) == Degree(edges, n, outward)
  }

  ghost predicate NextOf(edges: seq<GraphEdge>, next: map<string, string>) {
    && (forall n :: n in next <==> Degree(edges, n, true) > 0)
    && (forall n :: n in next ==> exists i :: 0 <= i < |edges| && edges[i].source == n && edges[i].target == next[n])
  }

  /** The first loop of buildLinearPipeline; None for an edge that uses another port. */
  method CountEdges(g: Graph) returns (r: Option<(map<string, nat>, map<string, nat>, map<string, string>)>)
    ensures r.None? <==>
            exists i :: 0 <= i < |g.edges| && !(g.edges[i].fromPort == PORT_OUT && g.edges[i].toPort == PORT_IN)
    ensures r.Some? ==>
            Counted(g.edges, r.value.0, false) && Counted(g.edges, r.value.1, true) && NextOf(g.edges, r.value.2)
  {
    var indeg: map<string, nat>, outdeg: map<string, nat>, next: map<string, string> := map[], map[], map[];
    for i := 0 to |g.edges|
      invariant forall j :: 0 <= j < i ==> g.edges[j].fromPort == PORT_OUT && g.edges[j].toPort == PORT_IN
      invariant Counted(g.edges[..i], indeg, false) && Counted(g.edges[..i], outdeg, true) && NextOf(g.edges[..i], next)
    {
      hide NextOf, Counted, Degree;
      var e := g.edges[i];
      if e.fromPort != PORT_OUT || e.toPort != PORT_IN { return None; }
      CountGrows(g.edges, i, indeg, false);
      CountGrows(g.edges, i, outdeg, true);
      outdeg := outdeg[e.source := Get(outdeg, e.source) + 1];
      indeg := indeg[e.target := Get(indeg, e.target) + 1];
      NextGrows(g.edges, i, next);
      next := next[e.source := e.target];
    }
    assert g.edges[..|g.edges|] == g.edges;
    return Some((indeg, outdeg, next));
  }

  lemma CountGrows(edges: seq<GraphEdge>, i: nat, m: map<string, nat>, outward: bool)
    requires i < |edges| && Counted(edges[..i], m, outward)
    ensures var n := End(edges[i], outward); Counted(edges[..i + 1], m[n := Get(m, n) + 1], outward)
  {
    var k, all := End(edges[i], outward), edges[..i + 1];
    var after := m[k := Get(m, k) + 1];
    assert all[..i] == edges[..i];
    forall n ensures Get(after, n) == Degree(all, n, outward) {
      assert Get(m, n) == Degree(edges[..i], n, outward);
    }
  }

  lemma NextGrows(edges: seq<GraphEdge>, i: nat, next: map<string, string>)
    requires i < |edges| && NextOf(edges[..i], next)
    ensures NextOf(edges[..i + 1], next[edges[i].source := edges[i].target])
  {
    var all, after := edges[..i + 1], next[edges[i].source := edges[i].target];
    assert all[..i] == edges[..i];
    forall n | n in after ensures exists j :: 0 <= j < |all| && all[j].source == n && all[j].target == after[n] {
      if n == edges[i].source {
        assert all[i].source == n;
      } else {
        var j :| 0 <= j < i && edges[..i][j].source == n && edges[..i][j].target == next[n];
        assert all[j] == edges[..i][j];
      }
    }
  }

  ghost predicate OneEach(g: Graph, outward: bool) {
    forall i, j :: 0 <= i < j < |g.edges| ==> End(g.edges[i], outward) != End(g.edges[j], outward)
  }

  /** The degree test. */
  method CheckDegrees(g: Graph, indeg: map<string, nat>, outdeg: map<string, nat>) returns (ok: bool)
    requires Counted(g.edges, indeg, false) && Counted(g.edges, outdeg, true) && !StreamPlan.Dangling(g) && WellBuilt(g)
    ensures ok <==> OneEach(g, false) && OneEach(g, true)
  {
    hide Degree;
    for i := 0 to |g.nodes|
      invariant forall j :: 0 <= j < i ==> Degree(g.edges, g.nodes[j].id, false) <= 1 && Degree(g.edges, g.nodes[j].id, true) <= 1
    {
      DegreeOne(g.edges, g.nodes[i].id, false);
      DegreeOne(g.edges, g.nodes[i].id, true);
      if Get(indeg, g.nodes[i].id) > 1 || Get(outdeg, g.nodes[i].id) > 1 { return false; }
    }
    DegreesMean(g, false);
    DegreesMean(g, true);
    return true;
  }

  lemma DegreesMean(g: Graph, outward: bool)
    requires !StreamPlan.Dangling(g) && WellBuilt(g)
    requires forall k :: 0 <= k < |g.nodes| ==> Degree(g.edges, g.nodes[k].id, outward) <= 1
    ensures OneEach(g, outward)
  {
    forall i, j | 0 <= i < j < |g.edges| ensures End(g.edges[i], outward) != End(g.edges[j], outward) {
      var n := End(g.edges[i], outward);
      DegreeOne(g.edges, n, outward);
      assert n in GraphIds(g) by {
        NodeAtIs(g.nodes, n);
        if outward { assert NodeAt(g.nodes, n).Some?; } else { assert g.edges[i].target in GraphIds(g); }
      }
      var k :| 0 <= k < |g.nodes| && g.nodes[k].id == n;
    }
  }

  /** order follows next from the entry to a node without a successor, meeting no node twice. */
  ghost predicate Follows(g: Graph, next: map<string, string>, order: seq<string>) {
    && order != [] && order[0] == g.entry && Distinct(order) && (forall n :: n in order ==> n in GraphIds(g))
    && (forall k :: 0 <= k < |order| - 1 ==> order[k] in next && next[order[k]] == order[k + 1])
    && order[|order| - 1] !in next
  }

  lemma ChainStep(g: Graph, o: seq<string>, next: map<string, string>, k: nat)
    requires IsChain(g, o) && NextOf(g.edges, next) && k < |o|
    ensures o[k] in next <==> k < |o| - 1
    ensures k < |o| - 1 ==> next[o[k]] == o[k + 1]
  {
    DegreeNone(g.edges, o[k], true);
    if k < |o| - 1 {
      assert Joined(g, o[k], o[k + 1]);
      var i :| 0 <= i < |g.edges| && g.edges[i].source == o[k] && g.edges[i].target == o[k + 1];
      assert End(g.edges[i], true) == o[k];
      var j :| 0 <= j < |g.edges| && g.edges[j].source == o[k] && g.edges[j].target == next[o[k]];
      assert i == j;
    } else {
      forall i | 0 <= i < |g.edges| ensures End(g.edges[i], true) != o[k] {
        assert Steps(g, o, i);
        var m :| 0 <= m < |o| - 1 && g.edges[i].source == o[m] && g.edges[i].target == o[m + 1];
      }
    }
  }

  lemma NextIsNode(g: Graph, next: map<string, string>, n: string)
    requires NextOf(g.edges, next) && n in next && !StreamPlan.Dangling(g)
    ensures next[n] in GraphIds(g)
  {
  }

  /** The second loop: the walk along the unique successors. If the graph is a chain, it finds it. */
  method WalkOrder(g: Graph, next: map<string, string>) returns (r: Option<seq<string>>)
    requires NextOf(g.edges, next) && !StreamPlan.Dangling(g) && g.entry in GraphIds(g)
    ensures r.Some? ==> Follows(g, next, r.value)
    ensures forall o :: IsChain(g, o) ==> r == Some(o)
  {
    hide NextOf, IsChain, GraphIds;
    var order: seq<string>, seen: set<string>, cur := [], {}, g.entry;
    forall o | IsChain(g, o) ensures OnChain(o, order, cur) { ChainStarts(g, o); }
    while true
      invariant cur in GraphIds(g) && seen <= Elems(GraphIds(g)) && Distinct(order)
      invariant forall n :: n in seen <==> n in order
      invariant if order == [] then cur == g.entry
                else order[0] == g.entry && order[|order| - 1] in next && next[order[|order| - 1]] == cur
      invariant forall k :: 0 <= k < |order| - 1 ==> order[k] in next && next[order[k]] == order[k + 1]
      invariant forall o :: IsChain(g, o) ==> OnChain(o, order, cur)
      decreases Elems(GraphIds(g)) - seen
    {
      if cur in seen {
        forall o | IsChain(g, o) ensures false { NoRepeat(g, o, order, cur); }
        return None;
      }
      ghost var before := order;
      seen := seen + {cur};
      order := order + [cur];
      forall o | IsChain(g, o) ensures |before| < |o| && order == o[..|order|] && (cur in next <==> |order| < |o|)
        ensures cur in next ==> OnChain(o, order, next[cur])
      {
        ChainStep(g, o, next, |before|);
      }
      if cur !in next {
        forall o | IsChain(g, o) ensures order == o { assert o[..|o|] == o; }
        return Some(order);
      }
      NextIsNode(g, next, cur);
      cur := next[cur];
    }
  }

  ghost predicate OnChain(o: seq<string>, order: seq<string>, cur: string) {
    |order| < |o| && order == o[..|order|] && cur == o[|order|]
  }

  lemma ChainStarts(g: Graph, o: seq<string>)
    requires IsChain(g, o)
    ensures OnChain(o, [], g.entry)
  {
  }

  lemma NoRepeat(g: Graph, o: seq<string>, order: seq<string>, cur: string)
    requires IsChain(g, o) && OnChain(o, order, cur)
    ensures cur !in order
  {
  }

  // ---------------------------------------------------------------- the pipeline

  lemma Covers(order: seq<string>, ids: seq<string>)
    requires Distinct(order) && Distinct(ids) && |order| == |ids| && forall n :: n in order ==> n in ids
    ensures forall n :: n in order <==> n in ids
  {
    DistinctCardinality(order, Elems(order));
    DistinctCardinality(ids, Elems(ids));
    SubsetCardinality(Elems(order), Elems(ids));
  }

  lemma FollowedSteps(g: Graph, next: map<string, string>, order: seq<string>, i: nat)
    requires Follows(g, next, order) && NextOf(g.edges, next) && OneEach(g, true) && i < |g.edges|
    requires g.edges[i].source in order
    ensures Steps(g, order, i)
  {
    hide GraphIds, Distinct, Degree;
    var n := g.edges[i].source;
    DegreeNone(g.edges, n, true);
    assert End(g.edges[i], true) == n;
    assert n in next;
    var k :| 0 <= k < |order| && order[k] == n;
    var j :| 0 <= j < |g.edges| && g.edges[j].source == n && g.edges[j].target == next[n];
    assert End(g.edges[j], true) == n;
    assert i == j && k < |order| - 1;
    assert g.edges[i].target == order[k + 1];
  }

  lemma SourceListed(g: Graph, i: nat)
    requires WellBuilt(g) && i < |g.edges|
    ensures g.edges[i].source in GraphIds(g)
  {
    var n := NodeAt(g.nodes, g.edges[i].source).value;
    NodeAtIs(g.nodes, g.edges[i].source);
    var k :| 0 <= k < |g.nodes| && g.nodes[k] == n;
    assert GraphIds(g)[k] == n.id;
  }

  lemma FollowedIsChain(g: Graph, next: map<string, string>, order: seq<string>)
    requires Follows(g, next, order) && NextOf(g.edges, next) && Distinct(GraphIds(g)) && WellBuilt(g)
    requires |order| == |g.nodes| && order[|order| - 1] == g.exit && OneEach(g, true)
    requires forall i :: 0 <= i < |g.edges| ==> g.edges[i].fromPort == PORT_OUT && g.edges[i].toPort == PORT_IN
    ensures IsChain(g, order)
  {
    assert |order| == |GraphIds(g)|;
    hide Steps, Joined, GraphIds, WellBuilt, NextOf, Distinct;
    Covers(order, GraphIds(g));
    forall i | 0 <= i < |g.edges| ensures Steps(g, order, i) {
      SourceListed(g, i);
      FollowedSteps(g, next, order, i);
    }
    forall k | 0 <= k < |order| - 1 ensures Joined(g, order[k], order[k + 1]) { NextJoins(g, next, order[k]); }
    SourcesDiffer(g);
  }

  lemma NextJoins(g: Graph, next: map<string, string>, n: string)
    requires NextOf(g.edges, next) && n in next
    ensures Joined(g, n, next[n])
  {
  }

  lemma SourcesDiffer(g: Graph)
    requires OneEach(g, true)
    ensures forall i, j :: 0 <= i < j < |g.edges| ==> g.edges[i].source != g.edges[j].source
  {
    forall i, j | 0 <= i < j < |g.edges| ensures g.edges[i].source != g.edges[j].source {
      assert End(g.edges[i], true) != End(g.edges[j], true);
    }
  }

  lemma ChainDegrees(g: Graph, o: seq<string>)
    requires IsChain(g, o)
    ensures OneEach(g, true) && OneEach(g, false)
  {
    forall i, j | 0 <= i < j < |g.edges| ensures End(g.edges[i], false) != End(g.edges[j], false) {
      assert g.edges[i].source != g.edges[j].source;
      hide IsChain;
      var k := StepAt(g, o, i);
      var m := StepAt(g, o, j);
      PlacesDiffer(g, o, k, m);
    }
  }

  lemma StepAt(g: Graph, o: seq<string>, i: nat) returns (k: nat)
    requires IsChain(g, o) && i < |g.edges|
    ensures k + 1 < |o| && g.edges[i].source == o[k] && g.edges[i].target == o[k + 1]
  {
    assert Steps(g, o, i);
    k :| 0 <= k < |o| - 1 && g.edges[i].source == o[k] && g.edges[i].target == o[k + 1];
  }

  lemma PlacesDiffer(g: Graph, o: seq<string>, k: nat, m: nat)
    requires IsChain(g, o) && k + 1 < |o| && m + 1 < |o| && o[k] != o[m]
    ensures o[k + 1] != o[m + 1]
  {
    assert k + 1 < m + 1 || m + 1 < k + 1;
  }

  lemma ChainLength(g: Graph, o: seq<string>)
    requires IsChain(g, o) && Distinct(GraphIds(g))
    ensures |o| == |g.nodes| && o[|o| - 1] == g.exit
  {
    DistinctCardinality(o, Elems(o));
    DistinctCardinality(GraphIds(g), Elems(o));
  }

  /** buildLinearPipeline: a pipeline exactly for the linear chains that have every folder they need. */
  method BuildLinearPipeline(g: Graph, folders: Folders) returns (r: Verdict)
    requires WellBuilt(g) && Distinct(GraphIds(g)) && !StreamPlan.Dangling(g)
    ensures r.Pipeline? ==> IsChain(g, r.order) && StreamPlan.FoldersExist(g, folders)
    ensures r.NotLinear? <==> forall o :: !IsChain(g, o)
    ensures r.MissingFolder? ==> !StreamPlan.FoldersExist(g, folders)
  {
    hide IsChain, NextOf, Counted, OneEach, WellBuilt, Follows;
    var counts := CountEdges(g);
    if counts.None? {
      forall o | IsChain(g, o) ensures false { ChainPorts(g, o); }
      return NotLinear;
    }
    var (indeg, outdeg, next) := counts.value;
    var ok := CheckDegrees(g, indeg, outdeg);
    if !ok {
      forall o | IsChain(g, o) ensures false { ChainDegrees(g, o); }
      return NotLinear;
    }
    EntryIsNode(g);
    var order := WalkOrder(g, next);
    if order.None? { return NotLinear; }
    FollowsEnds(g, next, order.value);
    if |order.value| != |g.nodes| || order.value[|order.value| - 1] != g.exit {
      forall o | IsChain(g, o) ensures false { ChainLength(g, o); }
      return NotLinear;
    }
    FollowedIsChain(g, next, order.value);
    for i := 0 to |g.edges|
      invariant forall j :: 0 <= j < i ==> StreamPlan.EdgeFolds(g, folders, j)
    {
      if !StreamPlan.EdgeFolds(g, folders, i) { return MissingFolder; }
    }
    return if StreamPlan.ExitFolds(g, folders) then Pipeline(order.value) else MissingFolder;
  }

  lemma EntryIsNode(g: Graph)
    requires WellBuilt(g)
    ensures g.entry in GraphIds(g)
  {
  }

  lemma FollowsEnds(g: Graph, next: map<string, string>, order: seq<string>)
    requires Follows(g, next, order)
    ensures order != []
  {
  }

  lemma ChainPorts(g: Graph, o: seq<string>)
    requires IsChain(g, o)
    ensures forall i :: 0 <= i < |g.edges| ==> g.edges[i].fromPort == PORT_OUT && g.edges[i].toPort == PORT_IN
  {
  }

  // ---------------------------------------------------------------- running the chain

  /** One turn of runLinearStream's loop: a value node is asked for its output port whatever it emitted. */
  function LineTurn(folders: Folders, n: GraphNode, c: Carrier): Option<Carrier> {
    match Turn(folders, n, c)
    case None => None
    case Some((port, d)) => Some(if port == PORT_OUT then d else Whole(Nil))
  }

  function Line(folders: Folders, nodes: seq<GraphNode>, c: Carrier): Option<Carrier> {
    if nodes == [] then Some(c)
    else match LineTurn(folders, nodes[0], c)
      case None => None
      case Some(d) => Line(folders, nodes[1..], d)
  }

  /** runLinearStream's loop. */
  method RunLinear(folders: Folders, nodes: seq<GraphNode>, v: Value) returns (r: Option<Carrier>)
    ensures r == Line(folders, nodes, Whole(v))
  {
    var carrier := Whole(v);
    for i := 0 to |nodes|
      invariant Line(folders, nodes, Whole(v)) == Line(folders, nodes[i..], carrier)
    {
      var n := nodes[i];
      assert nodes[i..][0] == n && nodes[i..][1..] == nodes[i + 1..];
      var value := Materialise(folders, carrier, n.inT);
      if value.None? { return None; }
      if n.kind.ChatModel? {
        var frames := n.kind.stream(value.value);
        if frames.None? { return None; }
        carrier := Flowing(frames.value);
      } else {
        var out := Yields(n.kind, value.value);
        if out.None? { return None; }
        carrier := Whole(if out.value.0 == PORT_OUT then out.value.1 else Nil);
      }
    }
    return Some(carrier);
  }

  function NodeOf(g: Graph, n: string): (r: GraphNode)
    requires IsNode(g, n)
    ensures r in g.nodes && r.id == n
  {
    NodeAtIs(g.nodes, n);
    NodeAt(g.nodes, n).value
  }

  ghost function NodesOf(g: Graph, order: seq<string>): (r: seq<GraphNode>)
    requires forall k :: 0 <= k < |order| ==> IsNode(g, order[k])
    ensures |r| == |order| && forall k :: 0 <= k < |order| ==> r[k] == NodeOf(g, order[k])
  {
    seq(|order|, k requires 0 <= k < |order| => NodeOf(g, order[k]))
  }

  /** An edge on the output port is live when no edge leaves another port. */
  lemma ChainIsLive(g: Graph, i: nat)
    requires WellBuilt(g) && i < |g.edges| && forall j :: 0 <= j < |g.edges| ==> g.edges[j].fromPort == PORT_OUT
    ensures Live(g, i)
  {
    hide EdgeFromAt;
    var n := NodeAt(g.nodes, g.edges[i].source).value;
    NodeAtIs(g.nodes, g.edges[i].source);
    if n.kind.Branch? {
      var r := n.kind.routes[0];
      assert r in n.kind.routes;
      EdgeFromIs(g, n.id, r, 0);
    }
  }

  lemma ChainIsRouted(e: Engine, g: Graph, order: seq<string>)
    requires EngineOf(e, g) && WellBuilt(g) && IsChain(g, order)
    ensures Routed(e, g) && OnlySink(g) && Remeets(g)
  {
    hide Compiled, WellBuilt, GraphIds, Inevitable;
    forall i | 0 <= i < |g.edges|
      ensures g.edges[i].source != g.exit && g.edges[i].fromPort != PORT_IN
    {
      assert Steps(g, order, i);
    }
    forall n | n in order && n != g.entry ensures exists i :: 0 <= i < |g.edges| && g.edges[i].target == n {
      var k :| 0 <= k < |order| && order[k] == n;
      assert Joined(g, order[k - 1], order[k - 1 + 1]);
    }
    forall n | Sink(g, n) ensures n == g.exit {
      if n != g.exit {
        var k :| 0 <= k < |order| && order[k] == n;
        assert Joined(g, order[k], order[k + 1]);
        var i :| 0 <= i < |g.edges| && g.edges[i].source == n;
        assert Steps(g, order, i);
        ChainIsLive(g, i);
      }
    }
  }

  lemma PortIsOut(g: Graph, folders: Folders, order: seq<string>, n: GraphNode, c: Carrier)
    requires WellBuilt(g) && IsChain(g, order) && n in g.nodes && Turn(folders, n, c).Some?
    ensures Turn(folders, n, c).value.0 == PORT_OUT
  {
    hide EdgeFrom;
    var v := Materialise(folders, c, n.inT).value;
    if n.kind.Branch? {
      BranchHasRoute(g, n, v);
      EdgePort(g, n.id, Turn(folders, n, c).value.0);
    }
  }

  lemma EdgePort(g: Graph, n: string, port: string)
    requires EdgeFrom(g, n, port).Some?
    ensures exists i :: 0 <= i < |g.edges| && g.edges[i].source == n && g.edges[i].fromPort == port && g.edges[i].target == EdgeFrom(g, n, port).value
  {
    EdgeFromIs(g, n, port, 0);
  }

  lemma NextInChain(g: Graph, order: seq<string>, k: nat)
    requires IsChain(g, order) && k < |order|
    ensures EdgeFrom(g, order[k], PORT_OUT) == if k < |order| - 1 then Some(order[k + 1]) else None
  {
    hide EdgeFrom;
    if EdgeFrom(g, order[k], PORT_OUT).Some? {
      EdgePort(g, order[k], PORT_OUT);
      var i :| 0 <= i < |g.edges| && g.edges[i].source == order[k] && g.edges[i].fromPort == PORT_OUT
          && g.edges[i].target == EdgeFrom(g, order[k], PORT_OUT).value;
      assert Steps(g, order, i);
    } else if k < |order| - 1 {
      assert Joined(g, order[k], order[k + 1]);
      var i :| 0 <= i < |g.edges| && g.edges[i].source == order[k];
      EdgeHere(g, i);
    }
  }

  lemma EdgeHere(g: Graph, i: nat)
    requires i < |g.edges|
    ensures EdgeFrom(g, g.edges[i].source, g.edges[i].fromPort).Some?
  {
    EdgeFromIs(g, g.edges[i].source, g.edges[i].fromPort, 0);
  }

  /** The list walk is the graph walk. */
  lemma {:induction false} LineIsChain(e: Engine, g: Graph, folders: Folders, order: seq<string>, k: nat, c: Carrier)
    requires Routed(e, g) && IsChain(g, order) && k < |order| && forall n :: n in order ==>
             IsNode(g, n) && Layered(e.layers, n)
    ensures Line(folders, NodesOf(g, order)[k..], c) ==
            match Chain(e, g, folders, order[k], c) case WalkFailed => None case StoppedAt(_, d) => Some(d)
    decreases |order| - k
  {
    hide Routed, IsChain, NodeAt, EdgeFrom, Chain, Turn, Layered;
    var nodes := NodesOf(g, order);
    var n := nodes[k];
    assert nodes[k..][0] == n && nodes[k..][1..] == nodes[k + 1..];
    assert order[k] in order;
    WalkIs(e, g, folders, order[k], c);
    RoutedBuilt(e, g);
    NextInChain(g, order, k);
    if Turn(folders, n, c).Some? {
      PortIsOut(g, folders, order, n, c);
      var d := Turn(folders, n, c).value.1;
      if k + 1 < |order| {
        LineIsChain(e, g, folders, order, k + 1, d);
      } else {
        assert nodes[k + 1..] == [];
      }
    }
  }

  /** Draining a linear stream gives what Invoke gives, for every input. */
  lemma LinearStreamIsInvoke(e: Engine, g: Graph, folders: Folders, order: seq<string>, v: Value)
    requires EngineOf(e, g) && WellBuilt(g) && IsChain(g, order) && Faithful(g, folders)
    ensures forall n :: n in order ==> IsNode(g, n)
    ensures var r := Line(folders, NodesOf(g, order), Whole(v));
            Drained(g, folders, match r case None => WalkFailed case Some(c) => StoppedAt(g.exit, c)) == Invoke(e, g, v)
  {
    hide Routed, IsChain, Chain, Line, Invoke, EngineOf, WellBuilt, Faithful;
    ChainIsRouted(e, g, order);
    ChainNodes(e, g, order);
    LineIsChain(e, g, folders, order, 0, Whole(v));
    assert NodesOf(g, order)[0..] == NodesOf(g, order);
    GetsToSelf(g, g.entry);
    RemeetsTracks(e, g, g.entry, v);
    StreamIsInvoke(e, g, folders, v);
  }

  /** What a node of a chain makes of the value that reaches it. */
  function Applied(k: Kind, v: Value): Option<Value> {
    match k
    case Plain(fn) => fn(v)
    case Passthrough => Some(v)
    case ChatModel(generate, _) => generate(v)
    case Branch(key, _) => if key(v) == Some(PORT_OUT) then Some(v) else None
  }

  /** The functions of the nodes, one after another. */
  function Composed(nodes: seq<GraphNode>, v: Value): Option<Value>
    decreases |nodes|
  {
    if nodes == [] then Some(v)
    else match Applied(nodes[0].kind, v) case None => None case Some(w) => Composed(nodes[1..], w)
  }

  /** A branch in a chain has one route, named after the output port. */
  lemma ChainYields(g: Graph, order: seq<string>, n: string, v: Value)
    requires WellBuilt(g) && IsChain(g, order) && IsNode(g, n)
    ensures Yields(KindAt(g, n), v) == match Applied(KindAt(g, n), v) case Some(w) => Some((PORT_OUT, w)) case None => None
  {
    hide EdgeFrom;
    var x := NodeOf(g, n);
    if x.kind.Branch? {
      forall r | r in x.kind.routes ensures r == PORT_OUT { EdgePort(g, x.id, r); }
      assert x.kind.routes[0] in x.kind.routes;
    }
  }

  lemma {:induction false} FollowChain(e: Engine, g: Graph, order: seq<string>, k: nat, v: Value)
    requires Routed(e, g) && IsChain(g, order) && k < |order| && forall n :: n in order ==>
             IsNode(g, n) && Layered(e.layers, n)
    ensures EngineOf(e, g) && IsNode(g, order[k]) && Layered(e.layers, order[k])
    ensures var c, w := Follow(e, g, order[k], v), Composed(NodesOf(g, order)[k..], v);
            if w.None? then c.Broke? else c.Ended? && c.sink == g.exit && c.v == w.value
    decreases |order| - k
  {
    hide Routed, EngineOf, IsChain, NodeAt, EdgeFrom, Follow, Layered, Applied, Yields;
    var nodes := NodesOf(g, order);
    assert order[k] in order && nodes[k..][0] == nodes[k] && nodes[k..][1..] == nodes[k + 1..];
    RoutedIs(e, g);
    RoutedBuilt(e, g);
    FollowIs(e, g, order[k], v);
    ChainYields(g, order, order[k], v);
    NextInChain(g, order, k);
    ChainEnds(g, order);
    if Applied(nodes[k].kind, v).Some? {
      if k + 1 < |order| {
        FollowChain(e, g, order, k + 1, Applied(nodes[k].kind, v).value);
      } else {
        assert nodes[k + 1..] == [];
      }
    }
  }

  lemma ChainEnds(g: Graph, order: seq<string>)
    requires IsChain(g, order)
    ensures order != [] && order[0] == g.entry && order[|order| - 1] == g.exit
  {
  }

  /** On a chain Invoke is the composition of the nodes' functions, asserted to the output type. */
  lemma InvokeComposes(e: Engine, g: Graph, order: seq<string>, v: Value)
    requires EngineOf(e, g) && WellBuilt(g) && IsChain(g, order)
    ensures forall n :: n in order ==> IsNode(g, n)
    ensures Invoke(e, g, v) == match Composed(NodesOf(g, order), v) case Some(w) => if g.isOut(w) then Some(w) else None case None => None
  {
    hide Routed, IsChain, Invoke, EngineOf, WellBuilt, Composed, Follow;
    ChainIsRouted(e, g, order);
    ChainNodes(e, g, order);
    ChainEnds(g, order);
    GetsToSelf(g, g.entry);
    RemeetsTracks(e, g, g.entry, v);
    InvokeIsWalk(e, g, v);
    FollowChain(e, g, order, 0, v);
    assert NodesOf(g, order)[0..] == NodesOf(g, order);
  }

  lemma ChainNodes(e: Engine, g: Graph, order: seq<string>)
    requires EngineOf(e, g) && IsChain(g, order)
    ensures order != [] && order[0] == g.entry && forall n :: n in order ==> IsNode(g, n) && Layered(e.layers, n)
  {
    forall n | n in order ensures IsNode(g, n) && Layered(e.layers, n) { NodesAreNodes(e, g, n); }
  }
}
