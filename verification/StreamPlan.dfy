/** Which graphs stream without the engine (v2/flow/graph/streamdag.go, runnable.go): the branch-DAG plan and
    the linear pipeline. */
module StreamPlan {
  import opened Prelude
  import opened Topology
  import opened Layering
  import opened LayeredEngine
  import opened StreamGraph
  import opened Streaming
  import opened StreamWalk

  function GraphArcs(g: Graph): seq<Arc> { EdgeArcs(Lower(g).edges) }

  /** w leads from the entry to n, along any edges. */
  ghost predicate Trail(g: Graph, w: seq<string>, n: string) {
    Walk(GraphArcs(g), w + [n]) && (w + [n])[0] == g.entry
  }

  ghost predicate Reachable(g: Graph, n: string) { exists w :: Trail(g, w, n) }

  ghost predicate Dangling(g: Graph) { exists i :: 0 <= i < |g.edges| && g.edges[i].target !in GraphIds(g) }

  /** Neither can happen once the engine has compiled the graph. */
  ghost predicate Broken(g: Graph) { !Acyclic(GraphArcs(g)) || Dangling(g) }

  /** Whatever has been seen and is not still being visited has had all its targets seen. */
  ghost predicate ClosedUnder(g: Graph, seen: set<string>, stack: set<string>) {
    forall i :: 0 <= i < |g.edges| && g.edges[i].source in seen && g.edges[i].source !in stack ==> g.edges[i].target in seen
  }

  lemma TrailStep(g: Graph, path: seq<string>, id: string, i: nat)
    requires Trail(g, path, id) && i < |g.edges| && g.edges[i].source == id
    ensures Trail(g, path + [id], g.edges[i].target)
  {
    var arc := Arc(id, g.edges[i].target);
    assert Lower(g).edges[i].source.node == id && Lower(g).edges[i].target.node == g.edges[i].target;
    EdgeArcMember(Lower(g).edges, arc);
    var w := path + [id] + [g.edges[i].target];
    forall k | 0 <= k < |w| - 1 ensures Arc(w[k], w[k + 1]) in GraphArcs(g) {
      if k < |path| { assert w[k] == (path + [id])[k] && w[k + 1] == (path + [id])[k + 1]; }
    }
  }

  lemma StackIsCycle(g: Graph, path: seq<string>, id: string)
    requires Trail(g, path, id) && id in path
    ensures !Acyclic(GraphArcs(g))
  {
    var w := path + [id];
    var k :| 0 <= k < |path| && path[k] == id;
    RepeatIsCycle(GraphArcs(g), w, k, |path|);
  }

  /** The reachability walk of buildStreamPlan. It gives up only on a cycle or a dangling edge. */
  method Reaches(g: Graph, id: string, stack: set<string>, seen: set<string>, ghost path: seq<string>)
      returns (ok: bool, after: set<string>)
    requires id in GraphIds(g) && Trail(g, path, id) && forall n :: n in stack <==> n in path
    requires seen <= Elems(GraphIds(g)) && stack <= seen && ClosedUnder(g, seen, stack)
    ensures !ok ==> Broken(g)
    ensures ok ==> seen <= after <= Elems(GraphIds(g)) && id in after && ClosedUnder(g, after, stack)
    ensures ok ==> forall n :: n in after && n !in seen ==> Reachable(g, n)
    decreases Elems(GraphIds(g)) - seen
  {
    hide Walk, Acyclic;
    after := seen;
    if id in stack {
      StackIsCycle(g, path, id);
      return false, after;
    }
    if id in seen { return true, after; }
    after := seen + {id};
    assert Reachable(g, id);
    for i := 0 to |g.edges|
      invariant seen + {id} <= after <= Elems(GraphIds(g)) && ClosedUnder(g, after, stack + {id})
      invariant forall j :: 0 <= j < i && g.edges[j].source == id ==> g.edges[j].target in after
      invariant forall n :: n in after && n !in seen ==> Reachable(g, n)
    {
      if g.edges[i].source == id {
        if g.edges[i].target !in GraphIds(g) { return false, after; }
        TrailStep(g, path, id, i);
        ok, after := Reaches(g, g.edges[i].target, stack + {id}, after, path + [id]);
        if !ok { return false, after; }
      }
    }
    return true, after;
  }

  // ---------------------------------------------------------------- the branch-DAG plan

  predicate HasBranch(g: Graph) { exists i :: 0 <= i < |g.nodes| && g.nodes[i].kind.Branch? }

  ghost predicate AllReachable(g: Graph) { forall n :: n in GraphIds(g) ==> Reachable(g, n) }

  /** Every stream that is consumed as a value has a folder. */
  ghost predicate FoldersExist(g: Graph, folders: Folders) {
    && (forall i :: 0 <= i < |g.edges| ==> EdgeFolds(g, folders, i))
    && ExitFolds(g, folders)
  }

  predicate EdgeFolds(g: Graph, folders: Folders, i: nat)
    requires i < |g.edges|
  {
    var n, m := NodeAt(g.nodes, g.edges[i].source), NodeAt(g.nodes, g.edges[i].target);
    n.Some? && m.Some? && n.value.kind.ChatModel? ==> m.value.inT in folders
  }

  predicate ExitFolds(g: Graph, folders: Folders) {
    var x := NodeAt(g.nodes, g.exit);
    x.Some? && x.value.kind.ChatModel? ==> g.outT in folders
  }

  ghost predicate StreamShape(g: Graph) { HasBranch(g) && OnlyIn(g) && NoTee(g) && AllReachable(g) && ExitIsSink(g) }

  datatype Verdict = Plan | Degrade | MissingFolder

  /** buildStreamPlan: a plan exactly for the graphs of its shape that have every folder they need. */
  method BuildStreamPlan(g: Graph, folders: Folders) returns (r: Verdict)
    requires WellBuilt(g)
    ensures r.Plan? ==> StreamShape(g) && FoldersExist(g, folders)
    ensures r.MissingFolder? ==> StreamShape(g) && !FoldersExist(g, folders)
    ensures r.Degrade? ==> !StreamShape(g) || Broken(g)
  {
    hide Walk, Acyclic, WellBuilt;
    if !HasBranch(g) { return Degrade; }
    var straight := CheckEdges(g);
    if !straight { return Degrade; }
    EntryTrail(g);
    var ok, seen := Reaches(g, g.entry, {}, {}, []);
    if !ok { return Degrade; }
    if seen != Elems(GraphIds(g)) {
      if AllReachable(g) { SeenIsReachable(g, seen); }
      return Degrade;
    }
    for i := 0 to |g.edges|
      invariant forall j :: 0 <= j < i ==> g.edges[j].source != g.exit
    {
      if g.edges[i].source == g.exit { return Degrade; }
    }
    for i := 0 to |g.edges|
      invariant forall j :: 0 <= j < i ==> EdgeFolds(g, folders, j)
    {
      if !EdgeFolds(g, folders, i) { return MissingFolder; }
    }
    return if ExitFolds(g, folders) then Plan else MissingFolder;
  }

  lemma EntryTrail(g: Graph)
    requires WellBuilt(g)
    ensures g.entry in GraphIds(g) && Trail(g, [], g.entry)
  {
    assert [] + [g.entry] == [g.entry];
  }

  /** The combine and tee checks. */
  method CheckEdges(g: Graph) returns (straight: bool)
    ensures straight <==> OnlyIn(g) && NoTee(g)
  {
    for i := 0 to |g.edges|
      invariant forall j :: 0 <= j < i ==> g.edges[j].toPort == PORT_IN
      invariant forall j, k :: 0 <= j < k < i ==> g.edges[j].source != g.edges[k].source || g.edges[j].fromPort != g.edges[k].fromPort
    {
      if g.edges[i].toPort != PORT_IN { return false; }
      for j := 0 to i
        invariant forall k :: 0 <= k < j ==> g.edges[k].source != g.edges[i].source || g.edges[k].fromPort != g.edges[i].fromPort
      {
        if g.edges[j].source == g.edges[i].source && g.edges[j].fromPort == g.edges[i].fromPort { return false; }
      }
    }
    return true;
  }

  /** A closed set that holds the entry holds every reachable node. */
  lemma SeenIsReachable(g: Graph, seen: set<string>)
    requires g.entry in seen && ClosedUnder(g, seen, {}) && AllReachable(g)
    ensures Elems(GraphIds(g)) <= seen
  {
    forall n | n in GraphIds(g) ensures n in seen {
      var w :| Trail(g, w, n);
      TrailStays(g, seen, w + [n], |w|);
    }
  }

  lemma {:induction false} TrailStays(g: Graph, seen: set<string>, w: seq<string>, k: nat)
    requires Walk(GraphArcs(g), w) && k < |w| && w[0] == g.entry && g.entry in seen && ClosedUnder(g, seen, {})
    ensures w[k] in seen
  {
    if k > 0 {
      TrailStays(g, seen, w, k - 1);
      assert Arc(w[k - 1], w[k]) in GraphArcs(g);
      EdgeArcMember(Lower(g).edges, Arc(w[k - 1], w[k]));
      var i :| 0 <= i < |Lower(g).edges| && Lower(g).edges[i].source.node == w[k - 1] && Lower(g).edges[i].target.node == w[k];
      assert g.edges[i].source == w[k - 1] && g.edges[i].target == w[k];
    }
  }

  // ---------------------------------------------------------------- folders

  /** A chat model's stream reaches a consumer, or leaves at the exit, and there is no folder for the type asked for. */
  ghost predicate Unfolded(g: Graph, folders: Folders) {
    || (exists i, s, t :: 0 <= i < |g.edges| && s in g.nodes && t in g.nodes && s.kind.ChatModel? &&
                          s.id == g.edges[i].source && t.id == g.edges[i].target && t.inT !in folders)
    || (exists s :: s in g.nodes && s.kind.ChatModel? && s.id == g.exit && g.outT !in folders)
  }

  lemma {:induction false} NodeAtOnly(nodes: seq<GraphNode>, n: GraphNode)
    requires n in nodes && forall i, j :: 0 <= i < j < |nodes| ==> nodes[i].id != nodes[j].id
    ensures NodeAt(nodes, n.id) == Some(n)
  {
    var k :| 0 <= k < |nodes| && nodes[k] == n;
    if k > 0 {
      assert nodes[0].id != nodes[k].id && nodes[1..][k - 1] == n;
      NodeAtOnly(nodes[1..], n);
    }
  }

  lemma EdgeUnfolded(g: Graph, folders: Folders, i: nat, s: GraphNode, t: GraphNode)
    requires i < |g.edges| && NodeAt(g.nodes, g.edges[i].source) == Some(s) && NodeAt(g.nodes, g.edges[i].target) == Some(t)
    ensures EdgeFolds(g, folders, i) <==> (s.kind.ChatModel? ==> t.inT in folders)
  {
  }

  /** What the planners ask of the folders is that no stream is left unfolded. */
  lemma FoldersAre(g: Graph, folders: Folders)
    requires Distinct(GraphIds(g))
    ensures FoldersExist(g, folders) <==> !Unfolded(g, folders)
  {
    forall i, j | 0 <= i < j < |g.nodes| ensures g.nodes[i].id != g.nodes[j].id { assert GraphIds(g)[i] != GraphIds(g)[j]; }
    forall n | n in g.nodes ensures NodeAt(g.nodes, n.id) == Some(n) { NodeAtOnly(g.nodes, n); }
    forall id { NodeAtIs(g.nodes, id); }
    hide NodeAt, GraphIds;
    assert ExitFolds(g, folders) <==> !(exists s :: s in g.nodes && s.kind.ChatModel? && s.id == g.exit && g.outT !in folders);
    hide ExitFolds;
    if i :| 0 <= i < |g.edges| && !EdgeFolds(g, folders, i) {
      var s, t := NodeAt(g.nodes, g.edges[i].source).value, NodeAt(g.nodes, g.edges[i].target).value;
      assert s in g.nodes && t in g.nodes;
    }
    hide EdgeFolds;
    if i, s, t :| 0 <= i < |g.edges| && s in g.nodes && t in g.nodes && s.kind.ChatModel? &&
                  s.id == g.edges[i].source && t.id == g.edges[i].target && t.inT !in folders {
      EdgeUnfolded(g, folders, i, s, t);
      assert !EdgeFolds(g, folders, i);
    }
  }

  /** The walk from cur has a folder at hand for every stream that is asked for as a value, the last one included. */
  ghost predicate Folds(e: Engine, g: Graph, folders: Folders, cur: string, c: Carrier)
    requires EngineOf(e, g) && IsNode(g, cur) && Layered(e.layers, cur)
    decreases |e.layers| - LayerOf(e.layers, cur)
  {
    && (c.Flowing? ==> NodeAt(g.nodes, cur).value.inT in folders)
    && match Turn(folders, NodeAt(g.nodes, cur).value, c)
       case None => true
       case Some((port, d)) =>
         if EdgeFrom(g, cur, port).None? then d.Flowing? && cur == g.exit ==> g.outT in folders
         else
           NextIsLater(e, g, cur, port);
           Folds(e, g, folders, EdgeFrom(g, cur, port).value, d)
  }

  /** A planned walk never stops for want of a folder, whatever the nodes return. */
  lemma {:induction false} PlanFolds(e: Engine, g: Graph, folders: Folders, cur: string, c: Carrier)
    requires EngineOf(e, g) && IsNode(g, cur) && Layered(e.layers, cur) && FoldersExist(g, folders)
    requires c.Flowing? ==> NodeAt(g.nodes, cur).value.inT in folders
    ensures Folds(e, g, folders, cur, c)
    decreases |e.layers| - LayerOf(e.layers, cur)
  {
    hide EngineOf, NodeAt, EdgeFrom, LayerOf, Layered, Materialise, Yields;
    match Turn(folders, NodeAt(g.nodes, cur).value, c)
    case None =>
    case Some((port, d)) =>
      if EdgeFrom(g, cur, port).Some? {
        NextIsLater(e, g, cur, port);
        var t := EdgeFrom(g, cur, port).value;
        if d.Flowing? { NextFolds(g, folders, cur, port, t); }
        PlanFolds(e, g, folders, t, d);
      } else {
        assert ExitFolds(g, folders);
      }
  }

  lemma NextFolds(g: Graph, folders: Folders, cur: string, port: string, t: string)
    requires IsNode(g, cur) && IsNode(g, t) && EdgeFrom(g, cur, port) == Some(t) && FoldersExist(g, folders)
    requires NodeAt(g.nodes, cur).value.kind.ChatModel?
    ensures NodeAt(g.nodes, t).value.inT in folders
  {
    EdgeFromIs(g, cur, port, 0);
    var i :| 0 <= i < |g.edges| && g.edges[i].source == cur && g.edges[i].fromPort == port && g.edges[i].target == t;
    assert EdgeFolds(g, folders, i);
  }

  /** A planned graph runs as a single walk, but for routes named after the input port. */
  lemma PlannedIsSingleRoute(g: Graph)
    requires WellBuilt(g) && StreamShape(g)
    ensures SingleRoute(g)
  {
    forall n | n in GraphIds(g) && n != g.entry ensures exists i :: 0 <= i < |g.edges| && g.edges[i].target == n {
      var w :| Trail(g, w, n);
      assert w != [];
      var last := w[|w| - 1];
      assert (w + [n])[|w| - 1] == last && (w + [n])[|w|] == n;
      EdgeArcMember(Lower(g).edges, Arc(last, n));
      var i :| 0 <= i < |Lower(g).edges| && Lower(g).edges[i].source.node == last && Lower(g).edges[i].target.node == n;
      assert g.edges[i].target == n;
    }
  }
}
