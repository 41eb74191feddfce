/** On a single-route graph the layered engine does one thing: it walks from the entry, one node per layer it
    meets, and the nodes of that walk are exactly the nodes it activates. */
module Streaming {
  import opened Prelude
  import opened FlowIr
  import opened Layering
  import opened Validation
  import opened Wiring
  import opened LayeredEngine
  import opened Firing
  import opened Legs
  import opened Resumption
  import opened Equations
  import opened StreamGraph

  ghost predicate Routed(e: Engine, g: Graph) { EngineOf(e, g) && SingleRoute(g) }

  ghost predicate IsNode(g: Graph, n: string) { n in GraphIds(g) && NodeAt(g.nodes, n).Some? }

  function KindAt(g: Graph, n: string): Kind
    requires NodeAt(g.nodes, n).Some?
  {
    NodeAt(g.nodes, n).value.kind
  }

  lemma NodesAreNodes(e: Engine, g: Graph, n: string)
    requires EngineOf(e, g) && n in GraphIds(g)
    ensures IsNode(g, n) && Layered(e.layers, n) && e.nodes[n] == Adapter(KindAt(g, n))
  {
  }

  // ---------------------------------------------------------------- the walk on values

  /** Where the walk ends: at a node that fails, or at a sink with the value it emitted. */
  datatype Course = Broke(seen: set<string>) | Ended(seen: set<string>, sink: string, v: Value)

  /** The next node's layer is later, so the walk ends. */
  lemma NextIsLater(e: Engine, g: Graph, cur: string, port: string)
    requires EngineOf(e, g) && IsNode(g, cur) && EdgeFrom(g, cur, port).Some?
    ensures IsNode(g, EdgeFrom(g, cur, port).value) && Layered(e.layers, cur)
    ensures Layered(e.layers, EdgeFrom(g, cur, port).value)
    ensures LayerOf(e.layers, cur) < LayerOf(e.layers, EdgeFrom(g, cur, port).value)
  {
    var t := EdgeFrom(g, cur, port).value;
    EdgeFromIs(g, cur, port, 0);
    var i :| 0 <= i < |g.edges| && g.edges[i].source == cur && g.edges[i].fromPort == port && g.edges[i].target == t;
    assert e.flow.edges[i].source.node == cur && e.flow.edges[i].target.node == t;
    assert EdgeOk(e.flow, i);
    NodesAreNodes(e, g, cur);
    NodesAreNodes(e, g, t);
    EdgeGoesForward(e, i, LayerOf(e.layers, cur));
  }

  function Via(c: Course, cur: string): Course { c.(seen := c.seen + {cur}) }

  /** Run each node on the value that reached it and follow the edge of the port it emitted on. */
  ghost function Follow(e: Engine, g: Graph, cur: string, v: Value): Course
    requires EngineOf(e, g) && IsNode(g, cur) && Layered(e.layers, cur)
    decreases |e.layers| - LayerOf(e.layers, cur)
  {
    match Yields(KindAt(g, cur), v)
    case None => Broke({cur})
    case Some((port, w)) =>
      if EdgeFrom(g, cur, port).None? then Ended({cur}, cur, w)
      else
        NextIsLater(e, g, cur, port);
        Via(Follow(e, g, EdgeFrom(g, cur, port).value, w), cur)
  }

  /** Every walk that leaves cur for t meets whoever a route of cur named "in" leads to. */
  ghost predicate Harmless(g: Graph, cur: string, port: string, t: string) {
    forall i :: 0 <= i < |g.edges| && g.edges[i].source == cur && g.edges[i].fromPort == PORT_IN != port ==> Inevitable(g, t, g.edges[i].target)
  }

  /** Each branch the walk meets selects its route named "in", has none, or selects one that is harmless: for
      instance one with the same target. */
  ghost predicate OnTrack(e: Engine, g: Graph, cur: string, v: Value)
    requires EngineOf(e, g) && IsNode(g, cur) && Layered(e.layers, cur)
    decreases |e.layers| - LayerOf(e.layers, cur)
  {
    match Yields(KindAt(g, cur), v)
    case None => true
    case Some((port, w)) =>
      EdgeFrom(g, cur, port).None? ||
      (NextIsLater(e, g, cur, port);
       Harmless(g, cur, port, EdgeFrom(g, cur, port).value) && OnTrack(e, g, EdgeFrom(g, cur, port).value, w))
  }

  ghost predicate Tracked(e: Engine, g: Graph, v: Value)
    requires EngineOf(e, g) && g.entry in GraphIds(g)
  {
    NodesAreNodes(e, g, g.entry);
    OnTrack(e, g, g.entry, v)
  }

  lemma TrackIs(e: Engine, g: Graph, cur: string, v: Value)
    requires EngineOf(e, g) && IsNode(g, cur) && Layered(e.layers, cur)
    ensures match Yields(KindAt(g, cur), v)
            case None => true
            case Some((port, w)) =>
              match EdgeFrom(g, cur, port)
              case None => true
              case Some(t) => IsNode(g, t) && Layered(e.layers, t) && (OnTrack(e, g, cur, v) <==> Harmless(g, cur, port, t) && OnTrack(e, g, t, w))
  {
    match Yields(KindAt(g, cur), v)
    case None =>
    case Some((port, w)) => if EdgeFrom(g, cur, port).Some? { NextIsLater(e, g, cur, port); }
  }

  /** The port a node emits on is one of its own, so the walk takes live edges only. */
  lemma TakesLive(g: Graph, cur: string, v: Value)
    requires IsNode(g, cur) && Yields(KindAt(g, cur), v).Some?
    requires EdgeFrom(g, cur, Yields(KindAt(g, cur), v).value.0).Some?
    ensures Passes(g, cur, EdgeFrom(g, cur, Yields(KindAt(g, cur), v).value.0).value)
  {
    var port := Yields(KindAt(g, cur), v).value.0;
    EdgeFromIs(g, cur, port, 0);
    var j :| 0 <= j < |g.edges| && g.edges[j].source == cur && g.edges[j].fromPort == port && g.edges[j].target == EdgeFrom(g, cur, port).value;
    assert Live(g, j);
  }

  /** The edge of the port it emits on is one Remeets speaks of. */
  lemma RouteTaken(g: Graph, cur: string, v: Value)
    requires Remeets(g) && GetsTo(g, g.entry, cur) && IsNode(g, cur)
    requires Yields(KindAt(g, cur), v).Some? && EdgeFrom(g, cur, Yields(KindAt(g, cur), v).value.0).Some?
    ensures var port := Yields(KindAt(g, cur), v).value.0;
            Passes(g, cur, EdgeFrom(g, cur, port).value) && Harmless(g, cur, port, EdgeFrom(g, cur, port).value)
  {
    hide Inevitable, GetsTo;
    TakesLive(g, cur, v);
    var port := Yields(KindAt(g, cur), v).value.0;
    EdgeFromIs(g, cur, port, 0);
    var j :| 0 <= j < |g.edges| && g.edges[j].source == cur && g.edges[j].fromPort == port && g.edges[j].target == EdgeFrom(g, cur, port).value;
    assert Live(g, j);
  }

  lemma GetsOn(g: Graph, n: string, u: string, t: string)
    requires GetsTo(g, n, u) && Passes(g, u, t)
    ensures GetsTo(g, n, t)
  {
    var w :| Leads(g, w, n, u);
    var x := w + [t];
    forall k | 0 <= k < |x| - 1 ensures Passes(g, x[k], x[k + 1]) {}
    assert Leads(g, x, n, t);
  }

  lemma GetsToSelf(g: Graph, n: string)
    ensures GetsTo(g, n, n)
  {
    assert Leads(g, [n], n, n);
  }

  /** A wiring whose "in" routes are harmless keeps every walk on track. */
  lemma {:induction false} RemeetsTracks(e: Engine, g: Graph, cur: string, v: Value)
    requires EngineOf(e, g) && Remeets(g) && IsNode(g, cur) && Layered(e.layers, cur) && GetsTo(g, g.entry, cur)
    ensures OnTrack(e, g, cur, v)
    decreases |e.layers| - LayerOf(e.layers, cur)
  {
    hide EngineOf, Yields, LayerOf, Layered, NodeAt, Inevitable, EdgeFromAt, Passes, GetsTo;
    match Yields(KindAt(g, cur), v)
    case None =>
    case Some((port, w)) =>
      if EdgeFrom(g, cur, port).Some? {
        TrackIs(e, g, cur, v);
        NextIsLater(e, g, cur, port);
        RouteTaken(g, cur, v);
        GetsOn(g, g.entry, cur, EdgeFrom(g, cur, port).value);
        RemeetsTracks(e, g, EdgeFrom(g, cur, port).value, w);
      }
  }

  // ---------------------------------------------------------------- what a layer delivers

  lemma {:induction false} NoMapsSend(w: Wires, src: string, sp: map<string, Value>)
    requires w.mappings == []
    ensures NodeSends(w, MapPass, src, sp) == Some([])
  {
  }

  /** Where the edges of cur whose ports hold a value lead, from edge i on. */
  ghost predicate Receives(g: Graph, cur: string, ports: set<string>, i: nat, n: string) {
    exists j :: i <= j < |g.edges| && g.edges[j].source == cur && g.edges[j].fromPort in ports && g.edges[j].target == n
  }

  /** Every delivery carries u to an input port. */
  ghost predicate Carries(ds: seq<Delivery>, u: Value) {
    forall d :: d in ds ==> d.path == [] && d.value == u && d.to.port == PORT_IN
  }

  /** A node all of whose connected ports hold one value sends it along each of their edges. */
  lemma {:induction false} EdgesCarry(g: Graph, cond: (string, string) -> CondResult, cur: string,
                                      sp: map<string, Value>, u: Value, i: nat)
    requires OnlyIn(g) && i <= |g.edges|
    requires forall j :: i <= j < |g.edges| && g.edges[j].source == cur && g.edges[j].fromPort in sp ==> sp[g.edges[j].fromPort] == u
    ensures var ds := EdgeDeliveries(Wires(Lower(g).edges, [], cond), cur, sp, i);
            ds.Some? && Carries(ds.value, u) && forall n :: n in Recipients(ds.value) <==> Receives(g, cur, sp.Keys, i, n)
    decreases |g.edges| - i
  {
    if i < |g.edges| {
      EdgesCarry(g, cond, cur, sp, u, i + 1);
      var w, edge := Wires(Lower(g).edges, [], cond), g.edges[i];
      assert w.edges[i] == Edge(PortRef(edge.source, edge.fromPort), PortRef(edge.target, PORT_IN), "");
      if edge.source == cur {
        var here, rest := EdgeDelivery(w, i, sp), EdgeDeliveries(w, cur, sp, i + 1);
        assert here == Some(if edge.fromPort in sp then [Delivery(PortKey(edge.target, PORT_IN), [], u)] else []);
        RecipientsConcat(here.value, rest.value);
        assert Recipients(here.value) == if edge.fromPort in sp then {edge.target} else {};
        forall n ensures Receives(g, cur, sp.Keys, i, n) <==> (edge.fromPort in sp && edge.target == n) || Receives(g, cur, sp.Keys, i + 1, n) {}
      } else {
        forall n ensures Receives(g, cur, sp.Keys, i, n) <==> Receives(g, cur, sp.Keys, i + 1, n) {}
      }
    }
  }

  /** The value u on the input port of each of the nodes. */
  function Poured(ports: Ports, nodes: set<string>, u: Value): (r: Ports)
    ensures forall k :: Lookup(r, k) == if k.port == PORT_IN && k.node in nodes then Some(u) else Lookup(ports, k)
  {
    map k | k in ports.Keys + (set n | n in nodes :: PortKey(n, PORT_IN)) :: if k.port == PORT_IN && k.node in nodes then u else ports[k]
  }

  lemma {:induction false} CarriedPours(ports: Ports, ds: seq<Delivery>, u: Value)
    requires Carries(ds, u)
    ensures Apply(ports, ds) == Some(Poured(ports, Recipients(ds), u))
    decreases |ds|
  {
    hide Poured, Recipients;
    if ds == [] {
      PouredNowhere(ports, u);
      assert Recipients(ds) == {} by { NoneReceive(); }
    } else {
      var d, rest := ds[0], ds[1..];
      assert d in ds && forall x :: x in rest ==> x in ds;
      CarriedPours(ports[d.to := u], rest, u);
      assert ds == [d] + rest && d.to == PortKey(d.to.node, PORT_IN);
      RecipientsConcat([d], rest);
      OneReceives(d);
      PouredOnto(ports, d.to.node, Recipients(rest), u);
    }
  }

  lemma NoneReceive()
    ensures Recipients([]) == {}
  {
  }

  lemma OneReceives(d: Delivery)
    ensures Recipients([d]) == {d.to.node}
  {
  }

  lemma PouredNowhere(ports: Ports, u: Value)
    ensures Poured(ports, {}, u) == ports
  {
    SameLookups(ports, Poured(ports, {}, u));
  }

  lemma PouredOnto(ports: Ports, n: string, nodes: set<string>, u: Value)
    ensures Poured(ports[PortKey(n, PORT_IN) := u], nodes, u) == Poured(ports, {n} + nodes, u)
  {
    SameLookups(Poured(ports[PortKey(n, PORT_IN) := u], nodes, u), Poured(ports, {n} + nodes, u));
  }

  // ---------------------------------------------------------------- inevitable nodes

  lemma WalkEdge(e: Engine, g: Graph, i: nat)
    requires EngineOf(e, g) && i < |g.edges|
    ensures var u, v := g.edges[i].source, g.edges[i].target;
            IsNode(g, u) && IsNode(g, v) && Layered(e.layers, u) && Layered(e.layers, v) && LayerOf(e.layers, u) < LayerOf(e.layers, v)
  {
    assert e.flow.edges[i].source.node == g.edges[i].source && e.flow.edges[i].target.node == g.edges[i].target;
    assert EdgeOk(e.flow, i);
    NodesAreNodes(e, g, g.edges[i].source);
    NodesAreNodes(e, g, g.edges[i].target);
    EdgeGoesForward(e, i, LayerOf(e.layers, g.edges[i].source));
  }

  lemma LeadsOn(g: Graph, w: seq<string>, n: string, t: string, s: string)
    requires Leads(g, w, t, s) && Passes(g, n, t)
    ensures Leads(g, [n] + w, n, s)
  {
    var x := [n] + w;
    forall k | 0 <= k < |x| - 1 ensures Passes(g, x[k], x[k + 1]) {
      if k > 0 { assert Passes(g, w[k - 1], w[k - 1 + 1]); }
    }
  }

  /** Every node leads to some sink. */
  lemma {:induction false} ToSink(e: Engine, g: Graph, n: string) returns (w: seq<string>, s: string)
    requires EngineOf(e, g) && IsNode(g, n) && Layered(e.layers, n)
    ensures Leads(g, w, n, s) && Sink(g, s)
    decreases |e.layers| - LayerOf(e.layers, n)
  {
    if Sink(g, n) {
      w, s := [n], n;
    } else {
      var i :| 0 <= i < |g.edges| && Live(g, i) && g.edges[i].source == n;
      WalkEdge(e, g, i);
      assert Passes(g, n, g.edges[i].target);
      w, s := ToSink(e, g, g.edges[i].target);
      LeadsOn(g, w, n, g.edges[i].target, s);
      w := [n] + w;
    }
  }

  lemma WalkRises(e: Engine, g: Graph, w: seq<string>, n: string, s: string, k: nat)
    requires EngineOf(e, g) && Leads(g, w, n, s) && 0 < k < |w| && Layered(e.layers, n)
    ensures IsNode(g, w[k]) && Layered(e.layers, w[k]) && LayerOf(e.layers, w[0]) < LayerOf(e.layers, w[k])
  {
    assert Passes(g, w[k - 1], w[k - 1 + 1]);
    var i :| 0 <= i < |g.edges| && g.edges[i].source == w[k - 1] && g.edges[i].target == w[k];
    WalkEdge(e, g, i);
    if k > 1 { WalkRises(e, g, w, n, s, k - 1); }
  }

  lemma InevitableLater(e: Engine, g: Graph, n: string, x: string)
    requires EngineOf(e, g) && IsNode(g, n) && Layered(e.layers, n) && Inevitable(g, n, x) && x != n
    ensures IsNode(g, x) && Layered(e.layers, x) && LayerOf(e.layers, n) < LayerOf(e.layers, x)
  {
    var w, s := ToSink(e, g, n);
    var k :| 0 <= k < |w| && w[k] == x;
    WalkRises(e, g, w, n, s, k);
  }

  lemma InevitableNext(g: Graph, n: string, t: string, x: string)
    requires Inevitable(g, n, x) && x != n && Passes(g, n, t)
    ensures Inevitable(g, t, x)
  {
    forall w, s | Leads(g, w, t, s) && Sink(g, s) ensures x in w {
      LeadsOn(g, w, n, t, s);
      assert x in [n] + w;
    }
  }

  lemma NothingAfterSink(g: Graph, n: string, x: string)
    requires Inevitable(g, n, x) && Sink(g, n)
    ensures x == n
  {
    assert Leads(g, [n], n, n);
  }

  // ---------------------------------------------------------------- the engine walks

  /** A node that is active ahead of the walk: its layer is later and the walk cannot miss it. */
  ghost predicate Coming(e: Engine, g: Graph, cur: string, x: string)
    requires Layered(e.layers, cur)
  {
    x != cur && IsNode(g, x) && Layered(e.layers, x) && LayerOf(e.layers, cur) < LayerOf(e.layers, x) && Inevitable(g, cur, x)
  }

  /** Before layer k: the nodes seen have run, cur holds v and waits for its layer, and whatever else is active
      is coming and holds nothing but an input, which the walk will replace. */
  ghost predicate Walking(e: Engine, g: Graph, r: Run, k: nat, cur: string, v: Value, seen: set<string>) {
    && Fits(e, r) && r.cell.None? && k <= |e.layers| && PendingBeyond(e, r.net.edges, k)
    && seen + {cur} <= r.net.active && cur !in seen && g.exit !in seen && IsNode(g, cur)
    && Layered(e.layers, cur) && k <= LayerOf(e.layers, cur)
    && (forall n :: n in seen ==> LayeredBefore(e.layers, k, n))
    && (forall x :: x in r.net.active && x !in seen && x != cur ==> Coming(e, g, cur, x))
    && (forall x :: x in r.net.ports ==> x.node in r.net.active && (x.node in seen || x.node == cur || x.port == PORT_IN))
    && PortsOf(r.net.ports, cur) == map[PORT_IN := v]
  }

  /** Before layer k, after the walk has reached its sink. */
  ghost predicate Over(e: Engine, g: Graph, r: Run, k: nat, sink: string, v: Value, seen: set<string>) {
    && Fits(e, r) && r.cell.None? && k <= |e.layers| && PendingBeyond(e, r.net.edges, k)
    && r.net.active == seen && (g.exit in seen ==> g.exit == sink) && sink in seen
    && (forall n :: n in seen ==> LayeredBefore(e.layers, k, n))
    && Lookup(r.net.ports, PortKey(sink, PORT_OUT)) == Some(v)
  }

  /** A layer with no active node only marks its edges. */
  lemma IdleLayer(e: Engine, g: Graph, r: Run, k: nat)
    requires Routed(e, g) && Fits(e, r) && r.cell.None? && k < |e.layers| && PendingBeyond(e, r.net.edges, k)
    requires forall n :: n in e.layers[k] ==> n !in r.net.active
    ensures var s := LayerStep(e, None, r, e.layers[k], false);
            && s.StepDone? && s.run.cell.None? && s.run.net.active == r.net.active && s.run.net.ports == r.net.ports
            && PendingBeyond(e, s.run.net.edges, k + 1)
  {
    hide FireLayer, LayerStep, PendingBeyond, Routed, PassSends, EdgeDeliveries, Pendings;
    var w, layer := WiresOf(e), e.layers[k];
    RoutedMeans(e, g);
    LayersAreAhead(e, k);
    forall x ensures Lookup(Fanout(e, r, layer, r.net.ports), x) == Lookup(r.net.ports, x) { FanoutAt(e, r, layer, r.net.ports, x); }
    SameLookups(Fanout(e, r, layer, r.net.ports), r.net.ports);
    assert r.net.(ports := Fanout(e, r, layer, r.net.ports)) == r.net;
    PendingOnLayer(e, r.net.edges, k);
    FireLayerDelivers(w, r.net, layer, None);
    LonePass(w, EdgePass, r.net.active, r.net.ports, layer, "");
    LonePass(w, MapPass, r.net.active, r.net.ports, layer, "");
    NothingDelivered(w, r.net, layer);
    FiringAdvances(e, r.net, k, None);
    NonePending(e, r, layer);
    StepGoesOn(e, None, r, layer);
  }

  lemma RoutedMeans(e: Engine, g: Graph)
    requires Routed(e, g)
    ensures EngineOf(e, g) && Compiled(e) && e.flow == Lower(g) && WiresOf(e) == Wires(Lower(g).edges, [], e.cond)
  {
  }

  lemma NothingDelivered(w: Wires, net: Net, layer: seq<string>)
    requires PassSends(w, EdgePass, net.active, net.ports, layer, None) == Some([])
    requires PassSends(w, MapPass, net.active, net.ports, layer, None) == Some([])
    ensures LayerDeliveries(w, net.active, net.ports, layer, None) == Some([])
    ensures Apply(net.ports, []) == Some(net.ports) && Recipients([]) == {}
  {
    BothNothing(PassSends(w, EdgePass, net.active, net.ports, layer, None));
  }

  /** Up to cur's layer no other active node is waiting. */
  lemma ActiveElsewhere(e: Engine, g: Graph, r: Run, k: nat, cur: string, v: Value, seen: set<string>, n: string,
                        j: nat)
    requires Compiled(e) && Walking(e, g, r, k, cur, v, seen) && n in r.net.active && n != cur
    requires k <= j <= LayerOf(e.layers, cur)
    ensures !In(e.layers, j, n)
  {
    hide PendingBeyond, IsNode, Inevitable;
    if In(e.layers, j, n) { NotBefore(e, n, k, j); }
  }

  /** In cur's layer only cur is active, and it runs on exactly the value that reached it. */
  lemma OnlyCurRuns(e: Engine, g: Graph, r: Run, k: nat, cur: string, v: Value, seen: set<string>)
    requires Routed(e, g) && Walking(e, g, r, k, cur, v, seen) && k == LayerOf(e.layers, cur)
    ensures k < |e.layers| && cur in e.layers[k] && cur in r.net.active
    ensures forall n :: n in e.layers[k] && n in r.net.active ==> n == cur
    ensures RunNode(e, cur, r.net.ports, r.cell) == RunAdapter(KindAt(g, cur), map[PORT_IN := v])
  {
    NodesAreNodes(e, g, cur);
    forall n | n in e.layers[k] && n in r.net.active ensures n == cur {
      if n != cur { ActiveElsewhere(e, g, r, k, cur, v, seen, n, k); }
    }
  }

  lemma RunsOrFails(k: Kind, v: Value)
    ensures var o := RunAdapter(k, map[PORT_IN := v]);
            match Yields(k, v)
            case None => o == Failure([])
            case Some((port, w)) => o == Done(map[port := w], [])
  {
  }

  /** The ports after cur has run. */
  lemma CurFanout(e: Engine, g: Graph, r: Run, k: nat, cur: string, v: Value, seen: set<string>)
    requires Routed(e, g) && Walking(e, g, r, k, cur, v, seen) && k == LayerOf(e.layers, cur)
    requires Yields(KindAt(g, cur), v).Some?
    ensures k < |e.layers| && !AnyFails(e, r, e.layers[k], false)
    ensures var (port, w) := Yields(KindAt(g, cur), v).value;
            Fanout(e, r, e.layers[k], r.net.ports) == r.net.ports[PortKey(cur, port) := w]
  {
    hide Walking, Routed, LayerOf, Yields, RunAdapter;
    FitsWalking(e, g, r, k, cur, v, seen);
    var layer := e.layers[k];
    var (port, w) := Yields(KindAt(g, cur), v).value;
    OnlyCurRuns(e, g, r, k, cur, v, seen);
    RunsOrFails(KindAt(g, cur), v);
    RoutedMeans(e, g);
    LayersAreAhead(e, k);
    var x, y := Fanout(e, r, layer, r.net.ports), r.net.ports[PortKey(cur, port) := w];
    forall q ensures Lookup(x, q) == Lookup(y, q) { FanoutAt(e, r, layer, r.net.ports, q); }
    SameLookups(x, y);
  }

  /** The ports of cur that hold a value once it has run: all carry the value it emitted, as a branch passes on
      its input and no other node has an edge on its input port. */
  lemma CurSends(e: Engine, g: Graph, ports: Ports, cur: string, v: Value)
    requires Routed(e, g) && IsNode(g, cur) && PortsOf(ports, cur) == map[PORT_IN := v]
    requires Yields(KindAt(g, cur), v).Some?
    ensures var (port, w) := Yields(KindAt(g, cur), v).value;
            var ds := EdgeDeliveries(WiresOf(e), cur, PortsOf(ports[PortKey(cur, port) := w], cur), 0);
            ds.Some? && Carries(ds.value, w) && forall n :: n in Recipients(ds.value) <==> Receives(g, cur, {PORT_IN, port}, 0, n)
  {
    hide PortsOf, EdgeDeliveries, Receives, Carries, EngineOf, Yields, NodeAt, EdgeFromAt;
    var (port, w) := Yields(KindAt(g, cur), v).value;
    var sp := PortsOf(ports[PortKey(cur, port) := w], cur);
    RoutedMeans(e, g);
    HeldAfter(ports, cur, v, port, w);
    YieldsOn(KindAt(g, cur), v);
    forall j | 0 <= j < |g.edges| && g.edges[j].source == cur && g.edges[j].fromPort in sp
      ensures sp[g.edges[j].fromPort] == w
    {
      assert g.edges[j].fromPort == PORT_OUT || g.edges[j].fromPort in OutPorts(KindAt(g, cur));
    }
    EdgesCarry(g, e.cond, cur, sp, w, 0);
  }

  lemma YieldsOn(k: Kind, v: Value)
    requires Yields(k, v).Some?
    ensures if k.Branch? then Yields(k, v).value.1 == v else Yields(k, v).value.0 == PORT_OUT
  {
  }

  lemma HeldAfter(ports: Ports, cur: string, v: Value, port: string, w: Value)
    requires PortsOf(ports, cur) == map[PORT_IN := v]
    ensures var sp := PortsOf(ports[PortKey(cur, port) := w], cur);
            sp.Keys == {PORT_IN, port} && sp[port] == w && (port != PORT_IN ==> sp[PORT_IN] == v)
  {
    var sp := PortsOf(ports[PortKey(cur, port) := w], cur);
    forall p ensures p in sp <==> p == port || p == PORT_IN { assert p in PortsOf(ports, cur) <==> p == PORT_IN; }
    assert PORT_IN in PortsOf(ports, cur) && PortsOf(ports, cur)[PORT_IN] == v;
  }

  /** What cur's layer delivers: cur's value, to the next node of the walk and along an edge on its input port. */
  lemma CurDelivers(e: Engine, g: Graph, r: Run, k: nat, cur: string, v: Value, seen: set<string>)
    requires Routed(e, g) && Walking(e, g, r, k, cur, v, seen) && k == LayerOf(e.layers, cur)
    requires Yields(KindAt(g, cur), v).Some?
    ensures k < |e.layers|
    ensures var (port, w) := Yields(KindAt(g, cur), v).value;
            var ds := LayerDeliveries(WiresOf(e), r.net.active, r.net.ports[PortKey(cur, port) := w], e.layers[k],
                                      None);
            ds.Some? && Carries(ds.value, w) && forall n :: n in Recipients(ds.value) <==> Receives(g, cur, {PORT_IN, port}, 0, n)
  {
    hide PassSends, EdgeDeliveries, PendingBeyond, Routed, LayerOf, Yields, Receives, Carries;
    var (port, x) := Yields(KindAt(g, cur), v).value;
    var w, layer, ports := WiresOf(e), e.layers[k], r.net.ports[PortKey(cur, port) := x];
    OnlyCurRuns(e, g, r, k, cur, v, seen);
    RoutedMeans(e, g);
    LayersAreAhead(e, k);
    LonePass(w, EdgePass, r.net.active, ports, layer, cur);
    LonePass(w, MapPass, r.net.active, ports, layer, cur);
    NoMapsSend(w, cur, PortsOf(ports, cur));
    CurSends(e, g, r.net.ports, cur, v);
    BothNothing(EdgeDeliveries(w, cur, PortsOf(ports, cur), 0));
  }

  /** The nodes that hear from cur once it has emitted on the port. */
  ghost function Hearers(g: Graph, cur: string, port: string): (r: set<string>)
    ensures forall n :: n in r <==> Receives(g, cur, {PORT_IN, port}, 0, n)
  {
    var r := set i | 0 <= i < |g.edges| && g.edges[i].source == cur && g.edges[i].fromPort in {PORT_IN, port} :: g.edges[i].target;
    r
  }

  /** The firing of cur's layer gives cur's value to its hearers and to nobody else. */
  lemma CurFires(e: Engine, g: Graph, r: Run, k: nat, cur: string, v: Value, seen: set<string>)
    requires Routed(e, g) && Walking(e, g, r, k, cur, v, seen) && k == LayerOf(e.layers, cur)
    requires Yields(KindAt(g, cur), v).Some?
    ensures k < |e.layers|
    ensures var (port, w) := Yields(KindAt(g, cur), v).value;
            var mid := r.net.(ports := r.net.ports[PortKey(cur, port) := w]);
            var f := FireLayer(WiresOf(e), mid, e.layers[k], None);
            && f.Ok? && PendingBeyond(e, f.value.edges, k + 1)
            && f.value.active == mid.active + Hearers(g, cur, port)
            && f.value.ports == Poured(mid.ports, Hearers(g, cur, port), w)
  {
    hide FireLayer, LayerDeliveries, PendingBeyond, Routed, LayerOf, Yields, Apply, Recipients, Carries, Receives;
    hide Hearers, Poured;
    var (port, x) := Yields(KindAt(g, cur), v).value;
    var mid := r.net.(ports := r.net.ports[PortKey(cur, port) := x]);
    CurDelivers(e, g, r, k, cur, v, seen);
    RoutedMeans(e, g);
    LayersAreAhead(e, k);
    PendingOnLayer(e, mid.edges, k);
    FireLayerDelivers(WiresOf(e), mid, e.layers[k], None);
    var ds := LayerDeliveries(WiresOf(e), mid.active, mid.ports, e.layers[k], None).value;
    CarriedPours(mid.ports, ds, x);
    assert Recipients(ds) == Hearers(g, cur, port);
    FiringAdvances(e, mid, k, None);
  }

  /** Who hears from cur: the next node, and whoever a route named "in" leads to, who is then on the way. */
  lemma HearersAre(e: Engine, g: Graph, cur: string, port: string)
    requires Routed(e, g) && IsNode(g, cur) && EdgeFrom(g, cur, port).Some?
    requires Harmless(g, cur, port, EdgeFrom(g, cur, port).value)
    ensures var t := EdgeFrom(g, cur, port).value;
            t in Hearers(g, cur, port) && forall x :: x in Hearers(g, cur, port) ==> x == t || Inevitable(g, t, x)
  {
    hide EdgeFromAt, NodeAt;
    var t := EdgeFrom(g, cur, port).value;
    EdgeFromIs(g, cur, port, 0);
    var i :| 0 <= i < |g.edges| && g.edges[i].source == cur && g.edges[i].fromPort == port && g.edges[i].target == t;
    assert Receives(g, cur, {PORT_IN, port}, 0, t);
    forall x | x in Hearers(g, cur, port) ensures x == t || Inevitable(g, t, x) {
      var j :| 0 <= j < |g.edges| && g.edges[j].source == cur && g.edges[j].fromPort in {PORT_IN, port} && g.edges[j].target == x;
      if g.edges[j].fromPort == port { assert i == j; }
    }
  }

  /** Only an ordinary node, on its output port, can be where the walk ends. */
  lemma EndsOnOut(g: Graph, cur: string, v: Value)
    requires WellBuilt(g) && IsNode(g, cur) && Yields(KindAt(g, cur), v).Some?
    requires EdgeFrom(g, cur, Yields(KindAt(g, cur), v).value.0).None?
    ensures Yields(KindAt(g, cur), v).value.0 == PORT_OUT && !KindAt(g, cur).Branch?
  {
    var n := NodeAt(g.nodes, cur).value;
    NodeAtIs(g.nodes, cur);
    assert n in g.nodes && n.id == cur;
  }

  /** At the end of the walk nobody hears, and nothing is coming. */
  lemma EndIsSilent(e: Engine, g: Graph, cur: string)
    requires Routed(e, g) && IsNode(g, cur) && !KindAt(g, cur).Branch? && EdgeFrom(g, cur, PORT_OUT).None?
    ensures Sink(g, cur) && Hearers(g, cur, PORT_OUT) == {}
  {
    hide EdgeFromAt, NodeAt;
    EdgeFromIs(g, cur, PORT_OUT, 0);
    forall i | 0 <= i < |g.edges| ensures g.edges[i].source != cur {
      if g.edges[i].source == cur { OrdinaryPort(g, cur, i); }
    }
  }

  lemma OrdinaryPort(g: Graph, cur: string, i: nat)
    requires WellBuilt(g) && IsNode(g, cur) && !KindAt(g, cur).Branch? && i < |g.edges| && g.edges[i].source == cur
    ensures g.edges[i].fromPort == PORT_OUT
  {
    assert g.edges[i].fromPort == PORT_OUT || g.edges[i].fromPort in OutPorts(KindAt(g, cur));
  }

  lemma NextIsNew(e: Engine, g: Graph, r: Run, k: nat, cur: string, v: Value, seen: set<string>, port: string)
    requires Routed(e, g) && Walking(e, g, r, k, cur, v, seen) && k == LayerOf(e.layers, cur)
    requires EdgeFrom(g, cur, port).Some?
    ensures var t := EdgeFrom(g, cur, port).value;
            IsNode(g, t) && Layered(e.layers, t) && k < LayerOf(e.layers, t) && t !in seen + {cur} && g.exit != cur
  {
    hide Routed, PendingBeyond, NodeAt, EdgeFrom, Coming;
    var t := EdgeFrom(g, cur, port).value;
    RoutedMeans(e, g);
    NextIsLater(e, g, cur, port);
    NotExit(e, g, cur, port);
    NotBefore(e, t, k, LayerOf(e.layers, t));
  }

  lemma NotBefore(e: Engine, n: string, k: int, m: int)
    requires Compiled(e) && k <= m && In(e.layers, m, n)
    ensures !LayeredBefore(e.layers, k, n)
  {
  }

  lemma NotExit(e: Engine, g: Graph, cur: string, port: string)
    requires Routed(e, g) && EdgeFrom(g, cur, port).Some?
    ensures g.exit != cur
  {
    EdgeFromIs(g, cur, port, 0);
    var i :| 0 <= i < |g.edges| && g.edges[i].source == cur && g.edges[i].fromPort == port;
  }

  /** cur's layer: the run fails with cur, or the walk moves on, or it is over. */
  lemma CurLayer(e: Engine, g: Graph, r: Run, k: nat, cur: string, v: Value, seen: set<string>)
    requires Routed(e, g) && Walking(e, g, r, k, cur, v, seen) && k == LayerOf(e.layers, cur) && OnTrack(e, g, cur, v)
    ensures k < |e.layers|
    ensures var s := LayerStep(e, None, r, e.layers[k], false);
            match Yields(KindAt(g, cur), v)
            case None => s.StepFailed?
            case Some((port, w)) =>
              s.StepDone? &&
              match EdgeFrom(g, cur, port)
              case Some(t) => Walking(e, g, s.run, k + 1, t, w, seen + {cur})
              case None => Over(e, g, s.run, k + 1, cur, w, seen + {cur})
  {
    hide LayerStep, FireLayer, Yields, Walking, Over, LayerOf, Routed, AnyFails, Pendings, Fanout, PendingBeyond;
    hide EdgeFrom, Hearers, Poured, OnTrack, Harmless;
    FitsWalking(e, g, r, k, cur, v, seen);
    RoutedMeans(e, g);
    OnlyCurRuns(e, g, r, k, cur, v, seen);
    RunsOrFails(KindAt(g, cur), v);
    var layer := e.layers[k];
    match Yields(KindAt(g, cur), v)
    case None =>
      FailsAt(e, r, layer, cur);
      StepCases(e, None, r, layer, false);
    case Some((port, w)) =>
      CurFanout(e, g, r, k, cur, v, seen);
      CurFires(e, g, r, k, cur, v, seen);
      NonePending(e, r, layer);
      StepGoesOn(e, None, r, layer);
      var s := LayerStep(e, None, r, layer, false);
      match EdgeFrom(g, cur, port)
      case Some(t) =>
        NextIsNew(e, g, r, k, cur, v, seen, port);
        TrackIs(e, g, cur, v);
        HearersAre(e, g, cur, port);
        TakesLive(g, cur, v);
        MovedOn(e, g, r, s.run, k, cur, v, seen, port, w, t);
      case None =>
        RoutedBuilt(e, g);
        EndsOnOut(g, cur, v);
        EndIsSilent(e, g, cur);
        NowOver(e, g, r, s.run, k, cur, v, seen, w);
  }

  lemma RoutedIs(e: Engine, g: Graph)
    requires Routed(e, g)
    ensures EngineOf(e, g)
  {
  }

  lemma RoutedBuilt(e: Engine, g: Graph)
    requires Routed(e, g)
    ensures WellBuilt(g)
  {
  }

  lemma FitsWalking(e: Engine, g: Graph, r: Run, k: nat, cur: string, v: Value, seen: set<string>)
    requires Walking(e, g, r, k, cur, v, seen)
    ensures Fits(e, r) && r.cell.None? && IsNode(g, cur)
  {
  }

  lemma FailsAt(e: Engine, r: Run, layer: seq<string>, cur: string)
    requires cur in layer && cur in r.net.active && RunNode(e, cur, r.net.ports, r.cell).Failure?
    ensures AnyFails(e, r, layer, false)
  {
    assert Fails(e, r, cur, false);
  }

  lemma SeenGrows(e: Engine, seen: set<string>, cur: string, k: nat)
    requires k < |e.layers| && cur in e.layers[k] && forall n :: n in seen ==> LayeredBefore(e.layers, k, n)
    ensures forall n :: n in seen + {cur} ==> LayeredBefore(e.layers, k + 1, n)
  {
    assert In(e.layers, k, cur);
    forall n | n in seen + {cur} ensures LayeredBefore(e.layers, k + 1, n) {
      if n in seen { var j :| j < k && In(e.layers, j, n); }
    }
  }

  /** However early a node was activated, when the walk reaches it it holds what the walk brings. */
  lemma ArrivesWith(ports: Ports, cur: string, port: string, hearers: set<string>, t: string, w: Value)
    requires cur != t && t in hearers && forall x :: x in ports && x.node == t ==> x.port == PORT_IN
    ensures PortsOf(Poured(ports[PortKey(cur, port) := w], hearers, w), t) == map[PORT_IN := w]
  {
    var q := Poured(ports[PortKey(cur, port) := w], hearers, w);
    forall p ensures p in PortsOf(q, t) <==> p == PORT_IN {
      assert Lookup(q, PortKey(t, p)) == if p == PORT_IN then Some(w) else Lookup(ports, PortKey(t, p));
    }
    assert Lookup(q, PortKey(t, PORT_IN)) == Some(w);
  }

  lemma StillComing(e: Engine, g: Graph, cur: string, t: string, x: string, hearers: set<string>)
    requires EngineOf(e, g) && IsNode(g, t) && Layered(e.layers, cur) && Layered(e.layers, t)
    requires Passes(g, cur, t)
    requires Coming(e, g, cur, x) || (x in hearers && Inevitable(g, t, x))
    requires x != t
    ensures Coming(e, g, t, x)
  {
    if Coming(e, g, cur, x) { InevitableNext(g, cur, t, x); }
    InevitableLater(e, g, t, x);
  }

  lemma MovedOn(e: Engine, g: Graph, r: Run, s: Run, k: nat, cur: string, v: Value, seen: set<string>, port: string,
                w: Value, t: string)
    requires EngineOf(e, g) && Walking(e, g, r, k, cur, v, seen) && k < |e.layers| && cur in e.layers[k] && s.cell.None?
    requires Fits(e, s)
    requires PendingBeyond(e, s.net.edges, k + 1) && s.net.active == r.net.active + Hearers(g, cur, port)
    requires s.net.ports == Poured(r.net.ports[PortKey(cur, port) := w], Hearers(g, cur, port), w)
    requires t in Hearers(g, cur, port) && forall x :: x in Hearers(g, cur, port) ==> x == t || Inevitable(g, t, x)
    requires Passes(g, cur, t)
    requires IsNode(g, t) && Layered(e.layers, t) && k < LayerOf(e.layers, t) && t !in seen + {cur} && g.exit != cur
    ensures Walking(e, g, s, k + 1, t, w, seen + {cur})
  {
    hide PendingBeyond, LayerOf, Layered, NodeAt, LayeredBefore, PortsOf, Poured, Hearers, Coming, EngineOf, Inevitable;
    var hearers := Hearers(g, cur, port);
    SeenGrows(e, seen, cur, k);
    ArrivesWith(r.net.ports, cur, port, hearers, t, w);
    forall x | x in s.net.active && x !in seen + {cur} && x != t ensures Coming(e, g, t, x) {
      StillComing(e, g, cur, t, x, hearers);
    }
    PouredKeys(r.net.ports, cur, port, hearers, w);
  }

  lemma PouredKeys(ports: Ports, cur: string, port: string, hearers: set<string>, w: Value)
    ensures forall x :: x in Poured(ports[PortKey(cur, port) := w], hearers, w) ==>
              x in ports || x == PortKey(cur, port) || (x.node in hearers && x.port == PORT_IN)
  {
  }

  lemma NowOver(e: Engine, g: Graph, r: Run, s: Run, k: nat, cur: string, v: Value, seen: set<string>, w: Value)
    requires Walking(e, g, r, k, cur, v, seen) && k < |e.layers| && cur in e.layers[k] && s.cell.None? && Fits(e, s)
    requires Sink(g, cur) && Hearers(g, cur, PORT_OUT) == {}
    requires PendingBeyond(e, s.net.edges, k + 1) && s.net.active == r.net.active + Hearers(g, cur, PORT_OUT)
    requires s.net.ports == Poured(r.net.ports[PortKey(cur, PORT_OUT) := w], Hearers(g, cur, PORT_OUT), w)
    ensures Over(e, g, s, k + 1, cur, w, seen + {cur})
  {
    hide PendingBeyond, LayerOf, Layered, NodeAt, LayeredBefore, Inevitable, Sink, Poured, Hearers;
    SeenGrows(e, seen, cur, k);
    forall x | x in r.net.active ensures x in seen + {cur} {
      if x !in seen + {cur} { NothingAfterSink(g, cur, x); }
    }
    assert s.net.active == seen + {cur};
    assert Lookup(s.net.ports, PortKey(cur, PORT_OUT)) == Some(w);
  }

  // ---------------------------------------------------------------- the whole run

  /** How a run of the engine ends when the walk ends as c. */
  ghost predicate EndsAs(g: Graph, f: Final, c: Course, before: set<string>) {
    match c
    case Broke(_) => f.Failed?
    case Ended(seen, sink, w) =>
      && f.Finished? && f.run.net.active == before + seen
      && Lookup(f.run.net.ports, PortKey(sink, PORT_OUT)) == Some(w)
      && (g.exit in f.run.net.active ==> g.exit == sink) && sink in f.run.net.active
  }

  lemma {:induction false} OverStays(e: Engine, g: Graph, r: Run, k: nat, sink: string, v: Value, seen: set<string>)
    requires Routed(e, g) && Over(e, g, r, k, sink, v, seen)
    ensures Fits(e, r) && EndsAs(g, RunFrom(e, None, r, k, false), Ended({}, sink, v), seen)
    decreases |e.layers| - k
  {
    hide LayerStep, Routed, PendingBeyond, RunFrom, EngineOf, Compiled;
    RunStep(e, None, r, k, false);
    if k < |e.layers| {
      RoutedMeans(e, g);
      forall n | n in e.layers[k] ensures n !in r.net.active {
        assert In(e.layers, k, n);
        NotBefore(e, n, k, k);
      }
      IdleLayer(e, g, r, k);
      var s := LayerStep(e, None, r, e.layers[k], false).run;
      BeforeGrows(e, seen, k);
      OverStays(e, g, s, k + 1, sink, v, seen);
    }
  }

  lemma BeforeGrows(e: Engine, seen: set<string>, k: nat)
    requires forall n :: n in seen ==> LayeredBefore(e.layers, k, n)
    ensures forall n :: n in seen ==> LayeredBefore(e.layers, k + 1, n)
  {
    forall n | n in seen ensures LayeredBefore(e.layers, k + 1, n) { var j :| j < k && In(e.layers, j, n); }
  }

  lemma FollowIs(e: Engine, g: Graph, cur: string, v: Value)
    requires Routed(e, g) && IsNode(g, cur) && Layered(e.layers, cur)
    ensures match Yields(KindAt(g, cur), v)
            case None => Follow(e, g, cur, v) == Broke({cur})
            case Some((port, w)) =>
              match EdgeFrom(g, cur, port)
              case None => Follow(e, g, cur, v) == Ended({cur}, cur, w)
              case Some(t) => IsNode(g, t) && Layered(e.layers, t) && Follow(e, g, cur, v) == Via(Follow(e, g, t, w), cur)
  {
    match Yields(KindAt(g, cur), v)
    case None =>
    case Some((port, w)) => if EdgeFrom(g, cur, port).Some? { NextIsLater(e, g, cur, port); }
  }

  /** From any point of the walk the rest of the run is the rest of the walk. */
  lemma {:induction false} RunIsWalk(e: Engine, g: Graph, r: Run, k: nat, cur: string, v: Value, seen: set<string>)
    requires Routed(e, g) && Walking(e, g, r, k, cur, v, seen) && OnTrack(e, g, cur, v)
    ensures IsNode(g, cur) && Layered(e.layers, cur) && Fits(e, r)
    ensures EndsAs(g, RunFrom(e, None, r, k, false), Follow(e, g, cur, v), seen)
    decreases |e.layers| - k
  {
    hide LayerStep, Routed, RunFrom, Follow, Walking, Over, Yields, LayerOf, NodeAt, EdgeFrom, OnTrack, Harmless;
    FitsWalking(e, g, r, k, cur, v, seen);
    WalkingLayer(e, g, r, k, cur, v, seen);
    RunStep(e, None, r, k, false);
    if k < LayerOf(e.layers, cur) {
      IdleWalks(e, g, r, k, cur, v, seen);
      RunIsWalk(e, g, LayerStep(e, None, r, e.layers[k], false).run, k + 1, cur, v, seen);
    } else {
      RoutedIs(e, g);
      CurLayer(e, g, r, k, cur, v, seen);
      FollowIs(e, g, cur, v);
      TrackIs(e, g, cur, v);
      match Yields(KindAt(g, cur), v)
      case None =>
      case Some((port, w)) =>
        var s := LayerStep(e, None, r, e.layers[k], false).run;
        match EdgeFrom(g, cur, port)
        case Some(t) =>
          RunIsWalk(e, g, s, k + 1, t, w, seen + {cur});
          assert forall x: set<string> :: (seen + {cur}) + x == seen + (x + {cur});
        case None =>
          OverStays(e, g, s, k + 1, cur, w, seen + {cur});
          assert (seen + {cur}) + {} == seen + {cur};
    }
  }

  lemma WalkingLayer(e: Engine, g: Graph, r: Run, k: nat, cur: string, v: Value, seen: set<string>)
    requires Walking(e, g, r, k, cur, v, seen)
    ensures Layered(e.layers, cur) && k <= LayerOf(e.layers, cur) < |e.layers|
  {
  }

  /** A layer before cur's leaves the walk where it is. */
  lemma IdleWalks(e: Engine, g: Graph, r: Run, k: nat, cur: string, v: Value, seen: set<string>)
    requires Routed(e, g) && Walking(e, g, r, k, cur, v, seen) && k < LayerOf(e.layers, cur)
    ensures k < |e.layers| && Fits(e, r)
    ensures var s := LayerStep(e, None, r, e.layers[k], false); s.StepDone? && Walking(e, g, s.run, k + 1, cur, v, seen)
  {
    hide LayerStep, Routed, PendingBeyond, NodeAt, EdgeFrom, Inevitable;
    RoutedMeans(e, g);
    forall n | n in e.layers[k] ensures n !in r.net.active {
      assert In(e.layers, k, n);
      if n in r.net.active {
        if n == cur { NotBefore(e, cur, LayerOf(e.layers, cur), LayerOf(e.layers, cur)); } else { ActiveElsewhere(e, g, r, k, cur, v, seen, n, k); }
      }
    }
    IdleLayer(e, g, r, k);
    BeforeGrows(e, seen, k);
  }

  // ---------------------------------------------------------------- Invoke

  /** Runnable.Invoke: the engine on the boxed input, then the one declared output, asserted to O. */
  ghost function Invoke(e: Engine, g: Graph, v: Value): Option<Value> {
    match FreshRun(e, None, None, map[GRAPH_IN := v], false)
    case Finished(r) =>
      (match Outputs(e.flow, r.net)
       case Err(_) => None
       case Ok(out) => if GRAPH_OUT in out && g.isOut(out[GRAPH_OUT]) then Some(out[GRAPH_OUT]) else None)
    case _ => None
  }

  lemma StartIs(g: Graph, v: Value)
    requires Fed(g) && g.entry in GraphIds(g)
    ensures StartNet(Lower(g), map[GRAPH_IN := v]) ==
            Ok(Net({g.entry}, map[PortKey(g.entry, PORT_IN) := v], seq(|g.edges|, _ => Pending)))
  {
    hide Entries;
    EntriesAreEntry(g);
    var f, inputs := Lower(g), map[GRAPH_IN := v];
    var none := seq(|g.edges|, _ => Pending);
    assert Entries(f) + {g.entry} == {g.entry};
    var net := Net({g.entry}, map[PortKey(g.entry, PORT_IN) := v], none);
    assert InputsFrom(f, inputs, net, 1) == Ok(net);
    assert InputsFrom(f, inputs, Net(Entries(f), map[], none), 0) == Ok(net);
  }

  lemma EntriesAreEntry(g: Graph)
    requires Fed(g)
    ensures Entries(Lower(g)) <= {g.entry}
  {
    forall n | n in GraphIds(g) && n != g.entry ensures HasIncoming(Lower(g), n) {
      var i :| 0 <= i < |g.edges| && g.edges[i].target == n;
      assert Lower(g).edges[i].target.node == n;
    }
  }

  lemma StartsWalking(e: Engine, g: Graph, v: Value)
    requires Routed(e, g)
    ensures IsNode(g, g.entry) && Layered(e.layers, g.entry)
    ensures StartNet(e.flow, map[GRAPH_IN := v]).Ok?
    ensures Walking(e, g, Run(StartNet(e.flow, map[GRAPH_IN := v]).value, None, []), 0, g.entry, v, {})
  {
    hide NodeAt, EdgeFrom, StartNet, Compiled;
    NodesAreNodes(e, g, g.entry);
    StartIs(g, v);
    var net := StartNet(Lower(g), map[GRAPH_IN := v]).value;
    assert PortsOf(net.ports, g.entry) == map[PORT_IN := v];
    assert {} + {g.entry} == net.active;
    assert PendingBeyond(e, net.edges, 0);
  }

  /** Invoke gives the value the walk ends with, if it ends at the exit; a walk that fails or ends elsewhere
      makes it fail. A finished run has activated exactly the nodes walked. */
  lemma InvokeIsWalk(e: Engine, g: Graph, v: Value)
    requires Routed(e, g) && Tracked(e, g, v)
    ensures IsNode(g, g.entry) && Layered(e.layers, g.entry)
    ensures var f := FreshRun(e, None, None, map[GRAPH_IN := v], false);
            match Follow(e, g, g.entry, v)
            case Broke(_) => f.Failed? && Invoke(e, g, v).None?
            case Ended(seen, sink, w) =>
              && f.Finished? && f.run.net.active == seen
              && Invoke(e, g, v) == if sink == g.exit && g.isOut(w) then Some(w) else None
  {
    hide RunFrom, Follow, Walking, Routed, OnTrack;
    StartsWalking(e, g, v);
    var net := StartNet(e.flow, map[GRAPH_IN := v]).value;
    RoutedMeans(e, g);
    RunIsWalk(e, g, Run(net, None, []), 0, g.entry, v, {});
    match Follow(e, g, g.entry, v)
    case Broke(_) =>
    case Ended(seen, sink, w) =>
      assert {} + seen == seen;
      var f := RunFrom(e, None, Run(net, None, []), 0, false);
      OneOutput(g, f.run.net);
  }

  lemma OneOutput(g: Graph, net: Net)
    ensures Outputs(Lower(g), net) ==
            if g.exit !in net.active then Ok(map[])
            else if PortKey(g.exit, PORT_OUT) !in net.ports then Err(OutputMissing(GRAPH_OUT))
            else Ok(map[GRAPH_OUT := net.ports[PortKey(g.exit, PORT_OUT)]])
  {
    var f := Lower(g);
    assert f.outputs == [NamedPortRef(GRAPH_OUT, g.exit, PORT_OUT)];
    forall sofar: map<string, Value> ensures OutputsFrom(f, net, 1, sofar) == Ok(sofar) {}
  }
}
