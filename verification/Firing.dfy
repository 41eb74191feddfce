/** The firing stage of a layer amounts to one list of deliveries, read off the ports the layer's nodes
    hold when it starts. */
module Firing {
  import opened Prelude
  import opened FlowIr
  import opened Paths
  import opened Wiring

  ghost function EdgeStatesFrom(w: Wires, edges: seq<EdgeState>, src: string, sp: map<string, Value>,
                                i: nat): (r: seq<EdgeState>)
    requires |edges| == |w.edges| && i <= |w.edges|
    ensures |r| == |edges|
    ensures forall j :: 0 <= j < |r| ==> r[j] == JudgedFrom(w, edges, src, sp, i, j)
  {
    seq(|edges|, j requires 0 <= j < |edges| => JudgedFrom(w, edges, src, sp, i, j))
  }

  ghost function JudgedFrom(w: Wires, edges: seq<EdgeState>, src: string, sp: map<string, Value>, i: nat,
                            j: nat): EdgeState
    requires j < |edges| == |w.edges|
  {
    if j >= i && w.edges[j].source.node == src then
      match Judge(w, j, sp) case Ok(s) => s case Err(_) => edges[j]
    else edges[j]
  }

  lemma {:induction false} EdgesFromDelivers(w: Wires, net: Net, src: string, sp: map<string, Value>, i: nat)
    requires |net.edges| == |w.edges| && i <= |w.edges|
    requires forall j :: i <= j < |w.edges| && w.edges[j].source.node == src ==> net.edges[j] == Pending
    ensures Reached(EdgesFrom(w, net, src, sp, i), net, EdgeDeliveries(w, src, sp, i),
                    EdgeStatesFrom(w, net.edges, src, sp, i))
    decreases |w.edges| - i
  {
    if i == |w.edges| {
      assert EdgeStatesFrom(w, net.edges, src, sp, i) == net.edges;
      assert net.active + Recipients([]) == net.active;
    } else if w.edges[i].source.node != src {
      EdgesFromDelivers(w, net, src, sp, i + 1);
      assert EdgeStatesFrom(w, net.edges, src, sp, i) == EdgeStatesFrom(w, net.edges, src, sp, i + 1);
    } else {
      match Judge(w, i, sp)
      case Err(_) =>
      case Ok(s) =>
        var next := Settle(w, net, i, sp, s);
        EdgesFromDelivers(w, next, src, sp, i + 1);
        assert EdgeStatesFrom(w, net.edges, src, sp, i) == EdgeStatesFrom(w, next.edges, src, sp, i + 1);
        var rest := EdgeDeliveries(w, src, sp, i + 1);
        if rest.Some? {
          if s.Fired? {
            var d := Delivery(Key(w.edges[i].target), [], sp[w.edges[i].source.port]);
            assert Put(Lookup(net.ports, d.to), [], d.value) == Ok(d.value);
            assert ([d] + rest.value)[1..] == rest.value;
            RecipientsConcat([d], rest.value);
            assert Recipients([d]) == {d.to.node};
            assert net.active + {d.to.node} + Recipients(rest.value) == net.active + Recipients([d] + rest.value);
          } else {
            assert [] + rest.value == rest.value;
          }
        }
    }
  }

  lemma {:induction false} MapsFromDelivers(w: Wires, net: Net, src: string, sp: map<string, Value>, j: nat)
    requires j <= |w.mappings|
    ensures Reached(MapsFrom(w, net, src, sp, j), net, MapDeliveries(w, src, sp, j), net.edges)
    decreases |w.mappings| - j
  {
    if j == |w.mappings| {
      assert net.active + Recipients([]) == net.active;
    } else if w.mappings[j].source.node != src {
      MapsFromDelivers(w, net, src, sp, j + 1);
    } else {
      var rest := MapDeliveries(w, src, sp, j + 1);
      match MapStep(w, net, j, sp)
      case Err(_) =>
        var here := MapDelivery(w, j, sp);
        if here.Some? && rest.Some? { ApplyConcat(net.ports, here.value, rest.value); }
      case Ok(next) =>
        MapsFromDelivers(w, next, src, sp, j + 1);
        ReachedThen(net, MapDelivery(w, j, sp).value, next, rest, MapsFrom(w, next, src, sp, j + 1), net.edges);
    }
  }

  /** Deliveries in two stages are the concatenated deliveries. */
  lemma ReachedThen(net: Net, a: seq<Delivery>, mid: Net, b: Option<seq<Delivery>>, r: Result<Net, FireError>,
                    edges: seq<EdgeState>)
    requires Apply(net.ports, a) == Some(mid.ports) && mid.active == net.active + Recipients(a)
    requires Reached(r, mid, b, edges)
    ensures Reached(r, net, Both(Some(a), b), edges)
  {
    if b.Some? {
      ApplyConcat(net.ports, a, b.value);
      RecipientsConcat(a, b.value);
      assert net.active + Recipients(a) + Recipients(b.value) == net.active + Recipients(a + b.value);
    }
  }

  lemma FailedFirst(net: Net, a: Option<seq<Delivery>>, b: Option<seq<Delivery>>, r: Result<Net, FireError>,
                    edges: seq<EdgeState>)
    requires r.Err? && (a.None? || Apply(net.ports, a.value).None?)
    ensures Reached(r, net, Both(a, b), edges)
  {
    if a.Some? && b.Some? { ApplyConcat(net.ports, a.value, b.value); }
  }

  /** A node no delivery is addressed to keeps its ports. */
  lemma {:induction false} ApplyFrame(ports: Ports, ds: seq<Delivery>, n: string)
    requires Apply(ports, ds).Some? && n !in Recipients(ds)
    ensures PortsOf(Apply(ports, ds).value, n) == PortsOf(ports, n)
    decreases |ds|
  {
    if ds != [] {
      var d := ds[0];
      assert d in ds;
      var v := Put(Lookup(ports, d.to), d.path, d.value).value;
      assert forall x :: x in ds[1..] ==> x in ds;
      ApplyFrame(ports[d.to := v], ds[1..], n);
      assert PortsOf(ports[d.to := v], n) == PortsOf(ports, n);
    }
  }

  /** Deliveries of a node go to the targets of its edges and mappings. */
  ghost predicate Sends(w: Wires, src: string, k: PortKey) {
    SendsByEdge(w, src, k) || SendsByMapping(w, src, k)
  }

  ghost predicate SendsByEdge(w: Wires, src: string, k: PortKey) {
    exists i :: 0 <= i < |w.edges| && w.edges[i].source.node == src && Key(w.edges[i].target) == k
  }

  ghost predicate SendsByMapping(w: Wires, src: string, k: PortKey) {
    exists j :: 0 <= j < |w.mappings| && w.mappings[j].source.node == src && Targets(w.mappings[j]) == k
  }

  lemma {:induction false} EdgeDeliveriesSent(w: Wires, src: string, sp: map<string, Value>, i: nat)
    requires i <= |w.edges|
    ensures var ds := EdgeDeliveries(w, src, sp, i);
            ds.Some? ==> forall d :: d in ds.value ==> SendsByEdge(w, src, d.to)
    decreases |w.edges| - i
  {
    if i < |w.edges| { EdgeDeliveriesSent(w, src, sp, i + 1); }
  }

  lemma {:induction false} MapDeliveriesSent(w: Wires, src: string, sp: map<string, Value>, j: nat)
    requires j <= |w.mappings|
    ensures var ds := MapDeliveries(w, src, sp, j);
            ds.Some? ==> forall d :: d in ds.value ==> SendsByMapping(w, src, d.to)
    decreases |w.mappings| - j
  {
    if j < |w.mappings| { MapDeliveriesSent(w, src, sp, j + 1); }
  }

  lemma NodeSendsSent(w: Wires, pass: Pass, src: string, sp: map<string, Value>)
    ensures var ds := NodeSends(w, pass, src, sp); ds.Some? ==> forall d :: d in ds.value ==> Sends(w, src, d.to)
  {
    EdgeDeliveriesSent(w, src, sp, 0);
    MapDeliveriesSent(w, src, sp, 0);
  }

  ghost predicate Within(rest: seq<string>, layer: seq<string>) {
    forall n :: n in rest ==> n in layer
  }

  /** The sends of a layer stay out of the layer. */
  lemma AwayFrom(w: Wires, layer: seq<string>, src: string, ds: seq<Delivery>)
    requires Ahead(w, layer) && src in layer
    requires forall d :: d in ds ==> Sends(w, src, d.to)
    ensures forall n :: n in layer ==> n !in Recipients(ds)
  {
    forall d | d in ds ensures d.to.node !in layer {
      if SendsByEdge(w, src, d.to) {
        var i :| 0 <= i < |w.edges| && w.edges[i].source.node == src && Key(w.edges[i].target) == d.to;
      } else {
        var j :| 0 <= j < |w.mappings| && w.mappings[j].source.node == src && Targets(w.mappings[j]) == d.to;
      }
    }
  }

  lemma SameAtAfter(net: Net, next: Net, active: set<string>, ports: Ports, layer: seq<string>, ds: seq<Delivery>)
    requires SameAt(net, active, ports, layer)
    requires Apply(net.ports, ds) == Some(next.ports) && next.active == net.active + Recipients(ds)
    requires forall n :: n in layer ==> n !in Recipients(ds)
    ensures SameAt(next, active, ports, layer)
  {
    forall n | n in layer ensures (n in next.active <==> n in active) && PortsOf(next.ports, n) == PortsOf(ports, n) {
      ApplyFrame(net.ports, ds, n);
    }
  }

  /** One node's turn in fireLayerEdges. */
  lemma FireNodeDelivers(w: Wires, net: Net, layer: seq<string>, src: string, held: Option<string>, active: set<string>,
                         ports: Ports)
    requires Ahead(w, layer) && src in layer && |net.edges| == |w.edges| && PendingOn(w, net.edges, [src])
    requires SameAt(net, active, ports, layer)
    ensures var ds := if Feeds(active, held, src) then EdgeDeliveries(w, src, PortsOf(ports, src), 0) else Some([]);
            var r := FireNode(w, net, src, held);
            && Reached(r, net, ds, StatesAfter(w, active, ports, net.edges, [src], held))
            && (r.Ok? ==> SameAt(r.value, active, ports, layer))
  {
    assert src in [src];
    var after := StatesAfter(w, active, ports, net.edges, [src], held);
    if Feeds(active, held, src) {
      var sp := PortsOf(ports, src);
      EdgesFromDelivers(w, net, src, sp, 0);
      assert EdgeStatesFrom(w, net.edges, src, sp, 0) == after;
      EdgeDeliveriesSent(w, src, sp, 0);
      var ds := EdgeDeliveries(w, src, sp, 0);
      if ds.Some? && Apply(net.ports, ds.value).Some? {
        AwayFrom(w, layer, src, ds.value);
        SameAtAfter(net, FireNode(w, net, src, held).value, active, ports, layer, ds.value);
      }
    } else {
      var state := if held == Some(src) then Deferred else DeadSrcSkip;
      assert MarkFrom(w, net.edges, src, state, 0) == after;
      assert net.active + Recipients([]) == net.active;
    }
  }

  lemma {:induction false} FireEdgesDelivers(w: Wires, net: Net, layer: seq<string>, rest: seq<string>,
      held: Option<string>, active: set<string>, ports: Ports)
    requires Ahead(w, layer) && Within(rest, layer) && Distinct(rest) && PendingOn(w, net.edges, rest)
    requires SameAt(net, active, ports, layer)
    ensures Reached(FireEdges(w, net, rest, held), net, PassSends(w, EdgePass, active, ports, rest, held),
                    StatesAfter(w, active, ports, net.edges, rest, held))
    ensures var r := FireEdges(w, net, rest, held); r.Ok? ==> SameAt(r.value, active, ports, layer)
    decreases |rest|
  {
    hide FireNode, StatesAfter, EdgeDeliveries, Apply, Ahead, Recipients, Judge;
    if rest == [] {
      NothingFires(w, net, held, active, ports);
    } else {
      var src, tail := rest[0], rest[1..];
      assert rest == [src] + tail && Within(tail, layer) && Distinct(tail) && src !in tail;
      assert PendingOn(w, net.edges, [src]);
      FireNodeDelivers(w, net, layer, src, held, active, ports);
      var ds := if Feeds(active, held, src) then EdgeDeliveries(w, src, PortsOf(ports, src), 0) else Some([]);
      match FireNode(w, net, src, held)
      case Err(_) =>
        FailedFirst(net, ds, PassSends(w, EdgePass, active, ports, tail, held), FireEdges(w, net, rest, held),
                    StatesAfter(w, active, ports, net.edges, rest, held));
      case Ok(next) =>
        StatesStep(w, active, ports, net.edges, src, tail, held);
        FireEdgesDelivers(w, next, layer, tail, held, active, ports);
        ReachedThen(net, ds.value, next, PassSends(w, EdgePass, active, ports, tail, held),
                    FireEdges(w, next, tail, held), StatesAfter(w, active, ports, net.edges, rest, held));
    }
  }

  lemma NothingFires(w: Wires, net: Net, held: Option<string>, active: set<string>, ports: Ports)
    requires |net.edges| == |w.edges|
    ensures Reached(Ok(net), net, Some([]), StatesAfter(w, active, ports, net.edges, [], held))
  {
    assert StatesAfter(w, active, ports, net.edges, [], held) == net.edges;
    NothingSent(net);
  }

  lemma StatesStep(w: Wires, active: set<string>, ports: Ports, edges: seq<EdgeState>, src: string, tail: seq<string>,
                   held: Option<string>)
    requires |edges| == |w.edges| && src !in tail && PendingOn(w, edges, [src] + tail)
    ensures var mid := StatesAfter(w, active, ports, edges, [src], held);
            && PendingOn(w, mid, tail)
            && StatesAfter(w, active, ports, mid, tail, held) == StatesAfter(w, active, ports, edges, [src] + tail, held)
  {
    var mid := StatesAfter(w, active, ports, edges, [src], held);
    var all := [src] + tail;
    assert forall n :: n in all <==> n == src || n in tail;
    forall i | 0 <= i < |edges|
      ensures StateAfter(w, active, ports, tail, held, i, mid[i]) == StateAfter(w, active, ports, all, held, i, edges[i])
    {
      assert mid[i] == StateAfter(w, active, ports, [src], held, i, edges[i]);
    }
    assert StatesAfter(w, active, ports, mid, tail, held) == StatesAfter(w, active, ports, edges, all, held);
  }

  lemma NothingSent(net: Net)
    ensures Reached(Ok(net), net, Some([]), net.edges)
  {
    assert net.active + Recipients([]) == net.active;
  }

  lemma {:induction false} FireMappingsDelivers(w: Wires, net: Net, layer: seq<string>, rest: seq<string>,
      held: Option<string>, active: set<string>, ports: Ports)
    requires Ahead(w, layer) && Within(rest, layer) && SameAt(net, active, ports, layer)
    ensures Reached(FireMappings(w, net, rest, held), net, PassSends(w, MapPass, active, ports, rest, held), net.edges)
    ensures var r := FireMappings(w, net, rest, held); r.Ok? ==> SameAt(r.value, active, ports, layer)
    decreases |rest|
  {
    hide MapsFrom, MapDeliveries, PortsOf, Apply, Ahead;
    if rest == [] {
      NothingSent(net);
    } else {
      var src, tail := rest[0], rest[1..];
      assert src in rest && forall n :: n in tail ==> n in rest;
      var others := PassSends(w, MapPass, active, ports, tail, held);
      if !Feeds(active, held, src) {
        FireMappingsDelivers(w, net, layer, tail, held, active, ports);
        if others.Some? { assert [] + others.value == others.value; }
      } else {
        var sp := PortsOf(ports, src);
        MapsFromDelivers(w, net, src, sp, 0);
        MapDeliveriesSent(w, src, sp, 0);
        var ds := MapDeliveries(w, src, sp, 0);
        match MapsFrom(w, net, src, sp, 0)
        case Err(_) =>
          FailedFirst(net, ds, others, FireMappings(w, net, rest, held), net.edges);
        case Ok(next) =>
          AwayFrom(w, layer, src, ds.value);
          SameAtAfter(net, next, active, ports, layer, ds.value);
          FireMappingsDelivers(w, next, layer, tail, held, active, ports);
          ReachedThen(net, ds.value, next, others, FireMappings(w, next, tail, held), net.edges);
      }
    }
  }

  /** The firing stage is its delivery list: it fails exactly when a delivery cannot be made, and
      otherwise activates the recipients, writes the deliveries in order, and settles every edge. */
  lemma FireLayerDelivers(w: Wires, net: Net, layer: seq<string>, held: Option<string>)
    requires Ahead(w, layer) && Distinct(layer) && PendingOn(w, net.edges, layer)
    ensures Reached(FireLayer(w, net, layer, held), net, LayerDeliveries(w, net.active, net.ports, layer, held),
                    StatesAfter(w, net.active, net.ports, net.edges, layer, held))
    ensures var r := FireLayer(w, net, layer, held); r.Ok? ==> SameAt(r.value, net.active, net.ports, layer)
  {
    FireEdgesDelivers(w, net, layer, layer, held, net.active, net.ports);
    var ds := PassSends(w, EdgePass, net.active, net.ports, layer, held);
    var others := PassSends(w, MapPass, net.active, net.ports, layer, held);
    var after := StatesAfter(w, net.active, net.ports, net.edges, layer, held);
    match FireEdges(w, net, layer, held)
    case Err(_) =>
      FailedFirst(net, ds, others, FireLayer(w, net, layer, held), after);
    case Ok(mid) =>
      FireMappingsDelivers(w, mid, layer, layer, held, net.active, net.ports);
      ReachedThen(net, ds.value, mid, others, FireMappings(w, mid, layer, held), after);
  }

  lemma BothNothing<T>(a: Option<seq<T>>)
    ensures Both(Some([]), a) == a && Both(a, Some([])) == a
  {
    if a.Some? { assert [] + a.value == a.value && a.value + [] == a.value; }
  }

  /** When at most one node of the layer is active, the pass is that node's pass. */
  lemma {:induction false} LonePass(w: Wires, pass: Pass, active: set<string>, ports: Ports, layer: seq<string>,
                                    cur: string)
    requires Distinct(layer) && forall n :: n in layer && n in active ==> n == cur
    ensures PassSends(w, pass, active, ports, layer, None) ==
            if cur in layer && cur in active then NodeSends(w, pass, cur, PortsOf(ports, cur)) else Some([])
  {
    if layer != [] {
      var tail := layer[1..];
      assert forall n :: n in layer <==> n == layer[0] || n in tail;
      LonePass(w, pass, active, ports, tail, cur);
      BothNothing(NodeSends(w, pass, cur, PortsOf(ports, cur)));
      BothNothing(PassSends(w, pass, active, ports, tail, None));
    }
  }
}
