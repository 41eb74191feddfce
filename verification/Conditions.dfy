/** How the conditions of edges decide a run, in terms of the evaluator the flow was compiled with: which state
    each edge ends in, and when a layer's firing stage stops the run. */
module Conditions {
  import opened Prelude
  import opened FlowIr
  import opened Paths
  import opened Wiring
  import opened Firing
  import opened State
  import opened LayeredEngine
  import opened Held
  import opened Lifecycle
  import opened Guard

  // ---------------------------------------------------------------- how an edge ends

  /** The state of edge i at the end of a run, for each of the five reasons. */
  lemma EdgesEndAs(e: Engine, red: Option<Reducer>, seed: Option<Value>, inputs: map<string, Value>, i: nat)
    requires Compiled(e) && i < |e.flow.edges|
    ensures var f := FreshRun(e, red, seed, inputs, false);
            f.Finished? ==>
              var edge, net := e.flow.edges[i], f.run.net;
              var src, key := edge.source.node, PortKey(edge.source.node, edge.source.port);
              && (net.edges[i] == DeadSrcSkip <==> src !in net.active)
              && (net.edges[i] == DeadNoPort <==> src in net.active && key !in net.ports)
              && (src in net.active && key in net.ports && edge.condition == "" ==> net.edges[i] == Fired)
              && (src in net.active && key in net.ports && edge.condition != "" ==>
                    && net.ports[key].Str? && e.cond(edge.condition, net.ports[key].text) != Breaks
                    && (net.edges[i] == Fired <==> e.cond(edge.condition, net.ports[key].text) == Fires)
                    && (net.edges[i] == DeadFalse <==> e.cond(edge.condition, net.ports[key].text) == Blocks))
  {
    FinalEdgesExplained(e, red, seed, inputs);
    var f := FreshRun(e, red, seed, inputs, false);
    if f.Finished? {
      var edge, net := e.flow.edges[i], f.run.net;
      assert edge.source.port in PortsOf(net.ports, edge.source.node) <==> PortKey(edge.source.node, edge.source.port) in net.ports;
    }
  }

  /** In an engine compiled with an evaluator: a conditional edge whose active source holds a text ends fired exactly
      when the evaluator says so, and dead exactly when it says not; a source that holds anything else, or a text the
      evaluator cannot judge, does not let the run finish. */
  lemma EvaluatorDecides(e: Engine, eval: Evaluator, red: Option<Reducer>, seed: Option<Value>,
                         inputs: map<string, Value>, i: nat)
    requires Compiled(e) && i < |e.flow.edges| && e.flow.edges[i].condition != ""
    requires eval(e.flow.edges[i].condition).Some?
    requires forall v :: e.cond(e.flow.edges[i].condition, v) == eval(e.flow.edges[i].condition).value(v)
    ensures var f := FreshRun(e, red, seed, inputs, false);
            f.Finished? ==>
              var edge, net := e.flow.edges[i], f.run.net;
              var src, key := edge.source.node, PortKey(edge.source.node, edge.source.port);
              src in net.active && key in net.ports ==>
                && net.ports[key].Str?
                && (net.edges[i] == Fired <==> eval(edge.condition).value(net.ports[key].text) == Fires)
                && (net.edges[i] == DeadFalse <==> eval(edge.condition).value(net.ports[key].text) == Blocks)
                && eval(edge.condition).value(net.ports[key].text) != Breaks
  {
    EdgesEndAs(e, red, seed, inputs, i);
  }

  // ---------------------------------------------------------------- when firing stops the run

  /** Edge i stops the run: its condition cannot be asked, or breaks. */
  ghost predicate Stops(w: Wires, net: Net, layer: seq<string>, held: Option<string>, i: int) {
    0 <= i < |w.edges| &&
    var edge := w.edges[i];
    var key := PortKey(edge.source.node, edge.source.port);
    && edge.source.node in layer && edge.source.node in net.active && held != Some(edge.source.node)
    && key in net.ports && edge.condition != ""
    && (!net.ports[key].Str? || w.cond(edge.condition, net.ports[key].text) == Breaks)
  }

  /** Mapping j stops the run: an active node of the layer holds its port, and nothing is found at its path. */
  ghost predicate Misses(w: Wires, net: Net, layer: seq<string>, held: Option<string>, j: int) {
    0 <= j < |w.mappings| &&
    var m := w.mappings[j];
    var key := PortKey(m.source.node, m.source.port);
    && m.source.node in layer && m.source.node in net.active && held != Some(m.source.node)
    && key in net.ports && Select(net.ports[key], m.source.path).Err?
  }

  lemma {:induction false} EdgesStop(w: Wires, src: string, sp: map<string, Value>, i: nat)
    requires i <= |w.edges|
    ensures EdgeDeliveries(w, src, sp, i).None? <==>
            exists j :: i <= j < |w.edges| && w.edges[j].source.node == src && w.edges[j].source.port in sp && w.edges[j].condition != "" &&
                        var v := sp[w.edges[j].source.port]; !v.Str? || w.cond(w.edges[j].condition, v.text) == Breaks
    decreases |w.edges| - i
  {
    if i < |w.edges| { EdgesStop(w, src, sp, i + 1); }
  }

  lemma {:induction false} MapsMiss(w: Wires, src: string, sp: map<string, Value>, j: nat)
    requires j <= |w.mappings|
    ensures MapDeliveries(w, src, sp, j).None? <==>
            exists k :: j <= k < |w.mappings| && w.mappings[k].source.node == src && w.mappings[k].source.port in sp &&
                        Select(sp[w.mappings[k].source.port], w.mappings[k].source.path).Err?
    decreases |w.mappings| - j
  {
    if j < |w.mappings| { MapsMiss(w, src, sp, j + 1); }
  }

  lemma {:induction false} PassStops(w: Wires, pass: Pass, active: set<string>, ports: Ports, layer: seq<string>,
                                     held: Option<string>)
    ensures PassSends(w, pass, active, ports, layer, held).None? <==>
            exists n :: n in layer && n in active && held != Some(n) && NodeSends(w, pass, n, PortsOf(ports, n)).None?
  {
    if layer != [] {
      PassStops(w, pass, active, ports, layer[1..], held);
      assert forall n :: n in layer <==> n == layer[0] || n in layer[1..];
    }
  }

  lemma {:induction false} WholeApplies(ports: Ports, ds: seq<Delivery>)
    requires forall d :: d in ds ==> d.path == []
    ensures Apply(ports, ds).Some?
    decreases |ds|
  {
    if ds != [] {
      assert ds[0] in ds && forall d :: d in ds[1..] ==> d in ds;
      WholeApplies(ports[ds[0].to := ds[0].value], ds[1..]);
    }
  }

  /** The edges of a layer stop the run exactly when one of them leaves an active node that holds its port and has a
      condition that cannot be asked of the value, or breaks on it. */
  lemma EdgesStopExactly(w: Wires, net: Net, layer: seq<string>, held: Option<string>)
    requires Ahead(w, layer) && Distinct(layer) && PendingOn(w, net.edges, layer)
    ensures |net.edges| == |w.edges|
    ensures (FireEdges(w, net, layer, held).Err? <==> exists i :: Stops(w, net, layer, held, i))
  {
    hide FireEdges, PassSends, Apply, Ahead, StatesAfter, EdgeDeliveries;
    FireEdgesDelivers(w, net, layer, layer, held, net.active, net.ports);
    PassStops(w, EdgePass, net.active, net.ports, layer, held);
    forall n { EdgesStop(w, n, PortsOf(net.ports, n), 0); }
    var ds := PassSends(w, EdgePass, net.active, net.ports, layer, held);
    if ds.Some? {
      PassWrites(w, EdgePass, net.active, net.ports, layer, held);
      WholeApplies(net.ports, ds.value);
    }
    if i :| Stops(w, net, layer, held, i) { assert EdgeDeliveries(w, w.edges[i].source.node,
        PortsOf(net.ports, w.edges[i].source.node), 0).None?; }
    if n :| n in layer && n in net.active && held != Some(n) && EdgeDeliveries(w, n, PortsOf(net.ports, n), 0).None? {
      var j :| 0 <= j < |w.edges| && w.edges[j].source.node == n && w.edges[j].source.port in PortsOf(net.ports, n) && w.edges[j].condition != "" &&
               var v := PortsOf(net.ports, n)[w.edges[j].source.port]; !v.Str? || w.cond(w.edges[j].condition, v.text) == Breaks;
      assert Stops(w, net, layer, held, j);
    }
  }

  /** So a value that is not a text on a conditional edge, and a path with nothing at its end, stop a layer. */
  lemma LayerStops(w: Wires, net: Net, layer: seq<string>, held: Option<string>, i: int)
    requires Ahead(w, layer) && Distinct(layer) && PendingOn(w, net.edges, layer)
    requires Stops(w, net, layer, held, i) || Misses(w, net, layer, held, i)
    ensures |net.edges| == |w.edges| && FireLayer(w, net, layer, held).Err?
  {
    hide PassSends, Apply, Ahead, StatesAfter, EdgeDeliveries, MapDeliveries;
    EdgesStopExactly(w, net, layer, held);
    if Misses(w, net, layer, held, i) {
      FireLayerDelivers(w, net, layer, held);
      PassStops(w, MapPass, net.active, net.ports, layer, held);
      var n := w.mappings[i].source.node;
      MapsMiss(w, n, PortsOf(net.ports, n), 0);
      assert NodeSends(w, MapPass, n, PortsOf(net.ports, n)).None?;
    }
  }
}
