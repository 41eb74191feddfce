/** The smallest flow in which the order of two writes shows: p and q feed one port of c, whose value is the
    flow's result. */
module SharedPort {
  import opened Prelude
  import opened FlowIr
  import opened Topology
  import opened Layering
  import opened Validation
  import opened Wiring
  import opened LayeredEngine
  import opened Held
  import opened Resumption
  import opened Legs
  import opened TwoWires

  const IN := PortKey("c", "in")

  const WIRES: seq<Edge> := [Edge(PortRef("p", "out"), PortRef("c", "in"), ""), Edge(PortRef("q", "out"), PortRef("c", "in"), "")]

  /** The two sources in the order in which they are listed. */
  function SharedFlow(x: NodeDecl, y: NodeDecl): Flow {
    Flow("shared", [x, y, NodeDecl("c", "sink", "")], WIRES, [], [], [NamedPortRef("result", "c", "in")])
  }

  function SharedLayers(x: string, y: string): seq<seq<string>> { [[x, y], ["c"]] }

  predicate Sources(x: string, y: string) { (x == "p" && y == "q") || (x == "q" && y == "p") }

  function Sinking(): NodeKind { NodeKind(["in"], [], false,
                                          (ports: map<string, Value>, cell: Option<Value>) => Done(map[], [])) }

  function Emitting(text: string): NodeKind {
    NodeKind([], ["out"], false, (ports: map<string, Value>, cell: Option<Value>) => Done(map["out" := Str(text)], []))
  }

  // ---------------------------------------------------------------- it compiles, however it is listed

  lemma SharedArcs(x: NodeDecl, y: NodeDecl)
    ensures Arcs(SharedFlow(x, y)) == [Arc("p", "c"), Arc("q", "c")]
  {
    var es := WIRES;
    assert es[..1] == [es[0]] && es[..1][..0] == [] && es[..2] == es;
    assert EdgeArcs(es[..1]) == [Arc("p", "c")];
    assert EdgeArcs(es) == EdgeArcs(es[..1]) + [Arc("q", "c")];
    assert SharedFlow(x, y).mappings == [];
  }

  lemma SharedIsLayered(x: NodeDecl, y: NodeDecl)
    requires Sources(x.id, y.id)
    ensures Ids(SharedFlow(x, y)) == [x.id, y.id, "c"]
    ensures IsLayering(Ids(SharedFlow(x, y)), Arcs(SharedFlow(x, y)), SharedLayers(x.id, y.id))
  {
    var f, layers := SharedFlow(x, y), SharedLayers(x.id, y.id);
    SharedArcs(x, y);
    assert Ids(f) == [x.id, y.id, "c"];
    assert In(layers, 0, x.id) && In(layers, 0, y.id) && In(layers, 1, "c");
    forall k, n ensures In(layers, k, n) <==> (k == 0 && (n == x.id || n == y.id)) || (k == 1 && n == "c") {}
    forall n ensures n in Ids(f) <==> Layered(layers, n) {}
    assert LayeredBefore(layers, 1, "p") && LayeredBefore(layers, 1, "q");
    assert FedBy(Arcs(f), layers, 0, "c");
  }

  lemma SharedIsValid(x: NodeDecl, y: NodeDecl)
    requires Sources(x.id, y.id) && x.kind != "" && y.kind != ""
    ensures Valid(SharedFlow(x, y))
  {
    SharedIsLayered(x, y);
    SharedArcs(x, y);
    var f := SharedFlow(x, y);
    assert Ids(f)[..0] == [] && Ids(f)[..1] == [x.id] && Ids(f)[..2] == [x.id, y.id];
    forall i | 0 <= i < |f.nodes| ensures NodeOk(f, i) {}
    assert EdgeKey(f.edges[0])[0] == 'p' && EdgeKey(f.edges[1])[0] == 'q';
    forall i | 0 <= i < |f.edges| ensures EdgeOk(f, i) {}
    LayeringMeansAcyclic(Ids(f), Arcs(f), SharedLayers(x.id, y.id));
  }

  // ---------------------------------------------------------------- its two wires

  const FIRST := Wire(EdgePass, 0)
  const SECOND := Wire(EdgePass, 1)

  lemma SharedWires(w: Wires, x: string, y: string)
    requires w == Wires(WIRES, [], ALWAYS) && Sources(x, y)
    ensures Tellable(w, [x, y], FIRST, SECOND) && (First(w, [x, y], FIRST, SECOND) <==> x == "p")
    ensures FromOf(w, FIRST) == PortKey("p", "out") && FromOf(w, SECOND) == PortKey("q", "out") && ToOf(w, FIRST) == IN
    ensures Carrying(w, FIRST, "p") == map["out" := Str("p")]
    ensures Dispatch(w, FIRST, "p") == Delivery(IN, [], Str("p"))
    ensures Dispatch(w, SECOND, "q") == Delivery(IN, [], Str("q"))
  {
    var layer := [x, y];
    assert layer[0] == x && layer[1] == y;
    assert Precedes(layer, x, y);
  }

  /** Of two texts written to one port the second stays. */
  lemma SecondStays(x: string, y: string)
    ensures Fold(None, [Delivery(IN, [], Str(x)), Delivery(IN, [], Str(y))]) == Some(Some(Str(y)))
  {
    FoldTwo(None, Delivery(IN, [], Str(x)), Delivery(IN, [], Str(y)));
  }

  // ---------------------------------------------------------------- its first and its last layer

  ghost function Fresh(): Run { Run(Net({"p", "q"}, map[], [Pending, Pending]), None, []) }

  lemma StartsFresh(x: NodeDecl, y: NodeDecl)
    requires Sources(x.id, y.id)
    ensures StartNet(SharedFlow(x, y), map[]) == Ok(Fresh().net)
  {
    var f := SharedFlow(x, y);
    assert f.edges[0].target.node == "c";
    assert Ids(f) == [x.id, y.id, "c"];
    assert HasIncoming(f, "c") && !HasIncoming(f, "p") && !HasIncoming(f, "q");
    assert Entries(f) == {"p", "q"};
    assert seq(|f.edges|, _ => Pending) == [Pending, Pending];
  }

  /** The sink emits nothing and no wire leaves it. */
  lemma SinkFires(w: Wires, net: Net)
    requires w.edges == WIRES && w.mappings == [] && |net.edges| == 2
    ensures FireLayer(w, net, ["c"], None) == Ok(net)
  {
    var sp := PortsOf(net.ports, "c");
    assert EdgesFrom(w, net, "c", sp, 2) == Ok(net);
    assert EdgesFrom(w, net, "c", sp, 1) == Ok(net);
    assert EdgesFrom(w, net, "c", sp, 0) == Ok(net);
    assert MarkFrom(w, net.edges, "c", DeadSrcSkip, 0) == net.edges;
    assert ["c"][1..] == [];
    assert FireNode(w, net, "c", None) == Ok(net);
    assert FireEdges(w, net, [], None) == Ok(net);
    assert FireEdges(w, net, ["c"], None) == Ok(net);
    assert MapsFrom(w, net, "c", sp, 0) == Ok(net);
    assert FireMappings(w, net, [], None) == Ok(net);
  }

  lemma LastLayer(e: Engine, r: Run, checkpoint: bool)
    requires |e.layers| == 2 && e.layers[1] == ["c"] && e.flow.edges == WIRES && e.flow.mappings == [] && Fits(e, r)
    requires r.cell.None?
    requires RunNode(e, "c", r.net.ports, r.cell) == Done(map[], []) && !CanInterrupt(e, "c")
    ensures var f := RunFrom(e, None, r, 1, checkpoint); f.Finished? && f.run.net == r.net
  {
    hide FireLayer, Fanout, RunNode, CanInterrupt, LayerStep;
    var layer := ["c"];
    assert layer[1..] == [];
    SinkFires(WiresOf(e), r.net);
    SinkFanout(e, r);
    assert Pendings(e, r, [], checkpoint) == [];
    assert Pendings(e, r, layer, checkpoint) == [];
    assert !AnyFails(e, r, layer, checkpoint);
    assert Staged(e, r, layer) == map[];
    StepCases(e, None, r, layer, checkpoint);
    assert Barrier(e, None, r, layer).Ok? && Barrier(e, None, r, layer).value.net == r.net;
    var s := LayerStep(e, None, r, layer, checkpoint);
    assert s.StepDone? && s.run.net == r.net;
    RunStep(e, None, r, 1, checkpoint);
    RunStep(e, None, s.run, 2, checkpoint);
  }

  lemma SinkFanout(e: Engine, r: Run)
    requires RunNode(e, "c", r.net.ports, r.cell) == Done(map[], [])
    ensures r.net.(ports := Fanout(e, r, ["c"], r.net.ports)) == r.net
  {
    var x := Fanout(e, r, ["c"], r.net.ports);
    forall k ensures Lookup(x, k) == Lookup(r.net.ports, k) { FanoutAt(e, r, ["c"], r.net.ports, k); }
    SameLookups(x, r.net.ports);
  }

  lemma Reported(x: NodeDecl, y: NodeDecl, net: Net, text: string)
    requires "c" in net.active && Lookup(net.ports, IN) == Some(Str(text))
    ensures Outputs(SharedFlow(x, y), net) == Ok(map["result" := Str(text)])
  {
    var out: map<string, Value> := map["result" := Str(text)];
    assert OutputsFrom(SharedFlow(x, y), net, 1, out) == Ok(out);
  }
}
