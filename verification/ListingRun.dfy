/** Two compiled engines that differ in the order their nodes are listed in, share a structural hash, and end
    differently on the same input. */
module ListingRun {
  import opened Prelude
  import opened FlowIr
  import opened Layering
  import opened Topology
  import opened Validation
  import opened Wiring
  import opened LayeredEngine
  import opened Legs
  import opened Resumption
  import opened Equations
  import opened Guard
  import opened TwoWires
  import opened SharedPort
  import opened Listing
  import opened Relisting

  function Named(id: string): NodeDecl { NodeDecl(id, "emit", "") }

  /** p emits "p", q emits "q". */
  function Lists(x: string, y: string): Engine {
    Engine.Engine(SharedFlow(Named(x), Named(y)), map["p" := Emitting("p"), "q" := Emitting("q"), "c" := Sinking()],
                  SharedLayers(x, y), ALWAYS, true, "flow", "struct")
  }

  lemma ListsShape(x: string, y: string)
    ensures var e := Lists(x, y);
            e.layers == [[x, y], ["c"]] && e.flow == SharedFlow(Named(x), Named(y)) && WiresOf(e) == Wires(WIRES, [], ALWAYS)
  {
  }

  lemma ListsCompiled(x: string, y: string)
    requires Sources(x, y)
    ensures Compiled(Lists(x, y))
  {
    SharedIsValid(Named(x), Named(y));
    SharedIsLayered(Named(x), Named(y));
    var e := Lists(x, y);
    assert !CanInterrupt(e, "p") && !CanInterrupt(e, "q") && !CanInterrupt(e, "c");
    forall k | 0 <= k < |e.layers| ensures AtMostOneInterrupt(e, e.layers[k]) {}
  }

  lemma Outcomes(x: string, y: string, ports: Ports, cell: Option<Value>)
    ensures var e := Lists(x, y);
            && RunNode(e, "p", ports, cell) == Done(map["out" := Str("p")], []) && !CanInterrupt(e, "p")
            && RunNode(e, "q", ports, cell) == Done(map["out" := Str("q")], []) && !CanInterrupt(e, "q")
            && RunNode(e, "c", ports, cell) == Done(map[], []) && !CanInterrupt(e, "c")
  {
  }

  lemma BothEmit(x: string, y: string)
    requires Sources(x, y)
    ensures Fanout(Lists(x, y), Fresh(), [x, y], map[]) == map[PortKey("p", "out") := Str("p"), PortKey("q", "out") := Str("q")]
    ensures Pendings(Lists(x, y), Fresh(), [x, y], false) == [] && !AnyFails(Lists(x, y), Fresh(), [x, y], false)
  {
    hide Lists, RunNode, CanInterrupt;
    var e, r, layer := Lists(x, y), Fresh(), [x, y];
    var a, b: Ports := Fanout(e, r, layer, map[]), map[PortKey("p", "out") := Str("p"), PortKey("q", "out") := Str("q")];
    Outcomes(x, y, r.net.ports, None);
    assert Distinct(layer) && x in layer && y in layer;
    forall k ensures Lookup(a, k) == Lookup(b, k) { FanoutAt(e, r, layer, map[], k); }
    SameLookups(a, b);
    NonePending(e, r, layer);
  }

  /** The later source's text stays. */
  lemma FirstLayer(x: string, y: string)
    requires Sources(x, y)
    ensures Fits(Lists(x, y), Fresh())
    ensures var s := LayerStep(Lists(x, y), None, Fresh(), [x, y], false);
            s.StepDone? && s.run.cell == None && "c" in s.run.net.active && Lookup(s.run.net.ports, IN) == Some(Str(y))
  {
    hide Lists, RunNode, CanInterrupt, Fanout, Pendings, AnyFails, FireLayer, BothRan, Fold, WiresOf, Nested;
    var e, r, layer, w := Lists(x, y), Fresh(), [x, y], WiresOf(Lists(x, y));
    ListsShape(x, y);
    ListsCompiled(x, y);
    BothEmit(x, y);
    LayersAreAhead(e, 0);
    SharedWires(w, x, y);
    ListingLands(w, layer, FIRST, SECOND);
    SecondStays("p", "q");
    SecondStays("q", "p");
    BothRanIs(w);
    StepGoesOn(e, None, r, layer);
  }

  lemma BothRanIs(w: Wires)
    requires w == Wires(WIRES, [], ALWAYS)
    ensures BothRan(w, FIRST, SECOND) == Net({"p", "q"}, map[PortKey("p", "out") := Str("p"), PortKey("q", "out") := Str("q")], [Pending, Pending])
  {
  }

  lemma Says(x: string, y: string)
    requires Sources(x, y)
    ensures var e := Lists(x, y);
            var f := FreshRun(e, None, None, map[], false);
            f.Finished? && Outputs(e.flow, f.run.net) == Ok(map["result" := Str(y)])
  {
    hide LayerStep, Lists, RunFrom, RunNode, CanInterrupt, Outputs;
    var e, r := Lists(x, y), Fresh();
    ListsShape(x, y);
    StartsFresh(Named(x), Named(y));
    FirstLayer(x, y);
    var s := LayerStep(e, None, r, [x, y], false).run;
    Outcomes(x, y, s.net.ports, None);
    RunStep(e, None, r, 0, false);
    LastLayer(e, s, false);
    Reported(Named(x), Named(y), s.net, y);
  }

  /** Both engines compile, run the same nodes over the same wires and have equal descriptors, so that each is let in
      on the other's checkpoints; but p and q write one port in one pass, and the one listed last wins. */
  lemma ListingDiverges()
    ensures var e, e' := Lists("p", "q"), Lists("q", "p");
            && Compiled(e) && Compiled(e') && e.nodes == e'.nodes && e.cond == e'.cond
            && Describe(e.flow, e.nodes).Some? && Describe(e.flow, e.nodes) == Describe(e'.flow, e'.nodes)
            && SameShape(e, e') && !FreelyListed(e)
    ensures var e, e' := Lists("p", "q"), Lists("q", "p");
            var f, f' := FreshRun(e, None, None, map[], false), FreshRun(e', None, None, map[], false);
            && f.Finished? && Outputs(e.flow, f.run.net) == Ok(map["result" := Str("q")])
            && f'.Finished? && Outputs(e'.flow, f'.run.net) == Ok(map["result" := Str("p")])
  {
    Says("p", "q");
    Says("q", "p");
    ListsCompiled("p", "q");
    ListsCompiled("q", "p");
    ListsAlike();
    ListsContend();
  }

  lemma ListsAlike()
    ensures var e, e' := Lists("p", "q"), Lists("q", "p");
            && Describe(e.flow, e.nodes).Some? && Describe(e.flow, e.nodes) == Describe(e'.flow, e'.nodes)
            && SameShape(e, e')
  {
    hide Describe, Valid, IsLayering;
    var e, e' := Lists("p", "q"), Lists("q", "p");
    ListsCompiled("p", "q");
    ListsCompiled("q", "p");
    SharedIsLayered(Named("p"), Named("q"));
    SharedIsLayered(Named("q"), Named("p"));
    SharedArcs(Named("p"), Named("q"));
    SharedArcs(Named("q"), Named("p"));
    LayersIgnoreListingOrder(Ids(e.flow), Arcs(e.flow), e.layers, Ids(e'.flow), Arcs(e'.flow), e'.layers);
    Described(e);
    ListedTypes();
    DescriptorForgets(e.flow, e.nodes, e'.flow, e'.nodes);
  }

  lemma Described(e: Engine)
    requires Compiled(e)
    ensures Describe(e.flow, e.nodes).Some?
  {
    hide IsLayering, SortStrings;
    ValidIsDistinct(e.flow);
    SortStringsSorts(Ids(e.flow));
    var ids := SortStrings(Ids(e.flow));
    forall i | 0 <= i < |ids| ensures ids[i] in e.nodes { assert ids[i] in ids; }
  }

  lemma ListedTypes()
    ensures var f, f' := Lists("p", "q").flow, Lists("q", "p").flow;
            forall n :: TypeOf(f.nodes, n) == TypeOf(f'.nodes, n)
  {
    TypesOf("p", "q");
    TypesOf("q", "p");
  }

  lemma TypesOf(x: string, y: string)
    requires Sources(x, y)
    ensures forall n :: TypeOf(SharedFlow(Named(x), Named(y)).nodes, n) == if n == "p" || n == "q" then "emit" else if n == "c" then "sink" else ""
  {
    var ns := SharedFlow(Named(x), Named(y)).nodes;
    assert ns[..2] == [Named(x), Named(y)] && [Named(x), Named(y)][..1] == [Named(x)] && [Named(x)][..0] == [];
    forall n ensures TypeOf(ns, n) == if n == "p" || n == "q" then "emit" else if n == "c" then "sink" else "" {
      assert TypeOf([Named(x)], n) == if n == x then "emit" else "";
      assert TypeOf([Named(x), Named(y)], n) == if n == y then "emit" else TypeOf([Named(x)], n);
    }
  }

  lemma ListsContend()
    ensures !FreelyListed(Lists("p", "q"))
  {
    var e, w := Lists("p", "q"), WiresOf(Lists("p", "q"));
    ListsShape("p", "q");
    SharedWires(w, "p", "q");
    MeetsClash(w, ["p", "q"], FIRST, SECOND);
    assert !Orderless(w, e.layers[0]);
  }
}
