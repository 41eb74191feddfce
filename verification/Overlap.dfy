/** Which overlaps between an interrupt node and its layer siblings a resume gets right: exactly those in which
    the interrupt node has the last word. */
module Overlap {
  import opened Prelude
  import opened FlowIr
  import opened Paths
  import opened Wiring
  import opened Firing
  import opened LayeredEngine
  import opened Resume
  import opened Held
  import opened LateFiring
  import opened TwoWires
  import opened SharedPort

  // ---------------------------------------------------------------- held and resumed against straight through

  ghost predicate Ready(w: Wires, net: Net, layer: seq<string>, p: string) {
    PendingOn(w, net.edges, layer) && Deferred !in net.edges && p in net.active
  }

  /** Suspending the layer at p and resuming with the human's answer fails exactly when running it through with
      the answer as p's outputs fails, and else ends in the same activation and ports and in matching edges. */
  ghost predicate Agrees(w: Wires, net: Net, layer: seq<string>, p: string, human: map<string, Value>)
    requires |net.edges| == |w.edges|
  {
    var held := FireLayer(w, net, layer, Some(p));
    var whole := FireLayer(w, Net(net.active, WriteAll(net.ports, p, human), net.edges), layer, None);
    if held.Err? then whole.Err?
    else
      var late := ResumeNet(w, held.value, p, human);
      && (late.Err? <==> whole.Err?)
      && (late.Ok? ==> late.value.active == whole.value.active && late.value.ports == whole.value.ports
                       && EdgesMatch(late.value.edges, whole.value.edges))
  }

  /** For every state, every set of conditions and every answer. */
  ghost predicate Interchangeable(edges: seq<Edge>, mappings: seq<Mapping>, layer: seq<string>, p: string) {
    forall cond, net, human :: Ready(Wires(edges, mappings, cond), net, layer, p) ==> Agrees(Wires(edges, mappings, cond), net, layer, p, human)
  }

  lemma SplitsAgrees(w: Wires, net: Net, layer: seq<string>, p: string, human: map<string, Value>)
    requires Ahead(w, layer) && Distinct(layer) && p in layer && Ready(w, net, layer, p)
    requires Splits(w, net.active, WriteAll(net.ports, p, human), layer, p)
    ensures Agrees(w, net, layer, p, human)
  {
    hide Splits, WriteAll, FireLayer, ResumeNet;
    HeldThenResumed(w, net, net.edges, layer, p, human, Elems(layer));
  }

  lemma LastWordSuffices(edges: seq<Edge>, mappings: seq<Mapping>, layer: seq<string>, p: string)
    requires var w := Wires(edges, mappings, ALWAYS); Ahead(w, layer) && LastWord(w, layer, p)
    requires Distinct(layer) && p in layer
    ensures Interchangeable(edges, mappings, layer, p)
  {
    hide Agrees, Splits, LastWord, Ahead;
    forall cond, net, human | Ready(Wires(edges, mappings, cond), net, layer, p)
      ensures Agrees(Wires(edges, mappings, cond), net, layer, p, human)
    {
      var w := Wires(edges, mappings, cond);
      ConditionsApart(w, Wires(edges, mappings, ALWAYS), layer, p);
      LayerSplits(w, net.active, WriteAll(net.ports, p, human), layer, p);
      SplitsAgrees(w, net, layer, p, human);
    }
  }

  /** Where wires lead does not depend on the conditions. */
  lemma ConditionsApart(w: Wires, v: Wires, layer: seq<string>, p: string)
    requires w.edges == v.edges && w.mappings == v.mappings
    ensures Ahead(w, layer) <==> Ahead(v, layer)
    ensures LastWord(w, layer, p) <==> LastWord(v, layer, p)
  {
    forall pass, src, k, path ensures WritesAt(w, pass, src, k, path) <==> WritesAt(v, pass, src, k, path) {}
    forall pp, n, pq, q ensures Clash(w, pp, n, pq, q) <==> Clash(v, pp, n, pq, q) {}
    forall q ensures Overtakes(w, layer, p, q) <==> Overtakes(v, layer, p, q) {}
  }

  // ---------------------------------------------------------------- a state in which an overlap shows

  /** Wire b of a sibling writes after wire a of p, at a comparable place of the same port. */
  ghost predicate Crosses(w: Wires, layer: seq<string>, a: Wire, b: Wire) {
    Meets(w, layer, a, b) && First(w, layer, a, b)
  }

  /** A node without the last word has a wire that another one crosses. */
  lemma SomeoneCrosses(w: Wires, layer: seq<string>, p: string) returns (a: Wire, b: Wire)
    requires !LastWord(w, layer, p) && p in layer
    ensures Crosses(w, layer, a, b) && FromOf(w, a).node == p
  {
    var q :| q in layer && q != p && Overtakes(w, layer, p, q);
    if Clash(w, EdgePass, p, MapPass, q) {
      a, b := ClashMeets(w, layer, EdgePass, p, MapPass, q);
    } else if Clash(w, EdgePass, p, EdgePass, q) {
      a, b := ClashMeets(w, layer, EdgePass, p, EdgePass, q);
    } else {
      a, b := ClashMeets(w, layer, MapPass, p, MapPass, q);
    }
  }

  lemma CrossedIsOvertaken(w: Wires, layer: seq<string>, a: Wire, b: Wire)
    requires Crosses(w, layer, a, b)
    ensures !LastWord(w, layer, FromOf(w, a).node)
  {
    MeetsClash(w, layer, a, b);
    assert Overtakes(w, layer, FromOf(w, a).node, FromOf(w, b).node);
  }

  /** Only the two nodes run; the sibling holds "q" where b picks it up. */
  ghost function Scene(w: Wires, a: Wire, b: Wire): Net
    requires Has(w, a) && Has(w, b)
  {
    Net({FromOf(w, a).node, FromOf(w, b).node}, map[FromOf(w, b) := Nested(PickOf(w, b), Str("q"))],
        seq(|w.edges|, _ => Pending))
  }

  /** The scene once the human has answered "p" where a picks it up. */
  ghost function AnsweredScene(w: Wires, a: Wire, b: Wire): Net
    requires Has(w, a) && Has(w, b)
  {
    var net := Scene(w, a, b);
    Net(net.active, WriteAll(net.ports, FromOf(w, a).node, Carrying(w, a, "p")), net.edges)
  }

  lemma SceneLoaded(w: Wires, layer: seq<string>, a: Wire, b: Wire)
    requires Ahead(w, layer) && Crosses(w, layer, a, b)
    ensures Loaded(w, AnsweredScene(w, a, b).ports, a, b)
    ensures ToOf(w, a).node !in layer && ToOf(w, a).node != FromOf(w, a).node
    ensures Lookup(AnsweredScene(w, a, b).ports, ToOf(w, a)) == None == Lookup(Scene(w, a, b).ports, ToOf(w, a))
    ensures Scene(w, a, b).active == AnsweredScene(w, a, b).active == {FromOf(w, a).node, FromOf(w, b).node}
    ensures Ready(w, Scene(w, a, b), layer, FromOf(w, a).node) && PendingOn(w, AnsweredScene(w, a, b).edges, layer)
    ensures forall j :: 0 <= j < |Scene(w, a, b).edges| ==> Scene(w, a, b).edges[j] == Pending
  {
    hide Nested;
    var ports := AnsweredScene(w, a, b).ports;
    assert PortsOf(ports, FromOf(w, a).node) == Carrying(w, a, "p");
    assert PortsOf(ports, FromOf(w, b).node) == Carrying(w, b, "q");
  }

  /** Run straight through, p's text is written before q's. */
  lemma WholeScene(w: Wires, layer: seq<string>, a: Wire, b: Wire)
    requires Ahead(w, layer) && Tellable(w, layer, a, b) && First(w, layer, a, b)
    ensures |Scene(w, a, b).edges| == |AnsweredScene(w, a, b).edges| == |w.edges|
    ensures var k, both := ToOf(w, a), Fold(None, [Dispatch(w, a, "p"), Dispatch(w, b, "q")]);
            var whole := FireLayer(w, AnsweredScene(w, a, b), layer, None);
            && (whole.Err? <==> both.None?)
            && (whole.Ok? ==> both == Some(Lookup(whole.value.ports, k)) && k.node in whole.value.active)
  {
    hide FireLayer, LayerDeliveries, Clean, Apply, StatesAfter, Fold, Lands, Scene, AnsweredScene, Ahead, Recipients;
    hide Dispatch;
    SceneLoaded(w, layer, a, b);
    var net := AnsweredScene(w, a, b);
    LayerLands(w, layer, a, b, net.ports);
    FireLayerDelivers(w, net, layer, None);
    var ds := LayerDeliveries(w, net.active, net.ports, layer, None);
    LandsSome(ds, ToOf(w, a), [Dispatch(w, a, "p"), Dispatch(w, b, "q")]);
    LandsApply(net.ports, ds.value, ToOf(w, a), [Dispatch(w, a, "p"), Dispatch(w, b, "q")]);
    SceneLength(w, a, b);
  }

  lemma SceneLength(w: Wires, a: Wire, b: Wire)
    requires Has(w, a) && Has(w, b)
    ensures |Scene(w, a, b).edges| == |AnsweredScene(w, a, b).edges| == |w.edges|
  {
  }

  /** The net the scene suspends in, after the deliveries ds. */
  ghost predicate Paused(w: Wires, layer: seq<string>, a: Wire, b: Wire, held: Net, ds: seq<Delivery>)
    requires Has(w, a) && Has(w, b)
  {
    var net, p := Scene(w, a, b), FromOf(w, a).node;
    && |held.edges| == |w.edges| == |net.edges|
    && Fold(None, [Dispatch(w, b, "q")]) == Some(Lookup(held.ports, ToOf(w, a)))
    && LayerDeliveries(w, net.active, net.ports, layer, Some(p)) == Some(ds) && Apply(net.ports, ds) == Some(held.ports)
    && held == Net(net.active + Recipients(ds), held.ports, StatesAfter(w, net.active, net.ports, net.edges, layer, Some(p)))
  }

  /** The scene suspends with q's text written. */
  lemma HeldScene(w: Wires, layer: seq<string>, a: Wire, b: Wire) returns (held: Net, ds: seq<Delivery>)
    requires Ahead(w, layer) && Tellable(w, layer, a, b) && First(w, layer, a, b)
    ensures |Scene(w, a, b).edges| == |w.edges|
    ensures FireLayer(w, Scene(w, a, b), layer, Some(FromOf(w, a).node)) == Ok(held)
    ensures Paused(w, layer, a, b, held, ds) && Lands(Some(ds), ToOf(w, a), [Dispatch(w, b, "q")])
  {
    hide FireLayer, LayerDeliveries, Clean, Apply, StatesAfter, Fold, Lands, Scene, AnsweredScene, Ahead, Recipients;
    hide WriteAll;
    var net, p, k, y := Scene(w, a, b), FromOf(w, a).node, ToOf(w, a), Dispatch(w, b, "q");
    SceneLength(w, a, b);
    SceneLoaded(w, layer, a, b);
    SceneIgnores(w, layer, a, b);
    LayerLands(w, layer, a, b, AnsweredScene(w, a, b).ports);
    var sends := LayerDeliveries(w, net.active, net.ports, layer, Some(p));
    LandsSome(sends, k, [y]);
    ds := sends.value;
    FireLayerDelivers(w, net, layer, Some(p));
    LandsApply(net.ports, ds, k, [y]);
    TextFolds(w, b);
    held := FireLayer(w, net, layer, Some(p)).value;
  }

  lemma SceneIgnores(w: Wires, layer: seq<string>, a: Wire, b: Wire)
    requires Has(w, a) && Has(w, b)
    ensures var net, p := Scene(w, a, b), FromOf(w, a).node;
            LayerDeliveries(w, net.active, AnsweredScene(w, a, b).ports, layer,
                            Some(p)) == LayerDeliveries(w, net.active, net.ports, layer, Some(p))
  {
    HeldIgnores(w, Scene(w, a, b).active, Scene(w, a, b).ports, Carrying(w, a, "p"), layer, FromOf(w, a).node);
  }

  lemma TextFolds(w: Wires, b: Wire)
    requires Has(w, b) && PathsOk(w)
    ensures Fold(None, [Dispatch(w, b, "q")]).Some?
  {
    assert Segments(PathOf(w, b));
    PutFresh(PathOf(w, b), Str("q"));
    assert [Dispatch(w, b, "q")][1..] == [];
  }

  lemma PausedMeans(w: Wires, layer: seq<string>, a: Wire, b: Wire, held: Net, ds: seq<Delivery>)
    requires Ahead(w, layer) && Crosses(w, layer, a, b) && Paused(w, layer, a, b, held, ds)
    ensures |held.edges| == |w.edges| == |Scene(w, a, b).edges|
    ensures var net, p := Scene(w, a, b), FromOf(w, a).node;
            && LayerDeliveries(w, net.active, net.ports, layer, Some(p)) == Some(ds)
            && Apply(net.ports, ds) == Some(held.ports)
            && held == Net(net.active + Recipients(ds), held.ports, held.edges) && p in layer && p in net.active
            && held.edges == StatesAfter(w, net.active, net.ports, net.edges, layer, Some(p))
            && PendingOn(w, net.edges, layer) && forall j :: 0 <= j < |net.edges| ==> net.edges[j] != Deferred
  {
    SceneLoaded(w, layer, a, b);
  }

  lemma PausedStale(w: Wires, layer: seq<string>, a: Wire, b: Wire, held: Net, ds: seq<Delivery>)
    requires Has(w, a) && Has(w, b) && Ahead(w, layer) && Crosses(w, layer, a, b) && Paused(w, layer, a, b, held, ds)
    ensures |held.edges| == |w.edges| && FromOf(w, a).node in held.active && FromOf(w, a).node in Elems(layer)
    ensures OnlyStaleBesides(w, Inject(held, FromOf(w, a).node, Carrying(w, a, "p")), FromOf(w, a).node, 0,
                             Elems(layer))
  {
    hide *;
    PausedMeans(w, layer, a, b, held, ds);
    AheadOutside(w, layer);
    StaleStays(w, Scene(w, a, b), held, ds, held.edges, layer, FromOf(w, a).node, Carrying(w, a, "p"), Elems(layer));
  }

  /** The resume makes the deliveries p owed when the scene was answered. */
  lemma PausedOwes(w: Wires, layer: seq<string>, a: Wire, b: Wire, held: Net, ds: seq<Delivery>)
    requires Ahead(w, layer) && Crosses(w, layer, a, b) && Paused(w, layer, a, b, held, ds)
    ensures |held.edges| == |w.edges| && Fold(None, [Dispatch(w, b, "q")]) == Some(Lookup(held.ports, ToOf(w, a)))
    ensures var p, human := FromOf(w, a).node, Carrying(w, a, "p");
            var ports := WriteAll(held.ports, p, human);
            && Own(w, ports, p) == Own(w, AnsweredScene(w, a, b).ports, p)
            && Reached(ResumeNet(w, held, p, human), Inject(held, p, human), Own(w, ports, p), LateStates(w, held.edges, p, PortsOf(ports, p), 0))
  {
    hide FireLayer, ResumeNet, LayerDeliveries, Apply, StatesAfter, LateStates, Fold, Recipients, Dispatch, WriteAll;
    hide Reached;
    hide Own, Ahead, OnlyStaleBesides, LayerSendsOutside, AnsweredScene, Scene, Carrying;
    var net, p, human, frozen := Scene(w, a, b), FromOf(w, a).node, Carrying(w, a, "p"), Elems(layer);
    PausedStale(w, layer, a, b, held, ds);
    AheadOutside(w, layer);
    AtNode(w, layer, p, frozen);
    ResumeDelivers(w, held, p, human, frozen);
    FrozenUntouched(w, net.active, net.ports, layer, Some(p), frozen);
    SamePortsLater(net.ports, ds, p, human);
    SceneAnswers(w, a, b);
    OwnDepends(w, AnsweredScene(w, a, b).ports, WriteAll(held.ports, p, human), p);
  }

  /** Resuming the held scene writes p's text after q's. */
  lemma HeldSceneResumes(w: Wires, layer: seq<string>, a: Wire, b: Wire, held: Net, ds: seq<Delivery>)
    requires Ahead(w, layer) && Tellable(w, layer, a, b) && First(w, layer, a, b) && Paused(w, layer, a, b, held, ds)
    ensures |held.edges| == |w.edges|
    ensures var k, both := ToOf(w, a), Fold(None, [Dispatch(w, b, "q"), Dispatch(w, a, "p")]);
            var late := ResumeNet(w, held, FromOf(w, a).node, Carrying(w, a, "p"));
            && (late.Err? <==> both.None?)
            && (late.Ok? ==> both == Some(Lookup(late.value.ports, k)) && k.node in late.value.active)
  {
    hide FireLayer, ResumeNet, LayerDeliveries, Clean, Apply, StatesAfter, LateStates, Fold, Lands, Recipients;
    hide Dispatch, WriteAll;
    hide Own, Ahead, AnsweredScene, Scene, Carrying, PathsOk, Paused, Inject;
    var p, k, human := FromOf(w, a).node, ToOf(w, a), Carrying(w, a, "p");
    var x, y := Dispatch(w, a, "p"), Dispatch(w, b, "q");
    PausedOwes(w, layer, a, b, held, ds);
    SceneLoaded(w, layer, a, b);
    LayerLands(w, layer, a, b, AnsweredScene(w, a, b).ports);
    var own := Own(w, WriteAll(held.ports, p, human), p);
    ReachedMeans(ResumeNet(w, held, p, human), Inject(held, p, human), own,
                 LateStates(w, held.edges, p, PortsOf(WriteAll(held.ports, p, human), p), 0));
    LandsSome(own, k, [x]);
    LandsApply(WriteAll(held.ports, p, human), own.value, k, [x]);
    FoldTwo(None, y, x);
    WriteMisses(held.ports, p, human, k);
    InjectIs(held, p, human);
  }

  lemma AtNode(w: Wires, layer: seq<string>, p: string, frozen: set<string>)
    requires LayerSendsOutside(w, layer, frozen) && p in layer
    ensures SendsOutside(w, p, frozen)
  {
  }

  lemma SceneAnswers(w: Wires, a: Wire, b: Wire)
    requires Has(w, a) && Has(w, b)
    ensures AnsweredScene(w, a, b).ports == WriteAll(Scene(w, a, b).ports, FromOf(w, a).node, Carrying(w, a, "p"))
  {
  }

  lemma WriteMisses(ports: Ports, p: string, out: map<string, Value>, k: PortKey)
    requires k.node != p
    ensures Lookup(WriteAll(ports, p, out), k) == Lookup(ports, k)
  {
  }

  lemma AheadOutside(w: Wires, layer: seq<string>)
    requires Ahead(w, layer)
    ensures LayerSendsOutside(w, layer, Elems(layer))
  {
  }

  /** When the conditions always fire, the two orders end in different ports, or one of them fails. */
  lemma CrossingDiverges(w: Wires, layer: seq<string>, a: Wire, b: Wire)
    requires Ahead(w, layer) && Tellable(w, layer, a, b) && First(w, layer, a, b)
    ensures var p := FromOf(w, a).node;
            Ready(w, Scene(w, a, b), layer, p) && !Agrees(w, Scene(w, a, b), layer, p, Carrying(w, a, "p"))
  {
    hide FireLayer, ResumeNet, LayerDeliveries, Clean, Apply, StatesAfter, Fold, Lands, Recipients, Dispatch, Scene;
    hide AnsweredScene, Carrying;
    hide Ahead, PathsOk, Ready, First;
    SceneLoaded(w, layer, a, b);
    WholeScene(w, layer, a, b);
    var held, ds := HeldScene(w, layer, a, b);
    HeldSceneResumes(w, layer, a, b, held, ds);
    OrderShows(w, layer, a, b);
    SceneAnswers(w, a, b);
    assert AnsweredScene(w, a, b) == Net(Scene(w, a, b).active, AnsweredScene(w, a, b).ports, Scene(w, a, b).edges) by { SameEdges(w, a, b); }
  }

  lemma SameEdges(w: Wires, a: Wire, b: Wire)
    requires Has(w, a) && Has(w, b)
    ensures AnsweredScene(w, a, b).edges == Scene(w, a, b).edges
    ensures AnsweredScene(w, a, b).active == Scene(w, a, b).active
  {
  }

  // ---------------------------------------------------------------- the exact condition

  /** Where no wire can rewrite what another wire of its port wrote, holding p back and resuming it is running
      straight through, for all states, conditions and answers, exactly when p has the last word. */
  lemma LastWordExactly(w: Wires, layer: seq<string>, p: string)
    requires Ahead(w, layer) && Distinct(layer) && p in layer && PathsOk(w) && CleanPorts(w, layer)
    ensures Interchangeable(w.edges, w.mappings, layer, p) <==> LastWord(w, layer, p)
  {
    hide LastWord, Agrees, Clean, Ahead, Ready;
    var v := Wires(w.edges, w.mappings, ALWAYS);
    ConditionsApart(w, v, layer, p);
    if LastWord(w, layer, p) {
      LastWordSuffices(w.edges, w.mappings, layer, p);
    } else {
      var a, b := SomeoneCrosses(w, layer, p);
      SameClean(w, v, a);
      SameClean(w, v, b);
      assert Crosses(v, layer, a, b);
      CrossingDiverges(v, layer, a, b);
    }
  }

  /** In a compiled engine this covers every layer whose mapped ports feed one mapping each, whatever the edges. */
  lemma CompiledExactly(e: Engine, k: nat, p: string)
    requires Compiled(e) && k < |e.layers| && p in e.layers[k] && MappingsAlone(WiresOf(e), e.layers[k])
    ensures Interchangeable(e.flow.edges, e.flow.mappings, e.layers[k], p) <==> LastWord(WiresOf(e), e.layers[k], p)
  {
    CompiledPorts(e, e.layers[k]);
    LayersAreAhead(e, k);
    LastWordExactly(WiresOf(e), e.layers[k], p);
  }

  /** Whatever the wires share, p has the last word exactly when every choice among the wires is interchangeable. */
  lemma LastWordByPart(w: Wires, layer: seq<string>, p: string)
    requires Ahead(w, layer) && Distinct(layer) && p in layer && PathsOk(w)
    ensures LastWord(w, layer, p) <==>
            forall v: Wires :: PartOf(v, w) ==> Interchangeable(v.edges, v.mappings, layer, p)
  {
    hide LastWord, Interchangeable, Ahead;
    if LastWord(w, layer, p) {
      forall v: Wires | PartOf(v, w) ensures Interchangeable(v.edges, v.mappings, layer, p) {
        var u := Wires(v.edges, v.mappings, ALWAYS);
        PartKeepsLastWord(w, u, layer, p);
        LastWordSuffices(v.edges, v.mappings, layer, p);
      }
    } else {
      var a, b := SomeoneCrosses(w, layer, p);
      var v := Pair(w, a, b);
      var x, y := PairMeets(w, layer, a, b);
      CrossedIsOvertaken(v, layer, x, y);
      PartKeepsLastWord(w, v, layer, p);
      LastWordExactly(v, layer, p);
    }
  }

  lemma PartKeepsLastWord(w: Wires, v: Wires, layer: seq<string>, p: string)
    requires PartOf(v, w) && Ahead(w, layer)
    ensures Ahead(v, layer) && (LastWord(w, layer, p) ==> LastWord(v, layer, p))
  {
    PartClashes(w, v, layer);
    forall q | Overtakes(v, layer, p, q) ensures Overtakes(w, layer, p, q) {}
  }

  // ---------------------------------------------------------------- a wire that covers another

  /** p's edge and mapping both carry its output to the port q writes in between. */
  function Covered(cond: (string, string) -> CondResult): Wires {
    Wires(WIRES, [Mapping(MappingSource("", "p", "out", []), MappingTarget("c", "in", []))], cond)
  }

  function OutOf(ports: Ports, n: string): seq<Delivery> {
    if PortKey(n, "out") in ports then [Delivery(IN, [], ports[PortKey(n, "out")])] else []
  }

  lemma OutIs(ports: Ports, n: string)
    ensures |OutOf(ports, n)| <= 1 && forall d :: d in OutOf(ports, n) ==> d.to == IN && d.path == []
  {
  }

  lemma CoveredEdge(cond: (string, string) -> CondResult, ports: Ports, n: string, i: nat)
    requires i < 2 && n == Covered(cond).edges[i].source.node
    ensures NodeSends(Covered(cond), EdgePass, n, PortsOf(ports, n)) == Some(OutOf(ports, n))
  {
    var w, sp := Covered(cond), PortsOf(ports, n);
    EdgesLand(w, n, sp, 0, if "out" in sp then i else 2, IN);
    EdgesWrite(w, n, sp, 0);
    ForAll(EdgeDeliveries(w, n, sp, 0).value, IN);
  }

  lemma CoveredSends(cond: (string, string) -> CondResult, ports: Ports)
    ensures var w := Covered(cond);
            && NodeSends(w, EdgePass, "p", PortsOf(ports, "p")) == Some(OutOf(ports, "p"))
            && NodeSends(w, MapPass, "p", PortsOf(ports, "p")) == Some(OutOf(ports, "p"))
            && NodeSends(w, EdgePass, "q", PortsOf(ports, "q")) == Some(OutOf(ports, "q"))
            && NodeSends(w, MapPass, "q", PortsOf(ports, "q")) == Some([])
  {
    var w, sp := Covered(cond), PortsOf(ports, "p");
    CoveredEdge(cond, ports, "p", 0);
    CoveredEdge(cond, ports, "q", 1);
    MapsSend(w, "p", sp, 0, if "out" in sp then 0 else 1, if "out" in sp then sp["out"] else Nil);
    MapsSend(w, "q", PortsOf(ports, "q"), 0, 1, Nil);
  }

  /** Of whole-port writes to one port the last one stays. */
  lemma LastWholeStays(ports: Ports, x: Value, y: Value)
    ensures var dx, dy := Delivery(IN, [], x), Delivery(IN, [], y);
            Apply(ports, [dx, dy, dx]) == Some(ports[IN := x]) && Apply(ports, [dy, dx, dx]) == Some(ports[IN := x])
  {
    var dx, dy := Delivery(IN, [], x), Delivery(IN, [], y);
    assert [dx, dy, dx] == [dx, dy] + [dx] && [dy, dx, dx] == [dy, dx] + [dx];
    ApplyConcat(ports, [dx, dy], [dx]);
    ApplyConcat(ports, [dy, dx], [dx]);
    SamePortTwice(ports, dx, dy);
    SamePortTwice(ports, dy, dx);
    ApplyOne(ports[IN := y], dx);
    ApplyOne(ports[IN := x], dx);
    assert ports[IN := y][IN := x] == ports[IN := x] == ports[IN := x][IN := x];
  }

  /** A layer of p and then q, where q has no mappings. */
  lemma PairSends(w: Wires, active: set<string>, ports: Ports, p: string, q: string, x: seq<Delivery>, y: seq<Delivery>,
                  z: seq<Delivery>)
    requires p in active && p != q
    requires NodeSends(w, EdgePass, p, PortsOf(ports, p)) == Some(x)
    requires NodeSends(w, MapPass, p, PortsOf(ports, p)) == Some(z)
    requires (if q in active then NodeSends(w, EdgePass, q, PortsOf(ports, q)) else Some([])) == Some(y)
    requires NodeSends(w, MapPass, q, PortsOf(ports, q)) == Some([])
    ensures LayerDeliveries(w, active, ports, [p, q], None) == Some((x + y) + z)
    ensures LayerDeliveries(w, active, ports, [p, q], Some(p)) == Some(y) && Own(w, ports, p) == Some(x + z)
  {
    hide NodeSends, PassSends, PortsOf;
    var layer := [p, q];
    assert layer[..0] == [] && layer[1..] == [q] && q in [q];
    forall pass: Pass
      ensures PassSends(w, pass, active, ports, [], None) == Some([])
      ensures PassSends(w, pass, active, ports, [q], None) == if q in active then NodeSends(w, pass, q, PortsOf(ports, q)) else Some([])
    {
      LonePass(w, pass, active, ports, [], q);
      LonePass(w, pass, active, ports, [q], q);
    }
    PassAround(w, EdgePass, active, ports, layer, 0);
    PassAround(w, MapPass, active, ports, layer, 0);
    BothNothing(Some(x[..0]));
    BothNothing(Some(y));
    BothNothing(Some(z));
    BothNothing(Some(x + y));
  }

  lemma CoveredSplits(cond: (string, string) -> CondResult, active: set<string>, ports: Ports)
    requires "p" in active
    ensures Splits(Covered(cond), active, ports, ["p", "q"], "p")
  {
    hide NodeSends, PassSends, Recipients, Apply, LayerDeliveries, Own, OutOf, Covered, Equiv, PortsOf;
    var x := OutOf(ports, "p");
    var y := if "q" in active then OutOf(ports, "q") else [];
    CoveredSends(cond, ports);
    PairSends(Covered(cond), active, ports, "p", "q", x, y, x);
    OutIs(ports, "p");
    OutIs(ports, "q");
    CoveredEquiv(x, y);
  }

  lemma CoveredEquiv(x: seq<Delivery>, y: seq<Delivery>)
    requires |x| <= 1 && |y| <= 1 && forall d :: d in x + y ==> d.to == IN && d.path == []
    ensures Equiv((x + y) + x, y + (x + x)) && Recipients((x + y) + x) == Recipients(y + (x + x))
  {
    if x != [] && y != [] {
      assert x[0] in x + y && y[0] in x + y;
      assert (x + y) + x == [x[0], y[0], x[0]] && y + (x + x) == [y[0], x[0], x[0]];
      forall ports: Ports ensures Apply(ports, (x + y) + x) == Apply(ports, y + (x + x)) { LastWholeStays(ports, x[0].value, y[0].value); }
    } else {
      assert (x + y) + x == y + (x + x);
    }
    forall d ensures d in (x + y) + x <==> d in y + (x + x) {}
  }

  lemma CoveredIsOvertaken()
    ensures !LastWord(Covered(ALWAYS), ["p", "q"], "p")
  {
    hide LastWord;
    var w, layer := Covered(ALWAYS), ["p", "q"];
    assert layer[0] == "p" && layer[1] == "q";
    assert Precedes(layer, "p", "q");
    assert Crosses(w, layer, FIRST, SECOND);
    CrossedIsOvertaken(w, layer, FIRST, SECOND);
  }

  /** Two wires of one port are why the condition is exact only wire by wire: here q overtakes p's edge, and
      p's own mapping covers what q wrote. */
  lemma CoveredIsInterchangeable()
    ensures var w := Covered(ALWAYS);
            !LastWord(w, ["p", "q"], "p") && Interchangeable(w.edges, w.mappings, ["p", "q"], "p")
  {
    hide Agrees, Splits, LastWord;
    var w, layer := Covered(ALWAYS), ["p", "q"];
    CoveredIsOvertaken();
    forall cond, net, human | Ready(Wires(w.edges, w.mappings, cond), net, layer, "p")
      ensures Agrees(Wires(w.edges, w.mappings, cond), net, layer, "p", human)
    {
      CoveredSplits(cond, net.active, WriteAll(net.ports, "p", human));
      SplitsAgrees(Covered(cond), net, layer, "p", human);
    }
  }
}
