/** A compiled flow on which a resumed run and the uninterrupted one end differently: an interrupt node and a
    sibling listed after it feed the same port. */
module OverlapRun {
  import opened Prelude
  import opened FlowIr
  import opened Layering
  import opened Wiring
  import opened LayeredEngine
  import opened Resume
  import opened Held
  import opened Legs
  import opened Resumption
  import opened Equations
  import opened TwoWires
  import opened SharedPort
  import opened Overlap

  const ASK := Request("human", "?")

  const ASKS := NodeDecl("p", "ask", "")
  const EMITS := NodeDecl("q", "emit", "")

  function Shared(): Flow { SharedFlow(ASKS, EMITS) }

  const LAYERS := SharedLayers("p", "q")

  function Asking(): NodeKind { NodeKind([], ["out"], true,
                                         (ports: map<string, Value>, cell: Option<Value>) => Interrupt(ASK, [])) }

  function TheEngine(): Engine {
    Engine.Engine(Shared(), map["p" := Asking(), "q" := Emitting("q"), "c" := Sinking()], LAYERS, ALWAYS, true, "flow",
                  "struct")
  }

  /** Texts are encodable, nothing else is. */
  function TextCodec(): Codec {
    Codec((v: Value) => if v.Str? then Some(Raw("string", v.text)) else None, (r: Raw) => Some(Str(r.json)),
          (v: Value) => if v.Str? then Some("string") else None)
  }

  function HumanSays(): string -> map<string, Value> { (n: string) => map["out" := Str("p")] }

  // ---------------------------------------------------------------- it compiles

  lemma SharedCompiled()
    ensures Compiled(TheEngine()) && RoundTrips(TextCodec())
  {
    SharedIsValid(ASKS, EMITS);
    SharedIsLayered(ASKS, EMITS);
    var e := TheEngine();
    assert !CanInterrupt(e, "q") && !CanInterrupt(e, "c");
    forall k | 0 <= k < |e.layers| ensures AtMostOneInterrupt(e, e.layers[k]) {}
  }

  // ---------------------------------------------------------------- the first layer

  /** What the three nodes do, whatever they see. */
  lemma Outcomes(ports: Ports, cell: Option<Value>)
    ensures var e := TheEngine();
            && RunNode(e, "p", ports, cell) == Interrupt(ASK, []) && CanInterrupt(e, "p")
            && RunNode(e, "q", ports, cell) == Done(map["out" := Str("q")], []) && !CanInterrupt(e, "q")
            && RunNode(e, "c", ports, cell) == Done(map[], []) && !CanInterrupt(e, "c")
  {
  }

  lemma FirstFanout()
    ensures Fanout(TheEngine(), Fresh(), LAYERS[0], map[]) == map[PortKey("q", "out") := Str("q")]
  {
    hide TheEngine, RunNode;
    var e, r := TheEngine(), Fresh();
    var x, y: Ports := Fanout(e, r, LAYERS[0], map[]), map[PortKey("q", "out") := Str("q")];
    Outcomes(r.net.ports, None);
    forall k ensures Lookup(x, k) == Lookup(y, k) { FanoutAt(e, r, LAYERS[0], map[], k); }
    SameLookups(x, y);
  }

  lemma FirstPends()
    ensures Pendings(TheEngine(), Fresh(), LAYERS[0], true) == ["p"] && !AnyFails(TheEngine(), Fresh(), LAYERS[0], true)
  {
    hide TheEngine, RunNode, CanInterrupt;
    var e, r, layer := TheEngine(), Fresh(), LAYERS[0];
    Outcomes(r.net.ports, None);
    SharedCompiled();
    assert e.hasStore && e.layers[0] == layer by { Shape(); }
    OnePending(e, r, layer);
    assert layer == ["p", "q"] && "p" in layer;
    var pending := Pendings(e, r, layer, true);
    assert "p" in pending;
  }

  lemma Shape()
    ensures TheEngine().hasStore && TheEngine().layers == LAYERS && TheEngine().flow == Shared()
    ensures WiresOf(TheEngine()) == Wires(WIRES, [], ALWAYS)
  {
  }

  lemma SceneIs()
    ensures var w := WiresOf(TheEngine());
            && Tellable(w, LAYERS[0], FIRST, SECOND) && First(w, LAYERS[0], FIRST, SECOND)
            && FromOf(w, FIRST) == PortKey("p", "out") && ToOf(w, FIRST) == IN
            && Carrying(w, FIRST, "p") == map["out" := Str("p")]
            && Scene(w, FIRST, SECOND) == Net({"p", "q"}, map[PortKey("q", "out") := Str("q")], [Pending, Pending])
            && Dispatch(w, FIRST, "p") == Delivery(IN, [], Str("p"))
            && Dispatch(w, SECOND, "q") == Delivery(IN, [], Str("q"))
  {
    SharedWires(WiresOf(TheEngine()), "p", "q");
  }

  /** p suspends the layer once q's value has been sent. */
  lemma FirstSuspends()
    ensures Fits(TheEngine(), Fresh())
    ensures var e := TheEngine();
            var s, w := LayerStep(e, None, Fresh(), LAYERS[0], true), WiresOf(e);
            && s.StepSuspended? && s.node == "p" && s.request == ASK && s.run.cell == None
            && FireLayer(w, Scene(w, FIRST, SECOND), LAYERS[0], Some("p")) == Ok(s.run.net)
  {
    hide FireLayer, Fanout, TheEngine, RunNode, Pendings, AnyFails, WiresOf, Scene;
    var e, r := TheEngine(), Fresh();
    Shape();
    SceneIs();
    FirstFanout();
    FirstPends();
    Outcomes(r.net.ports, None);
    SharedCompiled();
    LayersAreAhead(e, 0);
    var held, ds := HeldScene(WiresOf(e), LAYERS[0], FIRST, SECOND);
    assert r.net.(ports := Fanout(e, r, LAYERS[0], r.net.ports)) == Scene(WiresOf(e), FIRST, SECOND);
  }

  /** Straight through, q's value is sent after p's. */
  lemma FirstGoesOn()
    ensures Fits(Answered(TheEngine(), HumanSays()), Fresh())
    ensures var s := LayerStep(Answered(TheEngine(), HumanSays()), None, Fresh(), LAYERS[0], false);
            s.StepDone? && s.run.cell == None && "c" in s.run.net.active && Lookup(s.run.net.ports, IN) == Some(Str("q"))
  {
    hide FireLayer, Fanout, TheEngine, RunNode, Pendings, AnyFails, WiresOf, Scene, Answered, HumanSays, Carrying, Fold;
    var e, human, r := TheEngine(), HumanSays(), Fresh();
    var x := Answered(e, human);
    Shape();
    SameLayers(e, human);
    SceneIs();
    FirstFanout();
    FirstPends();
    SharedCompiled();
    LayersAreAhead(e, 0);
    Spoken();
    AnsweredLayer(e, human, r, r, LAYERS[0]);
    AnsweredFanout(e, human, r, r, LAYERS[0], map[]);
    WholeScene(WiresOf(e), LAYERS[0], FIRST, SECOND);
    SecondStays("p", "q");
    StepGoesOn(x, None, r, LAYERS[0]);
  }

  lemma Spoken()
    ensures HumanSays()("p") == map["out" := Str("p")]
  {
  }

  // ---------------------------------------------------------------- both runs

  lemma StraightSaysQ()
    ensures var f := FreshRun(Answered(TheEngine(), HumanSays()), None, None, map[], false);
            f.Finished? && Outputs(Shared(), f.run.net) == Ok(map["result" := Str("q")])
  {
    hide LayerStep, TheEngine, RunFrom, RunNode, CanInterrupt, HumanSays, Outputs, Answered;
    var e, r := TheEngine(), Fresh();
    var x := Answered(e, HumanSays());
    Shape();
    SameLayers(e, HumanSays());
    StartsFresh(ASKS, EMITS);
    FirstGoesOn();
    var s := LayerStep(x, None, r, LAYERS[0], false).run;
    Outcomes(s.net.ports, None);
    AnsweredNode(e, HumanSays(), s, s, "c");
    AnsweredSink();
    RunStep(x, None, r, 0, false);
    LastLayer(x, s, false);
    Reported(ASKS, EMITS, s.net, "q");
  }

  lemma AnsweredSink()
    ensures !CanInterrupt(Answered(TheEngine(), HumanSays()), "c")
  {
  }

  /** The state the first leg suspends in. */
  ghost predicate AtPause(s: Run) {
    && Fits(TheEngine(), s) && s.cell == None
    && FireLayer(WiresOf(TheEngine()), Scene(WiresOf(TheEngine()), FIRST, SECOND), LAYERS[0], Some("p")) == Ok(s.net)
  }

  /** Both wires lead to one port. */
  lemma OnlyOnePort(w: Wires, layer: seq<string>, net: Net, held: Option<string>, ds: seq<Delivery>)
    requires w.edges == WIRES && w.mappings == [] && LayerDeliveries(w, net.active, net.ports, layer, held) == Some(ds)
    ensures For(ds, IN) == ds
  {
    PassWrites(w, EdgePass, net.active, net.ports, layer, held);
    PassWrites(w, MapPass, net.active, net.ports, layer, held);
    forall d | d in ds ensures d.to == IN {}
    ForAll(ds, IN);
  }

  /** The resume sends the human's value last. */
  lemma ResumeSendsP(s: Run)
    requires AtPause(s)
    ensures |s.net.edges| == |WiresOf(TheEngine()).edges|
    ensures s.net.ports == map[PortKey("q", "out") := Str("q"), IN := Str("q")]
    ensures var late := ResumeNet(WiresOf(TheEngine()), s.net, "p", HumanSays()("p"));
            late.Ok? && Fits(TheEngine(), s.(net := late.value)) && "c" in late.value.active && Lookup(late.value.ports, IN) == Some(Str("p"))
  {
    hide TheEngine, HumanSays, ResumeNet, FireLayer, WiresOf, Scene, Carrying, Fold, LayerDeliveries;
    var w := WiresOf(TheEngine());
    Shape();
    SharedCompiled();
    SceneIs();
    LayersAreAhead(TheEngine(), 0);
    var held, ds := HeldScene(w, LAYERS[0], FIRST, SECOND);
    HeldSceneResumes(w, LAYERS[0], FIRST, SECOND, held, ds);
    OnlyOnePort(w, LAYERS[0], Scene(w, FIRST, SECOND), Some("p"), ds);
    ApplyOne(Scene(w, FIRST, SECOND).ports, Delivery(IN, [], Str("q")));
    SecondStays("q", "p");
    Spoken();
    LateFits(w, s.net, "p", HumanSays()("p"));
  }

  /** So the resumed leg finishes with it. */
  lemma SecondLeg(s: Run, runId: string)
    requires AtPause(s)
    ensures var e, c := TheEngine(), TextCodec();
            var cp := Snapshot(e, c, runId, s, 0, "p", ASK, map[]);
            && cp.Some? && cp.value.node == "p"
            && var last := ResumeLeg(e, c, None, None, runId, cp.value, HumanSays()("p"), s.log);
               last.LegDone? && last.outputs == map["result" := Str("p")]
  {
    hide TheEngine, RunFrom, RunNode, CanInterrupt, HumanSays, Outputs, ResumeNet, FireLayer, TextCodec, ResumeLeg;
    hide WiresOf, Scene, Snapshot;
    var e, c := TheEngine(), TextCodec();
    Shape();
    SharedCompiled();
    ResumeSendsP(s);
    var late := ResumeNet(WiresOf(e), s.net, "p", HumanSays()("p")).value;
    Outcomes(late.ports, None);
    LastLayer(e, s.(net := late), true);
    Reported(ASKS, EMITS, late, "p");
    TextSnapshot(s, runId);
    Spoken();
    AskDeclares();
    ResumeFromSnapshot(e, c, None, None, runId, s, 0, "p", ASK, map[], HumanSays()("p"));
  }

  lemma ResumedSaysP(runId: string)
    ensures var e, c := TheEngine(), TextCodec();
            var last := Drive(e, c, None, None, runId, HumanSays(), FirstLeg(e, c, None, None, runId, map[]));
            last.LegDone? && last.outputs == map["result" := Str("p")]
  {
    hide LayerStep, TheEngine, RunFrom, HumanSays, FireLayer, TextCodec, ResumeLeg, WiresOf, Scene, Drive, Snapshot;
    var e, c, r := TheEngine(), TextCodec(), Fresh();
    Shape();
    StartsFresh(ASKS, EMITS);
    FirstSuspends();
    var s := LayerStep(e, None, r, LAYERS[0], true).run;
    RunStep(e, None, r, 0, true);
    SecondLeg(s, runId);
    var cp := Snapshot(e, c, runId, s, 0, "p", ASK, map[]).value;
    DriveTwice(e, c, runId, LegSuspended(cp, s.log));
  }

  lemma LateFits(w: Wires, net: Net, node: string, human: map<string, Value>)
    requires |net.edges| == |w.edges|
    ensures var r := ResumeNet(w, net, node, human); r.Ok? ==> |r.value.edges| == |w.edges|
  {
  }

  lemma AskDeclares()
    ensures "p" in TheEngine().nodes && TheEngine().nodes["p"].outputs == ["out"]
  {
  }

  lemma DriveTwice(e: Engine, c: Codec, runId: string, first: Leg)
    requires first.LegSuspended?
    requires var last := ResumeLeg(e, c, None, None, runId, first.cp, HumanSays()(first.cp.node),
                                   first.log); !last.LegSuspended?
    ensures Drive(e, c, None, None, runId, HumanSays(), first) == ResumeLeg(e, c, None, None, runId, first.cp, HumanSays()(first.cp.node), first.log)
  {
  }

  lemma TextSnapshot(s: Run, runId: string)
    requires s.cell.None? && forall k :: k in s.net.ports ==> s.net.ports[k].Str?
    ensures Snapshot(TheEngine(), TextCodec(), runId, s, 0, "p", ASK, map[]).Some?
    ensures var cp := Snapshot(TheEngine(), TextCodec(), runId, s, 0, "p", ASK,
                               map[]).value; cp.node == "p" && cp.suspendLayer == 0
  {
  }

  /** Without the last word an interrupt node's answer and its sibling's value change places: the engine
      compiles, every value round-trips, the resumed run reports the human's answer and the uninterrupted run
      reports the sibling's value. */
  lemma OverlapDiverges(runId: string)
    ensures Compiled(TheEngine()) && RoundTrips(TextCodec()) && !AnswersLast(TheEngine())
    ensures var e, c := TheEngine(), TextCodec();
            var last := Drive(e, c, None, None, runId, HumanSays(), FirstLeg(e, c, None, None, runId, map[]));
            var f := FreshRun(Answered(e, HumanSays()), None, None, map[], false);
            && last.LegDone? && last.outputs == map["result" := Str("p")]
            && f.Finished? && Outputs(e.flow, f.run.net) == Ok(map["result" := Str("q")])
  {
    hide TheEngine, TextCodec, Drive, FirstLeg, Answered, LastWord, FreshRun, Outputs;
    SharedCompiled();
    Shape();
    SceneIs();
    CrossedIsOvertaken(WiresOf(TheEngine()), LAYERS[0], FIRST, SECOND);
    assert In(TheEngine().layers, 0, "p") && CanInterrupt(TheEngine(), "p") by { Outcomes(map[], None); assert "p" in LAYERS[0]; }
    StraightSaysQ();
    ResumedSaysP(runId);
  }
}
