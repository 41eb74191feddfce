/** What a run says about its nodes: each active one was run once, on the ports delivered to it and the State
    committed before its layer; what it returned is on its ports and in the State after its layer, or ended the run
    or suspended it. */
module NodeLaws {
  import opened Prelude
  import opened FlowIr
  import opened Layering
  import opened Wiring
  import opened State
  import opened LayeredEngine
  import opened Firing
  import opened Legs
  import opened Resumption
  import opened LegChain
  import opened Dataflow
  import opened Lifecycle
  import opened Visiting

  /** The ports delivered to node n by the inputs and the layers, before it writes its own. */
  ghost function Delivered(e: Engine, A: set<string>, F: Ports, inputs: map<string, Value>,
                           n: string): map<string, Value>
    requires Given(e, A, F, inputs)
  {
    PortsOf(Apply(map[], SendsBefore(e, A, F, inputs, |e.layers|).value).value, n)
  }

  ghost predicate Given(e: Engine, A: set<string>, F: Ports, inputs: map<string, Value>) {
    var ds := SendsBefore(e, A, F, inputs, |e.layers|);
    ds.Some? && Apply(map[], ds.value).Some?
  }

  /** An active node's function, on the delivered ports and the State committed before its layer, returned outputs;
      the node's final ports are the delivered ones overwritten by them. */
  lemma NodesReturn(e: Engine, red: Option<Reducer>, seed: Option<Value>, inputs: map<string, Value>, A: set<string>,
                    F: Ports, C: seq<Option<Value>>, k: nat, n: string)
    requires Solution(e, red, seed, inputs, A, F, C) && In(e.layers, k, n) && n in A
    ensures Given(e, A, F, inputs) && k < |C| && n in e.nodes
    ensures var o := e.nodes[n].run(Delivered(e, A, F, inputs, n), C[k]);
            o.Done? && PortsOf(F, n) == Delivered(e, A, F, inputs, n) + o.out
  {
    var base := Apply(map[], SendsBefore(e, A, F, inputs, |e.layers|).value).value;
    var view := View(A, base, C[k]);
    assert n in e.layers[k];
    assert !Fails(e, view, n, false);
    var o := RunNode(e, n, base, C[k]);
    forall p ensures Lookup(F, PortKey(n, p)) == if p in o.out then Some(o.out[p]) else Lookup(base, PortKey(n, p)) {
      assert Lookup(F, PortKey(n, p)) == FinalPort(e, A, base, C[k], PortKey(n, p));
    }
    var x, y := PortsOf(F, n), PortsOf(base, n) + o.out;
    forall p ensures p in x <==> p in y { assert Lookup(F, PortKey(n, p)) == if p in o.out then Some(o.out[p]) else Lookup(base, PortKey(n, p)); }
    forall p | p in x
      ensures x[p] == y[p]
    {
      assert Lookup(F, PortKey(n, p)) == if p in o.out then Some(o.out[p]) else Lookup(base, PortKey(n, p));
    }
  }

  /** A skipped node holds nothing: whoever is sent something runs. */
  lemma SkippedHold(e: Engine, red: Option<Reducer>, seed: Option<Value>, inputs: map<string, Value>, A: set<string>,
                    F: Ports, C: seq<Option<Value>>, k: nat, n: string)
    requires Solution(e, red, seed, inputs, A, F, C) && In(e.layers, k, n) && n !in A
    ensures PortsOf(F, n) == map[]
  {
    var ds := SendsBefore(e, A, F, inputs, |e.layers|).value;
    var base := Apply(map[], ds).value;
    hide SendsBefore, Apply;
    ApplyFrame(map[], ds, n);
    forall p ensures p !in PortsOf(F, n) {
      assert p !in PortsOf(base, n);
      assert Lookup(F, PortKey(n, p)) == FinalPort(e, A, base, C[k], PortKey(n, p));
    }
  }

  /** What the function of node n returns on the ports delivered to it. */
  ghost function Returns(e: Engine, A: set<string>, F: Ports, inputs: map<string, Value>, cell: Option<Value>,
                         n: string): Outcome
    requires Given(e, A, F, inputs)
  {
    if n in e.nodes then e.nodes[n].run(Delivered(e, A, F, inputs, n), cell) else Failure([])
  }

  /** The ids are those of the active nodes of the layer that staged State, ascending; ws is the last write of each. */
  ghost predicate LastWrites(e: Engine, A: set<string>, F: Ports, inputs: map<string, Value>, cell: Option<Value>,
                             layer: seq<string>, ids: seq<string>, ws: seq<Value>)
    requires Given(e, A, F, inputs)
  {
    && (forall i, j :: 0 <= i < j < |ids| ==> Less(ids[i], ids[j]))
    && (forall n :: n in ids <==> n in layer && n in A && Returns(e, A, F, inputs, cell, n).writes != [])
    && |ws| == |ids|
    && forall i :: 0 <= i < |ids| ==>
         var all := Returns(e, A, F, inputs, cell, ids[i]).writes; all != [] && ws[i] == all[|all| - 1]
  }

  lemma StagedAre(e: Engine, A: set<string>, F: Ports, inputs: map<string, Value>, cell: Option<Value>,
                  layer: seq<string>, ids: seq<string>, ws: seq<Value>)
    requires Given(e, A, F, inputs) && LastWrites(e, A, F, inputs, cell, layer, ids, ws)
    ensures var base := Apply(map[], SendsBefore(e, A, F, inputs, |e.layers|).value).value;
            InIdOrder(Staged(e, View(A, base, cell), layer), ids, ws)
  {
    var base := Apply(map[], SendsBefore(e, A, F, inputs, |e.layers|).value).value;
    hide SendsBefore, Apply;
    forall n ensures RunNode(e, n, base, cell) == Returns(e, A, F, inputs, cell, n) {}
    var staged := Staged(e, View(A, base, cell), layer);
    forall n ensures n in staged <==> n in ids {}
    forall i | 0 <= i < |ids| ensures ids[i] in staged && ws[i] == staged[ids[i]] { assert ids[i] in ids; }
  }

  /** The State after layer k: untouched if none of its nodes wrote; else the reducer's value for the last writes of
      those that did, in ascending order of their ids; without a reducer the one write there can be. */
  lemma StateFolds(e: Engine, red: Option<Reducer>, seed: Option<Value>, inputs: map<string, Value>, A: set<string>,
                   F: Ports, C: seq<Option<Value>>, k: nat, ids: seq<string>, ws: seq<Value>)
    requires Solution(e, red, seed, inputs, A, F, C) && k < |e.layers| && Given(e, A, F, inputs)
    requires k < |C| && LastWrites(e, A, F, inputs, C[k], e.layers[k], ids, ws)
    ensures |C| == |e.layers| + 1 && C[0] == seed && (C[k].None? <==> C[k + 1].None?)
    ensures C[k].Some? && ids == [] ==> C[k + 1] == C[k]
    ensures C[k].Some? && ids != [] && red.None? ==> |ids| == 1 && C[k + 1] == Some(ws[0])
    ensures C[k].Some? && ids != [] && red.Some? ==>
            red.value(C[k].value, ws).Some? && C[k + 1] == red.value(C[k].value, ws)
  {
    hide SendsBefore, Apply, LastWrites;
    var base := Apply(map[], SendsBefore(e, A, F, inputs, |e.layers|).value).value;
    var staged := Staged(e, View(A, base, C[k]), e.layers[k]);
    StagedAre(e, A, F, inputs, C[k], e.layers[k], ids, ws);
    if C[k].Some? { ReducedCases(C[k].value, staged, red, ids, ws); }
    hide Staged, InIdOrder;
  }

  // ---------------------------------------------------------------- how a layer's nodes end its step

  /** Node n is active, and its function returns an interrupt on the ports and the State the layer starts with. */
  ghost predicate Interrupts(e: Engine, r: Run, n: string) {
    n in r.net.active && n in e.nodes && e.nodes[n].run(PortsOf(r.net.ports, n), r.cell).Interrupt?
  }

  /** The same, for an error of its own. */
  ghost predicate Errs(e: Engine, r: Run, n: string) {
    n in r.net.active && n in e.nodes && e.nodes[n].run(PortsOf(r.net.ports, n), r.cell).Failure?
  }

  /** A layer fails on a node exactly when an active one returns an error, or an interrupt that its type may not raise
      or that no caller waits for. It goes on only if none interrupts, and suspends only on the one that does, with
      that node's own request. */
  lemma StepByOutcome(e: Engine, red: Option<Reducer>, r: Run, k: nat, checkpoint: bool)
    requires Compiled(e) && k < |e.layers| && Fits(e, r)
    ensures var s, layer := LayerStep(e, red, r, e.layers[k], checkpoint), e.layers[k];
            && (s == StepFailed(NodeFailed) <==>
                  exists n :: n in layer && (Errs(e, r, n) || (Interrupts(e, r, n) && !(checkpoint && e.nodes[n].canInterrupt))))
            && (s.StepDone? ==> forall n :: n in layer ==> !Errs(e, r, n) && !Interrupts(e, r, n))
            && (s.StepSuspended? ==>
                  && checkpoint && e.hasStore && s.node in layer && Interrupts(e, r, s.node)
                  && e.nodes[s.node].canInterrupt
                  && s.request == e.nodes[s.node].run(PortsOf(r.net.ports, s.node), r.cell).request
                  && forall n :: n in layer && n != s.node ==> !Errs(e, r, n) && !Interrupts(e, r, n))
  {
    hide Barrier, FireLayer;
    var layer := e.layers[k];
    forall n | n in layer
      ensures Fails(e, r, n, checkpoint) <==>
              Errs(e, r, n) || (Interrupts(e, r, n) && !(checkpoint && e.nodes[n].canInterrupt))
      ensures Suspends(e, r, n, checkpoint) <==> Interrupts(e, r, n) && checkpoint && e.nodes[n].canInterrupt
    {
      assert In(e.layers, k, n);
    }
    BarrierErrors(e, red, r, layer);
    var pending := Pendings(e, r, layer, checkpoint);
    if pending != [] { assert pending[0] in pending; }
    if LayerStep(e, red, r, layer, checkpoint).StepSuspended? {
      forall n | n in layer && Suspends(e, r, n, checkpoint) ensures n == pending[0] { assert n in pending; }
    }
  }

  /** The function of node n asks for q on the ports it holds. */
  ghost predicate Asks(e: Engine, net: Net, n: string, cell: Option<Value>, q: Request) {
    n in e.nodes && var o := e.nodes[n].run(PortsOf(net.ports, n), cell); o.Interrupt? && o.request == q
  }

  /** A run that suspends is asked to by an active node of the layer it stopped in, whose type may interrupt and which
      still holds the ports on which its function asked for what the caller is given. */
  lemma {:induction false} SuspensionAsks(e: Engine, red: Option<Reducer>, r: Run, k: nat, checkpoint: bool)
    requires Compiled(e) && Fits(e, r) && PendingBeyond(e, r.net.edges, k)
    ensures var f := RunFrom(e, red, r, k, checkpoint);
            f.Suspended? ==>
              && checkpoint && e.hasStore && In(e.layers, f.layer, f.node) && f.node in f.run.net.active
              && f.node in e.nodes && e.nodes[f.node].canInterrupt
              && exists cell :: Asks(e, f.run.net, f.node, cell, f.request)
    decreases |e.layers| - k
  {
    hide RunFrom, LayerStep, PendingBeyond, Compiled, Asks;
    RunStep(e, red, r, k, checkpoint);
    if k < |e.layers| {
      StepByOutcome(e, red, r, k, checkpoint);
      match LayerStep(e, red, r, e.layers[k], checkpoint)
      case StepFailed(_) =>
      case StepSuspended(_, _, _) => StepAsks(e, red, r, k, checkpoint);
      case StepDone(s) =>
        StepKeepsCursor(e, red, r, k, checkpoint);
        SuspensionAsks(e, red, s, k + 1, checkpoint);
    }
  }

  /** Where a step fires its layer from, and around which node. */
  lemma StepFires(e: Engine, red: Option<Reducer>, r: Run, k: nat, checkpoint: bool)
    requires Compiled(e) && k < |e.layers| && Fits(e, r) && !LayerStep(e, red, r, e.layers[k], checkpoint).StepFailed?
    ensures var s, layer := LayerStep(e, red, r, e.layers[k], checkpoint), e.layers[k];
            var held := if s.StepSuspended? then Some(s.node) else None;
            && FireLayer(WiresOf(e), r.net.(ports := Fanout(e, r, layer, r.net.ports)), layer, held) == Ok(s.run.net)
            && s.run.log == r.log + Visits(layer, r.net.active)
  {
    hide FireLayer, Fanout, ReducedCell, Pendings, AnyFails;
  }

  lemma StepAsks(e: Engine, red: Option<Reducer>, r: Run, k: nat, checkpoint: bool)
    requires Compiled(e) && k < |e.layers| && Fits(e, r) && PendingBeyond(e, r.net.edges, k)
    requires LayerStep(e, red, r, e.layers[k], checkpoint).StepSuspended?
    ensures var s := LayerStep(e, red, r, e.layers[k], checkpoint);
            s.node in s.run.net.active && Asks(e, s.run.net, s.node, r.cell, s.request)
  {
    hide LayerStep, PendingBeyond, Compiled, FireLayer, Fanout, PortsOf;
    StepByOutcome(e, red, r, k, checkpoint);
    StepFires(e, red, r, k, checkpoint);
    var s := LayerStep(e, red, r, e.layers[k], checkpoint);
    var mid := r.net.(ports := Fanout(e, r, e.layers[k], r.net.ports));
    EarlierStays(e, r, mid, s.run.net, k, Some(s.node));
    LayersAreAhead(e, k);
    NotDone(e, r, e.layers[k], s.node);
  }

  /** A node that does not finish writes none of its ports. */
  lemma NotDone(e: Engine, r: Run, layer: seq<string>, n: string)
    requires Interrupts(e, r, n) && Distinct(layer)
    ensures PortsOf(Fanout(e, r, layer, r.net.ports), n) == PortsOf(r.net.ports, n)
  {
    hide Fanout;
    var after := Fanout(e, r, layer, r.net.ports);
    forall x: PortKey | x.node == n ensures Lookup(after, x) == Lookup(r.net.ports, x) {
      FanoutAt(e, r, layer, r.net.ports, x);
    }
    SamePortsOf(after, r.net.ports, n);
  }

  // ---------------------------------------------------------------- the log

  /** The log holds nodes before layer k, each as run or as skipped, as its activation says. */
  ghost predicate Marked(e: Engine, r: Run, k: nat) {
    forall v :: v in r.log ==> LayeredBefore(e.layers, k, v.node) && (v.Ran? <==> v.node in r.net.active)
  }

  /** A run marks as run exactly the nodes it leaves active, and as skipped the others. */
  lemma {:induction false} RunMarks(e: Engine, red: Option<Reducer>, r: Run, k: nat, checkpoint: bool)
    requires Compiled(e) && Fits(e, r) && k <= |e.layers| && PendingBeyond(e, r.net.edges, k) && Marked(e, r, k)
    ensures var f := RunFrom(e, red, r, k, checkpoint);
            && (f.Finished? ==> Marked(e, f.run, |e.layers|))
            && (f.Suspended? ==> Marked(e, f.run, f.layer + 1))
    decreases |e.layers| - k
  {
    hide RunFrom, LayerStep, PendingBeyond, Compiled, Marked;
    RunStep(e, red, r, k, checkpoint);
    if k < |e.layers| {
      match LayerStep(e, red, r, e.layers[k], checkpoint)
      case StepFailed(_) =>
      case StepSuspended(_, _, _) => StepMarks(e, red, r, k, checkpoint);
      case StepDone(s) =>
        StepMarks(e, red, r, k, checkpoint);
        StepKeepsCursor(e, red, r, k, checkpoint);
        RunMarks(e, red, s, k + 1, checkpoint);
    }
  }

  lemma StepMarks(e: Engine, red: Option<Reducer>, r: Run, k: nat, checkpoint: bool)
    requires Compiled(e) && k < |e.layers| && Fits(e, r) && PendingBeyond(e, r.net.edges, k) && Marked(e, r, k)
    requires !LayerStep(e, red, r, e.layers[k], checkpoint).StepFailed?
    ensures Marked(e, LayerStep(e, red, r, e.layers[k], checkpoint).run, k + 1)
  {
    hide LayerStep, PendingBeyond, Compiled, FireLayer, Fanout, PortsOf;
    var s, layer := LayerStep(e, red, r, e.layers[k], checkpoint), e.layers[k];
    StepFires(e, red, r, k, checkpoint);
    EarlierStays(e, r, r.net.(ports := Fanout(e, r, layer, r.net.ports)), s.run.net, k,
                 if s.StepSuspended? then Some(s.node) else None);
    forall v | v in s.run.log
      ensures LayeredBefore(e.layers, k + 1, v.node) && (v.Ran? <==> v.node in s.run.net.active)
    {
      if v !in r.log {
        assert v in Visits(layer, r.net.active);
        assert In(e.layers, k, v.node);
      }
    }
  }
}
