/** The layer loop solves the dataflow equations, and nothing else does. */
module Equations {
  import opened Prelude
  import opened FlowIr
  import opened Layering
  import opened Wiring
  import opened State
  import opened LayeredEngine
  import opened Firing
  import opened LateFiring
  import opened Legs
  import opened Resumption
  import opened Dataflow

  // ---------------------------------------------------------------- views

  lemma SameView(e: Engine, r: Run, v: Run, layer: seq<string>)
    requires r.cell == v.cell
    requires forall n :: n in layer ==> (n in r.net.active <==> n in v.net.active) && PortsOf(r.net.ports, n) == PortsOf(v.net.ports, n)
    ensures AnyFails(e, r, layer, false) <==> AnyFails(e, v, layer, false)
    ensures Staged(e, r, layer) == Staged(e, v, layer)
    ensures forall x: PortKey :: x.node in layer ==> Emits(e, r, x) == Emits(e, v, x)
  {
    forall n | n in layer ensures Fails(e, r, n, false) <==> Fails(e, v, n, false)
      ensures RunNode(e, n, r.net.ports, r.cell) == RunNode(e, n, v.net.ports, v.cell) {}
  }

  /** Layer j of the equations, for a given base. */
  ghost predicate LayerHolds(e: Engine, red: Option<Reducer>, A: set<string>, base: Ports, C: seq<Option<Value>>,
                             j: nat)
    requires j < |e.layers| && j + 1 < |C|
  {
    && !AnyFails(e, View(A, base, C[j]), e.layers[j], false)
    && ReducedCell(C[j], Staged(e, View(A, base, C[j]), e.layers[j]), red) == Ok(C[j + 1])
  }

  /** Changing the base and the activation beyond layer k does not matter to layers up to k. */
  lemma LayerHoldsStill(e: Engine, red: Option<Reducer>, A: set<string>, base: Ports, A': set<string>, base': Ports,
      C: seq<Option<Value>>, k: nat, j: nat)
    requires Compiled(e) && j <= k < |e.layers| && j + 1 < |C|
    requires forall n :: n in UpTo(e, k) ==> (n in A <==> n in A') && PortsOf(base, n) == PortsOf(base', n)
    ensures LayerHolds(e, red, A, base, C, j) <==> LayerHolds(e, red, A', base', C, j)
    ensures forall x: PortKey :: x.node in e.layers[j] ==> FinalPort(e, A, base, C[j], x) == FinalPort(e, A', base', C[j], x)
  {
    forall n | n in e.layers[j] ensures n in UpTo(e, k) {
      assert In(e.layers, j, n);
      UpToHolds(e, k, j, n);
    }
    SameView(e, View(A, base, C[j]), View(A', base', C[j]), e.layers[j]);
    SameFinals(e, A, base, A', base', C[j], e.layers[j]);
  }

  /** Final ports depend on the nodes of the layer alone. */
  lemma SameFinals(e: Engine, A: set<string>, base: Ports, A': set<string>, base': Ports, cell: Option<Value>,
                   layer: seq<string>)
    requires forall n :: n in layer ==> (n in A <==> n in A') && PortsOf(base, n) == PortsOf(base', n)
    ensures forall x: PortKey :: x.node in layer ==> FinalPort(e, A, base, cell, x) == FinalPort(e, A', base', cell, x)
  {
    hide Emits, PortsOf, Lookup, AnyFails, Staged;
    SameView(e, View(A, base, cell), View(A', base', cell), layer);
    forall x: PortKey | x.node in layer ensures Lookup(base, x) == Lookup(base', x) {
      LookupsOf(base, base', x.node);
    }
  }

  // ---------------------------------------------------------------- the loop invariant

  /** The state at the start of layer k, in terms of the equations. */
  ghost predicate Progress(e: Engine, red: Option<Reducer>, seed: Option<Value>, inputs: map<string, Value>,
                           r: Run, k: nat, C: seq<Option<Value>>, ds: seq<Delivery>, base: Ports)
    requires k <= |e.layers|
  {
    && |C| == k + 1 && C[k] == r.cell && C[0] == seed
    && SendsBefore(e, r.net.active, r.net.ports, inputs, k) == Some(ds)
    && Apply(map[], ds) == Some(base)
    && r.net.active == Entries(e.flow) + Recipients(ds)
    && Overlaid(e, r.net, k, C, base)
    && (forall j :: 0 <= j < k ==> LayerHolds(e, red, r.net.active, base, C, j))
    && PendingBeyond(e, r.net.edges, k)
  }

  /** Nodes before layer k hold their final ports, later ones what has been delivered. */
  ghost predicate Overlaid(e: Engine, net: Net, k: nat, C: seq<Option<Value>>, base: Ports)
    requires k <= |e.layers| && |C| == k + 1
  {
    && (forall j, x: PortKey :: j < k && In(e.layers, j, x.node) ==> Lookup(net.ports, x) == FinalPort(e, net.active, base, C[j], x))
    && (forall x: PortKey :: !LayeredBefore(e.layers, k, x.node) ==> Lookup(net.ports, x) == Lookup(base, x))
  }

  lemma ProgressStarts(e: Engine, red: Option<Reducer>, seed: Option<Value>, inputs: map<string, Value>, net: Net)
    requires Compiled(e) && StartNet(e.flow, inputs) == Ok(net)
    ensures StartSends(e.flow, inputs).Some?
    ensures Progress(e, red, seed, inputs, Run(net, seed, []), 0, [seed], StartSends(e.flow, inputs).value, net.ports)
  {
    StartDelivers(e.flow, inputs);
    forall i, j | 0 <= i < |net.edges| && In(e.layers, j, e.flow.edges[i].source.node)
      ensures net.edges[i] == Pending <==> 0 <= j {}
  }

  lemma BeforeNext(layers: seq<seq<string>>, k: nat, n: string)
    requires k < |layers|
    ensures LayeredBefore(layers, k + 1, n) <==> LayeredBefore(layers, k, n) || n in layers[k]
  {
    if n in layers[k] { assert In(layers, k, n); }
  }

  lemma NotBefore(e: Engine, k: nat, n: string)
    requires Compiled(e) && In(e.layers, k, n)
    ensures !LayeredBefore(e.layers, k, n)
  {
  }

  /** The node view of layer k in the run is the view of the equations. */
  lemma ViewHere(e: Engine, net: Net, cell: Option<Value>, log: seq<Visit>, k: nat, C: seq<Option<Value>>, base: Ports)
    requires Compiled(e) && k < |e.layers| && |C| == k + 1 && Overlaid(e, net, k, C, base)
    ensures var r, v := Run(net, cell, log), View(net.active, base, cell);
            && (AnyFails(e, r, e.layers[k], false) <==> AnyFails(e, v, e.layers[k], false))
            && Staged(e, r, e.layers[k]) == Staged(e, v, e.layers[k])
            && forall x: PortKey :: x.node in e.layers[k] ==> Emits(e, r, x) == Emits(e, v, x) && Lookup(net.ports, x) == Lookup(base, x)
  {
    forall n | n in e.layers[k] ensures PortsOf(net.ports, n) == PortsOf(base, n) && !LayeredBefore(e.layers, k, n) {
      assert In(e.layers, k, n);
      NotBefore(e, k, n);
      SamePortsOf(net.ports, base, n);
    }
    SameView(e, Run(net, cell, log), View(net.active, base, cell), e.layers[k]);
  }

  /** After the fanout of layer k. */
  ghost predicate FannedOut(e: Engine, net: Net, k: nat, C: seq<Option<Value>>, base: Ports)
    requires k < |e.layers| && |C| == k + 1
  {
    && (forall j, x: PortKey :: j <= k && In(e.layers, j, x.node) ==> Lookup(net.ports, x) == FinalPort(e, net.active, base, C[j], x))
    && (forall x: PortKey :: !LayeredBefore(e.layers, k + 1, x.node) ==> Lookup(net.ports, x) == Lookup(base, x))
  }

  lemma FanoutOverlays(e: Engine, r: Run, k: nat, C: seq<Option<Value>>, base: Ports)
    requires Compiled(e) && k < |e.layers| && |C| == k + 1 && Overlaid(e, r.net, k, C, base) && C[k] == r.cell
    ensures FannedOut(e, r.net.(ports := Fanout(e, r, e.layers[k], r.net.ports)), k, C, base)
  {
    LayersAreAhead(e, k);
    ViewHere(e, r.net, r.cell, r.log, k, C, base);
    var after := Fanout(e, r, e.layers[k], r.net.ports);
    forall x: PortKey
      ensures Lookup(after, x) == if x.node in e.layers[k] && Emits(e, r, x).Some? then Emits(e, r, x) else Lookup(r.net.ports, x)
    {
      FanoutAt(e, r, e.layers[k], r.net.ports, x);
    }
    forall j, x: PortKey | j <= k && In(e.layers, j, x.node)
      ensures Lookup(after, x) == FinalPort(e, r.net.active, base, C[j], x)
    {
      if j < k { assert x.node in e.layers[k] ==> In(e.layers, k, x.node); }
    }
    forall x: PortKey | !LayeredBefore(e.layers, k + 1, x.node) ensures Lookup(after, x) == Lookup(base, x) {
      BeforeNext(e.layers, k, x.node);
    }
  }

  /** Firing layer k from a fanned-out net is the next batch of deliveries on the base. */
  lemma FiringExtends(e: Engine, net: Net, k: nat, C: seq<Option<Value>>, base: Ports)
    requires Compiled(e) && k < |e.layers| && |C| == k + 1 && FannedOut(e, net, k, C, base)
    requires PendingBeyond(e, net.edges, k)
    ensures var ld := LayerDeliveries(WiresOf(e), net.active, net.ports, e.layers[k], None);
            var r := FireLayer(WiresOf(e), net, e.layers[k], None);
            && (r.Ok? <==> ld.Some? && Apply(base, ld.value).Some?)
            && (r.Ok? ==> && r.value.active == net.active + Recipients(ld.value)
                          && (forall n :: n in UpTo(e, k) ==> n !in Recipients(ld.value))
                          && (forall x: PortKey :: x.node in UpTo(e, k) ==> Lookup(r.value.ports, x) == Lookup(net.ports, x))
                          && (forall x: PortKey :: x.node !in UpTo(e, k) ==> Lookup(r.value.ports, x) == Lookup(Apply(base, ld.value).value, x)))
  {
    var w, layer := WiresOf(e), e.layers[k];
    LayersAreAhead(e, k);
    PendingOnLayer(e, net.edges, k);
    FireLayerDelivers(w, net, layer, None);
    FrozenFacts(e, k);
    FrozenUntouched(w, net.active, net.ports, layer, None, UpTo(e, k));
    var ld := LayerDeliveries(w, net.active, net.ports, layer, None);
    if ld.Some? {
      forall x: PortKey ensures x.node !in UpTo(e, k) ==> Lookup(net.ports, x) == Lookup(base, x) {
        NotUpTo(e, k, x.node);
      }
      ApplyAgrees(net.ports, base, ld.value);
      ApplyAgrees(base, net.ports, ld.value);
    }
  }

  lemma NotUpTo(e: Engine, k: nat, n: string)
    requires Compiled(e)
    ensures n in UpTo(e, k) <==> LayeredBefore(e.layers, k + 1, n)
  {
    if LayeredBefore(e.layers, k + 1, n) {
      var j :| j < k + 1 && In(e.layers, j, n);
      UpToHolds(e, k, j, n);
    }
  }

  /** The deliveries counted so far do not change when layer k runs. */
  lemma SendsStay(e: Engine, r: Run, net: Net, inputs: map<string, Value>, k: nat)
    requires Compiled(e) && k < |e.layers| && Fits(e, r) && PendingBeyond(e, r.net.edges, k)
    requires FireLayer(WiresOf(e), r.net.(ports := Fanout(e, r, e.layers[k], r.net.ports)), e.layers[k],
                       None) == Ok(net)
    ensures SendsBefore(e, net.active, net.ports, inputs, k) == SendsBefore(e, r.net.active, r.net.ports, inputs, k)
    ensures LayerDeliveries(WiresOf(e), net.active, net.ports, e.layers[k], None)
         == LayerDeliveries(WiresOf(e), r.net.active, Fanout(e, r, e.layers[k], r.net.ports), e.layers[k], None)
  {
    var w, layer := WiresOf(e), e.layers[k];
    var mid := r.net.(ports := Fanout(e, r, layer, r.net.ports));
    LayersAreAhead(e, k);
    PendingOnLayer(e, mid.edges, k);
    FireLayerDelivers(w, mid, layer, None);
    LayerDepends(w, net.active, net.ports, mid.active, mid.ports, layer, None);
    FiringAdvances(e, mid, k, None);
    FrozenFacts(e, k);
    FrozenUntouched(w, mid.active, mid.ports, layer, None, UpTo(e, k));
    forall j, n | j < k && In(e.layers, j, n)
      ensures (n in net.active <==> n in r.net.active) && PortsOf(net.ports, n) == PortsOf(r.net.ports, n)
    {
      UpToHolds(e, k, j, n);
      assert n in layer ==> In(e.layers, k, n);
      FanoutElsewhere(e, r, layer, n);
    }
    SendsDepend(e, net.active, net.ports, r.net.active, r.net.ports, inputs, k);
  }

  /** One layer of the loop: the next batch of deliveries, the next base, the next State. */
  lemma ProgressStep(e: Engine, red: Option<Reducer>, seed: Option<Value>, inputs: map<string, Value>,
                     r: Run, k: nat, C: seq<Option<Value>>, ds: seq<Delivery>, base: Ports, s: Run)
      returns (ds': seq<Delivery>, base': Ports)
    requires Compiled(e) && k < |e.layers| && Fits(e, r) && Progress(e, red, seed, inputs, r, k, C, ds, base)
    requires LayerStep(e, red, r, e.layers[k], false) == StepDone(s)
    ensures Fits(e, s) && Progress(e, red, seed, inputs, s, k + 1, C + [s.cell], ds', base')
  {
    hide AnyFails, Staged, Fanout, FireLayer, LayerDeliveries, Apply, Recipients, Entries, FinalPort, SendsBefore;
    hide ReducedCell, PendingBeyond;
    var layer := e.layers[k];
    NonePending(e, r, layer);
    ViewHere(e, r.net, r.cell, r.log, k, C, base);
    var mid := r.net.(ports := Fanout(e, r, layer, r.net.ports));
    FanoutOverlays(e, r, k, C, base);
    FiringExtends(e, mid, k, C, base);
    FiringAdvances(e, mid, k, None);
    SendsStay(e, r, s.net, inputs, k);
    var ld := LayerDeliveries(WiresOf(e), mid.active, mid.ports, layer, None).value;
    ds', base' := ds + ld, Apply(base, ld).value;
    SendsNext(e, s.net.active, s.net.ports, inputs, k);
    ApplyConcat(map[], ds, ld);
    RecipientsConcat(ds, ld);
    BaseGrows(e, k, base, ld);
    var C' := C + [s.cell];
    forall j | 0 <= j <= k ensures LayerHolds(e, red, s.net.active, base', C', j) {
      LayerHoldsStill(e, red, mid.active, base, s.net.active, base', C', k, j);
      if j < k { assert LayerHolds(e, red, mid.active, base, C, j); }
      assert LayerHolds(e, red, mid.active, base, C', j);
    }
    OverlayGrows(e, red, mid, s.net, k, C, C', base, base');
  }

  lemma BaseGrows(e: Engine, k: nat, base: Ports, ld: seq<Delivery>)
    requires Apply(base, ld).Some? && forall n :: n in UpTo(e, k) ==> n !in Recipients(ld)
    ensures forall n :: n in UpTo(e, k) ==> PortsOf(base, n) == PortsOf(Apply(base, ld).value, n)
  {
    forall n | n in UpTo(e, k)
      ensures PortsOf(base, n) == PortsOf(Apply(base, ld).value, n)
    {
      ApplyFrame(base, ld, n);
    }
  }

  lemma OverlayGrows(e: Engine, red: Option<Reducer>, mid: Net, net: Net, k: nat, C: seq<Option<Value>>,
      C': seq<Option<Value>>, base: Ports, base': Ports)
    requires Compiled(e) && k < |e.layers| && |C| == k + 1 && |C'| == k + 2 && C' == C + [C'[k + 1]]
    requires FannedOut(e, mid, k, C, base)
    requires forall n :: n in UpTo(e, k) ==> (n in mid.active <==> n in net.active) && PortsOf(base, n) == PortsOf(base', n)
    requires forall x: PortKey :: x.node in UpTo(e, k) ==> Lookup(net.ports, x) == Lookup(mid.ports, x)
    requires forall x: PortKey :: x.node !in UpTo(e, k) ==> Lookup(net.ports, x) == Lookup(base', x)
    ensures Overlaid(e, net, k + 1, C', base')
  {
    forall j, x: PortKey | j < k + 1 && In(e.layers, j, x.node)
      ensures Lookup(net.ports, x) == FinalPort(e, net.active, base', C'[j], x)
    {
      UpToHolds(e, k, j, x.node);
      LayerHoldsStill(e, red, mid.active, base, net.active, base', C', k, j);
    }
    forall x: PortKey | !LayeredBefore(e.layers, k + 1, x.node) ensures Lookup(net.ports, x) == Lookup(base', x) {
      NotUpTo(e, k, x.node);
    }
  }

  // ---------------------------------------------------------------- a finished run solves the equations

  lemma {:induction false} LoopSolves(e: Engine, red: Option<Reducer>, seed: Option<Value>, inputs: map<string, Value>,
                                      r: Run, k: nat, C: seq<Option<Value>>, ds: seq<Delivery>, base: Ports)
      returns (C': seq<Option<Value>>)
    requires Compiled(e) && k <= |e.layers| && Fits(e, r) && Progress(e, red, seed, inputs, r, k, C, ds, base)
    ensures var f := RunFrom(e, red, r, k, false);
            f.Finished? ==> Solution(e, red, seed, inputs, f.run.net.active, f.run.net.ports, C') && C'[|e.layers|] == f.run.cell
                            && PendingBeyond(e, f.run.net.edges, |e.layers|)
    decreases |e.layers| - k
  {
    hide LayerStep, RunFrom, PendingBeyond;
    C' := C;
    RunStep(e, red, r, k, false);
    if k < |e.layers| {
      match LayerStep(e, red, r, e.layers[k], false)
      case StepDone(s) =>
        var ds', base' := ProgressStep(e, red, seed, inputs, r, k, C, ds, base, s);
        C' := LoopSolves(e, red, seed, inputs, s, k + 1, C + [s.cell], ds', base');
      case StepFailed(_) =>
      case StepSuspended(_, _, _) =>
    } else {
      ProgressIsSolution(e, red, seed, inputs, r, C, ds, base);
    }
  }

  lemma ProgressIsSolution(e: Engine, red: Option<Reducer>, seed: Option<Value>, inputs: map<string, Value>,
                           r: Run, C: seq<Option<Value>>, ds: seq<Delivery>, base: Ports)
    requires Compiled(e) && Progress(e, red, seed, inputs, r, |e.layers|, C, ds, base)
    ensures Solution(e, red, seed, inputs, r.net.active, r.net.ports, C)
  {
    forall x: PortKey | !Layered(e.layers, x.node) ensures Lookup(r.net.ports, x) == Lookup(base, x) {
      BeforeIsLayered(e.layers, |e.layers|, x.node);
    }
    forall k | 0 <= k < |e.layers|
      ensures !AnyFails(e, View(r.net.active, base, C[k]), e.layers[k], false)
      ensures ReducedCell(C[k], Staged(e, View(r.net.active, base, C[k]), e.layers[k]), red) == Ok(C[k + 1])
    {
      assert LayerHolds(e, red, r.net.active, base, C, k);
    }
  }

  /** A finished run's activation, ports and State solve the dataflow equations, and no edge is pending. */
  lemma FinishedRunSolves(e: Engine, red: Option<Reducer>, seed: Option<Value>,
                          inputs: map<string, Value>) returns (C: seq<Option<Value>>)
    requires Compiled(e)
    ensures var f := FreshRun(e, red, seed, inputs, false);
            f.Finished? ==> Solution(e, red, seed, inputs, f.run.net.active, f.run.net.ports, C) && C[|e.layers|] == f.run.cell
                            && PendingBeyond(e, f.run.net.edges, |e.layers|)
  {
    match StartNet(e.flow, inputs)
    case Err(_) => C := [];
    case Ok(net) =>
      ProgressStarts(e, red, seed, inputs, net);
      C := LoopSolves(e, red, seed, inputs, Run(net, seed, []), 0, [seed], StartSends(e.flow, inputs).value, net.ports);
  }

  // ---------------------------------------------------------------- a solution is the finished run

  /** What a solution delivers to the nodes of layer k is what a run that has agreed with it so far was delivered. */
  lemma SolutionDelivers(e: Engine, red: Option<Reducer>, seed: Option<Value>, inputs: map<string, Value>,
                         A: set<string>, F: Ports, C: seq<Option<Value>>, r: Run, k: nat, ds: seq<Delivery>,
                         base: Ports) returns (full: Ports)
    requires Compiled(e) && k < |e.layers| && Fits(e, r) && Solution(e, red, seed, inputs, A, F, C)
    requires Progress(e, red, seed, inputs, r, k, C[..k + 1], ds, base)
    requires AgreeBefore(e, r.net.active, r.net.ports, A, F, k)
    ensures SendsBefore(e, A, F, inputs, |e.layers|).Some?
    ensures Apply(map[], SendsBefore(e, A, F, inputs, |e.layers|).value) == Some(full)
    ensures forall n :: n in e.layers[k] ==> (n in r.net.active <==> n in A) && PortsOf(full, n) == PortsOf(base, n)
  {
    hide AnyFails, Staged, Fanout, Apply, Recipients, Entries, SendsBefore, ReducedCell, PendingBeyond, Extends;
    var dsF := SendsBefore(e, A, F, inputs, |e.layers|).value;
    full := Apply(map[], dsF).value;
    SendsDepend(e, r.net.active, r.net.ports, A, F, inputs, k);
    LaterSends(e, A, F, inputs, k, |e.layers|);
    forall n | n in e.layers[k]
      ensures (n in r.net.active <==> n in A) && PortsOf(full, n) == PortsOf(base, n)
    {
      assert In(e.layers, k, n);
      EarlierSendsDecide(e, dsF, ds, k, n);
    }
  }

  /** Layer k of a solution, written with the ports its deliveries give. */
  lemma SolutionAt(e: Engine, red: Option<Reducer>, seed: Option<Value>, inputs: map<string, Value>,
                   A: set<string>, F: Ports, C: seq<Option<Value>>, full: Ports, k: nat)
    requires Compiled(e) && k < |e.layers| && Solution(e, red, seed, inputs, A, F, C)
    requires SendsBefore(e, A, F, inputs, |e.layers|).Some?
    requires Apply(map[], SendsBefore(e, A, F, inputs, |e.layers|).value) == Some(full)
    ensures LayerHolds(e, red, A, full, C, k)
    ensures forall x: PortKey :: x.node in e.layers[k] ==> Lookup(F, x) == FinalPort(e, A, full, C[k], x)
  {
    hide AnyFails, Staged, Apply, Recipients, Entries, SendsBefore, ReducedCell, FinalPort;
    forall x: PortKey | x.node in e.layers[k] ensures Lookup(F, x) == FinalPort(e, A, full, C[k], x) {
      assert In(e.layers, k, x.node);
    }
  }

  /** A solution restricted to layer k, seen from a run that has agreed with it so far. */
  lemma SolutionHere(e: Engine, red: Option<Reducer>, seed: Option<Value>, inputs: map<string, Value>,
                     A: set<string>, F: Ports, C: seq<Option<Value>>, r: Run, k: nat, ds: seq<Delivery>, base: Ports)
    requires Compiled(e) && k < |e.layers| && Fits(e, r) && Solution(e, red, seed, inputs, A, F, C)
    requires Progress(e, red, seed, inputs, r, k, C[..k + 1], ds, base)
    requires AgreeBefore(e, r.net.active, r.net.ports, A, F, k)
    ensures !AnyFails(e, r, e.layers[k], false)
    ensures ReducedCell(r.cell, Staged(e, r, e.layers[k]), red) == Ok(C[k + 1])
    ensures forall n :: n in e.layers[k] ==> (n in r.net.active <==> n in A)
    ensures forall n :: n in e.layers[k] ==> PortsOf(Fanout(e, r, e.layers[k], r.net.ports), n) == PortsOf(F, n)
  {
    hide Solution, AgreeBefore, AnyFails, Staged, Fanout, Apply, Recipients, Entries, SendsBefore, ReducedCell;
    hide PendingBeyond, Overlaid, FinalPort;
    SolutionLength(e, red, seed, inputs, A, F, C);
    var layer := e.layers[k];
    var full := SolutionDelivers(e, red, seed, inputs, A, F, C, r, k, ds, base);
    SolutionAt(e, red, seed, inputs, A, F, C, full, k);
    ViewHere(e, r.net, r.cell, r.log, k, C[..k + 1], base);
    SameView(e, View(r.net.active, base, C[k]), View(A, full, C[k]), layer);
    FanoutOverlays(e, r, k, C[..k + 1], base);
    forall n | n in layer ensures PortsOf(Fanout(e, r, layer, r.net.ports), n) == PortsOf(F, n) {
      FanoutMeets(e, r, A, F, C, full, k, base, n);
    }
  }

  /** A node of layer k holds after the fanout what the solution holds on it. */
  lemma FanoutMeets(e: Engine, r: Run, A: set<string>, F: Ports, C: seq<Option<Value>>, full: Ports, k: nat,
                    base: Ports, n: string)
    requires Compiled(e) && k < |e.layers| && k + 1 <= |C| && n in e.layers[k]
    requires forall m :: m in e.layers[k] ==> (m in r.net.active <==> m in A) && PortsOf(full, m) == PortsOf(base, m)
    requires FannedOut(e, r.net.(ports := Fanout(e, r, e.layers[k], r.net.ports)), k, C[..k + 1], base)
    requires forall x: PortKey :: x.node in e.layers[k] ==> Lookup(F, x) == FinalPort(e, A, full, C[k], x)
    ensures PortsOf(Fanout(e, r, e.layers[k], r.net.ports), n) == PortsOf(F, n)
  {
    hide Fanout, PortsOf, Lookup, FinalPort;
    SameFinals(e, r.net.active, base, A, full, C[k], e.layers[k]);
    var after := Fanout(e, r, e.layers[k], r.net.ports);
    forall x: PortKey | x.node == n ensures Lookup(after, x) == Lookup(F, x) {
      assert In(e.layers, k, x.node) && C[..k + 1][k] == C[k];
    }
    SamePortsOf(after, F, n);
  }

  /** The layer then fires, because the solution's deliveries can be made. */
  lemma SolutionFires(e: Engine, red: Option<Reducer>, seed: Option<Value>, inputs: map<string, Value>,
                      A: set<string>, F: Ports, C: seq<Option<Value>>, r: Run, k: nat, ds: seq<Delivery>, base: Ports)
    requires Compiled(e) && k < |e.layers| && Fits(e, r) && Solution(e, red, seed, inputs, A, F, C)
    requires Progress(e, red, seed, inputs, r, k, C[..k + 1], ds, base)
    requires AgreeBefore(e, r.net.active, r.net.ports, A, F, k)
    ensures FireLayer(WiresOf(e), r.net.(ports := Fanout(e, r, e.layers[k], r.net.ports)), e.layers[k], None).Ok?
  {
    hide AnyFails, Staged, Fanout, FireLayer, Apply, Recipients, Entries, SendsBefore, LayerDeliveries, FinalPort;
    hide ReducedCell, PendingBeyond;
    var layer := e.layers[k];
    var mid := r.net.(ports := Fanout(e, r, layer, r.net.ports));
    SolutionHere(e, red, seed, inputs, A, F, C, r, k, ds, base);
    SendsDepend(e, r.net.active, r.net.ports, A, F, inputs, k);
    LayerDepends(WiresOf(e), mid.active, mid.ports, A, F, layer, None);
    SendsNext(e, A, F, inputs, k);
    LaterSends(e, A, F, inputs, k + 1, |e.layers|);
    var ld := LayerDeliveries(WiresOf(e), mid.active, mid.ports, layer, None).value;
    PrefixApplies(e, SendsBefore(e, A, F, inputs, |e.layers|).value, ds + ld, k + 1);
    ApplyConcat(map[], ds, ld);
    FanoutOverlays(e, r, k, C[..k + 1], base);
    FiringExtends(e, mid, k, C[..k + 1], base);
  }

  lemma PrefixApplies(e: Engine, ds: seq<Delivery>, part: seq<Delivery>, k: nat)
    requires Extends(e, ds, part, k) && Apply(map[], ds).Some?
    ensures Apply(map[], part).Some?
  {
    var rest :| ds == part + rest && forall n :: n in UpTo(e, k) ==> n !in Recipients(rest);
    ApplyConcat(map[], part, rest);
  }

  lemma AgreeNext(e: Engine, r: Run, net: Net, A: set<string>, F: Ports, k: nat)
    requires Compiled(e) && k < |e.layers| && Fits(e, r) && PendingBeyond(e, r.net.edges, k)
    requires AgreeBefore(e, r.net.active, r.net.ports, A, F, k)
    requires forall n :: n in e.layers[k] ==> (n in r.net.active <==> n in A) && PortsOf(Fanout(e, r, e.layers[k], r.net.ports), n) == PortsOf(F, n)
    requires FireLayer(WiresOf(e), r.net.(ports := Fanout(e, r, e.layers[k], r.net.ports)), e.layers[k],
                       None) == Ok(net)
    ensures AgreeBefore(e, net.active, net.ports, A, F, k + 1)
  {
    hide Fanout, FireLayer, PendingBeyond, Recipients, LayerDeliveries, Apply, StatesAfter, PortsOf;
    var w, layer := WiresOf(e), e.layers[k];
    var mid := r.net.(ports := Fanout(e, r, layer, r.net.ports));
    LayersAreAhead(e, k);
    FiringAdvances(e, mid, k, None);
    PendingOnLayer(e, mid.edges, k);
    FireLayerDelivers(w, mid, layer, None);
    FrozenFacts(e, k);
    FrozenUntouched(w, mid.active, mid.ports, layer, None, UpTo(e, k));
    forall j, n | j < k + 1 && In(e.layers, j, n)
      ensures (n in net.active <==> n in A) && PortsOf(net.ports, n) == PortsOf(F, n)
    {
      UpToHolds(e, k, j, n);
      assert n in layer ==> In(e.layers, k, n);
      if j < k { FanoutElsewhere(e, r, layer, n); }
    }
  }

  lemma {:induction false} LoopFollows(e: Engine, red: Option<Reducer>, seed: Option<Value>, inputs: map<string, Value>,
                                       A: set<string>, F: Ports, C: seq<Option<Value>>, r: Run, k: nat,
                                       ds: seq<Delivery>, base: Ports)
    requires Compiled(e) && k <= |e.layers| && Fits(e, r) && Solution(e, red, seed, inputs, A, F, C)
    requires Progress(e, red, seed, inputs, r, k, C[..k + 1], ds, base)
    requires AgreeBefore(e, r.net.active, r.net.ports, A, F, k)
    ensures var f := RunFrom(e, red, r, k, false);
            f.Finished? && f.run.net.active == A && f.run.net.ports == F && f.run.cell == C[|e.layers|]
    decreases |e.layers| - k
  {
    hide LayerStep, RunFrom, PendingBeyond, Solution, Progress, AgreeBefore, AnyFails, FireLayer, Fanout;
    RunStep(e, red, r, k, false);
    SolutionLength(e, red, seed, inputs, A, F, C);
    if k < |e.layers| {
      var layer := e.layers[k];
      SolutionHere(e, red, seed, inputs, A, F, C, r, k, ds, base);
      SolutionFires(e, red, seed, inputs, A, F, C, r, k, ds, base);
      NonePending(e, r, layer);
      StepGoesOn(e, red, r, layer);
      var s := LayerStep(e, red, r, layer, false).run;
      var ds', base' := ProgressStep(e, red, seed, inputs, r, k, C[..k + 1], ds, base, s);
      assert C[..k + 1] + [C[k + 1]] == C[..k + 2];
      ProgressPending(e, red, seed, inputs, r, k, C[..k + 1], ds, base);
      AgreeNext(e, r, s.net, A, F, k);
      LoopFollows(e, red, seed, inputs, A, F, C, s, k + 1, ds', base');
    } else {
      EndsTheSame(e, red, seed, inputs, A, F, C, r, ds, base);
    }
  }

  lemma SolutionLength(e: Engine, red: Option<Reducer>, seed: Option<Value>, inputs: map<string, Value>,
      A: set<string>, F: Ports, C: seq<Option<Value>>)
    requires Solution(e, red, seed, inputs, A, F, C)
    ensures |C| == |e.layers| + 1
  {
  }

  lemma ProgressPending(e: Engine, red: Option<Reducer>, seed: Option<Value>, inputs: map<string, Value>,
                        r: Run, k: nat, C: seq<Option<Value>>, ds: seq<Delivery>, base: Ports)
    requires k <= |e.layers| && Progress(e, red, seed, inputs, r, k, C, ds, base)
    ensures PendingBeyond(e, r.net.edges, k)
  {
  }

  lemma StepGoesOn(e: Engine, red: Option<Reducer>, r: Run, layer: seq<string>)
    requires Fits(e, r) && !AnyFails(e, r, layer, false) && Pendings(e, r, layer, false) == []
    requires ReducedCell(r.cell, Staged(e, r, layer), red).Ok?
    requires FireLayer(WiresOf(e), r.net.(ports := Fanout(e, r, layer, r.net.ports)), layer, None).Ok?
    ensures var s := LayerStep(e, red, r, layer, false);
            && s.StepDone? && s.run.cell == ReducedCell(r.cell, Staged(e, r, layer), red).value
            && FireLayer(WiresOf(e), r.net.(ports := Fanout(e, r, layer, r.net.ports)), layer, None) == Ok(s.run.net)
  {
    hide AnyFails, Pendings, Fanout, Staged, FireLayer, ReducedCell;
  }

  lemma EndsTheSame(e: Engine, red: Option<Reducer>, seed: Option<Value>, inputs: map<string, Value>,
                    A: set<string>, F: Ports, C: seq<Option<Value>>, r: Run, ds: seq<Delivery>, base: Ports)
    requires Compiled(e) && Solution(e, red, seed, inputs, A, F, C)
    requires Progress(e, red, seed, inputs, r, |e.layers|, C[..|e.layers| + 1], ds, base)
    requires AgreeBefore(e, r.net.active, r.net.ports, A, F, |e.layers|)
    ensures r.net.active == A && r.net.ports == F && r.cell == C[|e.layers|]
  {
    SendsDepend(e, r.net.active, r.net.ports, A, F, inputs, |e.layers|);
    forall x: PortKey ensures Lookup(r.net.ports, x) == Lookup(F, x) {
      if Layered(e.layers, x.node) {
        var k: int :| In(e.layers, k, x.node);
        LookupsOf(r.net.ports, F, x.node);
      } else {
        BeforeIsLayered(e.layers, |e.layers|, x.node);
      }
    }
    SameLookups(r.net.ports, F);
  }

  /** Nothing else solves the equations: a solution is the result of the run, which therefore finishes. */
  lemma SolutionIsTheRun(e: Engine, red: Option<Reducer>, seed: Option<Value>, inputs: map<string, Value>,
                         A: set<string>, F: Ports, C: seq<Option<Value>>)
    requires Compiled(e) && Solution(e, red, seed, inputs, A, F, C)
    ensures var f := FreshRun(e, red, seed, inputs, false);
            f.Finished? && f.run.net.active == A && f.run.net.ports == F && f.run.cell == C[|e.layers|]
  {
    SolutionShape(e, red, seed, inputs, A, F, C);
    hide Solution, Compiled, Progress, RunFrom, SendsBefore;
    LaterSends(e, A, F, inputs, 0, |e.layers|);
    PrefixApplies(e, SendsBefore(e, A, F, inputs, |e.layers|).value, SendsBefore(e, A, F, inputs, 0).value, 0);
    StartDelivers(e.flow, inputs);
    var net := StartNet(e.flow, inputs).value;
    ProgressStarts(e, red, seed, inputs, net);
    assert C[..1] == [seed];
    LoopFollows(e, red, seed, inputs, A, F, C, Run(net, seed, []), 0, StartSends(e.flow, inputs).value, net.ports);
  }

  lemma SolutionShape(e: Engine, red: Option<Reducer>, seed: Option<Value>, inputs: map<string, Value>,
                      A: set<string>, F: Ports, C: seq<Option<Value>>)
    requires Solution(e, red, seed, inputs, A, F, C)
    ensures |C| == |e.layers| + 1 && C[0] == seed && SendsBefore(e, A, F, inputs, |e.layers|).Some?
    ensures Apply(map[], SendsBefore(e, A, F, inputs, |e.layers|).value).Some?
    ensures SendsBefore(e, A, F, inputs, 0) == StartSends(e.flow, inputs)
  {
  }
}
