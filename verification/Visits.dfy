/** Exactly-once execution, over one run or any chain of resumed legs. */
module Visiting {
  import opened Prelude
  import opened FlowIr
  import opened Topology
  import opened Layering
  import opened Wiring
  import opened State
  import opened LayeredEngine
  import opened Resume
  import opened Legs
  import opened Resumption
  import opened LegChain

  function NodeOf(v: Visit): string { v.node }

  function Nodes(log: seq<Visit>): (r: seq<string>)
    ensures |r| == |log| && forall i :: 0 <= i < |r| ==> r[i] == log[i].node
  {
    seq(|log|, i requires 0 <= i < |log| => log[i].node)
  }

  function Flat(layers: seq<seq<string>>): seq<string> {
    if layers == [] then [] else layers[0] + Flat(layers[1..])
  }

  lemma {:induction false} FlatMember(layers: seq<seq<string>>, n: string)
    ensures n in Flat(layers) <==> Layered(layers, n)
  {
    if layers != [] {
      FlatMember(layers[1..], n);
      forall k ensures In(layers, k, n) <==> (k == 0 && n in layers[0]) || In(layers[1..], k - 1, n) {}
      if Layered(layers[1..], n) {
        var k: int :| In(layers[1..], k, n);
        assert In(layers, k + 1, n);
      }
      if n in layers[0] { assert In(layers, 0, n); }
      if Layered(layers, n) {
        var k: int :| In(layers, k, n);
        assert k == 0 || In(layers[1..], k - 1, n);
      }
    }
  }

  lemma {:induction false} FlatDistinct(layers: seq<seq<string>>)
    requires Disjoint(layers)
    ensures Distinct(Flat(layers))
  {
    if layers != [] {
      var first, rest := layers[0], layers[1..];
      forall k, n ensures In(rest, k, n) <==> In(layers, k + 1, n) && k >= 0 {}
      forall j, k, n | In(rest, j, n) && In(rest, k, n) ensures j == k {
        assert In(layers, j + 1, n) && In(layers, k + 1, n);
      }
      assert Disjoint(rest);
      FlatDistinct(rest);
      assert Distinct(first) by { assert layers[0] == first; }
      forall n | n in first && n in Flat(rest) ensures false {
        FlatMember(rest, n);
        var k: int :| In(rest, k, n);
        assert In(layers, 0, n) && In(layers, k + 1, n);
      }
      DistinctConcat(first, Flat(rest));
    }
  }

  lemma DistinctConcat(a: seq<string>, b: seq<string>)
    requires Distinct(a) && Distinct(b) && forall n :: n in a ==> n !in b
    ensures Distinct(a + b)
  {
    forall i, j | 0 <= i < j < |a + b| ensures (a + b)[i] != (a + b)[j] {
      if i < |a| <= j {
        assert a[i] in a && b[j - |a|] in b;
      }
    }
  }

  lemma {:induction false} FlatConcat(a: seq<seq<string>>, b: seq<seq<string>>)
    ensures Flat(a + b) == Flat(a) + Flat(b)
  {
    if a == [] {
      assert a + b == b;
    } else {
      assert (a + b)[1..] == a[1..] + b;
      FlatConcat(a[1..], b);
    }
  }

  /** A run from layer k on visits the nodes of its layers, layer by layer, once each, up to the layer it
      suspends in. */
  lemma {:induction false} LogOfRun(e: Engine, red: Option<Reducer>, r: Run, k: nat, checkpoint: bool)
    requires Fits(e, r) && k <= |e.layers|
    ensures var f := RunFrom(e, red, r, k, checkpoint);
            && (f.Finished? ==> Nodes(f.run.log) == Nodes(r.log) + Flat(e.layers[k..]))
            && (f.Suspended? ==> Nodes(f.run.log) == Nodes(r.log) + Flat(e.layers[k..f.layer + 1]))
    decreases |e.layers| - k
  {
    hide RunFrom, LayerStep;
    RunStep(e, red, r, k, checkpoint);
    if k < |e.layers| {
      StepLog(e, red, r, e.layers[k], checkpoint);
      match LayerStep(e, red, r, e.layers[k], checkpoint)
      case StepFailed(_) =>
      case StepSuspended(_, _, _) => NextLayer(e.layers, k, k + 1, Nodes(r.log));
      case StepDone(s) =>
        LogOfRun(e, red, s, k + 1, checkpoint);
        var f := RunFrom(e, red, s, k + 1, checkpoint);
        if !f.Failed? { NextLayer(e.layers, k, if f.Finished? then |e.layers| else f.layer + 1, Nodes(r.log)); }
    }
  }

  lemma StepLog(e: Engine, red: Option<Reducer>, r: Run, layer: seq<string>, checkpoint: bool)
    requires Fits(e, r)
    ensures var s := LayerStep(e, red, r, layer, checkpoint);
            !s.StepFailed? ==> Nodes(s.run.log) == Nodes(r.log) + layer
  {
    hide LayerStep, Barrier, FireLayer, AnyFails, Pendings;
    StepCases(e, red, r, layer, checkpoint);
    BarrierLog(e, red, r, layer);
    assert Nodes(r.log + Visits(layer, r.net.active)) == Nodes(r.log) + layer;
  }

  lemma NextLayer(layers: seq<seq<string>>, k: nat, upto: nat, log: seq<string>)
    requires k < upto <= |layers|
    ensures log + Flat(layers[k..upto]) == (log + layers[k]) + Flat(layers[k + 1..upto])
    ensures layers[k..|layers|] == layers[k..] && layers[k + 1..|layers|] == layers[k + 1..]
    ensures Flat(layers[k + 1..k + 1]) == []
  {
    assert layers[k..upto][1..] == layers[k + 1..upto] && layers[k..upto][0] == layers[k];
  }

  lemma BarrierLog(e: Engine, red: Option<Reducer>, r: Run, layer: seq<string>)
    ensures var b := Barrier(e, red, r, layer); b.Ok? ==> b.value.log == r.log + Visits(layer, r.net.active)
  {
  }

  /** Each declared node appears exactly once in the log: run once or skipped once. */
  ghost predicate VisitedOnce(f: Flow, log: seq<Visit>) {
    && Distinct(Nodes(log))
    && (forall n :: n in Nodes(log) <==> n in Ids(f))
  }

  lemma RunVisitsOnce(e: Engine, red: Option<Reducer>, cell: Option<Value>, inputs: map<string, Value>,
                      checkpoint: bool)
    requires IsLayering(Ids(e.flow), Arcs(e.flow), e.layers)
    ensures var f := FreshRun(e, red, cell, inputs, checkpoint); f.Finished? ==> VisitedOnce(e.flow, f.run.log)
  {
    match StartNet(e.flow, inputs)
    case Err(_) =>
    case Ok(n) =>
      var r := Run(n, cell, []);
      LogOfRun(e, red, r, 0, checkpoint);
      assert e.layers[0..] == e.layers;
      assert Nodes([]) + Flat(e.layers) == Flat(e.layers);
      FlatDistinct(e.layers);
      forall n { FlatMember(e.layers, n); }
  }

  /** What the log of all legs so far holds: the layers up to the one suspended in, or all of them. */
  ghost predicate LogOk(e: Engine, leg: Leg) {
    match leg
    case LegSuspended(cp, log) => cp.suspendLayer < |e.layers| && Nodes(log) == Flat(e.layers[..cp.suspendLayer + 1])
    case LegDone(r, _) => Nodes(r.log) == Flat(e.layers)
    case LegFailed(_) => true
  }

  lemma ConcludeLog(e: Engine, c: Codec, red: Option<Reducer>, runId: string, r: Run, k: nat,
                    inputs: map<string, Value>)
    requires Fits(e, r) && k <= |e.layers| && Nodes(r.log) == Flat(e.layers[..k])
    ensures LogOk(e, Conclude(e, c, runId, RunFrom(e, red, r, k, true), inputs))
  {
    hide RunFrom;
    LogOfRun(e, red, r, k, true);
    var f := RunFrom(e, red, r, k, true);
    if !f.Failed? {
      var upto := if f.Finished? then |e.layers| else f.layer + 1;
      FlatConcat(e.layers[..k], e.layers[k..upto]);
      assert e.layers[..k] + e.layers[k..upto] == e.layers[..upto];
      assert e.layers[..|e.layers|] == e.layers && e.layers[k..|e.layers|] == e.layers[k..];
    }
  }

  lemma FirstLog(e: Engine, c: Codec, red: Option<Reducer>, seed: Option<Value>, runId: string,
                 inputs: map<string, Value>)
    ensures LogOk(e, FirstLeg(e, c, red, seed, runId, inputs))
  {
    match StartNet(e.flow, inputs)
    case Err(_) =>
    case Ok(n) => ConcludeLog(e, c, red, runId, Run(n, seed, []), 0, inputs);
  }

  lemma ResumeLog(e: Engine, c: Codec, runId: string, leg: Leg, call: Call)
    requires leg.LegSuspended? && LogOk(e, leg)
    ensures LogOk(e, ResumeCall(e, c, runId, leg, call))
  {
    hide RunFrom, ResumeNet, Conclude, RestoreCell, Admits;
    var cp, ports, cell := leg.cp, DecodeAll(c, leg.cp.ports), RestoreCell(c, leg.cp, call.seed);
    if ports.Some? && cell.Ok? && |cp.edges| == |e.flow.edges| {
      var late := ResumeNet(WiresOf(e), Net(cp.active, ports.value, cp.edges), cp.node, call.human);
      if late.Ok? {
        ConcludeLog(e, c, call.red, runId, Run(late.value, cell.value, leg.log), cp.suspendLayer + 1, map[]);
      }
    }
  }

  lemma {:induction false} LegsLog(e: Engine, c: Codec, runId: string, leg: Leg, calls: seq<Call>)
    requires LogOk(e, leg)
    ensures LogOk(e, LegAfter(e, c, runId, leg, calls))
    decreases |calls|
  {
    hide LogOk, ResumeCall;
    if calls != [] && leg.LegSuspended? {
      ResumeLog(e, c, runId, leg, calls[0]);
      LegsLog(e, c, runId, ResumeCall(e, c, runId, leg, calls[0]), calls[1..]);
    }
  }

  /** Exactly once so far: the nodes of the layers up to the suspend layer, and no others, each once; at the
      end every declared node. */
  ghost predicate VisitedSoFar(e: Engine, leg: Leg) {
    match leg
    case LegSuspended(cp, log) =>
      Distinct(Nodes(log)) && forall n :: n in Nodes(log) <==> LayeredBefore(e.layers, cp.suspendLayer + 1, n)
    case LegDone(r, _) => VisitedOnce(e.flow, r.log)
    case LegFailed(_) => true
  }

  /** Exactly once across legs, whatever the codec does and the callers pass: counting all legs together, a
      node is run at most once, and run or skipped exactly once when its layer has been passed. */
  lemma LegsVisitOnce(e: Engine, c: Codec, red: Option<Reducer>, seed: Option<Value>, runId: string,
                      inputs: map<string, Value>,
                      calls: seq<Call>)
    requires IsLayering(Ids(e.flow), Arcs(e.flow), e.layers)
    ensures VisitedSoFar(e, LegAfter(e, c, runId, FirstLeg(e, c, red, seed, runId, inputs), calls))
  {
    hide LegAfter, FirstLeg;
    FirstLog(e, c, red, seed, runId, inputs);
    LegsLog(e, c, runId, FirstLeg(e, c, red, seed, runId, inputs), calls);
    match LegAfter(e, c, runId, FirstLeg(e, c, red, seed, runId, inputs), calls)
    case LegSuspended(cp, _) => PrefixOnce(e, cp.suspendLayer + 1);
    case LegDone(_, _) =>
      FlatDistinct(e.layers);
      forall n { FlatMember(e.layers, n); }
    case LegFailed(_) =>
  }

  lemma PrefixOnce(e: Engine, j: nat)
    requires Disjoint(e.layers) && j <= |e.layers|
    ensures Distinct(Flat(e.layers[..j])) && forall n :: n in Flat(e.layers[..j]) <==> LayeredBefore(e.layers, j, n)
  {
    var some := e.layers[..j];
    forall k, n ensures In(some, k, n) <==> k < j && In(e.layers, k, n) {}
    FlatDistinct(some);
    forall n ensures n in Flat(some) <==> LayeredBefore(e.layers, j, n) {
      FlatMember(some, n);
      if Layered(some, n) { var k: int :| In(some, k, n); assert In(e.layers, k, n); }
      if LayeredBefore(e.layers, j, n) { var k: int :| k < j && In(e.layers, k, n); assert In(some, k, n); }
    }
  }

  /** With a store, no layer of a compiled engine ever collects two pending interrupts, so a run never
      fails with ErrMultipleInterrupts or ErrNoCheckpointStore. */
  lemma {:induction false} InterruptErrorsUnreachable(e: Engine, red: Option<Reducer>, r: Run, k: nat, checkpoint: bool)
    requires Compiled(e) && e.hasStore && Fits(e, r)
    ensures var f := RunFrom(e, red, r, k, checkpoint);
            f.Failed? ==> !f.error.MultipleInterrupts? && !f.error.NoCheckpointStore?
    decreases |e.layers| - k
  {
    hide RunFrom, Barrier, FireLayer, AnyFails;
    RunStep(e, red, r, k, checkpoint);
    if k < |e.layers| {
      if checkpoint { OnePending(e, r, e.layers[k]); } else { NonePending(e, r, e.layers[k]); }
      BarrierErrors(e, red, r, e.layers[k]);
      match LayerStep(e, red, r, e.layers[k], checkpoint)
      case StepFailed(_) =>
      case StepSuspended(_, _, _) =>
      case StepDone(s) => InterruptErrorsUnreachable(e, red, s, k + 1, checkpoint);
    }
  }

  lemma BarrierErrors(e: Engine, red: Option<Reducer>, r: Run, layer: seq<string>)
    ensures var b := Barrier(e, red, r, layer); b.Err? ==> b.error.StateFailed?
  {
  }
}
