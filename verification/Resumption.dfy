/** The theorem about suspend/resume: however often a run is interrupted, checkpointed and resumed, the
    chain of legs ends as one uninterrupted run ends in which every interrupt node returned its human
    input. */
module Resumption {
  import opened Prelude
  import opened FlowIr
  import opened Layering
  import opened Wiring
  import opened State
  import opened LayeredEngine
  import opened Resume
  import opened Legs

  // ---------------------------------------------------------------- one leg

  /** One leg against the uninterrupted run from an agreeing state: the leg's failure is the run's, its end
      is the run's end, and where it suspends, resuming with the human's answer fails exactly when the run
      does or reaches a state that agrees with the run again (`next`). */
  lemma {:induction false} LegAgainstRun(e: Engine, red: Option<Reducer>, human: string -> map<string, Value>, a: Run,
                                         b: Run, k: nat)
      returns (next: Run)
    requires Compiled(e) && e.hasStore && AnswersLast(e) && Same(e, a, b, k) && k <= |e.layers|
    requires Fits(e, a) && Fits(Answered(e, human), b)
    ensures var f, g := RunFrom(e, red, a, k, true), RunFrom(Answered(e, human), red, b, k, false);
            && (f.Failed? ==> g.Failed?)
            && (f.Finished? ==> g.Finished? && Same(e, f.run, g.run, |e.layers|))
            && (f.Suspended? ==> Fits(e, f.run) && Rejoins(e, red, human, f, g, next))
    decreases |e.layers| - k
  {
    hide RunFrom, LayerStep, Barrier, FireLayer, Same, ResumeNet, Pendings, AnyFails, Answered, Compiled, AnswersLast;
    next := a;
    RunStep(e, red, a, k, true);
    RunStep(Answered(e, human), red, b, k, false);
    SameLayers(e, human);
    if k < |e.layers| {
      var layer := e.layers[k];
      SameMeans(e, a, b, k);
      AnsweredLayer(e, human, a, b, layer);
      StepCases(e, red, a, layer, true);
      StepCases(Answered(e, human), red, b, layer, false);
      if !AnyFails(e, a, layer, true) {
        BarriersAgree(e, red, human, a, b, k);
        if Barrier(e, red, a, layer).Ok? {
          var x, y := Barrier(e, red, a, layer).value, Barrier(Answered(e, human), red, b, layer).value;
          var pending := Pendings(e, a, layer, true);
          if pending == [] {
            QuietLayer(e, red, human, a, b, k, x, y);
            var f := FireLayer(WiresOf(e), x.net, layer, None);
            if f.Ok? {
              var g := FireLayer(WiresOf(e), y.net, layer, None);
              SameMeans(e, x.(net := f.value), y.(net := g.value), k + 1);
              next := LegAgainstRun(e, red, human, x.(net := f.value), y.(net := g.value), k + 1);
            }
          } else {
            var p := pending[0];
            assert pending == [p];
            InterruptedLayer(e, red, human, a, b, k, p, x, y);
            var f := FireLayer(WiresOf(e), x.net, layer, Some(p));
            if f.Ok? {
              var g := FireLayer(WiresOf(e), y.net, layer, None);
              if g.Ok? {
                next := y.(net := g.value);
                var late := ResumeNet(WiresOf(e), f.value, p, human(p));
                SameMeans(e, x.(net := late.value), next, k + 1);
              }
            }
          }
        }
      }
    }
  }

  ghost predicate Rejoins(e: Engine, red: Option<Reducer>, human: string -> map<string, Value>, f: Final, g: Final,
                          next: Run)
    requires f.Suspended? && Fits(e, f.run)
  {
    var late := ResumeNet(WiresOf(e), f.run.net, f.node, human(f.node));
    && (late.Err? ==> g.Failed?)
    && (late.Ok? ==> && Same(e, f.run.(net := late.value), next, f.layer + 1) && Fits(e, next)
                     && g == RunFrom(Answered(e, human), red, next, f.layer + 1, false))
  }

  lemma SameLayers(e: Engine, human: string -> map<string, Value>)
    ensures Answered(e, human).layers == e.layers && Answered(e, human).flow == e.flow
    ensures WiresOf(Answered(e, human)) == WiresOf(e)
    ensures forall r :: Fits(Answered(e, human), r) <==> Fits(e, r)
  {
  }

  /** RunFrom, one step. */
  lemma RunStep(e: Engine, red: Option<Reducer>, r: Run, k: nat, checkpoint: bool)
    requires Fits(e, r)
    ensures k >= |e.layers| ==> RunFrom(e, red, r, k, checkpoint) == Finished(r)
    ensures k < |e.layers| ==>
              RunFrom(e, red, r, k, checkpoint) ==
              match LayerStep(e, red, r, e.layers[k], checkpoint)
              case StepFailed(x) => Failed(x)
              case StepSuspended(s, n, q) => Suspended(s, k, n, q)
              case StepDone(s) => RunFrom(e, red, s, k + 1, checkpoint)
  {
  }

  /** LayerStep, case by case. */
  lemma StepCases(e: Engine, red: Option<Reducer>, r: Run, layer: seq<string>, checkpoint: bool)
    requires Fits(e, r)
    ensures var s := LayerStep(e, red, r, layer, checkpoint);
            && (AnyFails(e, r, layer, checkpoint) ==> s.StepFailed?)
            && (!AnyFails(e, r, layer, checkpoint) ==>
                  var b := Barrier(e, red, r, layer);
                  && (b.Err? ==> s.StepFailed?)
                  && (b.Ok? ==> Fits(e, b.value) && AfterBarrier(e, r, layer, checkpoint, b.value, s)))
  {
  }

  ghost predicate AfterBarrier(e: Engine, r: Run, layer: seq<string>, checkpoint: bool, b: Run, s: Step)
    requires Fits(e, b)
  {
    var pending := Pendings(e, r, layer, checkpoint);
    if pending == [] then
      var f := FireLayer(WiresOf(e), b.net, layer, None);
      (f.Err? ==> s.StepFailed?) && (f.Ok? ==> s == StepDone(b.(net := f.value)))
    else if !e.hasStore || |pending| > 1 then s.StepFailed?
    else
      var f := FireLayer(WiresOf(e), b.net, layer, Some(pending[0]));
      (f.Err? ==> s.StepFailed?) && (f.Ok? ==> s.StepSuspended? && s.run == b.(net := f.value) && s.node == pending[0])
  }

  // ---------------------------------------------------------------- through a checkpoint and back

  /** A run seeded with a State never commits nil in its place. Nil is the one State a checkpoint does not carry. */
  ghost predicate StateKept(e: Engine, red: Option<Reducer>, seed: Option<Value>) {
    seed.Some? && !seed.value.Nil? ==>
      && (forall n, ports, cell :: n in e.nodes ==> Nil !in e.nodes[n].run(ports, cell).writes)
      && (red.Some? ==> forall prev, ws :: red.value(prev, ws) != Some(Nil))
  }

  /** The run has State exactly when its options ask for it, and that State is nil only if the seed is. */
  ghost predicate CellOk(seed: Option<Value>, cell: Option<Value>) {
    (cell.Some? <==> seed.Some?) && (cell.Some? && cell.value.Nil? ==> seed.value.Nil?)
  }

  lemma {:induction false} DecodeEncoded<K>(c: Codec, m: map<K, Value>)
    requires RoundTrips(c) && EncodeAll(c, m).Some?
    ensures DecodeAll(c, EncodeAll(c, m).value) == Some(m)
  {
    var raw := EncodeAll(c, m).value;
    forall k | k in raw ensures c.decode(raw[k]) == Some(m[k]) {
      assert c.encode(m[k]).Some?;
    }
    assert (map k | k in raw :: c.decode(raw[k]).value) == m;
  }

  /** When a checkpoint restores the State it was taken with. A nil State is not written, so the seed takes its
      place; any other State survives unless the tag guard rejects it, which it does when the seed is of another
      registered type or of none. */
  lemma StateSurvivesExactlyWhen(c: Codec, cp: Checkpoint, cell: Value, seed: Value)
    requires RoundTrips(c) && EncodeState(c, Some(cell)) == Some((cp.state, cp.stateTag))
    ensures RestoreCell(c, cp, Some(seed)) == Ok(Some(cell)) <==>
            if cell.Nil? then seed.Nil? else seed.Nil? || cp.stateTag == "" || c.stateTag(seed) == Some(cp.stateTag)
  {
    if !cell.Nil? {
      assert c.encode(cell).Some?;
      assert c.decode(c.encode(cell).value) == Some(cell);
    }
  }

  /** The State guard stops a resume: the seed is not nil, and of another registered type than the State of the
      checkpoint, or of none. */
  predicate GuardStops(seed: Option<Value>, x: LegError) {
    seed.Some? && !seed.value.Nil? && (x.FlowChanged? || x.NotCheckpointable?)
  }

  /** Resuming a fresh snapshot of s is continuing from s, or the State guard stops it. */
  lemma ResumeFromSnapshot(e: Engine, c: Codec, red: Option<Reducer>, seed: Option<Value>, runId: string,
                           s: Run, j: nat, p: string, q: Request, inputs: map<string, Value>, out: map<string, Value>)
    requires RoundTrips(c) && e.hasStore && p in e.nodes && Fits(e, s) && CellOk(seed, s.cell)
    requires Snapshot(e, c, runId, s, j, p, q, inputs).Some?
    ensures var cp := Snapshot(e, c, runId, s, j, p, q, inputs).value;
            var leg := ResumeLeg(e, c, red, seed, runId, cp, out, s.log);
            match RestoreCell(c, cp, seed)
            case Err(x) => leg == LegFailed(x) && GuardStops(seed, x)
            case Ok(cell) =>
              && cell == s.cell
              && leg == if !(forall k :: k in out ==> k in e.nodes[p].outputs) then LegFailed(InvalidHumanInput)
                        else match ResumeNet(WiresOf(e), s.net, p, out)
                          case Err(x) => LegFailed(RunFailed(FiringFailed(x)))
                          case Ok(n) => Conclude(e, c, runId, RunFrom(e, red, s.(net := n), j + 1, true), map[])
  {
    hide ResumeNet, RunFrom, Conclude, RestoreCell, DecodeAll, EncodeAll, EncodeState, RoundTrips, CellOk;
    var cp := Snapshot(e, c, runId, s, j, p, q, inputs).value;
    DecodeEncoded(c, s.net.ports);
    RestoredCell(c, seed, s.cell, cp);
    assert Net(cp.active, s.net.ports, cp.edges) == s.net;
    if RestoreCell(c, cp, seed).Ok? && forall k :: k in out ==> k in e.nodes[p].outputs {
      match ResumeNet(WiresOf(e), s.net, p, out)
      case Err(_) =>
      case Ok(n) => assert Run(n, s.cell, s.log) == s.(net := n);
    }
  }

  lemma RestoredCell(c: Codec, seed: Option<Value>, cell: Option<Value>, cp: Checkpoint)
    requires RoundTrips(c) && CellOk(seed, cell) && EncodeState(c, cell) == Some((cp.state, cp.stateTag))
    ensures match RestoreCell(c, cp, seed) case Ok(back) => back == cell case Err(x) => GuardStops(seed, x)
  {
    if cell.Some? && seed.Some? {
      StateSurvivesExactlyWhen(c, cp, cell.value, seed.value);
    }
  }

  lemma WritesKept(e: Engine, red: Option<Reducer>, seed: Option<Value>, r: Run, layer: seq<string>)
    requires StateKept(e, red, seed) && seed.Some? && !seed.value.Nil?
    ensures Nil !in Writes(Staged(e, r, layer))
  {
    var staged := Staged(e, r, layer);
    forall n | n in staged ensures staged[n] != Nil {
      var ws := RunNode(e, n, r.net.ports, r.cell).writes;
      assert staged[n] == LastOf(ws) && LastOf(ws) in ws;
    }
    var ids := Listing(staged.Keys);
    forall i | 0 <= i < |Writes(staged)| ensures Writes(staged)[i] != Nil { assert ids[i] in ids; }
  }

  lemma BarrierCell(e: Engine, red: Option<Reducer>, seed: Option<Value>, r: Run, layer: seq<string>)
    requires StateKept(e, red, seed) && CellOk(seed, r.cell)
    ensures var b := Barrier(e, red, r, layer); b.Ok? ==> CellOk(seed, b.value.cell)
  {
    if seed.Some? && !seed.value.Nil? { WritesKept(e, red, seed, r, layer); }
    var ws := Writes(Staged(e, r, layer));
    assert ws != [] ==> ws[0] in ws;
  }

  /** A leg keeps its State and suspends only at nodes that may interrupt. */
  lemma {:induction false} RunCell(e: Engine, red: Option<Reducer>, seed: Option<Value>, r: Run, k: nat)
    requires StateKept(e, red, seed) && CellOk(seed, r.cell) && Fits(e, r)
    ensures var f := RunFrom(e, red, r, k, true);
            && (!f.Failed? ==> CellOk(seed, f.run.cell))
            && (f.Suspended? ==> CanInterrupt(e, f.node) && In(e.layers, f.layer, f.node))
    decreases |e.layers| - k
  {
    hide RunFrom, LayerStep, Barrier, FireLayer, StateKept, CellOk, AnyFails;
    RunStep(e, red, r, k, true);
    if k < |e.layers| {
      var layer := e.layers[k];
      StepCases(e, red, r, layer, true);
      if !AnyFails(e, r, layer, true) {
        BarrierCell(e, red, seed, r, layer);
        var b := Barrier(e, red, r, layer);
        if b.Ok? {
          var pending := Pendings(e, r, layer, true);
          if pending == [] {
            var f := FireLayer(WiresOf(e), b.value.net, layer, None);
            if f.Ok? { RunCell(e, red, seed, b.value.(net := f.value), k + 1); }
          } else {
            assert pending[0] in pending && Suspends(e, r, pending[0], true);
          }
        }
      }
    }
  }

  // ---------------------------------------------------------------- the chain of legs

  /** The reasons a leg can stop that an uninterrupted run does not have. */
  predicate CheckpointOnly(seed: Option<Value>, x: LegError) {
    x.NotCheckpointable? || x.InvalidHumanInput? || GuardStops(seed, x)
  }

  /** How the last leg and the uninterrupted run end. */
  ghost predicate SameEnd(e: Engine, seed: Option<Value>, last: Leg, g: Final)
    requires !last.LegSuspended?
  {
    match last
    case LegDone(r, outputs) =>
      g.Finished? && Same(e, r, g.run, |e.layers|) && Outputs(e.flow, g.run.net) == Ok(outputs)
    case LegFailed(x) =>
      CheckpointOnly(seed, x) || g.Failed? || (g.Finished? && Outputs(e.flow, g.run.net).Err?)
  }

  /** From any agreeing pair of states, driving the legs to the end agrees with the uninterrupted run. */
  lemma {:induction false} DriveAgrees(e: Engine, c: Codec, red: Option<Reducer>, seed: Option<Value>, runId: string,
                                       human: string -> map<string, Value>, a: Run, b: Run, k: nat,
                                       inputs: map<string, Value>)
    requires Compiled(e) && e.hasStore && AnswersLast(e) && RoundTrips(c) && StateKept(e, red, seed)
    requires Same(e, a, b, k) && k <= |e.layers| && Fits(e, a) && Fits(Answered(e, human), b) && CellOk(seed, a.cell)
    ensures SameEnd(e, seed, Drive(e, c, red, seed, runId, human, Conclude(e, c, runId, RunFrom(e, red, a, k, true), inputs)),
                    RunFrom(Answered(e, human), red, b, k, false))
    decreases |e.layers| - k
  {
    hide RunFrom, Answered, ResumeNet, Compiled, AnswersLast, RoundTrips, StateKept, CellOk, ResumeLeg, Snapshot;
    hide Outputs, Same;
    var f, g := RunFrom(e, red, a, k, true), RunFrom(Answered(e, human), red, b, k, false);
    var next := LegAgainstRun(e, red, human, a, b, k);
    RunCell(e, red, seed, a, k);
    var leg := Conclude(e, c, runId, f, inputs);
    match f
    case Failed(_) =>
    case Finished(r) => SameOutputs(e, r, g.run);
    case Suspended(s, j, p, q) =>
      if leg.LegSuspended? {
        var after := ResumeLeg(e, c, red, seed, runId, leg.cp, human(p), s.log);
        SnapshotNode(e, c, runId, s, j, p, q, inputs);
        ResumeFromSnapshot(e, c, red, seed, runId, s, j, p, q, inputs, human(p));
        var late := ResumeNet(WiresOf(e), s.net, p, human(p));
        if late.Ok? && (forall x :: x in human(p) ==> x in e.nodes[p].outputs) {
          SameLayers(e, human);
          DriveAgrees(e, c, red, seed, runId, human, s.(net := late.value), next, j + 1, map[]);
        }
      }
  }

  lemma SnapshotNode(e: Engine, c: Codec, runId: string, r: Run, j: nat, p: string, q: Request,
                     inputs: map<string, Value>)
    ensures var cp := Snapshot(e, c, runId, r, j, p, q, inputs);
            cp.Some? ==> cp.value.node == p && cp.value.suspendLayer == j
  {
  }

  lemma SameOutputs(e: Engine, x: Run, y: Run)
    requires Same(e, x, y, |e.layers|)
    ensures Outputs(e.flow, x.net) == Outputs(e.flow, y.net)
  {
    OutputsDepend(e.flow, x.net, y.net, 0, map[]);
  }

  lemma {:induction false} OutputsDepend(f: Flow, x: Net, y: Net, i: nat, sofar: map<string, Value>)
    requires i <= |f.outputs| && x.active == y.active && x.ports == y.ports
    ensures OutputsFrom(f, x, i, sofar) == OutputsFrom(f, y, i, sofar)
    decreases |f.outputs| - i
  {
    if i < |f.outputs| {
      var ref := f.outputs[i];
      if ref.node !in x.active {
        OutputsDepend(f, x, y, i + 1, sofar);
      } else if PortKey(ref.node, ref.port) in x.ports {
        OutputsDepend(f, x, y, i + 1, sofar[OutputKey(ref) := x.ports[PortKey(ref.node, ref.port)]]);
      }
    }
  }

  /** Multi-leg resume equals one uninterrupted run. Drive a resumable run to its end, answering every
      interrupt, with the State options passed on every leg. If it finishes, the uninterrupted run of the
      answered engine finishes with the same outputs, activation, ports, State and visits. If it fails, then
      for a reason only checkpoints have (an unencodable value, an undeclared human port, a committed State of
      another type than a seed that is not nil), or the uninterrupted run fails too. */
  lemma ResumedEqualsUninterrupted(e: Engine, c: Codec, red: Option<Reducer>, seed: Option<Value>, runId: string,
                                   human: string -> map<string, Value>, inputs: map<string, Value>)
    requires Compiled(e) && e.hasStore && AnswersLast(e) && RoundTrips(c) && StateKept(e, red, seed)
    ensures SameEnd(e, seed, Drive(e, c, red, seed, runId, human, FirstLeg(e, c, red, seed, runId, inputs)),
                    FreshRun(Answered(e, human), red, seed, inputs, false))
  {
    match StartNet(e.flow, inputs)
    case Err(_) =>
    case Ok(n) =>
      var r := Run(n, seed, []);
      forall i, j | 0 <= i < |n.edges| && In(e.layers, j, e.flow.edges[i].source.node)
        ensures n.edges[i] == Pending <==> 0 <= j {}
      assert Same(e, r, r, 0);
      DriveAgrees(e, c, red, seed, runId, human, r, r, 0, inputs);
  }
}
