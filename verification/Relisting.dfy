/** Engines that list their nodes in different orders: when they run alike, what a checkpoint one of them wrote gives
    on another one that the guard lets it in on, and a run handed from engine to engine. */
module Relisting {
  import opened Prelude
  import opened FlowIr
  import opened Layering
  import opened Validation
  import opened Wiring
  import opened State
  import opened LayeredEngine
  import opened Resume
  import opened Legs
  import opened Resumption
  import opened LegChain
  import opened Guard
  import opened Listing

  /** Two runs that agree on everything but the order of the log inside a layer. */
  ghost predicate SameButLog(r: Run, r': Run) { r.net == r'.net && r.cell == r'.cell }

  /** How two final states compare. */
  ghost predicate SameFinal(f: Final, f': Final) {
    match f
    case Failed(_) => f'.Failed?
    case Finished(r) => f'.Finished? && SameButLog(r, f'.run)
    case Suspended(r, k, n, q) => f'.Suspended? && SameButLog(r, f'.run) && f'.layer == k && f'.node == n && f'.request == q
  }

  /** No layer holds two nodes that write comparable places in one pass. */
  ghost predicate FreelyListed(e: Engine) {
    forall k :: 0 <= k < |e.layers| ==> Orderless(WiresOf(e), e.layers[k])
  }

  /** Engines that run the same nodes over the same wires, with the nodes listed in different orders. */
  ghost predicate Reordered(e: Engine, e': Engine) {
    && Compiled(e) && Compiled(e') && SameShape(e, e')
    && e.nodes == e'.nodes && e.cond == e'.cond && FreelyListed(e)
  }

  ghost predicate Stored(e: Engine, e': Engine) { e.hasStore && e'.hasStore }

  lemma ReorderedLayer(e: Engine, e': Engine, k: nat)
    requires Reordered(e, e') && k < |e.layers|
    ensures Distinct(e.layers[k]) && Distinct(e'.layers[k]) && SameMembers(e.layers[k], e'.layers[k])
    ensures Ahead(WiresOf(e), e.layers[k]) && Ahead(WiresOf(e), e'.layers[k]) && WiresOf(e) == WiresOf(e')
    ensures Stored(e, e') ==> AtMostOneInterrupt(e, e.layers[k]) && AtMostOneInterrupt(e', e'.layers[k])
    ensures Orderless(WiresOf(e), e.layers[k])
  {
    LayersAreAhead(e, k);
    LayersAreAhead(e', k);
    forall n ensures n in e.layers[k] <==> n in e'.layers[k] {
      assert In(e.layers, k, n) <==> In(e'.layers, k, n);
    }
  }

  /** Everything up to the barrier is the same in both orders. */
  lemma BarrierPermutes(e: Engine, e': Engine, red: Option<Reducer>, r: Run, r': Run, k: nat, checkpoint: bool)
    requires Reordered(e, e') && k < |e.layers| && SameButLog(r, r') && (checkpoint ==> Stored(e, e'))
    ensures var a, b := e.layers[k], e'.layers[k];
            && (AnyFails(e, r, a, checkpoint) <==> AnyFails(e', r', b, checkpoint))
            && Pendings(e, r, a, checkpoint) == Pendings(e', r', b, checkpoint)
            && |Pendings(e, r, a, checkpoint)| <= (if checkpoint then 1 else 0)
            && (Barrier(e, red, r, a).Err? <==> Barrier(e', red, r', b).Err?)
            && (Barrier(e, red, r, a).Ok? ==> SameButLog(Barrier(e, red, r, a).value, Barrier(e', red, r', b).value))
  {
    hide Fanout, Pendings, Compiled, FreelyListed;
    var a, b := e.layers[k], e'.layers[k];
    ReorderedLayer(e, e', k);
    NodesAlike(e, e', r, r', a, b, checkpoint);
    hide RunNode, AnyFails, Staged;
    PendingPermutes(e, e', r, r', a, b, checkpoint);
    FanoutPermutes(e, e', r, r', a, b);
  }

  lemma NodesAlike(e: Engine, e': Engine, r: Run, r': Run, a: seq<string>, b: seq<string>, checkpoint: bool)
    requires e.nodes == e'.nodes && SameButLog(r, r') && SameMembers(a, b)
    ensures forall n :: Suspends(e, r, n, checkpoint) <==> Suspends(e', r', n, checkpoint)
    ensures (AnyFails(e, r, a, checkpoint) <==> AnyFails(e', r', b, checkpoint)) && Staged(e, r, a) == Staged(e', r', b)
  {
    forall n ensures RunNode(e, n, r.net.ports, r.cell) == RunNode(e', n, r'.net.ports, r'.cell) {}
    forall n ensures Fails(e, r, n, checkpoint) <==> Fails(e', r', n, checkpoint) {}
  }

  lemma FanoutPermutes(e: Engine, e': Engine, r: Run, r': Run, a: seq<string>, b: seq<string>)
    requires e.nodes == e'.nodes && SameButLog(r, r') && SameMembers(a, b) && Distinct(a) && Distinct(b)
    ensures Fanout(e, r, a, r.net.ports) == Fanout(e', r', b, r'.net.ports)
  {
    var x, y := Fanout(e, r, a, r.net.ports), Fanout(e', r', b, r'.net.ports);
    forall k ensures Lookup(x, k) == Lookup(y, k) {
      FanoutAt(e, r, a, r.net.ports, k);
      FanoutAt(e', r', b, r'.net.ports, k);
      assert RunNode(e, k.node, r.net.ports, r.cell) == RunNode(e', k.node, r'.net.ports, r'.cell);
    }
    SameLookups(x, y);
  }

  lemma PendingPermutes(e: Engine, e': Engine, r: Run, r': Run, a: seq<string>, b: seq<string>, checkpoint: bool)
    requires checkpoint ==> AtMostOneInterrupt(e, a) && AtMostOneInterrupt(e', b)
    requires SameMembers(a, b)
    requires forall n :: Suspends(e, r, n, checkpoint) <==> Suspends(e', r', n, checkpoint)
    ensures Pendings(e, r, a, checkpoint) == Pendings(e', r', b, checkpoint)
    ensures |Pendings(e, r, a, checkpoint)| <= if checkpoint then 1 else 0
  {
    if checkpoint {
      OnePending(e, r, a);
      OnePending(e', r', b);
      hide Suspends, Pendings;
      ShortSame(Pendings(e, r, a, checkpoint), Pendings(e', r', b, checkpoint));
    } else {
      NonePending(e, r, a);
      NonePending(e', r', b);
    }
  }

  lemma ShortSame(x: seq<string>, y: seq<string>)
    requires |x| <= 1 && |y| <= 1 && forall n :: n in x <==> n in y
    ensures x == y
  {
    assert (x == [] || x[0] in x) && (y == [] || y[0] in y);
  }

  /** The order nodes are listed in does not change a run: same failure or same ports, activation, edge
      states, State and suspension. */
  lemma {:induction false} RunPermutes(e: Engine, e': Engine, red: Option<Reducer>, r: Run, r': Run, k: nat,
                                       checkpoint: bool)
    requires Reordered(e, e') && Fits(e, r) && SameButLog(r, r') && PendingBeyond(e, r.net.edges, k)
    requires checkpoint ==> Stored(e, e')
    ensures Fits(e', r') && SameFinal(RunFrom(e, red, r, k, checkpoint), RunFrom(e', red, r', k, checkpoint))
    decreases |e.layers| - k
  {
    hide RunFrom, LayerStep, Barrier, FireLayer, AnyFails, Pendings, PendingBeyond, Compiled, FreelyListed, Ahead;
    ShapeFits(e, e');
    RunStep(e, red, r, k, checkpoint);
    RunStep(e', red, r', k, checkpoint);
    if k < |e.layers| {
      var a, b := e.layers[k], e'.layers[k];
      StepCases(e, red, r, a, checkpoint);
      StepCases(e', red, r', b, checkpoint);
      BarrierPermutes(e, e', red, r, r', k, checkpoint);
      ReorderedLayer(e, e', k);
      var pending := Pendings(e, r, a, checkpoint);
      var held := if pending == [] then None else Some(pending[0]);
      if !AnyFails(e, r, a, checkpoint) && Barrier(e, red, r, a).Ok? {
        var x, y := Barrier(e, red, r, a).value, Barrier(e', red, r', b).value;
        PendingOnBoth(e, e', x.net.edges, k);
        FiringPermutes(WiresOf(e), x.net, a, b, held);
        var f := FireLayer(WiresOf(e), x.net, a, held);
        if f.Ok? {
          FiringAdvances(e, x.net, k, held);
          if pending == [] {
            RunPermutes(e, e', red, x.(net := f.value), y.(net := f.value), k + 1, checkpoint);
          } else {
            SameRequest(e, e', red, r, r', k, checkpoint, pending[0]);
          }
        }
      }
    }
  }

  /** Two runs on the same inputs. */
  lemma FreshRunPermutes(e: Engine, e': Engine, red: Option<Reducer>, cell: Option<Value>, inputs: map<string, Value>,
                         checkpoint: bool)
    requires Reordered(e, e') && e.flow.inputs == e'.flow.inputs && (checkpoint ==> Stored(e, e'))
    ensures SameFinal(FreshRun(e, red, cell, inputs, checkpoint), FreshRun(e', red, cell, inputs, checkpoint))
  {
    hide RunFrom, FreelyListed;
    StartPermutes(e, e', inputs);
    var start := StartNet(e.flow, inputs);
    if start.Ok? {
      assert PendingBeyond(e, start.value.edges, 0);
      RunPermutes(e, e', red, Run(start.value, cell, []), Run(start.value, cell, []), 0, checkpoint);
    }
  }

  lemma StartPermutes(e: Engine, e': Engine, inputs: map<string, Value>)
    requires Reordered(e, e') && e.flow.inputs == e'.flow.inputs
    ensures StartNet(e.flow, inputs) == StartNet(e'.flow, inputs)
  {
    hide Valid, FreelyListed;
    var f, f' := e.flow, e'.flow;
    forall n ensures n in Ids(f) <==> n in Ids(f') {
      assert Layered(e.layers, n) <==> Layered(e'.layers, n) by {
        assert forall k :: In(e.layers, k, n) <==> In(e'.layers, k, n);
      }
    }
    assert Entries(f) == Entries(f');
    var net := Net(Entries(f), map[], seq(|f.edges|, _ => Pending));
    InputsPermute(f, f', inputs, net, 0);
    var filled := InputsFrom(f, inputs, net, 0);
    if filled.Ok? { InputMappingsPermute(f, f', inputs, filled.value, 0); }
  }

  lemma {:induction false} InputsPermute(f: Flow, f': Flow, inputs: map<string, Value>, net: Net, i: nat)
    requires f.inputs == f'.inputs && i <= |f.inputs|
    ensures InputsFrom(f, inputs, net, i) == InputsFrom(f', inputs, net, i)
    decreases |f.inputs| - i
  {
    if i < |f.inputs| {
      var j := i + 1;
      forall next: Net ensures InputsFrom(f, inputs, next, j) == InputsFrom(f', inputs, next, j) {
        InputsPermute(f, f', inputs, next, j);
      }
    }
  }

  lemma {:induction false} InputMappingsPermute(f: Flow, f': Flow, inputs: map<string, Value>, net: Net, i: nat)
    requires f.mappings == f'.mappings && i <= |f.mappings|
    ensures InputMappingsFrom(f, inputs, net, i) == InputMappingsFrom(f', inputs, net, i)
    decreases |f.mappings| - i
  {
    if i < |f.mappings| {
      var j := i + 1;
      forall next: Net ensures InputMappingsFrom(f, inputs, next, j) == InputMappingsFrom(f', inputs, next, j) {
        InputMappingsPermute(f, f', inputs, next, j);
      }
    }
  }

  lemma ShapeFits(e: Engine, e': Engine)
    requires SameShape(e, e')
    ensures |e.flow.edges| == |e'.flow.edges| && |e.layers| == |e'.layers|
  {
  }

  lemma PendingOnBoth(e: Engine, e': Engine, edges: seq<EdgeState>, k: nat)
    requires Reordered(e, e') && k < |e.layers| && PendingBeyond(e, edges, k)
    ensures PendingOn(WiresOf(e), edges, e.layers[k]) && PendingOn(WiresOf(e), edges, e'.layers[k])
  {
    PendingOnLayer(e, edges, k);
    ReorderedLayer(e, e', k);
  }

  lemma SameRequest(e: Engine, e': Engine, red: Option<Reducer>, r: Run, r': Run, k: nat, checkpoint: bool, p: string)
    requires Reordered(e, e') && k < |e.layers| && Fits(e, r) && Fits(e', r') && SameButLog(r, r')
    requires checkpoint ==> Stored(e, e')
    ensures var s, s' := LayerStep(e, red, r, e.layers[k], checkpoint), LayerStep(e', red, r', e'.layers[k], checkpoint);
            s.StepSuspended? && s'.StepSuspended? && s.node == p == s'.node ==> s.request == s'.request
  {
    hide Barrier, FireLayer, AnyFails;
    BarrierPermutes(e, e', red, r, r', k, checkpoint);
  }

  // ---------------------------------------------------------------- resuming on another engine

  /** Checkpoints that differ in the hashes of the engine that wrote them only. */
  ghost predicate SameCheckpoint(x: Checkpoint, y: Checkpoint) {
    y.(flowHash := x.flowHash, structHash := x.structHash) == x
  }

  /** How a leg compares with the leg of a reordered engine. */
  ghost predicate SameLeg(x: Leg, y: Leg) {
    match x
    case LegSuspended(cp, _) => y.LegSuspended? && SameCheckpoint(cp, y.cp)
    case LegDone(r, outputs) => y.LegDone? && SameButLog(r, y.run) && y.outputs == outputs
    case LegFailed(error) => y.LegFailed? && (if error.RunFailed? then y.error.RunFailed? else y.error == error)
  }

  lemma {:induction false} OutputsByDeclaration(f: Flow, f': Flow, net: Net, i: nat, sofar: map<string, Value>)
    requires i <= |f.outputs| && f.outputs == f'.outputs
    ensures OutputsFrom(f, net, i, sofar) == OutputsFrom(f', net, i, sofar)
    decreases |f.outputs| - i
  {
    if i < |f.outputs| {
      var ref := f.outputs[i];
      if ref.node !in net.active {
        OutputsByDeclaration(f, f', net, i + 1, sofar);
      } else if PortKey(ref.node, ref.port) in net.ports {
        OutputsByDeclaration(f, f', net, i + 1, sofar[OutputKey(ref) := net.ports[PortKey(ref.node, ref.port)]]);
      }
    }
  }

  lemma ConcludeAgrees(e: Engine, e': Engine, c: Codec, runId: string, f: Final, f': Final, inputs: map<string, Value>)
    requires SameFinal(f, f') && e.flow.outputs == e'.flow.outputs
    ensures SameLeg(Conclude(e, c, runId, f, inputs), Conclude(e', c, runId, f', inputs))
  {
    if f.Finished? { OutputsByDeclaration(e.flow, e'.flow, f.run.net, 0, map[]); }
  }

  /** One resume of matching checkpoints, each admitted where it is resumed. */
  lemma ResumeAgrees(e: Engine, e': Engine, c: Codec, runId: string, x: Leg, y: Leg, call: Call)
    requires Reordered(e, e') && Stored(e, e') && e.flow.outputs == e'.flow.outputs && x.LegSuspended? && SameLeg(x, y)
    requires CursorOk(e, x)
    requires Admits(e, x.cp) && Admits(e', y.cp)
    ensures SameLeg(ResumeCall(e, c, runId, x, call), ResumeCall(e', c, runId, y, call))
  {
    hide RunFrom, ResumeNet, Conclude, PendingBeyond, Compiled, Admits, FreelyListed, DecodeAll;
    ShapeFits(e, e');
    assert WiresOf(e) == WiresOf(e');
    var cp, cp' := x.cp, y.cp;
    var cell, ports := RestoreCell(c, cp, call.seed), DecodeAll(c, cp.ports);
    assert RestoreCell(c, cp', call.seed) == cell;
    if cell.Ok? && ports.Some? && |cp.edges| == |e.flow.edges| {
      var net := Net(cp.active, ports.value, cp.edges);
      ResumeKeepsCursor(e, net, cp.node, call.human, cp.suspendLayer + 1);
      var late := ResumeNet(WiresOf(e), net, cp.node, call.human);
      if late.Ok? {
        var r, r' := Run(late.value, cell.value, x.log), Run(late.value, cell.value, y.log);
        RunPermutes(e, e', call.red, r, r', cp.suspendLayer + 1, true);
        ConcludeAgrees(e, e', c, runId, RunFrom(e, call.red, r, cp.suspendLayer + 1, true),
                       RunFrom(e', call.red, r', cp.suspendLayer + 1, true), map[]);
      }
    }
  }

  lemma {:induction false} ChainAgrees(e: Engine, e': Engine, c: Codec, runId: string, x: Leg, y: Leg, calls: seq<Call>)
    requires Reordered(e, e') && Stored(e, e') && e.flow.outputs == e'.flow.outputs && SameLeg(x, y) && CursorOk(e, x)
    requires x.LegSuspended? ==>
             Admits(e, x.cp) && Admits(e', y.cp) && PendingBeyond(e', y.cp.edges, y.cp.suspendLayer + 1)
    ensures SameLeg(LegAfter(e, c, runId, x, calls), LegAfter(e', c, runId, y, calls))
    decreases |calls|
  {
    hide ResumeCall, PendingBeyond, Compiled, FreelyListed;
    if calls != [] && x.LegSuspended? {
      var u, v := ResumeCall(e, c, runId, x, calls[0]), ResumeCall(e', c, runId, y, calls[0]);
      ResumeAgrees(e, e', c, runId, x, y, calls[0]);
      ResumeCursor(e, c, runId, x, calls[0]);
      ShapeFits(e, e');
      ResumeCursor(e', c, runId, y, calls[0]);
      ChainAgrees(e, e', c, runId, u, v, calls[1..]);
    }
  }

  /** A checkpoint resumed on an engine the guard lets it in on, to the end of the run or to any later
      suspension, gives what the engine that wrote it gives: the same failure, the same checkpoint but for the
      hashes, or the same outputs, ports, activation, edge states and State. Of the resuming engine it is asked
      that it can store checkpoints, that its nodes and conditions behave alike, that it declares the same
      outputs, which no structural hash covers; and of the writing engine that it is freely listed. */
  lemma AdmittedResumeAgrees(e: Engine, c: Codec, red: Option<Reducer>, seed: Option<Value>, runId: string,
                             inputs: map<string, Value>,
                             before: seq<Call>, after: seq<Call>, e': Engine, hashFlow: Flow -> string,
                             hashDesc: Descriptor -> string)
    requires Injective(hashFlow) && Injective(hashDesc) && FreelyListed(e) && Compiled(e)
    requires Hashed(e, hashFlow, hashDesc)
    requires Serves(e, e', hashFlow, hashDesc)
    ensures var leg := LegAfter(e, c, runId, FirstLeg(e, c, red, seed, runId, inputs), before);
            leg.LegSuspended? && Admits(e', leg.cp) ==>
              SameLeg(LegAfter(e, c, runId, leg, after), LegAfter(e', c, runId, leg, after))
  {
    hide FirstLeg, LegAfter, Compiled, PendingBeyond, FreelyListed;
    LegsKeepCursor(e, c, red, seed, runId, inputs, before, []);
    var leg := LegAfter(e, c, runId, FirstLeg(e, c, red, seed, runId, inputs), before);
    if leg.LegSuspended? && Admits(e', leg.cp) {
      AdmissionFixesShape(e, e', leg.cp, hashFlow, hashDesc);
      ChainAgrees(e, e', c, runId, leg, leg, after);
    }
  }

  // ---------------------------------------------------------------- handing a run on from engine to engine

  /** One Resume, and the engine it is made on. */
  datatype Hop = Hop(e: Engine, call: Call)

  /** The leg after the hops; one that did not suspend is the last. */
  ghost function Relay(c: Codec, runId: string, leg: Leg, hops: seq<Hop>): Leg
    decreases |hops|
  {
    if hops == [] || !leg.LegSuspended? then leg
    else Relay(c, runId, ResumeCall(hops[0].e, c, runId, leg, hops[0].call), hops[1..])
  }

  function CallsOf(hops: seq<Hop>): (calls: seq<Call>)
    ensures |calls| == |hops| && forall i :: 0 <= i < |hops| ==> calls[i] == hops[i].call
  {
    seq(|hops|, i requires 0 <= i < |hops| => hops[i].call)
  }

  /** Every checkpoint of the relay is admitted on the engine it is handed to. */
  ghost predicate LetIn(c: Codec, runId: string, leg: Leg, hops: seq<Hop>)
    decreases |hops|
  {
    hops == [] || !leg.LegSuspended? ||
    (Admits(hops[0].e, leg.cp) && LetIn(c, runId, ResumeCall(hops[0].e, c, runId, leg, hops[0].call), hops[1..]))
  }

  /** An engine a run may be handed to: its hashes are its own, it stores checkpoints, and it runs the same nodes
      and conditions and declares the same outputs. */
  ghost predicate Serves(e: Engine, x: Engine, hashFlow: Flow -> string, hashDesc: Descriptor -> string) {
    Compiled(x) && Hashed(x, hashFlow, hashDesc) && x.hasStore && x.nodes == e.nodes && x.cond == e.cond && x.flow.outputs == e.flow.outputs
  }

  lemma ShapeChain(e: Engine, x: Engine, y: Engine)
    requires SameShape(e, x) && SameShape(x, y)
    ensures SameShape(e, y)
  {
    forall k, n ensures In(e.layers, k, n) <==> In(y.layers, k, n) {
      assert In(e.layers, k, n) <==> In(x.layers, k, n);
    }
  }

  /** The relay's leg y was written by the engine x, the other one's leg by e. */
  lemma {:induction false} RelayFrom(e: Engine, c: Codec, runId: string, leg: Leg, x: Engine, y: Leg, hops: seq<Hop>,
                                     hashFlow: Flow -> string, hashDesc: Descriptor -> string)
    requires Injective(hashFlow) && Injective(hashDesc) && FreelyListed(e) && Serves(e, e, hashFlow, hashDesc)
    requires forall h :: h in hops ==> Serves(e, h.e, hashFlow, hashDesc)
    requires Serves(e, x, hashFlow, hashDesc) && SameShape(e, x)
    requires SameLeg(leg, y) && CursorOk(e, leg) && WrittenBy(e, leg) && CursorOk(x, y) && WrittenBy(x, y)
    ensures if LetIn(c, runId, y, hops) then SameLeg(LegAfter(e, c, runId, leg, CallsOf(hops)),
                                                     Relay(c, runId, y, hops))
            else Relay(c, runId, y, hops) == LegFailed(FlowChanged)
    decreases |hops|
  {
    hide CursorOk, SameLeg, Compiled, FreelyListed, Hashed, SameShape, Injective, ResumeLeg, PendingBeyond;
    LegKinds(leg, y);
    if hops != [] && y.LegSuspended? {
      var h := hops[0];
      assert h in hops && forall i :: i in hops[1..] ==> i in hops;
      assert CallsOf(hops)[1..] == CallsOf(hops[1..]);
      if Admits(h.e, y.cp) {
        AdmissionFixesShape(x, h.e, y.cp, hashFlow, hashDesc);
        ShapeChain(e, x, h.e);
        CursorMoves(x, h.e, y);
        ResumeAgrees(e, h.e, c, runId, leg, y, h.call);
        ResumeCursor(e, c, runId, leg, h.call);
        ResumeCursor(h.e, c, runId, y, h.call);
        RelayFrom(e, c, runId, ResumeCall(e, c, runId, leg, h.call), h.e, ResumeCall(h.e, c, runId, y, h.call),
                  hops[1..], hashFlow, hashDesc);
      } else {
        Refused(h.e, c, runId, y, h.call);
      }
    }
  }

  lemma LegKinds(x: Leg, y: Leg)
    requires SameLeg(x, y)
    ensures x.LegSuspended? <==> y.LegSuspended?
  {
  }

  lemma CursorMoves(x: Engine, x': Engine, y: Leg)
    requires y.LegSuspended? && CursorOk(x, y) && SameShape(x, x')
    requires forall k :: PendingBeyond(x, y.cp.edges, k) ==> PendingBeyond(x', y.cp.edges, k)
    ensures CursorOk(x', y)
  {
  }

  lemma Refused(e: Engine, c: Codec, runId: string, leg: Leg, call: Call)
    requires leg.LegSuspended? && e.hasStore && !Admits(e, leg.cp)
    ensures ResumeCall(e, c, runId, leg, call) == LegFailed(FlowChanged)
  {
  }

  lemma Stopped(e: Engine, c: Codec, runId: string, leg: Leg, hops: seq<Hop>)
    requires !leg.LegSuspended?
    ensures LegAfter(e, c, runId, leg, CallsOf(hops)) == leg == Relay(c, runId, leg, hops) && LetIn(c, runId, leg, hops)
    ensures SameLeg(leg, leg)
  {
  }

  /** A run handed from engine to engine, each of them resuming the checkpoint the one before it wrote: either
      some guard on the way refuses, and then the run fails with that, or the last leg is what the first engine
      alone would have given. */
  lemma RelayAgrees(e: Engine, c: Codec, red: Option<Reducer>, seed: Option<Value>, runId: string,
                    inputs: map<string, Value>,
                    before: seq<Call>, hops: seq<Hop>, hashFlow: Flow -> string, hashDesc: Descriptor -> string)
    requires Injective(hashFlow) && Injective(hashDesc) && FreelyListed(e) && Compiled(e)
    requires Hashed(e, hashFlow, hashDesc)
    requires forall h :: h in hops ==> Serves(e, h.e, hashFlow, hashDesc)
    ensures var leg := LegAfter(e, c, runId, FirstLeg(e, c, red, seed, runId, inputs), before);
            var last := Relay(c, runId, leg, hops);
            if LetIn(c, runId, leg, hops) then SameLeg(LegAfter(e, c, runId, leg, CallsOf(hops)), last) else last == LegFailed(FlowChanged)
  {
    hide FirstLeg, LegAfter, Compiled, PendingBeyond, FreelyListed, Hashed, Injective, CursorOk;
    LegsKeepCursor(e, c, red, seed, runId, inputs, before, []);
    var leg := LegAfter(e, c, runId, FirstLeg(e, c, red, seed, runId, inputs), before);
    if leg.LegSuspended? {
      RelayFrom(e, c, runId, leg, e, leg, hops, hashFlow, hashDesc);
    } else {
      Stopped(e, c, runId, leg, hops);
    }
  }
}
