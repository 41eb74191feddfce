/** Any number of calls to Resume after a first leg, each with its own State options and its own human answer. */
module LegChain {
  import opened Prelude
  import opened FlowIr
  import opened Layering
  import opened Wiring
  import opened State
  import opened LayeredEngine
  import opened Resume
  import opened Legs
  import opened Resumption

  /** What a caller passes to one Resume besides the token. */
  datatype Call = Call(red: Option<Reducer>, seed: Option<Value>, human: map<string, Value>)

  /** One Resume of a suspended leg. */
  ghost function ResumeCall(e: Engine, c: Codec, runId: string, leg: Leg, call: Call): (next: Leg)
    requires leg.LegSuspended?
  {
    ResumeLeg(e, c, call.red, call.seed, runId, leg.cp, call.human, leg.log)
  }

  /** The leg after the calls; one that did not suspend is the last. */
  ghost function LegAfter(e: Engine, c: Codec, runId: string, leg: Leg, calls: seq<Call>): Leg
    decreases |calls|
  {
    if calls == [] || !leg.LegSuspended? then leg
    else LegAfter(e, c, runId, ResumeCall(e, c, runId, leg, calls[0]), calls[1..])
  }

  /** Driving a run to its end is one such chain. */
  lemma {:induction false} DriveIsChain(e: Engine, c: Codec, red: Option<Reducer>, seed: Option<Value>, runId: string,
                                        human: string -> map<string, Value>, leg: Leg) returns (calls: seq<Call>)
    ensures Drive(e, c, red, seed, runId, human, leg) == LegAfter(e, c, runId, leg, calls)
    decreases if leg.LegSuspended? then 1 + (if leg.cp.suspendLayer < |e.layers| then |e.layers| - leg.cp.suspendLayer else 0) else 0
  {
    calls := [];
    if leg.LegSuspended? {
      var call := Call(red, seed, human(leg.cp.node));
      var rest := DriveIsChain(e, c, red, seed, runId, human, ResumeCall(e, c, runId, leg, call));
      calls := [call] + rest;
      assert calls[1..] == rest;
    }
  }

  // ---------------------------------------------------------------- the cursor

  /** A leg leaves pending exactly the edges sourced after the layer it stopped in. */
  lemma {:induction false} RunKeepsCursor(e: Engine, red: Option<Reducer>, r: Run, k: nat, checkpoint: bool)
    requires Compiled(e) && Fits(e, r) && PendingBeyond(e, r.net.edges, k) && k <= |e.layers|
    ensures var f := RunFrom(e, red, r, k, checkpoint);
            && (f.Finished? ==> PendingBeyond(e, f.run.net.edges, |e.layers|))
            && (f.Suspended? ==> PendingBeyond(e, f.run.net.edges, f.layer + 1) && e.hasStore)
            && (!f.Failed? ==> Follows(r.net.edges, f.run.net.edges))
    decreases |e.layers| - k
  {
    hide RunFrom, LayerStep, PendingBeyond, Compiled;
    RunStep(e, red, r, k, checkpoint);
    if k < |e.layers| {
      StepKeepsCursor(e, red, r, k, checkpoint);
      match LayerStep(e, red, r, e.layers[k], checkpoint)
      case StepFailed(_) =>
      case StepSuspended(_, _, _) =>
      case StepDone(s) =>
        RunKeepsCursor(e, red, s, k + 1, checkpoint);
        var f := RunFrom(e, red, s, k + 1, checkpoint);
        if !f.Failed? { FollowsOn(r.net.edges, s.net.edges, f.run.net.edges); }
    }
  }

  /** How an edge state may move on: a pending edge takes any state, a deferred one fires or dies false, every
      other state is final. */
  ghost predicate Follows(a: seq<EdgeState>, b: seq<EdgeState>) {
    |a| == |b| && forall i :: 0 <= i < |a| ==> MovesTo(a[i], b[i])
  }

  predicate MovesTo(a: EdgeState,
                    b: EdgeState) { a == b || a == Pending || (a == Deferred && (b == Fired || b == DeadFalse)) }

  lemma FollowsOn(a: seq<EdgeState>, b: seq<EdgeState>, c: seq<EdgeState>)
    requires Follows(a, b) && Follows(b, c)
    ensures Follows(a, c)
  {
    forall i | 0 <= i < |a| ensures MovesTo(a[i], c[i]) {
      assert MovesTo(a[i], b[i]) && MovesTo(b[i], c[i]);
    }
  }

  lemma StepKeepsCursor(e: Engine, red: Option<Reducer>, r: Run, k: nat, checkpoint: bool)
    requires Compiled(e) && Fits(e, r) && PendingBeyond(e, r.net.edges, k) && k < |e.layers|
    ensures var s := LayerStep(e, red, r, e.layers[k], checkpoint);
            && (!s.StepFailed? ==> PendingBeyond(e, s.run.net.edges, k + 1) && Follows(r.net.edges, s.run.net.edges))
            && (s.StepSuspended? ==> e.hasStore)
  {
    hide AnyFails, Barrier, FireLayer, Pendings, LayerStep;
    var layer := e.layers[k];
    StepCases(e, red, r, layer, checkpoint);
    var s := LayerStep(e, red, r, layer, checkpoint);
    if !s.StepFailed? {
      var b := Barrier(e, red, r, layer).value;
      var pending := Pendings(e, r, layer, checkpoint);
      FiringAdvances(e, b.net, k, if pending == [] then None else Some(pending[0]));
      forall i | 0 <= i < |r.net.edges| ensures MovesTo(r.net.edges[i], s.run.net.edges[i]) {
        SourceLayered(e, i);
        var j: int :| In(e.layers, j, e.flow.edges[i].source.node);
      }
    }
  }

  lemma {:induction false} DeferredFollows(w: Wires, net: Net, i: nat)
    requires |net.edges| == |w.edges| && i <= |w.edges|
    ensures var r := DeferredFrom(w, net, i); r.Ok? ==> Follows(net.edges, r.value.edges)
    ensures var r := DeferredFrom(w, net, i);
            r.Ok? ==> forall j :: 0 <= j < |w.edges| ==> (net.edges[j] == Pending <==> r.value.edges[j] == Pending)
    decreases |w.edges| - i
  {
    if i < |w.edges| {
      var sp := PortsOf(net.ports, w.edges[i].source.node);
      if net.edges[i] != Deferred || w.edges[i].source.port !in sp {
        DeferredFollows(w, net, i + 1);
      } else {
        match Judge(w, i, sp)
        case Err(_) =>
        case Ok(s) =>
          var next := Settle(w, net, i, sp, s);
          DeferredFollows(w, next, i + 1);
          var r := DeferredFrom(w, next, i + 1);
          if r.Ok? { FollowsOn(net.edges, next.edges, r.value.edges); }
      }
    }
  }

  /** Resuming touches deferred edges only, so the cursor stays. */
  lemma ResumeKeepsCursor(e: Engine, net: Net, node: string, human: map<string, Value>, k: nat)
    requires PendingBeyond(e, net.edges, k)
    ensures |net.edges| == |WiresOf(e).edges|
    ensures var r := ResumeNet(WiresOf(e), net, node, human);
            r.Ok? ==> PendingBeyond(e, r.value.edges, k) && Follows(net.edges, r.value.edges)
  {
    DeferredFollows(WiresOf(e), Inject(net, node, human), 0);
  }

  /** A suspended leg's cursor: every edge sourced after the suspend layer is pending and no other is. At the
      end none is. */
  ghost predicate CursorOk(e: Engine, leg: Leg) {
    match leg
    case LegSuspended(cp, _) => cp.suspendLayer < |e.layers| && PendingBeyond(e, cp.edges, cp.suspendLayer + 1)
    case LegDone(r, _) => PendingBeyond(e, r.net.edges, |e.layers|)
    case LegFailed(_) => true
  }

  /** The checkpoint, if any, carries the hashes of an engine with a store. */
  ghost predicate WrittenBy(e: Engine, leg: Leg) {
    leg.LegSuspended? ==> e.hasStore && leg.cp.flowHash == e.flowHash && leg.cp.structHash == e.structHash
  }

  /** The edges a leg ends with follow the ones it started with. */
  ghost predicate LegFollows(edges: seq<EdgeState>, leg: Leg) {
    match leg
    case LegSuspended(cp, _) => Follows(edges, cp.edges)
    case LegDone(r, _) => Follows(edges, r.net.edges)
    case LegFailed(_) => true
  }

  lemma ConcludeCursor(e: Engine, c: Codec, red: Option<Reducer>, runId: string, r: Run, k: nat,
                       inputs: map<string, Value>)
    requires Compiled(e) && Fits(e, r) && PendingBeyond(e, r.net.edges, k) && k <= |e.layers|
    ensures var leg := Conclude(e, c, runId, RunFrom(e, red, r, k, true), inputs);
            CursorOk(e, leg) && WrittenBy(e, leg) && LegFollows(r.net.edges, leg)
  {
    hide RunFrom, PendingBeyond;
    RunKeepsCursor(e, red, r, k, true);
  }

  lemma FirstCursor(e: Engine, c: Codec, red: Option<Reducer>, seed: Option<Value>, runId: string,
                    inputs: map<string, Value>)
    requires Compiled(e)
    ensures CursorOk(e, FirstLeg(e, c, red, seed, runId, inputs))
    ensures WrittenBy(e, FirstLeg(e, c, red, seed, runId, inputs))
  {
    match StartNet(e.flow, inputs)
    case Err(_) =>
    case Ok(n) =>
      assert PendingBeyond(e, n.edges, 0);
      ConcludeCursor(e, c, red, runId, Run(n, seed, []), 0, inputs);
  }

  /** One resume moves every edge on, or leaves it, and keeps the cursor. */
  lemma ResumeCursor(e: Engine, c: Codec, runId: string, leg: Leg, call: Call)
    requires Compiled(e) && leg.LegSuspended? && CursorOk(e, leg)
    ensures var next := ResumeCall(e, c, runId, leg, call);
            CursorOk(e, next) && WrittenBy(e, next) && LegFollows(leg.cp.edges, next)
  {
    hide RunFrom, PendingBeyond, ResumeNet, Conclude, RestoreCell;
    var cp, ports := leg.cp, DecodeAll(c, leg.cp.ports);
    var cell := RestoreCell(c, cp, call.seed);
    if ports.Some? && cell.Ok? && |cp.edges| == |e.flow.edges| {
      var net := Net(cp.active, ports.value, cp.edges);
      ResumeKeepsCursor(e, net, cp.node, call.human, cp.suspendLayer + 1);
      var late := ResumeNet(WiresOf(e), net, cp.node, call.human);
      if late.Ok? {
        var r := Run(late.value, cell.value, leg.log);
        ConcludeCursor(e, c, call.red, runId, r, cp.suspendLayer + 1, map[]);
        FollowsLeg(cp.edges, r.net.edges,
                   Conclude(e, c, runId, RunFrom(e, call.red, r, cp.suspendLayer + 1, true), map[]));
      }
    }
  }

  lemma FollowsLeg(a: seq<EdgeState>, b: seq<EdgeState>, leg: Leg)
    requires Follows(a, b) && LegFollows(b, leg)
    ensures LegFollows(a, leg)
  {
    match leg
    case LegSuspended(next, _) => FollowsOn(a, b, next.edges);
    case LegDone(r, _) => FollowsOn(a, b, r.net.edges);
    case LegFailed(_) =>
  }

  lemma {:induction false} ChainCursor(e: Engine, c: Codec, runId: string, leg: Leg, calls: seq<Call>)
    requires Compiled(e) && CursorOk(e, leg) && WrittenBy(e, leg)
    ensures var last := LegAfter(e, c, runId, leg, calls);
            CursorOk(e, last) && WrittenBy(e, last) && (leg.LegSuspended? ==> LegFollows(leg.cp.edges, last))
    decreases |calls|
  {
    hide ResumeCall, CursorOk, WrittenBy;
    if leg.LegSuspended? {
      assert Follows(leg.cp.edges, leg.cp.edges);
      if calls != [] {
        var next := ResumeCall(e, c, runId, leg, calls[0]);
        ResumeCursor(e, c, runId, leg, calls[0]);
        ChainCursor(e, c, runId, next, calls[1..]);
        if next.LegSuspended? { FollowsLeg(leg.cp.edges, next.cp.edges, LegAfter(e, c, runId, next, calls[1..])); }
      }
    }
  }

  /** The cursor over any number of legs, with whatever answers, State options and codec: a suspended leg has
      pending exactly the edges sourced after its suspend layer, a finished one has none; and from each leg on,
      an edge only moves from pending to any state or from deferred to fired or dead-false. */
  lemma LegsKeepCursor(e: Engine, c: Codec, red: Option<Reducer>, seed: Option<Value>, runId: string,
                       inputs: map<string, Value>,
                       before: seq<Call>, after: seq<Call>)
    requires Compiled(e)
    ensures var leg := LegAfter(e, c, runId, FirstLeg(e, c, red, seed, runId, inputs), before);
            var last := LegAfter(e, c, runId, leg, after);
            && CursorOk(e, leg) && WrittenBy(e, leg) && CursorOk(e, last)
            && (leg.LegSuspended? ==> LegFollows(leg.cp.edges, last))
  {
    hide FirstLeg, CursorOk, WrittenBy, LegFollows, Compiled;
    var first := FirstLeg(e, c, red, seed, runId, inputs);
    FirstCursor(e, c, red, seed, runId, inputs);
    ChainCursor(e, c, runId, first, before);
    ChainCursor(e, c, runId, LegAfter(e, c, runId, first, before), after);
  }
}
