/** runCore, RunResumable and Resume as they execute: maps updated in place, layer after layer
    (v2/flow/engine.go, v2/flow/resume.go). Every method is tied to the functions of Engine and Resume. */
module Execution {
  import opened Prelude
  import opened FlowIr
  import opened Paths
  import opened Wiring
  import opened State
  import opened LayeredEngine
  import opened Resume
  import opened Dataflow

  /** The local variables of one runCore call. */
  class Execution {
    const e: Engine
    const cell: StateCell?
    var activated: set<string>
    var portValues: Ports
    var edgeStates: seq<EdgeState>
    var log: seq<Visit>

    constructor (e: Engine, cell: StateCell?, net: Net, log: seq<Visit>)
      ensures this.e == e && this.cell == cell && NetNow() == net && this.log == log
    {
      this.e, this.cell := e, cell;
      activated, portValues, edgeStates := net.active, net.ports, net.edges;
      this.log := log;
    }

    function NetNow(): Net
      reads this
    {
      Net(activated, portValues, edgeStates)
    }

    function StateNow(): Option<Value>
      reads this, cell
    {
      if cell == null then None else Some(cell.committed)
    }

    function Now(): Run
      reads this, cell
    {
      Run(NetNow(), StateNow(), log)
    }

    function Reducing(): Option<Reducer>
      reads this, cell
    {
      if cell == null then None else cell.reducer
    }

    ghost predicate Idle()
      reads this, cell
    {
      |edgeStates| == |e.flow.edges| && (cell != null ==> cell.staged == map[])
    }

    method SetPort(k: PortKey, v: Value)
      modifies this`portValues
      ensures portValues == old(portValues)[k := v]
    {
      portValues := portValues[k := v];
    }

    /** The edges of one active source. */
    method FireOutEdges(src: string) returns (failure: Option<FireError>)
      requires |edgeStates| == |e.flow.edges|
      modifies this`activated, this`portValues, this`edgeStates
      ensures match EdgesFrom(WiresOf(e), old(NetNow()), src, PortsOf(old(portValues), src), 0)
              case Err(x) => failure == Some(x)
              case Ok(n) => failure == None && NetNow() == n
    {
      var w := WiresOf(e);
      var sp := PortsOf(portValues, src);
      for i := 0 to |e.flow.edges|
        invariant |edgeStates| == |e.flow.edges|
        invariant EdgesFrom(w, old(NetNow()), src, sp, 0) == EdgesFrom(w, NetNow(), src, sp, i)
      {
        var edge := e.flow.edges[i];
        if edge.source.node != src || edgeStates[i] != Pending { continue; }
        match Judge(w, i, sp) {
          case Err(x) => return Some(x);
          case Ok(s) =>
            edgeStates := edgeStates[i := s];
            if s.Fired? {
              SetPort(Key(edge.target), sp[edge.source.port]);
              activated := activated + {edge.target.node};
            }
        }
      }
      return None;
    }

    method MarkOutEdges(src: string, s: EdgeState)
      requires |edgeStates| == |e.flow.edges|
      modifies this`edgeStates
      ensures edgeStates == MarkFrom(WiresOf(e), old(edgeStates), src, s, 0)
    {
      for i := 0 to |e.flow.edges|
        invariant |edgeStates| == |e.flow.edges|
        invariant MarkFrom(WiresOf(e), old(edgeStates), src, s, 0) == MarkFrom(WiresOf(e), edgeStates, src, s, i)
      {
        if e.flow.edges[i].source.node == src && edgeStates[i] == Pending {
          edgeStates := edgeStates[i := s];
        }
      }
    }

    method FireLayerEdges(layer: seq<string>, held: Option<string>) returns (failure: Option<FireError>)
      requires |edgeStates| == |e.flow.edges|
      modifies this`activated, this`portValues, this`edgeStates
      ensures match FireEdges(WiresOf(e), old(NetNow()), layer, held)
              case Err(x) => failure == Some(x)
              case Ok(n) => failure == None && NetNow() == n
    {
      assert layer[0..] == layer;
      for a := 0 to |layer|
        invariant |edgeStates| == |e.flow.edges|
        invariant FireEdges(WiresOf(e), old(NetNow()), layer, held) == FireEdges(WiresOf(e), NetNow(), layer[a..], held)
      {
        var src := layer[a];
        assert layer[a..][0] == src && layer[a..][1..] == layer[a + 1..];
        if held == Some(src) {
          MarkOutEdges(src, Deferred);
        } else if src !in activated {
          MarkOutEdges(src, DeadSrcSkip);
        } else {
          var f := FireOutEdges(src);
          if f.Some? { return f; }
        }
      }
      return None;
    }

    method FireOutMappings(src: string) returns (failure: Option<FireError>)
      modifies this`activated, this`portValues
      ensures match MapsFrom(WiresOf(e), old(NetNow()), src, PortsOf(old(portValues), src), 0)
              case Err(x) => failure == Some(x)
              case Ok(n) => failure == None && NetNow() == n
    {
      var w := WiresOf(e);
      var sp := PortsOf(portValues, src);
      for j := 0 to |e.flow.mappings|
        invariant MapsFrom(w, old(NetNow()), src, sp, 0) == MapsFrom(w, NetNow(), src, sp, j)
      {
        var m := e.flow.mappings[j];
        if m.source.node != src || m.source.port !in sp { continue; }
        var value := SelectPath(sp[m.source.port], m.source.path);
        if value.Err? { return Some(BadSource(j)); }
        var ok := SetMappedPort(Wiring.Targets(m), m.target.path, value.value);
        if !ok { return Some(BadTarget(j)); }
      }
      return None;
    }

    /** setMappedPort and the activation that follows it. */
    method SetMappedPort(k: PortKey, path: seq<string>, value: Value) returns (ok: bool)
      modifies this`activated, this`portValues
      ensures match Assign(old(NetNow()), k, path, value)
              case None => !ok
              case Some(n) => ok && NetNow() == n
    {
      var existing := if k in portValues then Some(portValues[k]) else None;
      match Put(existing, path, value) {
        case Err(_) => return false;
        case Ok(v) =>
          SetPort(k, v);
          activated := activated + {k.node};
          return true;
      }
    }

    method FireLayerMappings(layer: seq<string>, held: Option<string>) returns (failure: Option<FireError>)
      modifies this`activated, this`portValues
      ensures match FireMappings(WiresOf(e), old(NetNow()), layer, held)
              case Err(x) => failure == Some(x)
              case Ok(n) => failure == None && NetNow() == n
    {
      assert layer[0..] == layer;
      for a := 0 to |layer|
        invariant FireMappings(WiresOf(e), old(NetNow()), layer, held) == FireMappings(WiresOf(e), NetNow(), layer[a..], held)
      {
        assert layer[a..][0] == layer[a] && layer[a..][1..] == layer[a + 1..];
        if held == Some(layer[a]) || layer[a] !in activated { continue; }
        var f := FireOutMappings(layer[a]);
        if f.Some? { return f; }
      }
      return None;
    }

    method Fire(layer: seq<string>, held: Option<string>) returns (failure: Option<FireError>)
      requires |edgeStates| == |e.flow.edges|
      modifies this`activated, this`portValues, this`edgeStates
      ensures match FireLayer(WiresOf(e), old(NetNow()), layer, held)
              case Err(x) => failure == Some(x)
              case Ok(n) => failure == None && NetNow() == n
    {
      failure := FireLayerEdges(layer, held);
      if failure.None? { failure := FireLayerMappings(layer, held); }
    }

    /** The fanout of one layer. Each active node's input is taken before any of them runs; then their
        outcomes are gathered, one node after the other (other schedules are the business of Schedule). */
    method RunNodes(layer: seq<string>, checkpoint: bool) returns (failed: bool, pending: seq<string>)
      requires Idle() && Distinct(layer)
      modifies this`portValues, this`log, if cell != null then {cell} else {}
      ensures cell != null ==> cell.committed == old(cell.committed)
      ensures failed <==> AnyFails(e, old(Now()), layer, checkpoint)
      ensures !failed ==> pending == Pendings(e, old(Now()), layer, checkpoint)
      ensures !failed ==> portValues == Fanout(e, old(Now()), layer, old(portValues))
      ensures !failed ==> log == old(log) + Visits(layer, activated)
      ensures !failed && cell != null ==> cell.staged == Staged(e, old(Now()), layer)
    {
      hide Fanout, Pendings, Staged, RunNode, WriteAll, PortsOf;
      ghost var r := Now();
      var start, state := portValues, StateNow();
      log := log + Visits(layer, activated);
      NothingStaged(e, r);
      failed, pending := false, [];
      assert layer[0..] == layer;
      for a := 0 to |layer|
        invariant !failed ==> forall n :: n in layer[..a] ==> !Fails(e, r, n, checkpoint)
        invariant failed ==> AnyFails(e, r, layer, checkpoint)
        invariant log == old(log) + Visits(layer, activated)
        invariant pending + Pendings(e, r, layer[a..], checkpoint) == Pendings(e, r, layer, checkpoint)
        invariant Fanout(e, r, layer, r.net.ports) == Fanout(e, r, layer[a..], portValues)
        invariant cell != null ==> cell.staged == Staged(e, r, layer[..a]) && cell.committed == old(cell.committed)
      {
        var n := layer[a];
        NodeTurn(e, r, layer, a, portValues, checkpoint);
        assert layer[..a + 1] == layer[..a] + [n];
        if n in activated {
          var o := RunNode(e, n, start, state);
          if cell != null && o.writes != [] { cell.Stage(n, LastOf(o.writes)); }
          if o.Done? { portValues := WriteAll(portValues, n, o.out); }
          assert n in layer;
          if o.Failure? || (o.Interrupt? && !(checkpoint && CanInterrupt(e, n))) { failed := true; }
          if o.Interrupt? && checkpoint && CanInterrupt(e, n) { pending := pending + [n]; }
        }
      }
      assert layer[..|layer|] == layer && layer[|layer|..] == [];
      NothingLeft(e, r, portValues, checkpoint);
    }

    /** One iteration of the layer loop. */
    method RunLayer(layer: seq<string>, checkpoint: bool) returns (s: Step)
      requires Idle() && Distinct(layer)
      modifies this, cell
      ensures s == LayerStep(e, Reducing(), old(Now()), layer, checkpoint)
      ensures !s.StepFailed? ==> Idle() && s.run == Now()
    {
      hide Fanout, Staged, Pendings, AnyFails, FireLayer, Reduced;
      ghost var r := Now();
      var start, state := portValues, StateNow();
      var failed, pending := RunNodes(layer, checkpoint);
      if failed { return StepFailed(NodeFailed); }
      if cell != null {
        var x := cell.Reduce();
        if x.Some? { return StepFailed(StateFailed(x.value)); }
      }
      assert Barrier(e, Reducing(), r, layer) == Ok(Now());
      if |pending| > 0 {
        if !e.hasStore { return StepFailed(NoCheckpointStore); }
        if |pending| > 1 { return StepFailed(MultipleInterrupts); }
        var f := Fire(layer, Some(pending[0]));
        if f.Some? { return StepFailed(FiringFailed(f.value)); }
        assert pending[0] in Pendings(e, r, layer, checkpoint);
        return StepSuspended(Now(), pending[0], RunNode(e, pending[0], start, state).request);
      }
      var f := Fire(layer, None);
      if f.Some? { return StepFailed(FiringFailed(f.value)); }
      return StepDone(Now());
    }

    /** The layer loop of runCore. */
    method RunLayers(startLayer: nat, checkpoint: bool) returns (f: Final)
      requires Idle() && forall k :: 0 <= k < |e.layers| ==> Distinct(e.layers[k])
      modifies this, cell
      ensures f == RunFrom(e, Reducing(), old(Now()), startLayer, checkpoint)
      ensures !f.Failed? ==> f.run == Now()
    {
      hide LayerStep;
      var k := startLayer;
      while k < |e.layers|
        invariant Idle() && k >= startLayer
        invariant RunFrom(e, Reducing(), old(Now()), startLayer,
                          checkpoint) == RunFrom(e, Reducing(), Now(), k, checkpoint)
        decreases |e.layers| - k
      {
        var s := RunLayer(e.layers[k], checkpoint);
        match s {
          case StepFailed(x) => return Failed(x);
          case StepSuspended(r, n, q) => return Suspended(r, k, n, q);
          case StepDone(_) =>
        }
        k := k + 1;
      }
      return Finished(Now());
    }
  }

  lemma NothingStaged(e: Engine, r: Run)
    ensures Staged(e, r, []) == map[]
  {
  }

  lemma NothingLeft(e: Engine, r: Run, ports: Ports, checkpoint: bool)
    ensures Fanout(e, r, [], ports) == ports && Pendings(e, r, [], checkpoint) == []
  {
  }

  /** The effect of the a-th node of a layer on the fanout, the pending interrupts and the staged writes. */
  lemma NodeTurn(e: Engine, r: Run, layer: seq<string>, a: nat, ports: Ports, checkpoint: bool)
    requires a < |layer| && Distinct(layer)
    ensures var n, o := layer[a], RunNode(e, layer[a], r.net.ports, r.cell);
            && Fanout(e, r, layer[a..], ports)
                 == Fanout(e, r, layer[a + 1..], if n in r.net.active && o.Done? then WriteAll(ports, n, o.out) else ports)
            && Pendings(e, r, layer[a..], checkpoint)
                 == (if Suspends(e, r, n, checkpoint) then [n] else []) + Pendings(e, r, layer[a + 1..], checkpoint)
            && Staged(e, r, layer[..a + 1])
                 == (if n in r.net.active && o.writes != [] then Staged(e, r, layer[..a])[n := LastOf(o.writes)] else Staged(e, r, layer[..a]))
  {
    hide Fanout, Pendings, Staged, RunNode, WriteAll;
    assert layer[a..][0] == layer[a] && layer[a..][1..] == layer[a + 1..];
    FanoutTurn(e, r, layer[a..], ports);
    PendingTurn(e, r, layer[a..], checkpoint);
    StagedTurn(e, r, layer[..a], layer[a]);
    assert layer[..a + 1] == layer[..a] + [layer[a]];
  }

  lemma FanoutTurn(e: Engine, r: Run, rest: seq<string>, ports: Ports)
    requires rest != []
    ensures var n, o := rest[0], RunNode(e, rest[0], r.net.ports, r.cell);
            Fanout(e, r, rest, ports) == Fanout(e, r, rest[1..], if n in r.net.active && o.Done? then WriteAll(ports, n, o.out) else ports)
  {
  }

  lemma PendingTurn(e: Engine, r: Run, rest: seq<string>, checkpoint: bool)
    requires rest != []
    ensures Pendings(e, r, rest, checkpoint) ==
            (if Suspends(e, r, rest[0], checkpoint) then [rest[0]] else []) + Pendings(e, r, rest[1..], checkpoint)
  {
  }

  lemma StagedTurn(e: Engine, r: Run, done: seq<string>, n: string)
    ensures var o := RunNode(e, n, r.net.ports, r.cell);
            Staged(e, r, done + [n]) ==
              if n in r.net.active && o.writes != [] then Staged(e, r, done)[n := LastOf(o.writes)] else Staged(e, r, done)
  {
    hide RunNode;
    assert forall x :: x in done + [n] <==> x in done || x == n;
  }

  // ---------------------------------------------------------------- entry points

  /** The fresh-run branch of runCore: entries, declared inputs, input mappings. Active are the nodes that no wire
      targets or that an input names; every edge is pending. */
  method Start(e: Engine, inputs: map<string, Value>) returns (r: Result<Net, RunError>)
    ensures r == StartNet(e.flow, inputs)
    ensures r.Ok? ==> |r.value.edges| == |e.flow.edges| && forall i :: 0 <= i < |r.value.edges| ==> r.value.edges[i] == Pending
    ensures r.Ok? ==> forall n :: n in r.value.active <==>
              || (&& n in Ids(e.flow)
                  && (forall i :: 0 <= i < |e.flow.edges| ==> e.flow.edges[i].target.node != n)
                  && (forall j :: 0 <= j < |e.flow.mappings| ==> e.flow.mappings[j].target.node != n))
              || GivenInput(e.flow, n)
  {
    forall n { StartActive(e.flow, inputs, n); }
    var net := Net(Entries(e.flow), map[], seq(|e.flow.edges|, _ => Pending));
    for i := 0 to |e.flow.inputs|
      invariant InputsFrom(e.flow, inputs, Net(Entries(e.flow), map[], seq(|e.flow.edges|, _ => Pending)), 0) == InputsFrom(e.flow, inputs, net, i)
    {
      var ref := e.flow.inputs[i];
      if ref.name !in inputs { return Err(MissingInput(ref.name)); }
      net := net.(active := net.active + {ref.node},
                  ports := net.ports[PortKey(ref.node, ref.port) := inputs[ref.name]]);
    }
    ghost var ready := net;
    for j := 0 to |e.flow.mappings|
      invariant InputMappingsFrom(e.flow, inputs, ready, 0) == InputMappingsFrom(e.flow, inputs, net, j)
    {
      var m := e.flow.mappings[j];
      if m.source.input == "" { continue; }
      if m.source.input !in inputs { return Err(MissingInput(m.source.input)); }
      var value := SelectPath(inputs[m.source.input], m.source.path);
      if value.Err? { return Err(InputMapping(j)); }
      match Assign(net, Wiring.Targets(m), m.target.path, value.value) {
        case None => return Err(InputMapping(j));
        case Some(n) => net := n;
      }
    }
    return Ok(net);
  }

  /** buildStateCell: no State machinery without an initial value or a reducer. */
  function CellSeed(initial: Option<Value>, red: Option<Reducer>): Option<Value> {
    if initial.Some? then initial else if red.Some? then Some(Nil) else None
  }

  method BuildStateCell(initial: Option<Value>, red: Option<Reducer>) returns (cell: StateCell?)
    ensures cell == null <==> initial.None? && red.None?
    ensures cell != null ==> fresh(cell) && cell.staged == map[] && cell.reducer == red
    ensures cell != null && initial.Some? ==> cell.committed == initial.value
    ensures cell != null && initial.None? ==> cell.committed == Nil
  {
    cell := null;
    if initial.Some? || red.Some? {
      cell := new StateCell(if initial.Some? then initial.value else Nil, red);
    }
  }

  /** runCore from a given start. */
  method RunCore(e: Engine, cell: StateCell?, net: Net, log: seq<Visit>, startLayer: nat,
                 checkpoint: bool) returns (f: Final)
    requires Compiled(e) && (cell != null ==> cell.staged == map[]) && |net.edges| == |e.flow.edges|
    modifies cell
    ensures f == RunFrom(e, if cell == null then None else cell.reducer,
                         Run(net, if cell == null then None else Some(old(cell.committed)), log),
                         startLayer, checkpoint)
  {
    var x := new Execution(e, cell, net, log);
    forall k | 0 <= k < |e.layers| ensures Distinct(e.layers[k]) { LayersAreAhead(e, k); }
    f := x.RunLayers(startLayer, checkpoint);
  }

  /** Without State the reducer is never consulted. */
  lemma {:induction false} NoCellNoReducer(e: Engine, red: Option<Reducer>, r: Run, k: nat, checkpoint: bool)
    requires |r.net.edges| == |e.flow.edges| && r.cell.None?
    ensures RunFrom(e, red, r, k, checkpoint) == RunFrom(e, None, r, k, checkpoint)
    decreases |e.layers| - k
  {
    if k < |e.layers| {
      match LayerStep(e, red, r, e.layers[k], checkpoint)
      case StepDone(s) => NoCellNoReducer(e, red, s, k + 1, checkpoint);
      case StepFailed(_) =>
      case StepSuspended(_, _, _) =>
    }
  }

  /** Run and RunWithState. */
  method RunToEnd(e: Engine, inputs: map<string, Value>, initial: Option<Value>, red: Option<Reducer>)
      returns (r: Result<map<string, Value>, RunError>)
    requires Compiled(e)
    ensures match FreshRun(e, red, CellSeed(initial, red), inputs, false)
            case Failed(x) => r == Err(x)
            case Suspended(_, _, _, _) => true
            case Finished(s) => r == Outputs(e.flow, s.net)
  {
    var net := Start(e, inputs);
    match net {
      case Err(x) => return Err(x);
      case Ok(n) =>
        var cell := BuildStateCell(initial, red);
        var f := RunCore(e, cell, n, [], 0, false);
        if cell == null { NoCellNoReducer(e, red, Run(n, None, []), 0, false); }
        match f {
          case Failed(x) => return Err(x);
          case Suspended(_, _, _, _) => return Err(NodeFailed);
          case Finished(s) => r := CollectOutputs(e.flow, s.net);
        }
    }
  }

  /** The declared outputs. */
  method CollectOutputs(f: Flow, net: Net) returns (r: Result<map<string, Value>, RunError>)
    ensures r == Outputs(f, net)
  {
    var out: map<string, Value> := map[];
    for i := 0 to |f.outputs|
      invariant Outputs(f, net) == OutputsFrom(f, net, i, out)
    {
      var ref := f.outputs[i];
      if ref.node !in net.active { continue; }
      var k := PortKey(ref.node, ref.port);
      if k !in net.ports { return Err(OutputMissing(ref.name)); }
      out := out[OutputKey(ref) := net.ports[k]];
    }
    return Ok(out);
  }

  /** MemoryCheckpointStore. */
  class MemoryCheckpointStore {
    var m: map<string, Checkpoint>

    constructor ()
      ensures m == map[]
    {
      m := map[];
    }

    method SaveCheckpoint(cp: Checkpoint)
      modifies this
      ensures m == old(m)[cp.runId := cp]
    {
      m := m[cp.runId := cp];
    }

    method LoadCheckpoint(token: string) returns (cp: Option<Checkpoint>)
      ensures cp == if token in m then Some(m[token]) else None
    {
      cp := if token in m then Some(m[token]) else None;
    }
  }

  /** The deferred-edge loop of resumeWithCell. */
  method FireDeferred(w: Wires, start: Net) returns (r: Result<Net, FireError>)
    requires |start.edges| == |w.edges|
    ensures r == DeferredFrom(w, start, 0)
  {
    var net := start;
    for i := 0 to |w.edges|
      invariant |net.edges| == |w.edges|
      invariant DeferredFrom(w, start, 0) == DeferredFrom(w, net, i)
    {
      var edge := w.edges[i];
      var sp := PortsOf(net.ports, edge.source.node);
      if net.edges[i] != Deferred || edge.source.port !in sp { continue; }
      match Judge(w, i, sp) {
        case Err(x) => return Err(x);
        case Ok(s) => net := Settle(w, net, i, sp, s);
      }
    }
    return Ok(net);
  }

  /** The mapping replay of resumeWithCell. */
  method ReplayMappings(w: Wires, start: Net, node: string) returns (r: Result<Net, FireError>)
    ensures r == ReplayFrom(w, start, node, 0)
  {
    var net := start;
    for j := 0 to |w.mappings|
      invariant ReplayFrom(w, start, node, 0) == ReplayFrom(w, net, node, j)
    {
      if w.mappings[j].source.node != node { continue; }
      match MapStep(w, net, j, PortsOf(net.ports, node)) {
        case Err(x) => return Err(x);
        case Ok(n) => net := n;
      }
    }
    return Ok(net);
  }

  /** A finished or suspended engine call, as RunResumable and Resume hand it back: a suspension is saved
      under the run's id first. */
  method Deliver(e: Engine, c: Codec, store: MemoryCheckpointStore, runId: string, f: Final,
                 inputs: map<string, Value>) returns (leg: Leg)
    modifies store
    ensures leg == Conclude(e, c, runId, f, inputs)
    ensures store.m == if leg.LegSuspended? then old(store.m)[runId := leg.cp] else old(store.m)
  {
    match f {
      case Failed(x) => return LegFailed(RunFailed(x));
      case Finished(r) =>
        var out := CollectOutputs(e.flow, r.net);
        match out {
          case Err(x) => return LegFailed(RunFailed(x));
          case Ok(o) => return LegDone(r, o);
        }
      case Suspended(r, k, n, q) =>
        match Snapshot(e, c, runId, r, k, n, q, inputs) {
          case None => return LegFailed(NotCheckpointable);
          case Some(cp) =>
            store.SaveCheckpoint(cp);
            return LegSuspended(cp, r.log);
        }
    }
  }

  /** RunResumableWithState. */
  method RunResumable(e: Engine, c: Codec, store: MemoryCheckpointStore, runId: string, inputs: map<string, Value>,
                      initial: Option<Value>, red: Option<Reducer>) returns (leg: Leg)
    requires Compiled(e)
    modifies store
    ensures leg == FirstLeg(e, c, red, CellSeed(initial, red), runId, inputs)
    ensures store.m == if leg.LegSuspended? then old(store.m)[runId := leg.cp] else old(store.m)
  {
    var net := Start(e, inputs);
    match net {
      case Err(x) => return LegFailed(RunFailed(x));
      case Ok(n) =>
        var cell := BuildStateCell(initial, red);
        var f := RunCore(e, cell, n, [], 0, true);
        if cell == null { NoCellNoReducer(e, red, Run(n, None, []), 0, true); }
        leg := Deliver(e, c, store, runId, f, inputs);
    }
  }

  /** A leg has a State after the restore exactly when its options give it one. */
  lemma RestoredIsSeeded(c: Codec, cp: Checkpoint, seed: Option<Value>)
    ensures var r := RestoreCell(c, cp, seed); r.Ok? ==> (r.value.Some? <==> seed.Some?)
  {
  }

  /** What a resume does once the checkpoint is loaded. */
  method ResumeLoaded(e: Engine, c: Codec, store: MemoryCheckpointStore, runId: string, cp: Checkpoint,
                      human: map<string, Value>, log: seq<Visit>, initial: Option<Value>,
                      red: Option<Reducer>) returns (leg: Leg)
    requires Compiled(e) && e.hasStore
    modifies store
    ensures leg == ResumeLeg(e, c, red, CellSeed(initial, red), runId, cp, human, log)
    ensures store.m == if leg.LegSuspended? then old(store.m)[runId := leg.cp] else old(store.m)
  {
    hide RunFrom, Conclude, DeferredFrom, ReplayFrom, DecodeAll, RestoreCell, Compiled, WriteAll;
    if !Admits(e, cp) { return LegFailed(FlowChanged); }
    var restored := RestoreCell(c, cp, CellSeed(initial, red));
    if restored.Err? { return LegFailed(restored.error); }
    var cell := BuildStateCell(initial, red);
    RestoredIsSeeded(c, cp, CellSeed(initial, red));
    if cell != null { cell.SetCommitted(restored.value.value); }
    var ports := DecodeAll(c, cp.ports);
    if ports.None? || |cp.edges| != |e.flow.edges| { return LegFailed(BadCheckpoint); }
    if cp.node !in e.nodes { return LegFailed(UnknownInterruptNode); }
    if !(forall k :: k in human ==> k in e.nodes[cp.node].outputs) { return LegFailed(InvalidHumanInput); }
    var w := WiresOf(e);
    var net := Inject(Net(cp.active, ports.value, cp.edges), cp.node, human);
    var fired := FireDeferred(w, net);
    if fired.Err? { return LegFailed(RunFailed(FiringFailed(fired.error))); }
    fired := ReplayMappings(w, fired.value, cp.node);
    if fired.Err? { return LegFailed(RunFailed(FiringFailed(fired.error))); }
    var f := RunCore(e, cell, fired.value, log, cp.suspendLayer + 1, true);
    if cell == null { NoCellNoReducer(e, red, Run(fired.value, None, log), cp.suspendLayer + 1, true); }
    leg := Deliver(e, c, store, runId, f, map[]);
  }

  /** ResumeWithState: the leg the stored checkpoint determines, and the store updated on a further
      suspension. The checkpoint itself stays in the store. A checkpoint of another flow is refused, and so are a
      port value that does not decode and an answer on a port the node does not declare. */
  method ResumeRun(e: Engine, c: Codec, store: MemoryCheckpointStore, runId: string, token: string,
                   human: map<string, Value>,
                   log: seq<Visit>, initial: Option<Value>, red: Option<Reducer>) returns (leg: Leg)
    requires Compiled(e)
    modifies store
    ensures if !e.hasStore then leg == LegFailed(NoStore)
            else if token !in old(store.m) then leg == LegFailed(CheckpointNotFound)
            else leg == ResumeLeg(e, c, red, CellSeed(initial, red), runId, old(store.m)[token], human, log)
    ensures store.m == if leg.LegSuspended? then old(store.m)[runId := leg.cp] else old(store.m)
    ensures e.hasStore && token in old(store.m) && Strange(e, old(store.m)[token]) ==> leg == LegFailed(FlowChanged)
    ensures !leg.LegFailed? ==>
              && token in old(store.m) && !Strange(e, old(store.m)[token]) && old(store.m)[token].node in e.nodes
              && (forall k :: k in human ==> k in e.nodes[old(store.m)[token].node].outputs)
              && (forall k :: k in old(store.m)[token].ports ==> c.decode(old(store.m)[token].ports[k]).Some?)
  {
    hide ResumeLeg, Compiled;
    if !e.hasStore { return LegFailed(NoStore); }
    var found := store.LoadCheckpoint(token);
    if found.None? { return LegFailed(CheckpointNotFound); }
    ResumeRefuses(e, c, red, CellSeed(initial, red), runId, found.value, human, log);
    leg := ResumeLoaded(e, c, store, runId, found.value, human, log, initial, red);
  }
}
