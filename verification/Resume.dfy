/** Checkpoints and resumption (v2/flow/checkpoint.go, v2/flow/resume.go): one leg of a resumable run,
    and the chain of legs a caller drives. */
module Resume {
  import opened Prelude
  import opened FlowIr
  import opened Wiring
  import opened State
  import opened LayeredEngine

  /** A tagged JSON value. */
  datatype Raw = Raw(tag: string, json: string)

  /** encodePortValue, decodePortValue and stateCodecTag for the registered types. */
  datatype Codec = Codec(
    encode: Value -> Option<Raw>,
    decode: Raw -> Option<Value>,
    stateTag: Value -> Option<string>)

  /** A nil value is never encodable; whatever is encodable decodes to itself. */
  ghost predicate RoundTrips(c: Codec) {
    c.encode(Nil).None? && forall v :: c.encode(v).Some? ==> c.decode(c.encode(v).value) == Some(v)
  }

  datatype Checkpoint = Checkpoint(
    runId: string,
    flowHash: string,
    structHash: string,
    ports: map<PortKey, Raw>,
    active: set<string>,
    edges: seq<EdgeState>,
    suspendLayer: nat,
    node: string,
    request: Request,
    inputs: map<string, Raw>,
    state: Option<Raw>,
    stateTag: string)

  datatype LegError =
    | RunFailed(error: RunError)
    | NotCheckpointable
    | CheckpointNotFound
    | FlowChanged
    | NoStore
    | BadCheckpoint
    | UnknownInterruptNode
    | InvalidHumanInput

  /** The outcome of one call to RunResumable or Resume. */
  datatype Leg =
    | LegFailed(error: LegError)
    | LegSuspended(cp: Checkpoint, log: seq<Visit>)
    | LegDone(run: Run, outputs: map<string, Value>)

  // ---------------------------------------------------------------- snapshot

  function EncodeAll<K(==)>(c: Codec, m: map<K, Value>): Option<map<K, Raw>> {
    if forall k :: k in m ==> c.encode(m[k]).Some? then Some(map k | k in m :: c.encode(m[k]).value) else None
  }

  function DecodeAll<K(==)>(c: Codec, m: map<K, Raw>): Option<map<K, Value>> {
    if forall k :: k in m ==> c.decode(m[k]).Some? then Some(map k | k in m :: c.decode(m[k]).value) else None
  }

  /** The encoded State and its guard tag: empty when there is no State or it is nil. */
  function EncodeState(c: Codec, cell: Option<Value>): Option<(Option<Raw>, string)> {
    if cell.None? || cell.value.Nil? then Some((None, ""))
    else
      var raw, tag := c.encode(cell.value), c.stateTag(cell.value);
      if raw.None? || tag.None? then None else Some((raw, tag.value))
  }

  /** snapshotCheckpoint. */
  function Snapshot(e: Engine, c: Codec, runId: string, r: Run, layer: nat, node: string, request: Request,
                          inputs: map<string, Value>): Option<Checkpoint>
  {
    var ports, ins, st := EncodeAll(c, r.net.ports), EncodeAll(c, inputs), EncodeState(c, r.cell);
    if ports.None? || ins.None? || st.None? then None
    else Some(Checkpoint(runId, e.flowHash, e.structHash, ports.value, r.net.active, r.net.edges, layer, node, request,
                         ins.value, st.value.0, st.value.1))
  }

  /** A run can be checkpointed exactly when every port value and every input can be encoded and its State, unless
      there is none or it is nil, can be encoded and tagged. The checkpoint then holds the run, value by value. */
  lemma SnapshotExactlyWhen(e: Engine, c: Codec, runId: string, r: Run, layer: nat, node: string, request: Request,
                            inputs: map<string, Value>)
    ensures var cp := Snapshot(e, c, runId, r, layer, node, request, inputs);
            && (cp.None? <==>
                  || (exists k :: k in r.net.ports && c.encode(r.net.ports[k]).None?)
                  || (exists k :: k in inputs && c.encode(inputs[k]).None?)
                  || (r.cell.Some? && !r.cell.value.Nil? && (c.encode(r.cell.value).None? || c.stateTag(r.cell.value).None?)))
            && (cp.Some? ==>
                  && cp.value.runId == runId && cp.value.flowHash == e.flowHash && cp.value.structHash == e.structHash
                  && cp.value.active == r.net.active && cp.value.edges == r.net.edges
                  && cp.value.suspendLayer == layer && cp.value.node == node && cp.value.request == request
                  && cp.value.ports.Keys == r.net.ports.Keys && cp.value.inputs.Keys == inputs.Keys
                  && (forall k :: k in r.net.ports ==> Some(cp.value.ports[k]) == c.encode(r.net.ports[k]))
                  && (forall k :: k in inputs ==> Some(cp.value.inputs[k]) == c.encode(inputs[k]))
                  && (if r.cell.None? || r.cell.value.Nil? then cp.value.state == None && cp.value.stateTag == ""
                      else cp.value.state == c.encode(r.cell.value) && Some(cp.value.stateTag) == c.stateTag(r.cell.value)))
  {
  }

  /** From the end of the layer loop to the caller. */
  function Conclude(e: Engine, c: Codec, runId: string, f: Final, inputs: map<string, Value>): (leg: Leg)
    ensures leg.LegSuspended? ==> f.Suspended? && leg.cp.suspendLayer == f.layer
  {
    match f
    case Failed(x) => LegFailed(RunFailed(x))
    case Finished(r) =>
      (match Outputs(e.flow, r.net)
       case Err(x) => LegFailed(RunFailed(x))
       case Ok(out) => LegDone(r, out))
    case Suspended(r, k, n, q) =>
      match Snapshot(e, c, runId, r, k, n, q, inputs)
      case None => LegFailed(NotCheckpointable)
      case Some(cp) => LegSuspended(cp, r.log)
  }

  /** RunResumableWithState. */
  ghost function FirstLeg(e: Engine, c: Codec, red: Option<Reducer>, seed: Option<Value>, runId: string,
                          inputs: map<string, Value>): (leg: Leg)
    ensures leg.LegSuspended? ==> leg.cp.suspendLayer < |e.layers|
  {
    Conclude(e, c, runId, FreshRun(e, red, seed, inputs, true), inputs)
  }

  /** What the caller of a first leg is given: the declared outputs of a run that finished, the error of one that did
      not, or the checkpoint of where and for what it suspended, with everything the run holds and was given. */
  lemma FirstLegHolds(e: Engine, c: Codec, red: Option<Reducer>, seed: Option<Value>, runId: string,
                      inputs: map<string, Value>)
    ensures var f, leg := FreshRun(e, red, seed, inputs, true), FirstLeg(e, c, red, seed, runId, inputs);
            && (f.Failed? ==> leg == LegFailed(RunFailed(f.error)))
            && (f.Finished? ==> if Outputs(e.flow, f.run.net).Ok? then leg == LegDone(f.run, Outputs(e.flow, f.run.net).value)
                                else leg == LegFailed(RunFailed(Outputs(e.flow, f.run.net).error)))
            && (f.Suspended? && leg.LegFailed? ==> leg.error == NotCheckpointable)
            && !(f.Suspended? && leg.LegDone?)
            && (leg.LegSuspended? ==>
                  && f.Suspended? && leg.log == f.run.log
                  && leg.cp.runId == runId && leg.cp.flowHash == e.flowHash && leg.cp.structHash == e.structHash
                  && leg.cp.suspendLayer == f.layer && leg.cp.node == f.node && leg.cp.request == f.request
                  && leg.cp.active == f.run.net.active && leg.cp.edges == f.run.net.edges
                  && leg.cp.ports.Keys == f.run.net.ports.Keys && leg.cp.inputs.Keys == inputs.Keys
                  && (forall k :: k in f.run.net.ports ==> Some(leg.cp.ports[k]) == c.encode(f.run.net.ports[k]))
                  && (forall k :: k in inputs ==> Some(leg.cp.inputs[k]) == c.encode(inputs[k])))
  {
    hide FreshRun, Outputs, EncodeState;
    match FreshRun(e, red, seed, inputs, true)
    case Suspended(r, k, n, q) => SnapshotExactlyWhen(e, c, runId, r, k, n, q, inputs);
    case Failed(_) =>
    case Finished(_) =>
  }

  // ---------------------------------------------------------------- resume

  /** The flow-changed guard: equal flow hash, or a non-empty and equal structural hash. */
  predicate Admits(e: Engine, cp: Checkpoint) {
    cp.flowHash == e.flowHash || (cp.structHash != "" && cp.structHash == e.structHash)
  }

  /** The State a resumed leg starts from. Durable State wins over the seed, after the tag guard; a leg
      without State options drops it. */
  function RestoreCell(c: Codec, cp: Checkpoint, seed: Option<Value>): Result<Option<Value>, LegError> {
    if seed.None? then Ok(None)
    else if cp.state.None? then Ok(seed)
    else if cp.stateTag != "" && !seed.value.Nil? && c.stateTag(seed.value).None? then Err(NotCheckpointable)
    else if cp.stateTag != "" && !seed.value.Nil? && c.stateTag(seed.value).value != cp.stateTag then Err(FlowChanged)
    else match c.decode(cp.state.value)
      case None => Err(BadCheckpoint)
      case Some(v) => Ok(Some(v))
  }

  /** humanInput becomes the interrupt node's output ports. */
  function Inject(net: Net, node: string, human: map<string, Value>): Net {
    net.(active := net.active + {node}, ports := WriteAll(net.ports, node, human))
  }

  /** Fires the deferred edges, from index i on. One whose port the human left out stays deferred. */
  function DeferredFrom(w: Wires, net: Net, i: nat): (r: Result<Net, FireError>)
    requires |net.edges| == |w.edges| && i <= |w.edges|
    ensures r.Ok? ==> |r.value.edges| == |w.edges|
    decreases |w.edges| - i
  {
    if i == |w.edges| then Ok(net)
    else
      var sp := PortsOf(net.ports, w.edges[i].source.node);
      if net.edges[i] != Deferred || w.edges[i].source.port !in sp then DeferredFrom(w, net, i + 1)
      else match Judge(w, i, sp)
        case Err(x) => Err(x)
        case Ok(s) => DeferredFrom(w, Settle(w, net, i, sp, s), i + 1)
  }

  /** Replays the mappings that read the interrupt node, from index j on. */
  function ReplayFrom(w: Wires, net: Net, node: string, j: nat): (r: Result<Net, FireError>)
    requires j <= |w.mappings|
    ensures r.Ok? ==> r.value.edges == net.edges
    decreases |w.mappings| - j
  {
    if j == |w.mappings| then Ok(net)
    else if w.mappings[j].source.node != node then ReplayFrom(w, net, node, j + 1)
    else match MapStep(w, net, j, PortsOf(net.ports, node))
      case Err(x) => Err(x)
      case Ok(n) => ReplayFrom(w, n, node, j + 1)
  }

  function ResumeNet(w: Wires, net: Net, node: string, human: map<string, Value>): (r: Result<Net, FireError>)
    requires |net.edges| == |w.edges|
    ensures r.Ok? ==> |r.value.edges| == |w.edges|
  {
    match DeferredFrom(w, Inject(net, node, human), 0)
    case Err(x) => Err(x)
    case Ok(n) => ReplayFrom(w, n, node, 0)
  }

  /** ResumeWithState on a loaded checkpoint. A cursor of the wrong length, which the code would index out
      of range, counts as a bad checkpoint. The log carries on from the earlier legs. */
  ghost function ResumeLeg(e: Engine, c: Codec, red: Option<Reducer>, seed: Option<Value>, runId: string,
                           cp: Checkpoint, human: map<string, Value>, log: seq<Visit>): (leg: Leg)
    ensures leg.LegSuspended? ==> cp.suspendLayer < leg.cp.suspendLayer < |e.layers|
  {
    if !e.hasStore then LegFailed(NoStore)
    else if !Admits(e, cp) then LegFailed(FlowChanged)
    else match RestoreCell(c, cp, seed)
      case Err(x) => LegFailed(x)
      case Ok(cell) =>
        var ports := DecodeAll(c, cp.ports);
        if ports.None? || |cp.edges| != |e.flow.edges| then LegFailed(BadCheckpoint)
        else if cp.node !in e.nodes then LegFailed(UnknownInterruptNode)
        else if !(forall k :: k in human ==> k in e.nodes[cp.node].outputs) then LegFailed(InvalidHumanInput)
        else match ResumeNet(WiresOf(e), Net(cp.active, ports.value, cp.edges), cp.node, human)
          case Err(x) => LegFailed(RunFailed(FiringFailed(x)))
          case Ok(n) =>
            Conclude(e, c, runId, RunFrom(e, red, Run(n, cell, log), cp.suspendLayer + 1, true), map[])
  }

  /** The checkpoint is of another flow, and of another structure or of none that was recorded. */
  ghost predicate Strange(e: Engine, cp: Checkpoint) {
    cp.flowHash != e.flowHash && (cp.structHash == "" || cp.structHash != e.structHash)
  }

  /** What a resume refuses before it touches anything, in the order in which it looks. */
  lemma ResumeRefuses(e: Engine, c: Codec, red: Option<Reducer>, seed: Option<Value>, runId: string, cp: Checkpoint,
                      human: map<string, Value>, log: seq<Visit>)
    ensures var leg := ResumeLeg(e, c, red, seed, runId, cp, human, log);
            var strange := Strange(e, cp);
            var tagged := seed.Some? && !seed.value.Nil? && cp.state.Some? && cp.stateTag != "";
            && (!e.hasStore ==> leg == LegFailed(NoStore))
            && (e.hasStore && strange ==> leg == LegFailed(FlowChanged))
            && (e.hasStore && !strange && tagged && c.stateTag(seed.value).None? ==> leg == LegFailed(NotCheckpointable))
            && (e.hasStore && !strange && tagged && c.stateTag(seed.value).Some? && c.stateTag(seed.value).value != cp.stateTag ==>
                  leg == LegFailed(FlowChanged))
            && (e.hasStore && !strange && !tagged && (exists k :: k in cp.ports && c.decode(cp.ports[k]).None?) ==>
                  leg == LegFailed(BadCheckpoint))
            && (!leg.LegFailed? ==>
                  && !strange && cp.node in e.nodes && (forall k :: k in human ==> k in e.nodes[cp.node].outputs)
                  && (forall k :: k in cp.ports ==> c.decode(cp.ports[k]).Some?))
  {
  }

  /** What a resume that is not refused goes on from: the checkpoint's ports, decoded, the human's answer on the
      interrupt node's own ports, the edges it held back, and a State that is the durable one if the checkpoint has it,
      otherwise the caller's seed, and none at all for a caller without State options. */
  lemma ResumeContinues(e: Engine, c: Codec, red: Option<Reducer>, seed: Option<Value>, runId: string, cp: Checkpoint,
                        human: map<string, Value>, log: seq<Visit>, ports: Ports, net: Net)
    requires e.hasStore && !Strange(e, cp) && cp.node in e.nodes && |cp.edges| == |e.flow.edges|
    requires forall k :: k in human ==> k in e.nodes[cp.node].outputs
    requires ports.Keys == cp.ports.Keys && forall k :: k in ports ==> c.decode(cp.ports[k]) == Some(ports[k])
    requires seed.Some? && !seed.value.Nil? && cp.state.Some? && cp.stateTag != "" ==>
             c.stateTag(seed.value) == Some(cp.stateTag)
    requires ResumeNet(WiresOf(e), Net(cp.active, ports, cp.edges), cp.node, human) == Ok(net)
    ensures var leg := ResumeLeg(e, c, red, seed, runId, cp, human, log);
            var from := (cell: Option<Value>) => Conclude(e, c, runId, Resumed(e, red, net, cell, log, cp.suspendLayer), map[]);
            && (seed.None? ==> leg == from(None))
            && (seed.Some? && cp.state.None? ==> leg == from(seed))
            && (seed.Some? && cp.state.Some? ==>
                  leg == if c.decode(cp.state.value).Some? then from(c.decode(cp.state.value)) else LegFailed(BadCheckpoint))
  {
    hide Conclude, RunFrom, ResumeNet;
    forall k | k in cp.ports ensures c.decode(cp.ports[k]) == Some(ports[k]) { assert k in ports; }
    assert DecodeAll(c, cp.ports).value == ports;
  }

  /** The layers after the one a run was suspended in. */
  ghost function Resumed(e: Engine, red: Option<Reducer>, net: Net, cell: Option<Value>, log: seq<Visit>,
                         layer: nat): Final
    requires |net.edges| == |e.flow.edges|
  {
    RunFrom(e, red, Run(net, cell, log), layer + 1, true)
  }

  /** The caller resumes every suspension with the human's answer for its node, until the run is over. */
  ghost function Drive(e: Engine, c: Codec, red: Option<Reducer>, seed: Option<Value>, runId: string,
                       human: string -> map<string, Value>, leg: Leg): (last: Leg)
    ensures !last.LegSuspended?
    decreases if leg.LegSuspended? then 1 + (if leg.cp.suspendLayer < |e.layers| then |e.layers| - leg.cp.suspendLayer else 0) else 0
  {
    if !leg.LegSuspended? then leg
    else Drive(e, c, red, seed, runId, human, ResumeLeg(e, c, red, seed, runId, leg.cp, human(leg.cp.node), leg.log))
  }
}
