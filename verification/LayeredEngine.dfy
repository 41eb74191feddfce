/** The layered engine (v2/flow/engine.go): one run as a function of the engine, the inputs and the State. */
module LayeredEngine {
  import opened Prelude
  import opened FlowIr
  import opened Paths
  import opened Topology
  import opened Layering
  import opened Validation
  import opened Wiring
  import opened State

  datatype Request = Request(kind: string, prompt: string)

  /** What one node's Run does: its result, and the State writes it staged on the way. An interrupting
      node may have staged writes too. */
  datatype Outcome =
    | Done(out: map<string, Value>, writes: seq<Value>)
    | Failure(writes: seq<Value>)
    | Interrupt(request: Request, writes: seq<Value>)

  /** A resolved node. Run sees the node's ports and the committed State, if the run has one. */
  datatype NodeKind = NodeKind(
    inputs: seq<string>,
    outputs: seq<string>,
    canInterrupt: bool,
    run: (map<string, Value>, Option<Value>) -> Outcome)

  datatype Engine = Engine(
    flow: Flow,
    nodes: map<string, NodeKind>,
    layers: seq<seq<string>>,
    cond: (string, string) -> CondResult,
    hasStore: bool,
    flowHash: string,
    structHash: string)

  function WiresOf(e: Engine): Wires { Wires(e.flow.edges, e.flow.mappings, e.cond) }

  datatype RunError =
    | MissingInput(name: string)
    | InputMapping(mapping: nat)
    | NodeFailed
    | StateFailed(reduce: ReduceError)
    | FiringFailed(fire: FireError)
    | NoCheckpointStore
    | MultipleInterrupts
    | OutputMissing(name: string)

  /** NodeStarted and NodeSkipped, in the order the engine handles the nodes. */
  datatype Visit = Ran(node: string) | Skipped(node: string)

  /** The variables of runCore. cell is None when the run has no State. */
  datatype Run = Run(net: Net, cell: Option<Value>, log: seq<Visit>)

  // ---------------------------------------------------------------- start

  predicate HasIncoming(f: Flow, n: string) {
    (exists i :: 0 <= i < |f.edges| && f.edges[i].target.node == n) ||
    (exists j :: 0 <= j < |f.mappings| && f.mappings[j].target.node == n)
  }

  /** The Flow.Inputs, from the i-th on: each is required, writes its port and activates its node. */
  function InputsFrom(f: Flow, inputs: map<string, Value>, net: Net, i: nat): (r: Result<Net, RunError>)
    requires i <= |f.inputs|
    ensures r.Ok? ==> r.value.edges == net.edges
    decreases |f.inputs| - i
  {
    if i == |f.inputs| then Ok(net)
    else
      var ref := f.inputs[i];
      if ref.name !in inputs then Err(MissingInput(ref.name))
      else InputsFrom(f, inputs, net.(active := net.active + {ref.node},
                                      ports := net.ports[PortKey(ref.node, ref.port) := inputs[ref.name]]), i + 1)
  }

  /** applyInputMappings, from the j-th mapping on. */
  function InputMappingsFrom(f: Flow, inputs: map<string, Value>, net: Net, j: nat): (r: Result<Net, RunError>)
    requires j <= |f.mappings|
    ensures r.Ok? ==> r.value.edges == net.edges
    decreases |f.mappings| - j
  {
    if j == |f.mappings| then Ok(net)
    else
      var m := f.mappings[j];
      if m.source.input == "" then InputMappingsFrom(f, inputs, net, j + 1)
      else if m.source.input !in inputs then Err(MissingInput(m.source.input))
      else match Select(inputs[m.source.input], m.source.path)
        case Err(_) => Err(InputMapping(j))
        case Ok(v) =>
          match Assign(net, Wiring.Targets(m), m.target.path, v)
          case None => Err(InputMapping(j))
          case Some(n) => InputMappingsFrom(f, inputs, n, j + 1)
  }

  function Entries(f: Flow): set<string> {
    set n | n in Ids(f) && !HasIncoming(f, n)
  }

  function StartNet(f: Flow, inputs: map<string, Value>): (r: Result<Net, RunError>)
    ensures r.Ok? ==> r.value.edges == seq(|f.edges|, _ => Pending)
  {
    match InputsFrom(f, inputs, Net(Entries(f), map[], seq(|f.edges|, _ => Pending)), 0)
    case Err(e) => Err(e)
    case Ok(n) => InputMappingsFrom(f, inputs, n, 0)
  }

  // ---------------------------------------------------------------- one layer

  function RunNode(e: Engine, n: string, ports: Ports, cell: Option<Value>): Outcome {
    if n in e.nodes then e.nodes[n].run(PortsOf(ports, n), cell) else Failure([])
  }

  predicate CanInterrupt(e: Engine, n: string) {
    n in e.nodes && e.nodes[n].canInterrupt
  }

  /** The node's task returns a real error: its own, or an interrupt it may not raise. */
  predicate Fails(e: Engine, r: Run, n: string, checkpoint: bool) {
    n in r.net.active &&
    match RunNode(e, n, r.net.ports, r.cell)
    case Done(_, _) => false
    case Failure(_) => true
    case Interrupt(_, _) => !(checkpoint && CanInterrupt(e, n))
  }

  predicate Suspends(e: Engine, r: Run, n: string, checkpoint: bool) {
    n in r.net.active && checkpoint && CanInterrupt(e, n) && RunNode(e, n, r.net.ports, r.cell).Interrupt?
  }

  function WriteAll(ports: Ports, n: string, out: map<string, Value>): (r: Ports)
    ensures forall k :: k in r <==> k in ports || (k.node == n && k.port in out)
    ensures forall k :: k in r ==> r[k] == if k.node == n && k.port in out then out[k.port] else ports[k]
  {
    map k | k in ports.Keys + (set p | p in out :: PortKey(n, p)) ::
      if k.node == n && k.port in out then out[k.port] else ports[k]
  }

  /** The ports after the layer's fanout: every node that finished adds its outputs to its own ports.
      All of them read the ports as they were when the layer started. */
  function Fanout(e: Engine, r: Run, layer: seq<string>, ports: Ports): Ports
    decreases |layer|
  {
    if layer == [] then ports
    else
      var n := layer[0];
      var o := RunNode(e, n, r.net.ports, r.cell);
      Fanout(e, r, layer[1..], if n in r.net.active && o.Done? then WriteAll(ports, n, o.out) else ports)
  }

  /** The State writes staged by the layer, the last one per node. */
  function Staged(e: Engine, r: Run, layer: seq<string>): map<string, Value> {
    map n | n in layer && n in r.net.active && RunNode(e, n, r.net.ports, r.cell).writes != [] ::
      LastOf(RunNode(e, n, r.net.ports, r.cell).writes)
  }

  function LastOf(s: seq<Value>): Value
    requires s != []
  {
    s[|s| - 1]
  }

  function Visits(layer: seq<string>, active: set<string>): (r: seq<Visit>)
    ensures |r| == |layer|
    ensures forall i :: 0 <= i < |layer| ==> r[i] == if layer[i] in active then Ran(layer[i]) else Skipped(layer[i])
  {
    seq(|layer|, i requires 0 <= i < |layer| => if layer[i] in active then Ran(layer[i]) else Skipped(layer[i]))
  }

  function Pendings(e: Engine, r: Run, layer: seq<string>, checkpoint: bool): (p: seq<string>)
    ensures forall n :: n in p <==> n in layer && Suspends(e, r, n, checkpoint)
  {
    if layer == [] then []
    else
      assert forall n :: n in layer <==> n == layer[0] || n in layer[1..];
      (if Suspends(e, r, layer[0], checkpoint) then [layer[0]] else []) + Pendings(e, r, layer[1..], checkpoint)
  }

  predicate AnyFails(e: Engine, r: Run, layer: seq<string>, checkpoint: bool) {
    exists n :: n in layer && Fails(e, r, n, checkpoint)
  }

  ghost function ReducedCell(cell: Option<Value>, staged: map<string, Value>,
                             red: Option<Reducer>): Result<Option<Value>, RunError> {
    if cell.None? then Ok(None)
    else match Reduced(cell.value, staged, red)
      case Err(x) => Err(StateFailed(x))
      case Ok(v) => Ok(Some(v))
  }

  /** The run after the layer's fanout has joined and State has been reduced. */
  ghost function Barrier(e: Engine, red: Option<Reducer>, r: Run, layer: seq<string>): (b: Result<Run, RunError>)
    ensures b.Ok? ==> b.value.net.edges == r.net.edges && b.value.net.active == r.net.active
  {
    match ReducedCell(r.cell, Staged(e, r, layer), red)
    case Err(x) => Err(x)
    case Ok(c) => Ok(Run(r.net.(ports := Fanout(e, r, layer, r.net.ports)), c, r.log + Visits(layer, r.net.active)))
  }

  datatype Step =
    | StepFailed(error: RunError)
    | StepSuspended(run: Run, node: string, request: Request)
    | StepDone(run: Run)

  ghost predicate Fits(e: Engine, r: Run) { |r.net.edges| == |e.flow.edges| }

  ghost function LayerStep(e: Engine, red: Option<Reducer>, r: Run, layer: seq<string>, checkpoint: bool): (s: Step)
    requires Fits(e, r)
    ensures !s.StepFailed? ==> Fits(e, s.run)
  {
    if AnyFails(e, r, layer, checkpoint) then StepFailed(NodeFailed)
    else match Barrier(e, red, r, layer)
      case Err(x) => StepFailed(x)
      case Ok(b) =>
        var pending := Pendings(e, r, layer, checkpoint);
        if pending == [] then
          (match FireLayer(WiresOf(e), b.net, layer, None)
           case Err(x) => StepFailed(FiringFailed(x))
           case Ok(n) => StepDone(b.(net := n)))
        else if !e.hasStore then StepFailed(NoCheckpointStore)
        else if |pending| > 1 then StepFailed(MultipleInterrupts)
        else
          (assert pending[0] in pending;
           match FireLayer(WiresOf(e), b.net, layer, Some(pending[0]))
           case Err(x) => StepFailed(FiringFailed(x))
           case Ok(n) => StepSuspended(b.(net := n), pending[0], RunNode(e, pending[0], r.net.ports, r.cell).request))
  }

  // ---------------------------------------------------------------- the layer loop

  datatype Final =
    | Failed(error: RunError)
    | Suspended(run: Run, layer: nat, node: string, request: Request)
    | Finished(run: Run)

  ghost function RunFrom(e: Engine, red: Option<Reducer>, r: Run, k: nat, checkpoint: bool): (f: Final)
    requires Fits(e, r)
    ensures !f.Failed? ==> Fits(e, f.run)
    ensures f.Suspended? ==> k <= f.layer < |e.layers|
    decreases |e.layers| - k
  {
    if k >= |e.layers| then Finished(r)
    else match LayerStep(e, red, r, e.layers[k], checkpoint)
      case StepFailed(x) => Failed(x)
      case StepSuspended(s, n, q) => Suspended(s, k, n, q)
      case StepDone(s) => RunFrom(e, red, s, k + 1, checkpoint)
  }

  /** A fresh run: the start, then every layer. */
  ghost function FreshRun(e: Engine, red: Option<Reducer>, cell: Option<Value>, inputs: map<string, Value>,
                          checkpoint: bool): Final {
    match StartNet(e.flow, inputs)
    case Err(x) => Failed(x)
    case Ok(n) => RunFrom(e, red, Run(n, cell, []), 0, checkpoint)
  }

  // ---------------------------------------------------------------- outputs

  function OutputKey(ref: NamedPortRef): string {
    if ref.name == "" then ref.node + "." + ref.port else ref.name
  }

  /** The declared outputs from the i-th on: those of skipped nodes are omitted, a missing port of an
      active node is an error. */
  function OutputsFrom(f: Flow, net: Net, i: nat, sofar: map<string, Value>): Result<map<string, Value>, RunError>
    requires i <= |f.outputs|
    decreases |f.outputs| - i
  {
    if i == |f.outputs| then Ok(sofar)
    else
      var ref := f.outputs[i];
      if ref.node !in net.active then OutputsFrom(f, net, i + 1, sofar)
      else if PortKey(ref.node, ref.port) !in net.ports then Err(OutputMissing(ref.name))
      else OutputsFrom(f, net, i + 1, sofar[OutputKey(ref) := net.ports[PortKey(ref.node, ref.port)]])
  }

  function Outputs(f: Flow, net: Net): Result<map<string, Value>, RunError> { OutputsFrom(f, net, 0, map[]) }

  // ---------------------------------------------------------------- compiled engines

  /** What Compile guarantees of an engine. */
  ghost predicate Compiled(e: Engine) {
    && Valid(e.flow)
    && IsLayering(Ids(e.flow), Arcs(e.flow), e.layers)
    && (forall n :: n in Ids(e.flow) ==> n in e.nodes)
    && (e.hasStore ==> forall k :: 0 <= k < |e.layers| ==> AtMostOneInterrupt(e, e.layers[k]))
  }

  ghost predicate AtMostOneInterrupt(e: Engine, layer: seq<string>) {
    forall i, j :: 0 <= i < j < |layer| ==> !(CanInterrupt(e, layer[i]) && CanInterrupt(e, layer[j]))
  }

  /** Compiled layers never feed themselves. */
  lemma LayersAreAhead(e: Engine, k: nat)
    requires Compiled(e) && k < |e.layers|
    ensures Ahead(WiresOf(e), e.layers[k]) && Distinct(e.layers[k])
  {
    forall i | 0 <= i < |e.flow.edges| && e.flow.edges[i].source.node in e.layers[k]
      ensures e.flow.edges[i].target.node !in e.layers[k]
    {
      EdgeGoesForward(e, i, k);
      assert In(e.layers, k, e.flow.edges[i].target.node) <==> e.flow.edges[i].target.node in e.layers[k];
    }
    forall j | 0 <= j < |e.flow.mappings| && e.flow.mappings[j].source.node in e.layers[k]
      ensures e.flow.mappings[j].target.node !in e.layers[k]
    {
      MappingGoesForward(e, j, k);
      assert In(e.layers, k, e.flow.mappings[j].target.node) <==> e.flow.mappings[j].target.node in e.layers[k];
    }
  }

  /** Targets of a layer's edges sit in strictly later layers. */
  lemma EdgeGoesForward(e: Engine, i: nat, k: nat)
    requires Compiled(e) && i < |e.flow.edges| && In(e.layers, k, e.flow.edges[i].source.node)
    ensures forall j :: In(e.layers, j, e.flow.edges[i].target.node) ==> k < j
  {
    var u, v := e.flow.edges[i].source.node, e.flow.edges[i].target.node;
    EdgeArcMember(e.flow.edges, Arc(u, v));
    assert Arc(u, v) in Arcs(e.flow);
    ArcGoesForward(e, u, v, k);
  }

  lemma MappingGoesForward(e: Engine, j: nat, k: nat)
    requires Compiled(e) && j < |e.flow.mappings| && In(e.layers, k, e.flow.mappings[j].source.node)
    ensures forall i :: In(e.layers, i, e.flow.mappings[j].target.node) ==> k < i
  {
    var u, v := e.flow.mappings[j].source.node, e.flow.mappings[j].target.node;
    assert Layered(e.layers, u) && u in Ids(e.flow);
    var a: nat :| a < |Ids(e.flow)| && Ids(e.flow)[a] == u;
    assert NodeOk(e.flow, a) && u != "";
    MappingArcMember(e.flow.mappings, Arc(u, v));
    assert Arc(u, v) in Arcs(e.flow);
    ArcGoesForward(e, u, v, k);
  }

  lemma ArcGoesForward(e: Engine, u: string, v: string, k: nat)
    requires Compiled(e) && Arc(u, v) in Arcs(e.flow) && In(e.layers, k, u)
    ensures forall j :: In(e.layers, j, v) ==> k < j
  {
    forall j | In(e.layers, j, v) ensures k < j {
      assert LayeredBefore(e.layers, j, u);
      var i :| i < j && In(e.layers, i, u);
    }
  }

  /** Edge i is pending exactly while its source's layer has not fired. */
  ghost predicate PendingBeyond(e: Engine, edges: seq<EdgeState>, k: nat) {
    |edges| == |e.flow.edges| &&
    forall i, j :: 0 <= i < |edges| && In(e.layers, j, e.flow.edges[i].source.node) ==> (edges[i] == Pending <==> k <= j)
  }

  lemma PendingOnLayer(e: Engine, edges: seq<EdgeState>, k: nat)
    requires PendingBeyond(e, edges, k) && k < |e.layers|
    ensures PendingOn(WiresOf(e), edges, e.layers[k])
  {
    forall i | 0 <= i < |edges| && e.flow.edges[i].source.node in e.layers[k] ensures edges[i] == Pending {
      assert In(e.layers, k, e.flow.edges[i].source.node);
    }
  }
}
