/** The v0.1 engine (flow/engine.go): strings on ports, no mappings, no edge states, no State. On the flows
    both can run, v2's RunString (v2/flow/shim.go) does what it did. */
module Legacy {
  import opened Prelude
  import opened FlowIr
  import opened Topology
  import opened Layering
  import opened Validation
  import opened Wiring
  import opened LayeredEngine

  type Texts = map<PortKey, string>

  type OldKind = map<string, string> -> Option<map<string, string>>

  /** A compiled v0.1 engine. */
  datatype OldEngine = OldEngine(flow: Flow, nodes: map<string, OldKind>, layers: seq<seq<string>>,
                                 cond: (string, string) -> CondResult)

  /** What v0.1 Compile guarantees of the layers. */
  ghost predicate OldCompiled(o: OldEngine) {
    IsLayering(Ids(o.flow), Arcs(o.flow), o.layers) && Listed(Ids(o.flow), Arcs(o.flow), o.layers)
  }

  /** v0.1 Compile, past the resolution of nodes and conditions: its loops are v2's on a flow without mappings. */
  method CompileV01(f: Flow, nodes: map<string, OldKind>, cond: (string, string) -> CondResult) returns (o: OldEngine)
    requires Valid(f) && f.mappings == []
    ensures o.flow == f && o.nodes == nodes && o.cond == cond && OldCompiled(o)
  {
    hide Valid, IsLayering, Listed;
    var layers := LayerValidated(f);
    o := OldEngine(f, nodes, layers.value, cond);
  }

  datatype OldNet = OldNet(active: set<string>, ports: Texts)

  function TextNames(ports: Texts, n: string): (r: set<string>)
    ensures forall p :: p in r <==> PortKey(n, p) in ports
  {
    var r := set k | k in ports && k.node == n :: k.port;
    assert forall p :: PortKey(n, p) in ports ==> PortKey(n, p).port in r;
    r
  }

  function TextsOf(ports: Texts, n: string): (r: map<string, string>)
    ensures forall p :: p in r <==> PortKey(n, p) in ports
    ensures forall p :: p in r ==> r[p] == ports[PortKey(n, p)]
  {
    map p | p in TextNames(ports, n) :: ports[PortKey(n, p)]
  }

  function WriteTexts(ports: Texts, n: string, out: map<string, string>): (r: Texts)
    ensures forall k :: k in r <==> k in ports || (k.node == n && k.port in out)
    ensures forall k :: k in r ==> r[k] == if k.node == n && k.port in out then out[k.port] else ports[k]
  {
    map k | k in ports.Keys + (set p | p in out :: PortKey(n, p)) ::
      if k.node == n && k.port in out then out[k.port] else ports[k]
  }

  // ---------------------------------------------------------------- the v0.1 run

  function OldInputs(f: Flow, inputs: map<string, string>, net: OldNet, i: nat): Option<OldNet>
    requires i <= |f.inputs|
    decreases |f.inputs| - i
  {
    if i == |f.inputs| then Some(net)
    else
      var ref := f.inputs[i];
      if ref.name !in inputs then None
      else OldInputs(f, inputs,
                     OldNet(net.active + {ref.node}, net.ports[PortKey(ref.node, ref.port) := inputs[ref.name]]), i + 1)
  }

  function OldEntries(f: Flow): set<string> {
    set n | n in Ids(f) && forall i :: 0 <= i < |f.edges| ==> f.edges[i].target.node != n
  }

  function OldNode(e: OldEngine, n: string, ports: Texts): Option<map<string, string>> {
    if n in e.nodes then e.nodes[n](TextsOf(ports, n)) else None
  }

  /** The layer's fanout: every active node reads the ports as the layer found them and adds its outputs. */
  function OldFanout(e: OldEngine, net: OldNet, layer: seq<string>, ports: Texts): Option<Texts>
    decreases |layer|
  {
    if layer == [] then Some(ports)
    else if layer[0] !in net.active then OldFanout(e, net, layer[1..], ports)
    else match OldNode(e, layer[0], net.ports)
      case None => None
      case Some(out) => OldFanout(e, net, layer[1..], WriteTexts(ports, layer[0], out))
  }

  /** The out-edges of an active node that holds the ports sp, from index i on. */
  function OldEdges(e: OldEngine, net: OldNet, src: string, sp: map<string, string>, i: nat): Option<OldNet>
    requires i <= |e.flow.edges|
    decreases |e.flow.edges| - i
  {
    if i == |e.flow.edges| then Some(net)
    else
      var edge := e.flow.edges[i];
      if edge.source.node != src || edge.source.port !in sp then OldEdges(e, net, src, sp, i + 1)
      else
        var fired := OldNet(net.active + {edge.target.node}, net.ports[Key(edge.target) := sp[edge.source.port]]);
        if edge.condition == "" then OldEdges(e, fired, src, sp, i + 1)
        else match e.cond(edge.condition, sp[edge.source.port])
          case Breaks => None
          case Blocks => OldEdges(e, net, src, sp, i + 1)
          case Fires => OldEdges(e, fired, src, sp, i + 1)
  }

  function OldFire(e: OldEngine, net: OldNet, layer: seq<string>): Option<OldNet>
    decreases |layer|
  {
    if layer == [] then Some(net)
    else if layer[0] !in net.active then OldFire(e, net, layer[1..])
    else match OldEdges(e, net, layer[0], TextsOf(net.ports, layer[0]), 0)
      case None => None
      case Some(n) => OldFire(e, n, layer[1..])
  }

  function OldLayer(e: OldEngine, net: OldNet, layer: seq<string>): Option<OldNet> {
    match OldFanout(e, net, layer, net.ports)
    case None => None
    case Some(ports) => OldFire(e, net.(ports := ports), layer)
  }

  function OldFrom(e: OldEngine, net: OldNet, k: nat): Option<OldNet>
    decreases |e.layers| - k
  {
    if k >= |e.layers| then Some(net)
    else match OldLayer(e, net, e.layers[k])
      case None => None
      case Some(n) => OldFrom(e, n, k + 1)
  }

  function OldOutputs(f: Flow, net: OldNet, i: nat, sofar: map<string, string>): Option<map<string, string>>
    requires i <= |f.outputs|
    decreases |f.outputs| - i
  {
    if i == |f.outputs| then Some(sofar)
    else
      var ref := f.outputs[i];
      if ref.node !in net.active then OldOutputs(f, net, i + 1, sofar)
      else if PortKey(ref.node, ref.port) !in net.ports then None
      else OldOutputs(f, net, i + 1, sofar[OutputKey(ref) := net.ports[PortKey(ref.node, ref.port)]])
  }

  function OldResult(e: OldEngine, inputs: map<string, string>): Option<map<string, string>> {
    match OldInputs(e.flow, inputs, OldNet(OldEntries(e.flow), map[]), 0)
    case None => None
    case Some(start) =>
      match OldFrom(e, start, 0)
      case None => None
      case Some(net) => OldOutputs(e.flow, net, 0, map[])
  }

  /** v0.1's run, as its loops go. */
  method RunV01(e: OldEngine, inputs: map<string, string>) returns (r: Option<map<string, string>>)
    ensures r == OldResult(e, inputs)
  {
    var net := OldNet(OldEntries(e.flow), map[]);
    for i := 0 to |e.flow.inputs|
      invariant OldInputs(e.flow, inputs, OldNet(OldEntries(e.flow), map[]), 0) == OldInputs(e.flow, inputs, net, i)
    {
      var ref := e.flow.inputs[i];
      if ref.name !in inputs { return None; }
      net := OldNet(net.active + {ref.node}, net.ports[PortKey(ref.node, ref.port) := inputs[ref.name]]);
    }
    ghost var start := net;
    for k := 0 to |e.layers|
      invariant OldFrom(e, start, 0) == OldFrom(e, net, k)
    {
      var after := RunLayerV01(e, net, e.layers[k]);
      if after.None? { return None; }
      net := after.value;
    }
    var outputs: map<string, string> := map[];
    for i := 0 to |e.flow.outputs|
      invariant OldOutputs(e.flow, net, 0, map[]) == OldOutputs(e.flow, net, i, outputs)
    {
      var ref := e.flow.outputs[i];
      if ref.node in net.active {
        if PortKey(ref.node, ref.port) !in net.ports { return None; }
        outputs := outputs[OutputKey(ref) := net.ports[PortKey(ref.node, ref.port)]];
      }
    }
    return Some(outputs);
  }

  method RunLayerV01(e: OldEngine, net: OldNet, layer: seq<string>) returns (r: Option<OldNet>)
    ensures r == OldLayer(e, net, layer)
  {
    var ports := net.ports;
    for i := 0 to |layer|
      invariant OldFanout(e, net, layer, net.ports) == OldFanout(e, net, layer[i..], ports)
    {
      assert layer[i..][0] == layer[i] && layer[i..][1..] == layer[i + 1..];
      if layer[i] in net.active {
        var out := OldNode(e, layer[i], net.ports);
        if out.None? { return None; }
        ports := WriteTexts(ports, layer[i], out.value);
      }
    }
    var now := net.(ports := ports);
    for i := 0 to |layer|
      invariant OldFire(e, net.(ports := ports), layer) == OldFire(e, now, layer[i..])
    {
      assert layer[i..][0] == layer[i] && layer[i..][1..] == layer[i + 1..];
      if layer[i] in now.active {
        ghost var before := now;
        var sp := TextsOf(now.ports, layer[i]);
        for j := 0 to |e.flow.edges|
          invariant OldEdges(e, before, layer[i], sp, 0) == OldEdges(e, now, layer[i], sp, j)
        {
          var edge := e.flow.edges[j];
          if edge.source.node == layer[i] && edge.source.port in sp {
            var fire := if edge.condition == "" then Fires else e.cond(edge.condition, sp[edge.source.port]);
            if fire.Breaks? { return None; }
            if fire.Fires? {
              now := OldNet(now.active + {edge.target.node}, now.ports[Key(edge.target) := sp[edge.source.port]]);
            }
          }
        }
      }
    }
    return Some(now);
  }
}
