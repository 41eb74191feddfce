/** How a finished layer feeds the next ones: the edge- and mapping-firing stage of runCore
    (v2/flow/engine.go), first as the code steps through it, then as a list of port deliveries. */
module Wiring {
  import opened Prelude
  import opened FlowIr
  import opened Paths

  datatype PortKey = PortKey(node: string, port: string)

  /** portValues: the value last written to each node's port. Inputs and outputs of a node share it. */
  type Ports = map<PortKey, Value>

  function PortNames(ports: Ports, n: string): (r: set<string>)
    ensures forall p :: p in r <==> PortKey(n, p) in ports
  {
    var r := set k | k in ports && k.node == n :: k.port;
    assert forall p :: PortKey(n, p) in ports ==> PortKey(n, p).port in r;
    r
  }

  /** getPorts: a copy of one node's ports. */
  function PortsOf(ports: Ports, n: string): (r: map<string, Value>)
    ensures forall p :: p in r <==> PortKey(n, p) in ports
    ensures forall p :: p in r ==> r[p] == ports[PortKey(n, p)]
  {
    map p | p in PortNames(ports, n) :: ports[PortKey(n, p)]
  }

  function Lookup(ports: Ports, k: PortKey): Option<Value> {
    if k in ports then Some(ports[k]) else None
  }

  /** EdgeFireState (v2/flow/checkpoint.go). */
  datatype EdgeState = Pending | Fired | DeadFalse | DeadNoPort | DeadSrcSkip | Deferred

  datatype CondResult = Fires | Blocks | Breaks

  /** The wires of a flow with its compiled edge conditions. */
  datatype Wires = Wires(edges: seq<Edge>, mappings: seq<Mapping>, cond: (string, string) -> CondResult)

  /** The part of a run that firing reads and writes. */
  datatype Net = Net(active: set<string>, ports: Ports, edges: seq<EdgeState>)

  datatype FireError =
    | CondNotString(edge: nat)
    | CondBreaks(edge: nat)
    | BadSource(mapping: nat)
    | BadTarget(mapping: nat)

  function Key(r: PortRef): PortKey { PortKey(r.node, r.port) }

  function Targets(m: Mapping): PortKey { PortKey(m.target.node, m.target.port) }

  // ---------------------------------------------------------------- the code's steps

  /** What happens to edge i once its active source holds the ports sp. */
  function Judge(w: Wires, i: nat, sp: map<string, Value>): (r: Result<EdgeState, FireError>)
    requires i < |w.edges|
    ensures r.Ok? ==> r.value.Fired? || r.value.DeadFalse? || r.value.DeadNoPort?
    ensures r.Ok? && r.value.Fired? ==> w.edges[i].source.port in sp
  {
    var e := w.edges[i];
    if e.source.port !in sp then Ok(DeadNoPort)
    else if e.condition == "" then Ok(Fired)
    else if !sp[e.source.port].Str? then Err(CondNotString(i))
    else match w.cond(e.condition, sp[e.source.port].text)
      case Breaks => Err(CondBreaks(i))
      case Blocks => Ok(DeadFalse)
      case Fires => Ok(Fired)
  }

  /** Records the verdict on edge i, and on a firing edge writes the target port and activates the target. */
  function Settle(w: Wires, net: Net, i: nat, sp: map<string, Value>, s: EdgeState): Net
    requires i < |w.edges| == |net.edges|
    requires s.Fired? ==> w.edges[i].source.port in sp
  {
    var e := w.edges[i];
    if s.Fired? then
      Net(net.active + {e.target.node}, net.ports[Key(e.target) := sp[e.source.port]], net.edges[i := Fired])
    else
      net.(edges := net.edges[i := s])
  }

  /** The edges of an active source, from index i on. An edge that is no longer pending is left alone. */
  function EdgesFrom(w: Wires, net: Net, src: string, sp: map<string, Value>, i: nat): (r: Result<Net, FireError>)
    requires |net.edges| == |w.edges| && i <= |w.edges|
    ensures r.Ok? ==> |r.value.edges| == |w.edges|
    decreases |w.edges| - i
  {
    if i == |w.edges| then Ok(net)
    else if w.edges[i].source.node != src || net.edges[i] != Pending then EdgesFrom(w, net, src, sp, i + 1)
    else match Judge(w, i, sp)
      case Err(e) => Err(e)
      case Ok(s) => EdgesFrom(w, Settle(w, net, i, sp, s), src, sp, i + 1)
  }

  /** Gives every pending edge of src the state s, from index i on. */
  function MarkFrom(w: Wires, edges: seq<EdgeState>, src: string, s: EdgeState, i: nat): (r: seq<EdgeState>)
    requires |edges| == |w.edges| && i <= |w.edges|
    ensures |r| == |edges|
    ensures forall j :: 0 <= j < |r| ==>
              r[j] == if j >= i && w.edges[j].source.node == src && edges[j] == Pending then s else edges[j]
    decreases |w.edges| - i
  {
    if i == |w.edges| then edges
    else if w.edges[i].source.node == src && edges[i] == Pending then MarkFrom(w, edges[i := s], src, s, i + 1)
    else MarkFrom(w, edges, src, s, i + 1)
  }

  /** One iteration of fireLayerEdges. `held` is the interrupt node whose edges are deferred. */
  function FireNode(w: Wires, net: Net, src: string, held: Option<string>): (r: Result<Net, FireError>)
    requires |net.edges| == |w.edges|
    ensures r.Ok? ==> |r.value.edges| == |w.edges|
  {
    if held == Some(src) then Ok(net.(edges := MarkFrom(w, net.edges, src, Deferred, 0)))
    else if src !in net.active then Ok(net.(edges := MarkFrom(w, net.edges, src, DeadSrcSkip, 0)))
    else EdgesFrom(w, net, src, PortsOf(net.ports, src), 0)
  }

  /** fireLayerEdges. */
  function FireEdges(w: Wires, net: Net, layer: seq<string>, held: Option<string>): (r: Result<Net, FireError>)
    requires |net.edges| == |w.edges|
    ensures r.Ok? ==> |r.value.edges| == |w.edges|
    decreases |layer|
  {
    if layer == [] then Ok(net)
    else match FireNode(w, net, layer[0], held)
      case Err(e) => Err(e)
      case Ok(n) => FireEdges(w, n, layer[1..], held)
  }

  /** setMappedPort followed by activation of the target. */
  function Assign(net: Net, k: PortKey, path: seq<string>, value: Value): Option<Net> {
    match Put(Lookup(net.ports, k), path, value)
    case Err(_) => None
    case Ok(v) => Some(net.(active := net.active + {k.node}, ports := net.ports[k := v]))
  }

  /** One mapping whose source holds the ports sp. */
  function MapStep(w: Wires, net: Net, j: nat, sp: map<string, Value>): (r: Result<Net, FireError>)
    requires j < |w.mappings|
    ensures r.Ok? ==> r.value.edges == net.edges
  {
    var m := w.mappings[j];
    if m.source.port !in sp then Ok(net)
    else match Select(sp[m.source.port], m.source.path)
      case Err(_) => Err(BadSource(j))
      case Ok(v) =>
        match Assign(net, Targets(m), m.target.path, v)
        case None => Err(BadTarget(j))
        case Some(n) => Ok(n)
  }

  /** The mappings that read the active node src, from index j on. */
  function MapsFrom(w: Wires, net: Net, src: string, sp: map<string, Value>, j: nat): (r: Result<Net, FireError>)
    requires j <= |w.mappings|
    ensures r.Ok? ==> r.value.edges == net.edges
    decreases |w.mappings| - j
  {
    if j == |w.mappings| then Ok(net)
    else if w.mappings[j].source.node != src then MapsFrom(w, net, src, sp, j + 1)
    else match MapStep(w, net, j, sp)
      case Err(e) => Err(e)
      case Ok(n) => MapsFrom(w, n, src, sp, j + 1)
  }

  /** fireLayerMappings. */
  function FireMappings(w: Wires, net: Net, layer: seq<string>, held: Option<string>): (r: Result<Net, FireError>)
    ensures r.Ok? ==> r.value.edges == net.edges
    decreases |layer|
  {
    if layer == [] then Ok(net)
    else if held == Some(layer[0]) || layer[0] !in net.active then FireMappings(w, net, layer[1..], held)
    else match MapsFrom(w, net, layer[0], PortsOf(net.ports, layer[0]), 0)
      case Err(e) => Err(e)
      case Ok(n) => FireMappings(w, n, layer[1..], held)
  }

  /** The whole firing stage of a layer: edges first, then mappings. */
  function FireLayer(w: Wires, net: Net, layer: seq<string>, held: Option<string>): (r: Result<Net, FireError>)
    requires |net.edges| == |w.edges|
    ensures r.Ok? ==> |r.value.edges| == |w.edges|
  {
    match FireEdges(w, net, layer, held)
    case Err(e) => Err(e)
    case Ok(n) => FireMappings(w, n, layer, held)
  }

  // ---------------------------------------------------------------- deliveries

  /** One write to a port: the whole value (empty path) or a place inside it. */
  datatype Delivery = Delivery(to: PortKey, path: seq<string>, value: Value)

  function Apply(ports: Ports, ds: seq<Delivery>): Option<Ports>
    decreases |ds|
  {
    if ds == [] then Some(ports)
    else match Put(Lookup(ports, ds[0].to), ds[0].path, ds[0].value)
      case Err(_) => None
      case Ok(v) => Apply(ports[ds[0].to := v], ds[1..])
  }

  function Recipients(ds: seq<Delivery>): set<string> { set d | d in ds :: d.to.node }

  function Both<T>(a: Option<seq<T>>, b: Option<seq<T>>): Option<seq<T>> {
    if a.Some? && b.Some? then Some(a.value + b.value) else None
  }

  function EdgeDelivery(w: Wires, i: nat, sp: map<string, Value>): Option<seq<Delivery>>
    requires i < |w.edges|
  {
    match Judge(w, i, sp)
    case Err(_) => None
    case Ok(s) => Some(if s.Fired? then [Delivery(Key(w.edges[i].target), [], sp[w.edges[i].source.port])] else [])
  }

  /** What the edges of src deliver, from index i on; None if one of them stops the run. */
  function EdgeDeliveries(w: Wires, src: string, sp: map<string, Value>, i: nat): Option<seq<Delivery>>
    requires i <= |w.edges|
    decreases |w.edges| - i
  {
    if i == |w.edges| then Some([])
    else if w.edges[i].source.node != src then EdgeDeliveries(w, src, sp, i + 1)
    else Both(EdgeDelivery(w, i, sp), EdgeDeliveries(w, src, sp, i + 1))
  }

  function MapDelivery(w: Wires, j: nat, sp: map<string, Value>): Option<seq<Delivery>>
    requires j < |w.mappings|
  {
    var m := w.mappings[j];
    if m.source.port !in sp then Some([])
    else match Select(sp[m.source.port], m.source.path)
      case Err(_) => None
      case Ok(v) => Some([Delivery(Targets(m), m.target.path, v)])
  }

  function MapDeliveries(w: Wires, src: string, sp: map<string, Value>, j: nat): Option<seq<Delivery>>
    requires j <= |w.mappings|
    decreases |w.mappings| - j
  {
    if j == |w.mappings| then Some([])
    else if w.mappings[j].source.node != src then MapDeliveries(w, src, sp, j + 1)
    else Both(MapDelivery(w, j, sp), MapDeliveries(w, src, sp, j + 1))
  }

  predicate Feeds(active: set<string>, held: Option<string>, n: string) {
    n in active && held != Some(n)
  }

  /** The two passes of a firing stage. */
  datatype Pass = EdgePass | MapPass

  function NodeSends(w: Wires, pass: Pass, n: string, sp: map<string, Value>): Option<seq<Delivery>> {
    match pass
    case EdgePass => EdgeDeliveries(w, n, sp, 0)
    case MapPass => MapDeliveries(w, n, sp, 0)
  }

  /** What one pass over the layer delivers; `held` sends nothing. */
  function PassSends(w: Wires, pass: Pass, active: set<string>, ports: Ports, layer: seq<string>,
                     held: Option<string>): Option<seq<Delivery>> {
    if layer == [] then Some([])
    else Both(if Feeds(active, held, layer[0]) then NodeSends(w, pass, layer[0], PortsOf(ports, layer[0])) else Some([]),
              PassSends(w, pass, active, ports, layer[1..], held))
  }

  function LayerDeliveries(w: Wires, active: set<string>, ports: Ports, layer: seq<string>,
                           held: Option<string>): Option<seq<Delivery>> {
    Both(PassSends(w, EdgePass, active, ports, layer, held), PassSends(w, MapPass, active, ports, layer, held))
  }

  /** The state edge i has after its source's layer has fired. */
  function StateAfter(w: Wires, active: set<string>, ports: Ports, layer: seq<string>, held: Option<string>, i: nat,
                      was: EdgeState): EdgeState
    requires i < |w.edges|
  {
    var src := w.edges[i].source.node;
    if src !in layer then was
    else if held == Some(src) then Deferred
    else if src !in active then DeadSrcSkip
    else match Judge(w, i, PortsOf(ports, src)) case Ok(s) => s case Err(_) => was
  }

  function StatesAfter(w: Wires, active: set<string>, ports: Ports, edges: seq<EdgeState>, layer: seq<string>,
      held: Option<string>): (r: seq<EdgeState>)
    requires |edges| == |w.edges|
    ensures |r| == |edges|
    ensures forall i :: 0 <= i < |r| ==> r[i] == StateAfter(w, active, ports, layer, held, i, edges[i])
  {
    seq(|edges|, i requires 0 <= i < |edges| => StateAfter(w, active, ports, layer, held, i, edges[i]))
  }

  /** Nothing leaves the layer for the layer. */
  ghost predicate Ahead(w: Wires, layer: seq<string>) {
    && (forall i :: 0 <= i < |w.edges| && w.edges[i].source.node in layer ==> w.edges[i].target.node !in layer)
    && (forall j :: 0 <= j < |w.mappings| && w.mappings[j].source.node in layer ==> w.mappings[j].target.node !in layer)
  }

  ghost predicate PendingOn(w: Wires, edges: seq<EdgeState>, layer: seq<string>) {
    |edges| == |w.edges| && forall i :: 0 <= i < |edges| && w.edges[i].source.node in layer ==> edges[i] == Pending
  }

  /** Two runs see the same activation and ports at the nodes of a layer. */
  ghost predicate SameAt(net: Net, active: set<string>, ports: Ports, layer: seq<string>) {
    forall n :: n in layer ==> (n in net.active <==> n in active) && PortsOf(net.ports, n) == PortsOf(ports, n)
  }

  /** The net after a list of deliveries. */
  ghost predicate Reached(r: Result<Net, FireError>, net: Net, ds: Option<seq<Delivery>>, edges: seq<EdgeState>) {
    if ds.None? || Apply(net.ports, ds.value).None? then r.Err?
    else r == Ok(Net(net.active + Recipients(ds.value), Apply(net.ports, ds.value).value, edges))
  }

  // ---------------------------------------------------------------- applying deliveries

  lemma {:induction false} ApplyConcat(ports: Ports, a: seq<Delivery>, b: seq<Delivery>)
    ensures Apply(ports, a + b) == match Apply(ports, a) case None => None case Some(p) => Apply(p, b)
    decreases |a|
  {
    if a == [] {
      assert a + b == b;
    } else {
      assert (a + b)[1..] == a[1..] + b;
      match Put(Lookup(ports, a[0].to), a[0].path, a[0].value)
      case Err(_) =>
      case Ok(v) => ApplyConcat(ports[a[0].to := v], a[1..], b);
    }
  }

  /** The deliveries to one port, in order. */
  function For(ds: seq<Delivery>, k: PortKey): seq<Delivery> {
    if ds == [] then [] else (if ds[0].to == k then [ds[0]] else []) + For(ds[1..], k)
  }

  lemma {:induction false} ForConcat(a: seq<Delivery>, b: seq<Delivery>, k: PortKey)
    ensures For(a + b, k) == For(a, k) + For(b, k)
  {
    if a == [] {
      assert a + b == b;
    } else {
      assert (a + b)[1..] == a[1..] + b;
      ForConcat(a[1..], b, k);
    }
  }

  /** One port under its own deliveries; None when one of them cannot be written. */
  function Fold(v: Option<Value>, ds: seq<Delivery>): Option<Option<Value>>
    decreases |ds|
  {
    if ds == [] then Some(v)
    else match Put(v, ds[0].path, ds[0].value)
      case Err(_) => None
      case Ok(x) => Fold(Some(x), ds[1..])
  }

  /** Deliveries act on each port separately. */
  lemma {:induction false} ApplyByPort(ports: Ports, ds: seq<Delivery>)
    ensures Apply(ports, ds).None? <==> exists k :: Fold(Lookup(ports, k), For(ds, k)).None?
    ensures Apply(ports, ds).Some? ==>
            forall k :: Fold(Lookup(ports, k), For(ds, k)) == Some(Lookup(Apply(ports, ds).value, k))
    decreases |ds|
  {
    if ds != [] {
      var d := ds[0];
      match Put(Lookup(ports, d.to), d.path, d.value)
      case Err(_) =>
        assert Fold(Lookup(ports, d.to), For(ds, d.to)).None?;
      case Ok(v) =>
        var next := ports[d.to := v];
        ApplyByPort(next, ds[1..]);
        forall k ensures Fold(Lookup(ports, k), For(ds, k)) == Fold(Lookup(next, k), For(ds[1..], k)) {
          if k == d.to {
            assert For(ds, k) == [d] + For(ds[1..], k);
            assert Lookup(next, k) == Some(v);
          } else {
            assert For(ds, k) == For(ds[1..], k);
          }
        }
    }
  }

  /** The result of deliveries depends only on the order in which each port gets its own. */
  lemma OrderPerPort(ports: Ports, a: seq<Delivery>, b: seq<Delivery>)
    requires forall k :: For(a, k) == For(b, k)
    ensures Apply(ports, a) == Apply(ports, b)
  {
    ApplyByPort(ports, a);
    ApplyByPort(ports, b);
    forall k ensures Fold(Lookup(ports, k), For(a, k)) == Fold(Lookup(ports, k), For(b, k)) {}
    if Apply(ports, a).Some? && Apply(ports, b).Some? {
      var p, q := Apply(ports, a).value, Apply(ports, b).value;
      forall k ensures Lookup(p, k) == Lookup(q, k) {
        assert Fold(Lookup(ports, k), For(a, k)) == Some(Lookup(p, k));
        assert Fold(Lookup(ports, k), For(b, k)) == Some(Lookup(q, k));
      }
      SameLookups(p, q);
    }
  }

  lemma SameLookups(p: Ports, q: Ports)
    requires forall k :: Lookup(p, k) == Lookup(q, k)
    ensures p == q
  {
    forall k ensures k in p <==> k in q {
      assert Lookup(p, k) == Lookup(q, k);
    }
    forall k | k in p ensures p[k] == q[k] {
      assert Lookup(p, k) == Lookup(q, k);
    }
  }

  lemma RecipientsConcat(a: seq<Delivery>, b: seq<Delivery>)
    ensures Recipients(a + b) == Recipients(a) + Recipients(b)
  {
    forall n ensures n in Recipients(a + b) <==> n in Recipients(a) + Recipients(b) {
      assert forall d :: d in a + b <==> d in a || d in b;
    }
  }
}
