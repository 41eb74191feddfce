/** Two nodes of one layer whose wires write comparable places of one port: the smallest state in which the
    order of the two writes shows. */
module TwoWires {
  import opened Prelude
  import opened FlowIr
  import opened Paths
  import opened Validation
  import opened Wiring
  import opened Firing
  import opened LayeredEngine
  import opened Held

  // ---------------------------------------------------------------- single wires

  datatype Wire = Wire(pass: Pass, index: nat)

  ghost predicate Has(w: Wires, a: Wire) { a.index < if a.pass == EdgePass then |w.edges| else |w.mappings| }

  ghost function FromOf(w: Wires, a: Wire): PortKey
    requires Has(w, a)
  {
    match a.pass
    case EdgePass => Key(w.edges[a.index].source)
    case MapPass => PortKey(w.mappings[a.index].source.node, w.mappings[a.index].source.port)
  }

  ghost function ToOf(w: Wires, a: Wire): PortKey
    requires Has(w, a)
  {
    match a.pass
    case EdgePass => Key(w.edges[a.index].target)
    case MapPass => Targets(w.mappings[a.index])
  }

  /** The path a wire selects. */
  ghost function PickOf(w: Wires, a: Wire): seq<string>
    requires Has(w, a)
  {
    if a.pass == EdgePass then [] else w.mappings[a.index].source.path
  }

  /** The path a wire writes. */
  ghost function PathOf(w: Wires, a: Wire): seq<string>
    requires Has(w, a)
  {
    if a.pass == EdgePass then [] else w.mappings[a.index].target.path
  }

  /** Any other wire that reads the port a reads is an edge, as a is, and writes another port. */
  ghost predicate Clean(w: Wires, a: Wire)
    requires Has(w, a)
  {
    forall b :: Has(w, b) && FromOf(w, b) == FromOf(w, a) && b != a ==> a.pass == b.pass == EdgePass && ToOf(w, b) != ToOf(w, a)
  }

  /** A port of the layer that feeds a mapping feeds nothing else, and the edges of a port lead to different
      ports: no wire rewrites what another wire of its port wrote. */
  ghost predicate CleanPorts(w: Wires, layer: seq<string>) {
    forall a :: Has(w, a) && FromOf(w, a).node in layer ==> Clean(w, a)
  }

  /** Neither depends on the conditions. */
  lemma SameClean(w: Wires, v: Wires, a: Wire)
    requires w.edges == v.edges && w.mappings == v.mappings && Has(w, a) && Clean(w, a)
    ensures Has(v, a) && FromOf(v, a) == FromOf(w, a) && ToOf(v, a) == ToOf(w, a) && PathOf(v, a) == PathOf(w, a)
    ensures Clean(v, a)
  {
    forall b | Has(v, b) && FromOf(v, b) == FromOf(v, a) && b != a
      ensures a.pass == b.pass == EdgePass && ToOf(v, b) != ToOf(v, a)
    {
      assert Has(w, b) && FromOf(w, b) == FromOf(w, a);
    }
  }

  ghost predicate PathsOk(w: Wires) {
    forall j :: 0 <= j < |w.mappings| ==> Segments(w.mappings[j].source.path) && Segments(w.mappings[j].target.path)
  }

  /** A port of the layer that feeds a mapping feeds nothing else. */
  ghost predicate MappingsAlone(w: Wires, layer: seq<string>) {
    forall a, b :: Has(w, a) && Has(w, b) && a.pass == MapPass && FromOf(w, a) == FromOf(w, b) && FromOf(w, a).node in layer ==> a == b
  }

  /** Validation refuses an edge listed twice and an empty path segment. */
  lemma CompiledPorts(e: Engine, layer: seq<string>)
    requires Compiled(e)
    ensures PathsOk(WiresOf(e)) && (CleanPorts(WiresOf(e), layer) <==> MappingsAlone(WiresOf(e), layer))
  {
    var f, w := e.flow, WiresOf(e);
    forall m | m in f.mappings ensures Segments(m.source.path) && Segments(m.target.path) { assert MappingOk(f, m); }
    forall i, j | 0 <= i < j < |f.edges| && f.edges[i].source == f.edges[j].source
      ensures f.edges[i].target != f.edges[j].target
    {
      assert EdgeOk(f, j);
    }
    if CleanPorts(w, layer) {
      forall a, b | Has(w, a) && Has(w, b) && a.pass == MapPass && FromOf(w, a) == FromOf(w, b) && FromOf(w, a).node in layer ensures a == b {
        assert Clean(w, a);
      }
    }
    if MappingsAlone(w, layer) {
      forall a, b | Has(w, a) && FromOf(w, a).node in layer && Has(w, b) && FromOf(w, b) == FromOf(w, a) && b != a
        ensures a.pass == b.pass == EdgePass && ToOf(w, b) != ToOf(w, a)
      {
        assert a.pass == EdgePass && b.pass == EdgePass;
      }
    }
  }

  const ALWAYS: (string, string) -> CondResult := (text, value) => Fires

  lemma WireOf(w: Wires, pass: Pass, src: string, k: PortKey, path: seq<string>) returns (a: Wire)
    requires WritesAt(w, pass, src, k, path)
    ensures Has(w, a) && a.pass == pass && FromOf(w, a).node == src && ToOf(w, a) == k && PathOf(w, a) == path
  {
    match pass
    case EdgePass =>
      var i :| 0 <= i < |w.edges| && w.edges[i].source.node == src && Key(w.edges[i].target) == k;
      a := Wire(EdgePass, i);
    case MapPass =>
      var j :| 0 <= j < |w.mappings| && w.mappings[j].source.node == src && Targets(w.mappings[j]) == k && w.mappings[j].target.path == path;
      a := Wire(MapPass, j);
  }

  lemma WireWrites(w: Wires, a: Wire)
    requires Has(w, a)
    ensures WritesAt(w, a.pass, FromOf(w, a).node, ToOf(w, a), PathOf(w, a))
  {
  }

  // ---------------------------------------------------------------- writes that matter at one port

  /** The deliveries to k are xs; every other port is written whole. */
  ghost predicate Lands(ds: Option<seq<Delivery>>, k: PortKey, xs: seq<Delivery>) {
    ds.Some? && For(ds.value, k) == xs && forall d :: d in ds.value && d.to != k ==> d.path == []
  }

  lemma LandsSome(ds: Option<seq<Delivery>>, k: PortKey, xs: seq<Delivery>)
    requires Lands(ds, k, xs)
    ensures ds.Some?
  {
  }

  lemma LandsBoth(a: Option<seq<Delivery>>, b: Option<seq<Delivery>>, k: PortKey, xs: seq<Delivery>, ys: seq<Delivery>)
    requires Lands(a, k, xs) && Lands(b, k, ys)
    ensures Lands(Both(a, b), k, xs + ys)
  {
    ForConcat(a.value, b.value, k);
  }

  lemma {:induction false} ForOnly(ds: seq<Delivery>, k: PortKey)
    ensures forall d :: d in For(ds, k) ==> d in ds && d.to == k
  {
    if ds != [] { ForOnly(ds[1..], k); }
  }

  lemma {:induction false} ForAll(ds: seq<Delivery>, k: PortKey)
    requires forall d :: d in ds ==> d.to == k
    ensures For(ds, k) == ds
  {
    if ds != [] {
      assert ds[0] in ds && forall d :: d in ds[1..] ==> d in ds;
      ForAll(ds[1..], k);
    }
  }

  lemma {:induction false} WholeFolds(v: Option<Value>, ds: seq<Delivery>)
    requires forall d :: d in ds ==> d.path == []
    ensures Fold(v, ds).Some?
    decreases |ds|
  {
    if ds != [] {
      assert ds[0] in ds && forall d :: d in ds[1..] ==> d in ds;
      WholeFolds(Some(ds[0].value), ds[1..]);
    }
  }

  /** Such deliveries fail exactly when the ones to k do, and leave in k what those leave. */
  lemma LandsApply(ports: Ports, ds: seq<Delivery>, k: PortKey, xs: seq<Delivery>)
    requires Lands(Some(ds), k, xs)
    ensures Apply(ports, ds).None? <==> Fold(Lookup(ports, k), xs).None?
    ensures Apply(ports, ds).Some? ==> Fold(Lookup(ports, k), xs) == Some(Lookup(Apply(ports, ds).value, k))
    ensures xs != [] ==> k.node in Recipients(ds)
  {
    ApplyByPort(ports, ds);
    forall x | x != k ensures Fold(Lookup(ports, x), For(ds, x)).Some? {
      ForOnly(ds, x);
      WholeFolds(Lookup(ports, x), For(ds, x));
    }
    ForOnly(ds, k);
    if xs != [] { assert xs[0] in For(ds, k); }
  }

  lemma FoldTwo(v: Option<Value>, x: Delivery, y: Delivery)
    ensures Fold(v, [x, y]) == match PutAgain(Put(v, x.path, x.value), y.path, y.value) case Some(z) => Some(Some(z)) case None => None
    ensures Fold(v, [x, y]) == match Fold(v, [x]) case Some(mid) => Fold(mid, [y]) case None => None
  {
    assert [x, y][1..] == [y] && [x][1..] == [] && [y][1..] == [];
    match Put(v, x.path, x.value)
    case Err(_) =>
    case Ok(mid) => assert Fold(Some(mid), [y]) == match Put(Some(mid), y.path, y.value) case Err(_) => None case Ok(z) => Some(Some(z));
  }

  // ---------------------------------------------------------------- what one loaded port sends

  /** The value that holds v at a path and nothing else. */
  function Nested(path: seq<string>, v: Value): Value {
    if path == [] then v else Obj(map[path[0] := Nested(path[1..], v)])
  }

  lemma {:induction false} NestedSelects(path: seq<string>, v: Value)
    requires Segments(path)
    ensures Select(Nested(path, v), path) == Ok(v)
    decreases |path|
  {
    if path != [] { NestedSelects(path[1..], v); }
  }

  lemma {:induction false} EdgesLand(w: Wires, src: string, sp: map<string, Value>, i: nat, a: nat, k: PortKey)
    requires i <= |w.edges| && a <= |w.edges|
    requires forall j :: i <= j < |w.edges| && w.edges[j].source.node == src && w.edges[j].source.port in sp ==>
               Judge(w, j, sp) == Ok(Fired) && (j != a ==> Key(w.edges[j].target) != k)
    requires a < |w.edges| ==>
             w.edges[a].source.node == src && w.edges[a].source.port in sp && Key(w.edges[a].target) == k
    ensures Lands(EdgeDeliveries(w, src, sp, i), k,
                  if i <= a < |w.edges| then [Delivery(k, [], sp[w.edges[a].source.port])] else [])
    decreases |w.edges| - i
  {
    if i < |w.edges| {
      EdgesLand(w, src, sp, i + 1, a, k);
      if w.edges[i].source.node == src {
        var here := EdgeDelivery(w, i, sp);
        assert Lands(here, k, if i == a then here.value else []);
        var rest := if i + 1 <= a < |w.edges| then [Delivery(k, [], sp[w.edges[a].source.port])] else [];
        LandsBoth(here, EdgeDeliveries(w, src, sp, i + 1), k, if i == a then here.value else [], rest);
        if i == a { assert here.value + rest == [Delivery(k, [], sp[w.edges[a].source.port])]; } else { assert [] + rest == rest; }
      }
    }
  }

  lemma {:induction false} MapsSend(w: Wires, src: string, sp: map<string, Value>, i: nat, a: nat, v: Value)
    requires i <= |w.mappings| && a <= |w.mappings|
    requires forall j :: i <= j < |w.mappings| && j != a && w.mappings[j].source.node == src ==> w.mappings[j].source.port !in sp
    requires a < |w.mappings| ==> var m := w.mappings[a];
                                  m.source.node == src && m.source.port in sp && Select(sp[m.source.port], m.source.path) == Ok(v)
    ensures MapDeliveries(w, src, sp, i) ==
            Some(if i <= a < |w.mappings| then [Delivery(Targets(w.mappings[a]), w.mappings[a].target.path, v)] else [])
    decreases |w.mappings| - i
  {
    if i < |w.mappings| {
      MapsSend(w, src, sp, i + 1, a, v);
      if w.mappings[i].source.node == src {
        BothNothing(MapDelivery(w, i, sp));
        BothNothing(MapDeliveries(w, src, sp, i + 1));
      }
    }
  }

  /** A node's ports that hold the text where a picks it up and nothing else. */
  ghost function Carrying(w: Wires, a: Wire, text: string): map<string, Value>
    requires Has(w, a)
  {
    map[FromOf(w, a).port := Nested(PickOf(w, a), Str(text))]
  }

  ghost function Dispatch(w: Wires, a: Wire, text: string): Delivery
    requires Has(w, a)
  {
    Delivery(ToOf(w, a), PathOf(w, a), Str(text))
  }

  /** Such a node sends the text along a, in a's pass; what else it sends goes to other ports. */
  lemma CarryingSends(w: Wires, a: Wire, text: string, pass: Pass)
    requires Has(w, a) && Clean(w, a) && PathsOk(w) && w.cond == ALWAYS
    ensures Lands(NodeSends(w, pass, FromOf(w, a).node, Carrying(w, a, text)), ToOf(w, a),
                  if pass == a.pass then [Dispatch(w, a, text)] else [])
  {
    var src, sp := FromOf(w, a).node, Carrying(w, a, text);
    forall j | 0 <= j < |w.edges| && Wire(EdgePass, j) != a && w.edges[j].source.node == src && w.edges[j].source.port in sp
      ensures a.pass == EdgePass && Key(w.edges[j].target) != ToOf(w, a)
    {
      assert Has(w, Wire(EdgePass, j)) && FromOf(w, Wire(EdgePass, j)) == FromOf(w, a);
    }
    forall j | 0 <= j < |w.mappings| && Wire(MapPass, j) != a && w.mappings[j].source.node == src
      ensures w.mappings[j].source.port !in sp
    {
      assert Has(w, Wire(MapPass, j));
    }
    match a.pass
    case EdgePass =>
      EdgesLand(w, src, sp, 0, a.index, ToOf(w, a));
      MapsSend(w, src, sp, 0, |w.mappings|, Nil);
    case MapPass =>
      NestedSelects(PickOf(w, a), Str(text));
      EdgesLand(w, src, sp, 0, |w.edges|, ToOf(w, a));
      MapsSend(w, src, sp, 0, a.index, Str(text));
  }

  // ---------------------------------------------------------------- two nodes and one place

  /** Wires of two nodes of the layer write comparable places of one port. */
  ghost predicate Meets(w: Wires, layer: seq<string>, a: Wire, b: Wire) {
    && Has(w, a) && Has(w, b) && ToOf(w, a) == ToOf(w, b) && !Incomparable(PathOf(w, a), PathOf(w, b))
    && FromOf(w, a).node in layer && FromOf(w, b).node in layer && FromOf(w, a).node != FromOf(w, b).node
  }

  /** Run straight through, the layer writes a before b. */
  ghost predicate First(w: Wires, layer: seq<string>, a: Wire, b: Wire)
    requires Has(w, a) && Has(w, b)
  {
    (a.pass == EdgePass && b.pass == MapPass) || (a.pass == b.pass && Precedes(layer, FromOf(w, a).node, FromOf(w, b).node))
  }

  ghost predicate Tellable(w: Wires, layer: seq<string>, a: Wire, b: Wire) {
    Meets(w, layer, a, b) && Distinct(layer) && Clean(w, a) && Clean(w, b) && PathsOk(w) && w.cond == ALWAYS
  }

  lemma ClashMeets(w: Wires, layer: seq<string>, pp: Pass, p: string, pq: Pass, q: string) returns (a: Wire, b: Wire)
    requires Clash(w, pp, p, pq, q) && p in layer && q in layer && p != q
    ensures Meets(w, layer, a, b) && FromOf(w, a).node == p && FromOf(w, b).node == q && a.pass == pp && b.pass == pq
  {
    var k, x, y :| WritesAt(w, pp, p, k, x) && WritesAt(w, pq, q, k, y) && !Incomparable(x, y);
    a := WireOf(w, pp, p, k, x);
    b := WireOf(w, pq, q, k, y);
  }

  lemma MeetsClash(w: Wires, layer: seq<string>, a: Wire, b: Wire)
    requires Meets(w, layer, a, b)
    ensures Clash(w, a.pass, FromOf(w, a).node, b.pass, FromOf(w, b).node)
  {
    WireWrites(w, a);
    WireWrites(w, b);
  }

  /** Two nodes hold "p" and "q" where a and b pick them up. */
  ghost predicate Loaded(w: Wires, ports: Ports, a: Wire, b: Wire)
    requires Has(w, a) && Has(w, b)
  {
    PortsOf(ports, FromOf(w, a).node) == Carrying(w, a, "p") && PortsOf(ports, FromOf(w, b).node) == Carrying(w, b, "q")
  }

  /** A pass over a layer in which only p and q run. */
  lemma PassOfTwo(w: Wires, pass: Pass, active: set<string>, ports: Ports, layer: seq<string>, p: string, q: string)
    requires Distinct(layer) && p in layer && q in layer && p != q && active == {p, q}
    ensures var x, y := NodeSends(w, pass, p, PortsOf(ports, p)), NodeSends(w, pass, q, PortsOf(ports, q));
            && PassSends(w, pass, active, ports, layer, Some(p)) == y
            && PassSends(w, pass, active, ports, layer, None) == if Precedes(layer, p, q) then Both(x, y) else Both(y, x)
  {
    hide NodeSends, PassSends;
    var i :| 0 <= i < |layer| && layer[i] == p;
    var x, y := NodeSends(w, pass, p, PortsOf(ports, p)), NodeSends(w, pass, q, PortsOf(ports, q));
    PassAround(w, pass, active, ports, layer, i);
    LonePass(w, pass, active, ports, layer[..i], q);
    LonePass(w, pass, active, ports, layer[i + 1..], q);
    var j :| 0 <= j < |layer| && layer[j] == q;
    BothNothing(x);
    BothNothing(y);
    BothNothing(Both(x, y));
    if i < j {
      assert layer[i + 1..][j - i - 1] == q;
    } else {
      assert layer[..i][j] == q;
      assert !Precedes(layer, p, q);
    }
  }

  /** What the pass lands in the contested port, straight through and with p held back. */
  lemma PassLands(w: Wires, pass: Pass, layer: seq<string>, a: Wire, b: Wire, ports: Ports)
    requires Tellable(w, layer, a, b) && Loaded(w, ports, a, b)
    ensures var p, q, k := FromOf(w, a).node, FromOf(w, b).node, ToOf(w, a);
            var x := if pass == a.pass then [Dispatch(w, a, "p")] else [];
            var y := if pass == b.pass then [Dispatch(w, b, "q")] else [];
            && Lands(PassSends(w, pass, {p, q}, ports, layer, None), k, if Precedes(layer, p, q) then x + y else y + x)
            && Lands(PassSends(w, pass, {p, q}, ports, layer, Some(p)), k, y)
            && Lands(NodeSends(w, pass, p, PortsOf(ports, p)), k, x)
  {
    hide NodeSends, PassSends, Lands, Clean, PathsOk, Dispatch, Precedes;
    var p, q, k := FromOf(w, a).node, FromOf(w, b).node, ToOf(w, a);
    var x := if pass == a.pass then [Dispatch(w, a, "p")] else [];
    var y := if pass == b.pass then [Dispatch(w, b, "q")] else [];
    CarryingSends(w, a, "p", pass);
    CarryingSends(w, b, "q", pass);
    PassOfTwo(w, pass, {p, q}, ports, layer, p, q);
    LandsBoth(NodeSends(w, pass, p, PortsOf(ports, p)), NodeSends(w, pass, q, PortsOf(ports, q)), k, x, y);
    LandsBoth(NodeSends(w, pass, q, PortsOf(ports, q)), NodeSends(w, pass, p, PortsOf(ports, p)), k, y, x);
  }

  /** Straight through, the contested port gets the two texts in the order of the layer and the passes; with p
      held back it gets q's, and p still owes its own. */
  lemma LayerLands(w: Wires, layer: seq<string>, a: Wire, b: Wire, ports: Ports)
    requires Tellable(w, layer, a, b) && Loaded(w, ports, a, b)
    ensures var p, q, k := FromOf(w, a).node, FromOf(w, b).node, ToOf(w, a);
            var x, y := Dispatch(w, a, "p"), Dispatch(w, b, "q");
            && Lands(LayerDeliveries(w, {p, q}, ports, layer, None), k, if First(w, layer, a, b) then [x, y] else [y, x])
            && Lands(LayerDeliveries(w, {p, q}, ports, layer, Some(p)), k, [y])
            && Lands(Own(w, ports, p), k, [x])
  {
    hide NodeSends, PassSends, Lands, Clean, PathsOk, Dispatch, Precedes, Loaded;
    var p, q, k := FromOf(w, a).node, FromOf(w, b).node, ToOf(w, a);
    var x, y := Dispatch(w, a, "p"), Dispatch(w, b, "q");
    PassLands(w, EdgePass, layer, a, b, ports);
    PassLands(w, MapPass, layer, a, b, ports);
    var xe, xm := if a.pass == EdgePass then [x] else [], if a.pass == MapPass then [x] else [];
    var ye, ym := if b.pass == EdgePass then [y] else [], if b.pass == MapPass then [y] else [];
    var ahead := Precedes(layer, p, q);
    LandsBoth(PassSends(w, EdgePass, {p, q}, ports, layer, None), PassSends(w, MapPass, {p, q}, ports, layer, None), k,
              if ahead then xe + ye else ye + xe, if ahead then xm + ym else ym + xm);
    LandsBoth(PassSends(w, EdgePass, {p, q}, ports, layer, Some(p)),
              PassSends(w, MapPass, {p, q}, ports, layer, Some(p)), k, ye, ym);
    LandsBoth(NodeSends(w, EdgePass, p, PortsOf(ports, p)), NodeSends(w, MapPass, p, PortsOf(ports, p)), k, xe, xm);
    assert ye + ym == [y] && xe + xm == [x];
    assert (if ahead then xe + ye else ye + xe) + (if ahead then xm + ym else ym + xm) == if First(w, layer, a, b) then [x, y] else [y, x];
  }

  /** The two orders leave different values in an unset port, or one of them fails. */
  lemma OrderShows(w: Wires, layer: seq<string>, a: Wire, b: Wire)
    requires Meets(w, layer, a, b) && PathsOk(w)
    ensures var x, y := Dispatch(w, a, "p"), Dispatch(w, b, "q"); Fold(None, [x, y]) != Fold(None, [y, x])
  {
    hide Put, PutAgain, Fold;
    var x, y := Dispatch(w, a, "p"), Dispatch(w, b, "q");
    assert Segments(x.path) && Segments(y.path);
    PutsClash(x.path, "p", y.path, "q");
    FoldTwo(None, x, y);
    FoldTwo(None, y, x);
  }

  // ---------------------------------------------------------------- the two wires alone

  ghost predicate Part<T>(a: seq<T>, b: seq<T>) { forall x :: x in a ==> x in b }

  /** The same nodes send to the same places, some of their wires left out. */
  ghost predicate PartOf(v: Wires, w: Wires) { Part(v.edges, w.edges) && Part(v.mappings, w.mappings) }

  lemma PartClashes(w: Wires, v: Wires, layer: seq<string>)
    requires PartOf(v, w)
    ensures Ahead(w, layer) ==> Ahead(v, layer)
    ensures forall pp, p, pq, q :: Clash(v, pp, p, pq, q) ==> Clash(w, pp, p, pq, q)
  {
    forall i | 0 <= i < |v.edges| ensures v.edges[i] in w.edges {}
    forall j | 0 <= j < |v.mappings| ensures v.mappings[j] in w.mappings {}
    forall pass, src, k, path | WritesAt(v, pass, src, k, path)
      ensures WritesAt(w, pass, src, k, path)
    {
      PartWrites(w, v, pass, src, k, path);
    }
    forall pp, n, pq, q | Clash(v, pp, n, pq, q) ensures Clash(w, pp, n, pq, q) {
      var k, x, y :| WritesAt(v, pp, n, k, x) && WritesAt(v, pq, q, k, y) && !Incomparable(x, y);
      assert WritesAt(w, pp, n, k, x) && WritesAt(w, pq, q, k, y);
    }
  }

  lemma PartWrites(w: Wires, v: Wires, pass: Pass, src: string, k: PortKey, path: seq<string>)
    requires PartOf(v, w) && WritesAt(v, pass, src, k, path)
    ensures WritesAt(w, pass, src, k, path)
  {
    match pass
    case EdgePass =>
      var i :| 0 <= i < |v.edges| && v.edges[i].source.node == src && Key(v.edges[i].target) == k;
      assert v.edges[i] in w.edges;
    case MapPass =>
      var j :| 0 <= j < |v.mappings| && v.mappings[j].source.node == src && Targets(v.mappings[j]) == k && v.mappings[j].target.path == path;
      assert v.mappings[j] in w.mappings;
  }

  ghost function Pair(w: Wires, a: Wire, b: Wire): Wires
    requires Has(w, a) && Has(w, b)
  {
    Wires((if a.pass == EdgePass then [w.edges[a.index]] else []) + (if b.pass == EdgePass then [w.edges[b.index]] else []),
          (if a.pass == MapPass then [w.mappings[a.index]] else []) + (if b.pass == MapPass then [w.mappings[b.index]] else []), ALWAYS)
  }

  lemma PairMeets(w: Wires, layer: seq<string>, a: Wire, b: Wire) returns (x: Wire, y: Wire)
    requires Meets(w, layer, a, b) && PathsOk(w)
    ensures PartOf(Pair(w, a, b), w) && PathsOk(Pair(w, a, b)) && CleanPorts(Pair(w, a, b), layer)
    ensures Meets(Pair(w, a, b), layer, x, y)
    ensures FromOf(Pair(w, a, b), x) == FromOf(w, a) && FromOf(Pair(w, a, b), y) == FromOf(w, b) && x.pass == a.pass
    ensures y.pass == b.pass
  {
    hide Pair, PathsOk, FromOf, ToOf, PathOf, Incomparable;
    x, y := PairWires(w, a, b);
    PairIsPart(w, a, b);
  }

  lemma PairWires(w: Wires, a: Wire, b: Wire) returns (x: Wire, y: Wire)
    requires Has(w, a) && Has(w, b)
    ensures var v := Pair(w, a, b);
            && Has(v, x) && FromOf(v, x) == FromOf(w, a) && ToOf(v, x) == ToOf(w, a) && PathOf(v, x) == PathOf(w, a)
            && Has(v, y) && FromOf(v, y) == FromOf(w, b) && ToOf(v, y) == ToOf(w, b) && PathOf(v, y) == PathOf(w, b)
            && x.pass == a.pass && y.pass == b.pass && forall c :: Has(v, c) ==> c == x || c == y
  {
    x, y := Wire(a.pass, 0), Wire(b.pass, if a.pass == b.pass then 1 else 0);
  }

  lemma PairIsPart(w: Wires, a: Wire, b: Wire)
    requires Has(w, a) && Has(w, b) && PathsOk(w)
    ensures PartOf(Pair(w, a, b), w) && PathsOk(Pair(w, a, b))
  {
  }
}
