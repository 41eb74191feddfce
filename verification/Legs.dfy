/** Any number of suspend/resume legs gives what one uninterrupted run gives. */
module Legs {
  import opened Prelude
  import opened FlowIr
  import opened Layering
  import opened Validation
  import opened Wiring
  import opened State
  import opened LayeredEngine
  import opened Resume
  import opened Firing
  import opened Held
  import opened LateFiring

  // ---------------------------------------------------------------- the uninterrupted engine

  /** A node that answers its own interrupt with the human's output. */
  function Answer(k: NodeKind, out: map<string, Value>): (map<string, Value>, Option<Value>) -> Outcome {
    (ports, cell) =>
      match k.run(ports, cell)
      case Interrupt(q, ws) => if k.canInterrupt then Done(out, ws) else Interrupt(q, ws)
      case Done(o, ws) => Done(o, ws)
      case Failure(ws) => Failure(ws)
  }

  /** The same engine with every interrupt answered on the spot. */
  function Answered(e: Engine, human: string -> map<string, Value>): Engine {
    e.(nodes := map n | n in e.nodes :: e.nodes[n].(run := Answer(e.nodes[n], human(n))))
  }

  /** No sibling of an interrupt-capable node writes after it at a place it writes. */
  ghost predicate AnswersLast(e: Engine) {
    forall k, p :: In(e.layers, k, p) && CanInterrupt(e, p) ==> LastWord(WiresOf(e), e.layers[k], p)
  }

  // ---------------------------------------------------------------- fanout

  function Emits(e: Engine, r: Run, k: PortKey): Option<Value> {
    var o := RunNode(e, k.node, r.net.ports, r.cell);
    if k.node in r.net.active && o.Done? && k.port in o.out then Some(o.out[k.port]) else None
  }

  /** A port after the fanout holds what its node emitted there, or else what it held before. */
  lemma {:induction false} FanoutAt(e: Engine, r: Run, layer: seq<string>, ports: Ports, k: PortKey)
    requires Distinct(layer)
    ensures Lookup(Fanout(e, r, layer, ports), k) ==
            if k.node in layer && Emits(e, r, k).Some? then Emits(e, r, k) else Lookup(ports, k)
    decreases |layer|
  {
    if layer != [] {
      var n := layer[0];
      var o := RunNode(e, n, r.net.ports, r.cell);
      assert layer == [n] + layer[1..];
      FanoutAt(e, r, layer[1..], if n in r.net.active && o.Done? then WriteAll(ports, n, o.out) else ports, k);
    }
  }

  /** Two runs about to execute the same layer. */
  ghost predicate SameView(a: Run, b: Run) {
    a.net.active == b.net.active && a.net.ports == b.net.ports && a.cell == b.cell
  }

  lemma AnsweredNode(e: Engine, human: string -> map<string, Value>, a: Run, b: Run, n: string)
    requires SameView(a, b)
    ensures var o, x := RunNode(e, n, a.net.ports, a.cell), RunNode(Answered(e, human), n, b.net.ports, b.cell);
            && x == (if CanInterrupt(e, n) && o.Interrupt? then Done(human(n), o.writes) else o)
            && (Fails(e, a, n, true) <==> Fails(Answered(e, human), b, n, false))
  {
  }

  lemma AnsweredLayer(e: Engine, human: string -> map<string, Value>, a: Run, b: Run, layer: seq<string>)
    requires SameView(a, b)
    ensures AnyFails(e, a, layer, true) <==> AnyFails(Answered(e, human), b, layer, false)
    ensures Staged(e, a, layer) == Staged(Answered(e, human), b, layer)
    ensures Pendings(Answered(e, human), b, layer, false) == []
  {
    forall n ensures Fails(e, a, n, true) <==> Fails(Answered(e, human), b, n, false)
      ensures RunNode(e, n, a.net.ports, a.cell).writes == RunNode(Answered(e, human), n, b.net.ports, b.cell).writes
    {
      AnsweredNode(e, human, a, b, n);
    }
    NonePending(Answered(e, human), b, layer);
  }

  lemma {:induction false} NonePending(e: Engine, r: Run, layer: seq<string>)
    ensures Pendings(e, r, layer, false) == []
  {
    if layer != [] { NonePending(e, r, layer[1..]); }
  }

  /** The answered fanout adds the human's output to the suspending node's ports, and nothing else. */
  lemma AnsweredFanout(e: Engine, human: string -> map<string, Value>, a: Run, b: Run, layer: seq<string>, ports: Ports)
    requires SameView(a, b) && Distinct(layer) && !AnyFails(e, a, layer, true)
    requires |Pendings(e, a, layer, true)| <= 1
    ensures var pending := Pendings(e, a, layer, true);
            Fanout(Answered(e, human), b, layer, ports) ==
            if pending == [] then Fanout(e, a, layer, ports)
            else WriteAll(Fanout(e, a, layer, ports), pending[0], human(pending[0]))
  {
    var pending := Pendings(e, a, layer, true);
    var x := Fanout(Answered(e, human), b, layer, ports);
    var y := if pending == [] then Fanout(e, a, layer, ports) else WriteAll(Fanout(e, a, layer, ports), pending[0], human(pending[0]));
    forall k ensures Lookup(x, k) == Lookup(y, k) {
      FanoutAt(Answered(e, human), b, layer, ports, k);
      FanoutAt(e, a, layer, ports, k);
      AnsweredNode(e, human, a, b, k.node);
      AnsweredPort(e, human, a, b, layer, k);
    }
    SameLookups(x, y);
  }

  lemma AnsweredPort(e: Engine, human: string -> map<string, Value>, a: Run, b: Run, layer: seq<string>, k: PortKey)
    requires SameView(a, b) && |Pendings(e, a, layer, true)| <= 1
    ensures var pending := Pendings(e, a, layer, true);
            k.node in layer ==>
              Emits(Answered(e, human), b, k) ==
              if pending != [] && k.node == pending[0]
              then (if k.port in human(k.node) then Some(human(k.node)[k.port]) else None)
              else Emits(e, a, k)
    ensures forall p :: p in Pendings(e, a, layer, true) ==> p in layer && Emits(e, a, PortKey(p, k.port)).None?
  {
    hide Answered, RunNode, CanInterrupt;
    var pending := Pendings(e, a, layer, true);
    AnsweredNode(e, human, a, b, k.node);
    assert pending != [] ==> pending[0] in pending;
    if k.node in layer && Suspends(e, a, k.node, true) {
      assert k.node in pending;
      assert pending == [k.node];
    }
  }

  lemma {:induction false} OnePending(e: Engine, r: Run, layer: seq<string>)
    requires AtMostOneInterrupt(e, layer)
    ensures |Pendings(e, r, layer, true)| <= 1
  {
    if layer != [] {
      var tail := layer[1..];
      forall i, j | 0 <= i < j < |tail| ensures !(CanInterrupt(e, tail[i]) && CanInterrupt(e, tail[j])) {
        assert tail[i] == layer[i + 1] && tail[j] == layer[j + 1];
      }
      OnePending(e, r, tail);
      var rest := Pendings(e, r, tail, true);
      if rest != [] {
        assert rest[0] in rest;
        var j :| 0 <= j < |tail| && tail[j] == rest[0];
        assert layer[j + 1] == rest[0];
      }
    }
  }

  // ---------------------------------------------------------------- one layer of both runs

  /** A leg and the uninterrupted run at the start of layer k. */
  ghost predicate Same(e: Engine, a: Run, b: Run, k: nat) {
    && SameView(a, b) && a.log == b.log
    && PendingBeyond(e, a.net.edges, k) && PendingBeyond(e, b.net.edges, k)
    && EdgesMatch(a.net.edges, b.net.edges)
    && StaleOnly(e, a.net)
  }

  /** A deferred edge is one whose port the human left out. */
  ghost predicate StaleOnly(e: Engine, net: Net) {
    |net.edges| == |e.flow.edges| &&
    forall i :: 0 <= i < |net.edges| && net.edges[i] == Deferred ==> Key(e.flow.edges[i].source) !in net.ports
  }

  /** Nodes up to layer k. */
  ghost function UpTo(e: Engine, k: nat): set<string> {
    set n | n in Ids(e.flow) && LayeredBefore(e.layers, k + 1, n)
  }

  lemma UpToHolds(e: Engine, k: nat, j: int, n: string)
    requires Compiled(e) && In(e.layers, j, n)
    ensures n in UpTo(e, k) <==> j <= k
  {
    assert Layered(e.layers, n);
  }

  lemma FrozenFacts(e: Engine, k: nat)
    requires Compiled(e) && k < |e.layers|
    ensures forall n :: n in e.layers[k] ==> n in UpTo(e, k)
    ensures LayerSendsOutside(WiresOf(e), e.layers[k], UpTo(e, k))
  {
    forall n | n in e.layers[k] ensures n in UpTo(e, k) && SendsOutside(WiresOf(e), n, UpTo(e, k)) {
      assert In(e.layers, k, n);
      UpToHolds(e, k, k, n);
      forall i | 0 <= i < |e.flow.edges| && e.flow.edges[i].source.node == n
        ensures e.flow.edges[i].target.node !in UpTo(e, k)
      {
        EdgeGoesForward(e, i, k);
      }
      forall i | 0 <= i < |e.flow.mappings| && e.flow.mappings[i].source.node == n
        ensures e.flow.mappings[i].target.node !in UpTo(e, k)
      {
        MappingGoesForward(e, i, k);
      }
    }
  }

  /** The source of every edge sits in some layer. */
  lemma SourceLayered(e: Engine, i: nat)
    requires Compiled(e) && i < |e.flow.edges|
    ensures Layered(e.layers, e.flow.edges[i].source.node)
  {
    assert EdgeOk(e.flow, i);
  }

  /** Firing a layer settles exactly its own edges, and leaves every earlier node's ports alone. */
  lemma FiringAdvances(e: Engine, net: Net, k: nat, held: Option<string>)
    requires Compiled(e) && k < |e.layers| && PendingBeyond(e, net.edges, k)
    ensures var r := FireLayer(WiresOf(e), net, e.layers[k], held);
            r.Ok? ==> && PendingBeyond(e, r.value.edges, k + 1)
                      && (forall i, j :: 0 <= i < |net.edges| && In(e.layers, j, e.flow.edges[i].source.node) && j != k ==>
                            r.value.edges[i] == net.edges[i])
                      && (forall n :: n in UpTo(e, k) ==> PortsOf(r.value.ports, n) == PortsOf(net.ports, n))
                      && (forall i :: 0 <= i < |net.edges| && e.flow.edges[i].source.node in e.layers[k] && r.value.edges[i] == Deferred ==>
                            held == Some(e.flow.edges[i].source.node))
  {
    var w, layer := WiresOf(e), e.layers[k];
    LayersAreAhead(e, k);
    PendingOnLayer(e, net.edges, k);
    FireLayerDelivers(w, net, layer, held);
    FrozenFacts(e, k);
    FrozenUntouched(w, net.active, net.ports, layer, held, UpTo(e, k));
    var r := FireLayer(w, net, layer, held);
    var ds := LayerDeliveries(w, net.active, net.ports, layer, held);
    if r.Ok? {
      forall n | n in UpTo(e, k) ensures PortsOf(r.value.ports, n) == PortsOf(net.ports, n) {
        ApplyFrame(net.ports, ds.value, n);
      }
      forall i | 0 <= i < |net.edges| && e.flow.edges[i].source.node in layer ensures r.value.edges[i] != Pending {
        NoPendingLeft(w, net, layer, held, i);
      }
      forall i, j | 0 <= i < |net.edges| && In(e.layers, j, e.flow.edges[i].source.node)
        ensures r.value.edges[i] == Pending <==> k + 1 <= j
      {
        assert In(e.layers, k, e.flow.edges[i].source.node) <==> e.flow.edges[i].source.node in layer;
      }
    }
  }

  /** A layer that fires without error leaves none of its edges pending. */
  lemma NoPendingLeft(w: Wires, net: Net, layer: seq<string>, held: Option<string>, i: nat)
    requires Ahead(w, layer) && Distinct(layer) && PendingOn(w, net.edges, layer)
    requires i < |w.edges| && w.edges[i].source.node in layer && FireLayer(w, net, layer, held).Ok?
    ensures StatesAfter(w, net.active, net.ports, net.edges, layer, held)[i] != Pending
  {
    var src := w.edges[i].source.node;
    FireLayerDelivers(w, net, layer, held);
    if Feeds(net.active, held, src) {
      PassHolds(w, net.active, net.ports, layer, held, src);
      JudgedOk(w, src, PortsOf(net.ports, src), 0, i);
    }
  }

  lemma {:induction false} PassHolds(w: Wires, active: set<string>, ports: Ports, layer: seq<string>,
                                     held: Option<string>, n: string)
    requires PassSends(w, EdgePass, active, ports, layer, held).Some? && n in layer && Feeds(active, held, n)
    ensures EdgeDeliveries(w, n, PortsOf(ports, n), 0).Some?
  {
    if layer[0] != n { PassHolds(w, active, ports, layer[1..], held, n); }
  }

  lemma MatchingMeans(e: Engine, a: Run, b: Run, k: nat)
    requires Compiled(e) && Same(e, a, b, k) && k < |e.layers|
    ensures forall j :: 0 <= j < |e.flow.edges| && a.net.edges[j] == Deferred ==>
              e.flow.edges[j].source.node in UpTo(e, k) && e.flow.edges[j].source.node !in e.layers[k]
  {
    forall j | 0 <= j < |e.flow.edges| && a.net.edges[j] == Deferred
      ensures e.flow.edges[j].source.node in UpTo(e, k) && e.flow.edges[j].source.node !in e.layers[k]
    {
      SourceLayered(e, j);
      var src := e.flow.edges[j].source.node;
      var i: int :| In(e.layers, i, src);
      UpToHolds(e, k, i, src);
      assert src in e.layers[k] ==> In(e.layers, k, src);
    }
  }

  // ---------------------------------------------------------------- the same layer in both runs

  /** The runs after the fanout and the State barrier. */
  lemma BarriersAgree(e: Engine, red: Option<Reducer>, human: string -> map<string, Value>, a: Run, b: Run, k: nat)
    requires Compiled(e) && e.hasStore && k < |e.layers| && Same(e, a, b, k) && !AnyFails(e, a, e.layers[k], true)
    ensures var layer := e.layers[k];
            var x, y := Barrier(e, red, a, layer), Barrier(Answered(e, human), red, b, layer);
            var pending := Pendings(e, a, layer, true);
            && |pending| <= 1
            && (x.Err? <==> y.Err?)
            && (x.Ok? ==> && x.value.cell == y.value.cell && x.value.log == y.value.log
                          && x.value.net.active == y.value.net.active == a.net.active
                          && x.value.net.edges == a.net.edges && y.value.net.edges == b.net.edges
                          && y.value.net.ports == (if pending == [] then x.value.net.ports
                                                   else WriteAll(x.value.net.ports, pending[0], human(pending[0]))))
  {
    var layer := e.layers[k];
    LayersAreAhead(e, k);
    OnePending(e, a, layer);
    AnsweredLayer(e, human, a, b, layer);
    AnsweredFanout(e, human, a, b, layer, a.net.ports);
  }

  /** The fanout writes the layer's own ports only. */
  lemma FanoutElsewhere(e: Engine, r: Run, layer: seq<string>, n: string)
    requires Distinct(layer) && n !in layer
    ensures PortsOf(Fanout(e, r, layer, r.net.ports), n) == PortsOf(r.net.ports, n)
  {
    var x := Fanout(e, r, layer, r.net.ports);
    forall p ensures Lookup(x, PortKey(n, p)) == Lookup(r.net.ports, PortKey(n, p)) {
      FanoutAt(e, r, layer, r.net.ports, PortKey(n, p));
    }
    var a, b := PortsOf(x, n), PortsOf(r.net.ports, n);
    forall p ensures p in a <==> p in b {
      assert Lookup(x, PortKey(n, p)) == Lookup(r.net.ports, PortKey(n, p));
    }
    forall p | p in a ensures a[p] == b[p] {
      assert Lookup(x, PortKey(n, p)) == Lookup(r.net.ports, PortKey(n, p));
    }
  }

  /** Edges still deferred from earlier layers stay without a value. */
  lemma StaleAfter(e: Engine, a: Run, b: Run, k: nat, ports: Ports, later: Ports)
    requires Compiled(e) && k < |e.layers| && Same(e, a, b, k)
    requires ports == Fanout(e, a, e.layers[k], a.net.ports)
    requires forall n :: n in UpTo(e, k) && n !in e.layers[k] ==> PortsOf(later, n) == PortsOf(ports, n)
    ensures forall i :: 0 <= i < |e.flow.edges| && a.net.edges[i] == Deferred ==>
              Key(e.flow.edges[i].source) !in ports && Key(e.flow.edges[i].source) !in later
  {
    LayersAreAhead(e, k);
    MatchingMeans(e, a, b, k);
    forall i | 0 <= i < |e.flow.edges| && a.net.edges[i] == Deferred
      ensures Key(e.flow.edges[i].source) !in ports && Key(e.flow.edges[i].source) !in later
    {
      var n, p := e.flow.edges[i].source.node, e.flow.edges[i].source.port;
      FanoutElsewhere(e, a, e.layers[k], n);
      assert PortKey(n, p) !in a.net.ports;
      assert p !in PortsOf(a.net.ports, n);
      assert p !in PortsOf(ports, n) && p !in PortsOf(later, n);
    }
  }

  /** A layer without an interrupt: both runs fail, or both go on and still agree. */
  lemma QuietLayer(e: Engine, red: Option<Reducer>, human: string -> map<string, Value>, a: Run, b: Run, k: nat, x: Run,
                   y: Run)
    requires Compiled(e) && e.hasStore && k < |e.layers| && Same(e, a, b, k)
    requires !AnyFails(e, a, e.layers[k], true) && Pendings(e, a, e.layers[k], true) == []
    requires Barrier(e, red, a, e.layers[k]) == Ok(x) && Barrier(Answered(e, human), red, b, e.layers[k]) == Ok(y)
    requires Fits(e, x) && Fits(e, y)
    ensures var f, g := FireLayer(WiresOf(e), x.net, e.layers[k], None), FireLayer(WiresOf(e), y.net, e.layers[k], None);
            && (f.Err? <==> g.Err?)
            && (f.Ok? ==> Same(e, x.(net := f.value), y.(net := g.value), k + 1))
  {
    hide *;
    BarriersAgree(e, red, human, a, b, k);
    SameMeans(e, a, b, k);
    BarrierIs(e, red, a, e.layers[k]);
    QuietFire(e, x.net, y.net, k);
    var f, g := FireLayer(WiresOf(e), x.net, e.layers[k], None), FireLayer(WiresOf(e), y.net, e.layers[k], None);
    if f.Ok? {
      QuietStale(e, a, b, x.net, f.value, k);
      MakeSame(e, x, y, f.value, g.value, k + 1);
    }
  }

  lemma SameMeans(e: Engine, a: Run, b: Run, k: nat)
    requires Same(e, a, b, k)
    ensures PendingBeyond(e, a.net.edges, k) && PendingBeyond(e, b.net.edges, k) && EdgesMatch(a.net.edges, b.net.edges)
    ensures Fits(e, a) && Fits(e, b) && |a.net.edges| == |WiresOf(e).edges| == |b.net.edges|
    ensures SameView(a, b) && a.log == b.log
  {
  }

  lemma MakeSame(e: Engine, x: Run, y: Run, f: Net, g: Net, k: nat)
    requires x.cell == y.cell && x.log == y.log && f.active == g.active && f.ports == g.ports
    requires PendingBeyond(e, f.edges, k) && PendingBeyond(e, g.edges, k) && EdgesMatch(f.edges, g.edges)
    requires StaleOnly(e, f)
    ensures Same(e, x.(net := f), y.(net := g), k)
  {
  }

  lemma BarrierIs(e: Engine, red: Option<Reducer>, a: Run, layer: seq<string>)
    requires Barrier(e, red, a, layer).Ok?
    ensures Barrier(e, red, a, layer).value.net == a.net.(ports := Fanout(e, a, layer, a.net.ports))
  {
  }

  /** Firing looks at activation and ports only. */
  lemma QuietFire(e: Engine, x: Net, y: Net, k: nat)
    requires Compiled(e) && k < |e.layers| && PendingBeyond(e, x.edges, k) && PendingBeyond(e, y.edges, k)
    requires EdgesMatch(x.edges, y.edges) && x.active == y.active && x.ports == y.ports
    ensures var f, g := FireLayer(WiresOf(e), x, e.layers[k], None), FireLayer(WiresOf(e), y, e.layers[k], None);
            && (f.Err? <==> g.Err?)
            && (f.Ok? ==> f.value.active == g.value.active && f.value.ports == g.value.ports && EdgesMatch(f.value.edges, g.value.edges)
                          && PendingBeyond(e, f.value.edges, k + 1) && PendingBeyond(e, g.value.edges, k + 1))
  {
    var w, layer := WiresOf(e), e.layers[k];
    LayersAreAhead(e, k);
    PendingOnLayer(e, x.edges, k);
    PendingOnLayer(e, y.edges, k);
    FireLayerDelivers(w, x, layer, None);
    FireLayerDelivers(w, y, layer, None);
    FiringAdvances(e, x, k, None);
    FiringAdvances(e, y, k, None);
    QuietStates(w, x.active, x.ports, layer, x.edges, y.edges);
  }

  lemma QuietStates(w: Wires, active: set<string>, ports: Ports, layer: seq<string>, x: seq<EdgeState>,
                    y: seq<EdgeState>)
    requires EdgesMatch(x, y) && PendingOn(w, x, layer) && PendingOn(w, y, layer)
    ensures EdgesMatch(StatesAfter(w, active, ports, x, layer, None), StatesAfter(w, active, ports, y, layer, None))
  {
  }

  lemma QuietStale(e: Engine, a: Run, b: Run, net: Net, next: Net, k: nat)
    requires Compiled(e) && k < |e.layers| && Same(e, a, b, k) && net.edges == a.net.edges
    requires net.ports == Fanout(e, a, e.layers[k], a.net.ports)
    requires FireLayer(WiresOf(e), net, e.layers[k], None) == Ok(next)
    ensures StaleOnly(e, next)
  {
    FiringAdvances(e, net, k, None);
    StaleAfter(e, a, b, k, net.ports, next.ports);
    forall i | 0 <= i < |next.edges| && next.edges[i] == Deferred ensures Key(e.flow.edges[i].source) !in next.ports {
      SourceLayered(e, i);
      var j: int :| In(e.layers, j, e.flow.edges[i].source.node);
      assert j == k ==> e.flow.edges[i].source.node in e.layers[k];
    }
  }

  /** A layer with an interrupt at p: if the siblings cannot fire, the uninterrupted run fails; otherwise
      the resume of p fails exactly when the uninterrupted run does, and else the two agree again. */
  lemma InterruptedLayer(e: Engine, red: Option<Reducer>, human: string -> map<string, Value>, a: Run, b: Run, k: nat,
                         p: string, x: Run, y: Run)
    requires Compiled(e) && e.hasStore && AnswersLast(e) && k < |e.layers| && Same(e, a, b, k)
    requires !AnyFails(e, a, e.layers[k], true) && Pendings(e, a, e.layers[k], true) == [p]
    requires Barrier(e, red, a, e.layers[k]) == Ok(x) && Barrier(Answered(e, human), red, b, e.layers[k]) == Ok(y)
    requires Fits(e, x) && Fits(e, y)
    ensures var f, g := FireLayer(WiresOf(e), x.net, e.layers[k], Some(p)), FireLayer(WiresOf(e), y.net, e.layers[k], None);
            && (f.Err? ==> g.Err?)
            && (f.Ok? ==> var late := ResumeNet(WiresOf(e), f.value, p, human(p));
                          && (late.Err? <==> g.Err?)
                          && (late.Ok? ==> Same(e, x.(net := late.value), y.(net := g.value), k + 1)))
  {
    hide *;
    BarriersAgree(e, red, human, a, b, k);
    SameMeans(e, a, b, k);
    BarrierIs(e, red, a, e.layers[k]);
    var f, g := FireLayer(WiresOf(e), x.net, e.layers[k], Some(p)), FireLayer(WiresOf(e), y.net, e.layers[k], None);
    assert p in Pendings(e, a, e.layers[k], true);
    SuspendsMeans(e, a, p);
    assert y.net == Net(x.net.active, WriteAll(x.net.ports, p, human(p)), b.net.edges);
    InterruptedFiring(e, a, b, x.net, k, p, human(p));
    if f.Ok? {
      var late := ResumeNet(WiresOf(e), f.value, p, human(p));
      if late.Ok? {
        FiringAdvances(e, y.net, k, None);
        LateAdvances(e, a, b, x.net, f.value, k, p, human(p));
        MakeSame(e, x, y, late.value, g.value, k + 1);
      }
    }
  }

  lemma SuspendsMeans(e: Engine, r: Run, p: string)
    ensures Suspends(e, r, p, true) ==> p in r.net.active && CanInterrupt(e, p)
  {
  }

  /** HeldThenResumed on the nets after the barrier. */
  lemma InterruptedFiring(e: Engine, a: Run, b: Run, net: Net, k: nat, p: string, out: map<string, Value>)
    requires Compiled(e) && AnswersLast(e) && k < |e.layers| && Same(e, a, b, k)
    requires net == a.net.(ports := Fanout(e, a, e.layers[k], a.net.ports))
    requires p in e.layers[k] && p in net.active && CanInterrupt(e, p)
    ensures var held := FireLayer(WiresOf(e), net, e.layers[k], Some(p));
            var whole := FireLayer(WiresOf(e), Net(net.active, WriteAll(net.ports, p, out), b.net.edges), e.layers[k],
                                   None);
            && (held.Err? ==> whole.Err?)
            && (held.Ok? ==>
                  var late := ResumeNet(WiresOf(e), held.value, p, out);
                  && (late.Err? <==> whole.Err?)
                  && (late.Ok? ==> late.value.active == whole.value.active && late.value.ports == whole.value.ports
                                   && EdgesMatch(late.value.edges, whole.value.edges)))
  {
    hide FireLayer, ResumeNet, Fanout, EdgesMatch, WriteAll, LastWord, Sends;
    LayersAreAhead(e, k);
    PendingOnLayer(e, a.net.edges, k);
    PendingOnLayer(e, b.net.edges, k);
    FrozenFacts(e, k);
    MatchingMeans(e, a, b, k);
    StaleAfter(e, a, b, k, net.ports, net.ports);
    assert In(e.layers, k, p);
    LayerSplits(WiresOf(e), net.active, WriteAll(net.ports, p, out), e.layers[k], p);
    HeldThenResumed(WiresOf(e), net, b.net.edges, e.layers[k], p, out, UpTo(e, k));
  }

  /** What a successful resume leaves: p's edges settled where there was a value, no frozen node touched. */
  lemma LateIs(e: Engine, a: Run, b: Run, net: Net, mid: Net, k: nat, p: string, out: map<string, Value>)
    requires Compiled(e) && k < |e.layers| && Same(e, a, b, k) && p in e.layers[k] && p in net.active
    requires net.edges == a.net.edges && net.ports == Fanout(e, a, e.layers[k], a.net.ports)
    requires FireLayer(WiresOf(e), net, e.layers[k], Some(p)) == Ok(mid)
    requires ResumeNet(WiresOf(e), mid, p, out).Ok?
    ensures var w, start, late := WiresOf(e), Inject(mid, p, out), ResumeNet(WiresOf(e), mid, p, out).value;
            && |mid.edges| == |w.edges|
            && OnlyStaleBesides(w, start, p, 0, UpTo(e, k)) && p in UpTo(e, k)
            && late.edges == LateStates(w, mid.edges, p, PortsOf(start.ports, p), 0)
            && EdgeDeliveries(w, p, PortsOf(start.ports, p), 0).Some?
            && forall n :: n in UpTo(e, k) ==> PortsOf(late.ports, n) == PortsOf(start.ports, n)
  {
    hide LateStates, Fanout, OnlyStaleBesides;
    var w, layer := WiresOf(e), e.layers[k];
    var frozen := UpTo(e, k);
    LayersAreAhead(e, k);
    PendingOnLayer(e, a.net.edges, k);
    FrozenFacts(e, k);
    MatchingMeans(e, a, b, k);
    StaleAfter(e, a, b, k, net.ports, net.ports);
    FireLayerDelivers(w, net, layer, Some(p));
    var ds := LayerDeliveries(w, net.active, net.ports, layer, Some(p));
    StaleStays(w, net, mid, ds.value, mid.edges, layer, p, out, frozen);
    ResumeDelivers(w, mid, p, out, frozen);
    var start := Inject(mid, p, out);
    var own := Own(w, start.ports, p);
    OwnMisses(w, start.ports, p, frozen);
    forall n | n in frozen ensures PortsOf(ResumeNet(w, mid, p, out).value.ports, n) == PortsOf(start.ports, n) {
      ApplyFrame(start.ports, own.value, n);
    }
  }

  /** The leg's own bookkeeping after a resume: edges of layers up to k are settled, and what is still
      deferred has no value. */
  lemma LateAdvances(e: Engine, a: Run, b: Run, net: Net, mid: Net, k: nat, p: string, out: map<string, Value>)
    requires Compiled(e) && k < |e.layers| && Same(e, a, b, k) && p in e.layers[k] && p in net.active
    requires net.edges == a.net.edges && net.ports == Fanout(e, a, e.layers[k], a.net.ports)
    requires FireLayer(WiresOf(e), net, e.layers[k], Some(p)) == Ok(mid)
    requires ResumeNet(WiresOf(e), mid, p, out).Ok?
    ensures var late := ResumeNet(WiresOf(e), mid, p, out).value;
            PendingBeyond(e, late.edges, k + 1) && StaleOnly(e, late)
  {
    LateIs(e, a, b, net, mid, k, p, out);
    FiringAdvances(e, net, k, Some(p));
    LateStale(e, mid, ResumeNet(WiresOf(e), mid, p, out).value, Inject(mid, p, out), k, p);
    LateSettled(e, mid.edges, k, p, PortsOf(Inject(mid, p, out).ports, p));
  }

  lemma LateStale(e: Engine, mid: Net, late: Net, start: Net, k: nat, p: string)
    requires |mid.edges| == |e.flow.edges| && start.edges == mid.edges
    requires OnlyStaleBesides(WiresOf(e), start, p, 0, UpTo(e, k)) && p in UpTo(e, k)
    requires late.edges == LateStates(WiresOf(e), mid.edges, p, PortsOf(start.ports, p), 0)
    requires EdgeDeliveries(WiresOf(e), p, PortsOf(start.ports, p), 0).Some?
    requires forall n :: n in UpTo(e, k) ==> PortsOf(late.ports, n) == PortsOf(start.ports, n)
    ensures StaleOnly(e, late)
  {
    forall i | 0 <= i < |late.edges| && late.edges[i] == Deferred ensures Key(e.flow.edges[i].source) !in late.ports {
      var n, q := e.flow.edges[i].source.node, e.flow.edges[i].source.port;
      assert late.edges[i] == LateState(WiresOf(e), mid.edges, p, PortsOf(start.ports, p), 0, i);
      if n == p { JudgedOk(WiresOf(e), p, PortsOf(start.ports, p), 0, i); }
      assert n in UpTo(e, k) && q !in PortsOf(start.ports, n);
      assert q !in PortsOf(late.ports, n);
    }
  }

  lemma LateSettled(e: Engine, edges: seq<EdgeState>, k: nat, p: string, sp: map<string, Value>)
    requires PendingBeyond(e, edges, k + 1)
    requires forall i :: 0 <= i < |edges| && e.flow.edges[i].source.node == p ==> edges[i] == Deferred
    ensures PendingBeyond(e, LateStates(WiresOf(e), edges, p, sp, 0), k + 1)
  {
    var late := LateStates(WiresOf(e), edges, p, sp, 0);
    forall i, j | 0 <= i < |late| && In(e.layers, j, e.flow.edges[i].source.node)
      ensures late[i] == Pending <==> k + 1 <= j
    {
      assert late[i] == LateState(WiresOf(e), edges, p, sp, 0, i);
    }
  }

  lemma OwnMisses(w: Wires, ports: Ports, p: string, frozen: set<string>)
    requires SendsOutside(w, p, frozen)
    ensures Own(w, ports, p).Some? ==> forall n :: n in frozen ==> n !in Recipients(Own(w, ports, p).value)
  {
    NodeSendsSent(w, EdgePass, p, PortsOf(ports, p));
    NodeSendsSent(w, MapPass, p, PortsOf(ports, p));
    var own := Own(w, ports, p);
    if own.Some? {
      forall d | d in own.value ensures d.to.node !in frozen { assert Sends(w, p, d.to); }
    }
  }
}
