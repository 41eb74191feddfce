/** v2 simulates v0.1: on a flow without mappings whose nodes deal in strings, RunString succeeds exactly when
    the v0.1 run does, and returns the same outputs. */
module LegacyAgrees {
  import opened Prelude
  import opened FlowIr
  import opened Topology
  import opened Layering
  import opened Wiring
  import opened LayeredEngine
  import opened Legs
  import opened Resumption
  import opened Legacy

  // ---------------------------------------------------------------- boxing

  function Boxed<K(==)>(m: map<K, string>): (r: map<K, Value>)
    ensures r.Keys == m.Keys && forall k :: k in m ==> r[k] == Str(m[k])
  {
    map k | k in m :: Str(m[k])
  }

  function Unboxed(m: map<string, Value>): Option<map<string, string>> {
    if forall k :: k in m ==> m[k].Str? then Some(map k | k in m && m[k].Str? :: m[k].text) else None
  }

  /** boxStrMap. */
  method BoxStrMap(m: map<string, string>) returns (out: map<string, Value>)
    ensures out == Boxed(m)
  {
    out := map[];
    var rest := m.Keys;
    while rest != {}
      invariant rest <= m.Keys && out.Keys == m.Keys - rest
      invariant forall k :: k in out ==> out[k] == Str(m[k])
      decreases rest
    {
      var k :| k in rest;
      out := out[k := Str(m[k])];
      rest := rest - {k};
    }
  }

  /** unboxStrMap: an error as soon as one output is not a string. */
  method UnboxStrMap(m: map<string, Value>) returns (out: Option<map<string, string>>)
    ensures out == Unboxed(m)
  {
    var texts: map<string, string> := map[];
    var rest := m.Keys;
    while rest != {}
      invariant rest <= m.Keys && texts.Keys == m.Keys - rest
      invariant forall k :: k in texts ==> m[k] == Str(texts[k])
      decreases rest
    {
      var k :| k in rest;
      if !m[k].Str? { return None; }
      texts := texts[k := m[k].text];
      rest := rest - {k};
    }
    assert texts == Unboxed(m).value;
    return Some(texts);
  }

  lemma UnboxBoxed(m: map<string, string>)
    ensures Unboxed(Boxed(m)) == Some(m)
  {
    assert forall k :: k in Boxed(m) ==> Boxed(m)[k] == Str(m[k]);
    assert Unboxed(Boxed(m)).Some? && Unboxed(Boxed(m)).value == m;
  }

  /** RunString. */
  ghost function RunString(e: Engine, inputs: map<string, string>): Option<map<string, string>> {
    match FreshRun(e, None, None, Boxed(inputs), false)
    case Finished(r) => (match Outputs(e.flow, r.net) case Ok(out) => Unboxed(out) case Err(_) => None)
    case _ => None
  }

  // ---------------------------------------------------------------- the same flow on both engines

  ghost predicate SameNode(k: NodeKind, o: OldKind) {
    forall sp: map<string, string> ::
      match o(sp)
      case Some(out) => k.run(Boxed(sp), None).Done? && k.run(Boxed(sp), None).out == Boxed(out)
      case None => !k.run(Boxed(sp), None).Done?
  }

  ghost predicate Migrated(e: Engine, o: OldEngine) {
    && Compiled(e) && Listed(Ids(e.flow), Arcs(e.flow), e.layers) && OldCompiled(o)
    && e.flow == o.flow && e.flow.mappings == [] && e.cond == o.cond
    && forall n :: n in Ids(e.flow) ==> n in o.nodes && n in e.nodes && SameNode(e.nodes[n], o.nodes[n])
  }

  /** Both engines compile the flow to the same layers, in the same order. */
  lemma SameLayering(e: Engine, o: OldEngine)
    requires Migrated(e, o)
    ensures e.layers == o.layers
  {
    hide IsLayering, Listed, SameNode;
    ListedIsUnique(Ids(e.flow), Arcs(e.flow), e.layers, o.layers);
  }

  ghost predicate Twin(net: Net, was: OldNet) { net.active == was.active && net.ports == Boxed(was.ports) }

  lemma BoxedPorts(ports: Texts, n: string)
    ensures PortsOf(Boxed(ports), n) == Boxed(TextsOf(ports, n))
  {
  }

  lemma BoxedWrite(ports: Texts, n: string, out: map<string, string>)
    ensures WriteAll(Boxed(ports), n, Boxed(out)) == Boxed(WriteTexts(ports, n, out))
  {
  }

  lemma BoxedSet<K>(m: map<K, string>, k: K, v: string)
    ensures Boxed(m)[k := Str(v)] == Boxed(m[k := v])
  {
  }

  // ---------------------------------------------------------------- start

  lemma SameEntries(f: Flow)
    requires f.mappings == []
    ensures Entries(f) == OldEntries(f)
  {
  }

  lemma {:induction false} InputsSame(f: Flow, inputs: map<string, string>, net: Net, was: OldNet, i: nat)
    requires i <= |f.inputs| && Twin(net, was)
    ensures var r, s := InputsFrom(f, Boxed(inputs), net, i), OldInputs(f, inputs, was, i);
            (r.Ok? <==> s.Some?) && (r.Ok? ==> Twin(r.value, s.value))
    decreases |f.inputs| - i
  {
    if i < |f.inputs| {
      var ref := f.inputs[i];
      if ref.name in inputs {
        var k := PortKey(ref.node, ref.port);
        BoxedSet(was.ports, k, inputs[ref.name]);
        InputsSame(f, inputs, net.(active := net.active + {ref.node}, ports := net.ports[k := Str(inputs[ref.name])]),
                   OldNet(was.active + {ref.node}, was.ports[k := inputs[ref.name]]), i + 1);
      }
    }
  }

  // ---------------------------------------------------------------- fanout

  lemma NodeSame(e: Engine, o: OldEngine, r: Run, was: OldNet, n: string)
    requires Migrated(e, o) && n in Ids(e.flow) && Twin(r.net, was) && r.cell.None?
    ensures var x, y := RunNode(e, n, r.net.ports, r.cell), OldNode(o, n, was.ports);
            (x.Done? <==> y.Some?) && (x.Done? ==> x.out == Boxed(y.value)) && (Fails(e, r, n, false) <==> n in was.active && y.None?)
  {
    BoxedPorts(was.ports, n);
    assert SameNode(e.nodes[n], o.nodes[n]);
  }

  lemma {:induction false} FanoutSame(e: Engine, o: OldEngine, r: Run, was: OldNet, layer: seq<string>, texts: Texts)
    requires Migrated(e, o) && Twin(r.net, was) && r.cell.None? && forall n :: n in layer ==> n in Ids(e.flow)
    ensures OldFanout(o, was, layer, texts).None? <==> AnyFails(e, r, layer, false)
    ensures OldFanout(o, was, layer, texts).Some? ==>
            Fanout(e, r, layer, Boxed(texts)) == Boxed(OldFanout(o, was, layer, texts).value)
  {
    hide Migrated, Boxed, WriteAll, WriteTexts;
    if layer != [] {
      var n, tail := layer[0], layer[1..];
      assert n in layer && forall m :: m in layer <==> m == n || m in tail;
      NodeSame(e, o, r, was, n);
      if n in was.active {
        var out := OldNode(o, n, was.ports);
        if out.Some? {
          BoxedWrite(texts, n, out.value);
          FanoutSame(e, o, r, was, tail, WriteTexts(texts, n, out.value));
        }
      } else {
        FanoutSame(e, o, r, was, tail, texts);
      }
    }
  }

  // ---------------------------------------------------------------- firing

  lemma {:induction false} EdgesSame(e: Engine, o: OldEngine, net: Net, was: OldNet, src: string,
                                     sp: map<string, string>, i: nat)
    requires Migrated(e, o) && Twin(net, was) && |net.edges| == |e.flow.edges| && i <= |e.flow.edges|
    requires forall j :: i <= j < |net.edges| && e.flow.edges[j].source.node == src ==> net.edges[j] == Pending
    ensures var r, s := EdgesFrom(WiresOf(e), net, src, Boxed(sp), i), OldEdges(o, was, src, sp, i);
            && (r.Ok? <==> s.Some?) && (r.Ok? ==> Twin(r.value, s.value))
            && (r.Ok? ==> forall j :: 0 <= j < |net.edges| && e.flow.edges[j].source.node != src ==> r.value.edges[j] == net.edges[j])
    decreases |e.flow.edges| - i
  {
    hide Compiled, SameNode, OldCompiled, Listed;
    if i < |e.flow.edges| {
      var w, edge := WiresOf(e), e.flow.edges[i];
      if edge.source.node != src {
        EdgesSame(e, o, net, was, src, sp, i + 1);
      } else {
        match Judge(w, i, Boxed(sp))
        case Err(_) =>
        case Ok(s) =>
          var next := Settle(w, net, i, Boxed(sp), s);
          if s.Fired? {
            BoxedSet(was.ports, Key(edge.target), sp[edge.source.port]);
            EdgesSame(e, o, next, OldNet(was.active + {edge.target.node}, was.ports[Key(edge.target) := sp[edge.source.port]]), src, sp, i + 1);
          } else {
            EdgesSame(e, o, next, was, src, sp, i + 1);
          }
      }
    }
  }

  lemma {:induction false} FireSame(e: Engine, o: OldEngine, net: Net, was: OldNet, layer: seq<string>)
    requires Migrated(e, o) && Twin(net, was) && Distinct(layer) && PendingOn(WiresOf(e), net.edges, layer)
    ensures var r, s := FireEdges(WiresOf(e), net, layer, None), OldFire(o, was, layer);
            (r.Ok? <==> s.Some?) && (r.Ok? ==> Twin(r.value, s.value))
    decreases |layer|
  {
    hide Migrated, Boxed, EdgesFrom, OldEdges, Distinct, PendingOn;
    if layer != [] {
      var w, src, tail := WiresOf(e), layer[0], layer[1..];
      PendingHere(e, net.edges, layer);
      SameEdges(e, o);
      if src in net.active {
        BoxedPorts(was.ports, src);
        EdgesSame(e, o, net, was, src, TextsOf(was.ports, src), 0);
        var r := EdgesFrom(w, net, src, PortsOf(net.ports, src), 0);
        if r.Ok? {
          PendingTail(e, net.edges, r.value.edges, layer);
          FireSame(e, o, r.value, OldEdges(o, was, src, TextsOf(was.ports, src), 0).value, tail);
        }
      } else {
        var marked := net.(edges := MarkFrom(w, net.edges, src, DeadSrcSkip, 0));
        PendingTail(e, net.edges, marked.edges, layer);
        FireSame(e, o, marked, was, tail);
      }
    }
  }

  lemma SameEdges(e: Engine, o: OldEngine)
    requires Migrated(e, o)
    ensures WiresOf(e).edges == e.flow.edges == o.flow.edges
  {
  }

  lemma PendingHere(e: Engine, edges: seq<EdgeState>, layer: seq<string>)
    requires PendingOn(WiresOf(e), edges, layer) && layer != []
    ensures |edges| == |e.flow.edges| && forall j :: 0 <= j < |edges| && e.flow.edges[j].source.node == layer[0] ==>
            edges[j] == Pending
  {
    assert layer[0] in layer;
  }

  lemma PendingTail(e: Engine, edges: seq<EdgeState>, after: seq<EdgeState>, layer: seq<string>)
    requires PendingOn(WiresOf(e), edges, layer) && layer != [] && Distinct(layer) && |after| == |edges|
    requires forall j :: 0 <= j < |edges| && e.flow.edges[j].source.node != layer[0] ==> after[j] == edges[j]
    ensures Distinct(layer[1..]) && PendingOn(WiresOf(e), after, layer[1..])
  {
    var tail := layer[1..];
    forall i, j | 0 <= i < j < |tail|
      ensures tail[i] != tail[j]
    {
      assert tail[i] == layer[i + 1] && tail[j] == layer[j + 1];
    }
    forall j | 0 <= j < |after| && e.flow.edges[j].source.node in tail ensures after[j] == Pending {
      var i :| 0 <= i < |tail| && tail[i] == e.flow.edges[j].source.node;
      assert layer[i + 1] == e.flow.edges[j].source.node && layer[0] != layer[i + 1];
    }
  }

  lemma {:induction false} NoMappingsFire(w: Wires, net: Net, layer: seq<string>)
    requires w.mappings == []
    ensures FireMappings(w, net, layer, None) == Ok(net)
    decreases |layer|
  {
    if layer != [] { NoMappingsFire(w, net, layer[1..]); }
  }

  // ---------------------------------------------------------------- layer by layer

  lemma LayerSame(e: Engine, o: OldEngine, r: Run, was: OldNet, k: nat)
    requires Migrated(e, o) && k < |e.layers| && Fits(e, r) && r.cell.None? && Twin(r.net, was)
    requires PendingBeyond(e, r.net.edges, k)
    ensures var s, t := LayerStep(e, None, r, e.layers[k], false), OldLayer(o, was, e.layers[k]);
            && (s.StepDone? <==> t.Some?) && !s.StepSuspended?
            && (s.StepDone? ==> Twin(s.run.net, t.value) && s.run.cell.None? && PendingBeyond(e, s.run.net.edges, k + 1))
  {
    hide LayerStep, FireEdges, FireMappings, OldFire, OldFanout, Fanout, AnyFails, PendingBeyond, Pendings, PendingOn;
    hide SameNode, Barrier;
    var layer, w := e.layers[k], WiresOf(e);
    LayerNodes(e, k);
    FanoutSame(e, o, r, was, layer, was.ports);
    StepCases(e, None, r, layer, false);
    NonePending(e, r, layer);
    if !AnyFails(e, r, layer, false) {
      NoState(e, r, layer);
      var mid := r.net.(ports := Fanout(e, r, layer, r.net.ports));
      var texts := OldFanout(o, was, layer, was.ports).value;
      LayersAreAhead(e, k);
      PendingOnLayer(e, mid.edges, k);
      FireSame(e, o, mid, was.(ports := texts), layer);
      var f := FireEdges(w, mid, layer, None);
      if f.Ok? { NoMappingsFire(w, f.value, layer); }
      FiringAdvances(e, mid, k, None);
    }
  }

  lemma LayerNodes(e: Engine, k: nat)
    requires Compiled(e) && k < |e.layers|
    ensures forall n :: n in e.layers[k] ==> n in Ids(e.flow)
  {
    forall n | n in e.layers[k] ensures n in Ids(e.flow) { assert In(e.layers, k, n); }
  }

  lemma NoState(e: Engine, r: Run, layer: seq<string>)
    requires r.cell.None?
    ensures var b := Barrier(e, None, r, layer);
            b.Ok? && b.value.cell.None? && b.value.net == r.net.(ports := Fanout(e, r, layer, r.net.ports))
  {
  }

  lemma {:induction false} RunSame(e: Engine, o: OldEngine, r: Run, was: OldNet, k: nat)
    requires Migrated(e, o) && k <= |e.layers| && Fits(e, r) && r.cell.None? && Twin(r.net, was)
    requires PendingBeyond(e, r.net.edges, k)
    ensures var f, t := RunFrom(e, None, r, k, false), OldFrom(o, was, k);
            && (f.Finished? <==> t.Some?) && (f.Finished? ==> Twin(f.run.net, t.value))
    decreases |e.layers| - k
  {
    hide RunFrom, LayerStep, OldLayer, Twin, PendingBeyond, Migrated;
    SameLayering(e, o);
    RunStep(e, None, r, k, false);
    if k < |e.layers| {
      LayerSame(e, o, r, was, k);
      match LayerStep(e, None, r, e.layers[k], false)
      case StepDone(s) => RunSame(e, o, s, OldLayer(o, was, e.layers[k]).value, k + 1);
      case StepFailed(_) =>
      case StepSuspended(_, _, _) =>
    }
  }

  lemma {:induction false} OutputsSame(f: Flow, net: Net, was: OldNet, i: nat, sofar: map<string, string>)
    requires i <= |f.outputs| && Twin(net, was)
    ensures var r, s := OutputsFrom(f, net, i, Boxed(sofar)), OldOutputs(f, was, i, sofar);
            (r.Ok? <==> s.Some?) && (r.Ok? ==> r.value == Boxed(s.value))
    decreases |f.outputs| - i
  {
    if i < |f.outputs| {
      var ref := f.outputs[i];
      if ref.node !in net.active {
        OutputsSame(f, net, was, i + 1, sofar);
      } else if PortKey(ref.node, ref.port) in net.ports {
        var v := was.ports[PortKey(ref.node, ref.port)];
        BoxedSet(sofar, OutputKey(ref), v);
        OutputsSame(f, net, was, i + 1, sofar[OutputKey(ref) := v]);
      }
    }
  }

  /** RunString on v2 is Run on v0.1: the same success, the same outputs, for every input. */
  lemma RunStringIsRun(e: Engine, o: OldEngine, inputs: map<string, string>)
    requires Migrated(e, o)
    ensures RunString(e, inputs) == OldResult(o, inputs)
  {
    hide RunFrom, OldFrom, OutputsFrom, OldOutputs, InputsFrom, OldInputs, SameNode, Entries, OldEntries, Boxed;
    hide Unboxed;
    var f := e.flow;
    SameEntries(f);
    var net, was := Net(Entries(f), map[], seq(|f.edges|, _ => Pending)), OldNet(OldEntries(f), map[]);
    NothingBoxed();
    InputsSame(f, inputs, net, was, 0);
    var r := InputsFrom(f, Boxed(inputs), net, 0);
    if r.Ok? {
      var start := OldInputs(f, inputs, was, 0).value;
      assert PendingBeyond(e, r.value.edges, 0);
      RunSame(e, o, Run(r.value, None, []), start, 0);
      var g := RunFrom(e, None, Run(r.value, None, []), 0, false);
      if g.Finished? {
        var last := OldFrom(o, start, 0).value;
        OutputsSame(f, g.run.net, last, 0, map[]);
        var out := OldOutputs(f, last, 0, map[]);
        if out.Some? { UnboxBoxed(out.value); }
      }
    }
  }

  lemma NothingBoxed()
    ensures Boxed<PortKey>(map[]) == map[] && Boxed<string>(map[]) == map[]
  {
  }
}
