/** The life of an edge, when a node runs, and what the result map holds. */
module Lifecycle {
  import opened Prelude
  import opened FlowIr
  import opened Layering
  import opened Validation
  import opened Wiring
  import opened State
  import opened LayeredEngine
  import opened Resume
  import opened Firing
  import opened LateFiring
  import opened Legs
  import opened Resumption
  import opened Dataflow
  import opened Equations

  // ---------------------------------------------------------------- transitions

  /** Running layer k settles exactly the edges that leave it: each goes from pending to not pending, and
      every other edge keeps its state. In particular the code's pending guard never skips an edge. */
  lemma LayerSettlesItsEdges(e: Engine, red: Option<Reducer>, r: Run, k: nat, checkpoint: bool)
    requires Compiled(e) && k < |e.layers| && Fits(e, r) && PendingBeyond(e, r.net.edges, k)
    ensures var s := LayerStep(e, red, r, e.layers[k], checkpoint);
            !s.StepFailed? ==>
              && PendingBeyond(e, s.run.net.edges, k + 1)
              && forall i :: 0 <= i < |e.flow.edges| ==>
                   if e.flow.edges[i].source.node in e.layers[k]
                   then r.net.edges[i] == Pending && s.run.net.edges[i] != Pending
                   else s.run.net.edges[i] == r.net.edges[i]
  {
    hide AnyFails, Barrier, FireLayer, Pendings, LayerStep;
    var layer := e.layers[k];
    StepCases(e, red, r, layer, checkpoint);
    var s := LayerStep(e, red, r, layer, checkpoint);
    if !s.StepFailed? {
      var b := Barrier(e, red, r, layer).value;
      var pending := Pendings(e, r, layer, checkpoint);
      var held := if pending == [] then None else Some(pending[0]);
      FiringAdvances(e, b.net, k, held);
      forall i | 0 <= i < |e.flow.edges|
        ensures if e.flow.edges[i].source.node in layer then r.net.edges[i] == Pending && s.run.net.edges[i] != Pending
                else s.run.net.edges[i] == r.net.edges[i]
      {
        SourceLayered(e, i);
        var j: int :| In(e.layers, j, e.flow.edges[i].source.node);
        assert e.flow.edges[i].source.node in layer ==> In(e.layers, k, e.flow.edges[i].source.node);
      }
    }
  }

  /** A resume changes deferred edges only, and only to fired or dead-false. */
  lemma {:induction false} ResumeTouchesDeferredOnly(w: Wires, net: Net, i: nat)
    requires |net.edges| == |w.edges| && i <= |w.edges|
    ensures var r := DeferredFrom(w, net, i);
            r.Ok? ==> forall j :: 0 <= j < |w.edges| ==>
              r.value.edges[j] == net.edges[j] || (net.edges[j] == Deferred && (r.value.edges[j] == Fired || r.value.edges[j] == DeadFalse))
    decreases |w.edges| - i
  {
    if i < |w.edges| {
      var sp := PortsOf(net.ports, w.edges[i].source.node);
      if net.edges[i] != Deferred || w.edges[i].source.port !in sp {
        ResumeTouchesDeferredOnly(w, net, i + 1);
      } else {
        match Judge(w, i, sp)
        case Err(_) =>
        case Ok(s) => ResumeTouchesDeferredOnly(w, Settle(w, net, i, sp, s), i + 1);
      }
    }
  }

  // ---------------------------------------------------------------- final states say why

  /** Why edge i ended as it did, read off the final activation and ports. */
  function Reason(e: Engine, A: set<string>, F: Ports, i: nat): Option<EdgeState>
    requires i < |e.flow.edges|
  {
    var src := e.flow.edges[i].source.node;
    if src !in A then Some(DeadSrcSkip)
    else match Judge(WiresOf(e), i, PortsOf(F, src)) case Ok(s) => Some(s) case Err(_) => None
  }

  /** The human's answers so far, by the node that asked. */
  type Answers = map<string, map<string, Value>>

  /** The state edge i keeps. A node that was resumed leaves the edges of ports it never filled deferred. */
  function Ending(e: Engine, answers: Answers, A: set<string>, F: Ports, i: nat): Option<EdgeState>
    requires i < |e.flow.edges|
  {
    if e.flow.edges[i].source.node in answers && Key(e.flow.edges[i].source) !in F then Some(Deferred)
    else Reason(e, A, F, i)
  }

  /** Every edge sourced before layer k is in its final state, but the edges of a suspended node are deferred. */
  ghost predicate Explained(e: Engine, answers: Answers, net: Net, k: nat, held: Option<string>) {
    |net.edges| == |e.flow.edges| &&
    forall i :: 0 <= i < |net.edges| && LayeredBefore(e.layers, k, e.flow.edges[i].source.node) ==>
      Some(net.edges[i]) == if held == Some(e.flow.edges[i].source.node) then Some(Deferred) else Ending(e, answers, net.active, net.ports, i)
  }

  /** The answers are those of nodes before layer k, and their ports hold them. */
  ghost predicate Kept(e: Engine, answers: Answers, ports: Ports, k: nat) {
    forall n :: n in answers ==> LayeredBefore(e.layers, k, n) && forall p :: p in answers[n] ==> Lookup(ports, PortKey(n, p)) == Some(answers[n][p])
  }

  lemma HeldNode(e: Engine, r: Run, layer: seq<string>, checkpoint: bool)
    ensures var pending := Pendings(e, r, layer, checkpoint);
            pending != [] ==> pending[0] in layer && pending[0] in r.net.active
  {
    var pending := Pendings(e, r, layer, checkpoint);
    assert pending != [] ==> pending[0] in pending;
  }

  /** A layer explains its edges and leaves the explanation of earlier ones. */
  lemma StepExplains(e: Engine, red: Option<Reducer>, answers: Answers, r: Run, k: nat, checkpoint: bool)
    requires Compiled(e) && k < |e.layers| && Fits(e, r) && PendingBeyond(e, r.net.edges, k)
    requires Explained(e, answers, r.net, k, None) && Kept(e, answers, r.net.ports, k)
    ensures var s := LayerStep(e, red, r, e.layers[k], checkpoint);
            !s.StepFailed? ==>
              && Explained(e, answers, s.run.net, k + 1, if s.StepSuspended? then Some(s.node) else None)
              && Kept(e, answers, s.run.net.ports, if s.StepSuspended? then k else k + 1)
              && PendingBeyond(e, s.run.net.edges, k + 1)
              && (s.StepSuspended? ==> s.node in e.layers[k] && s.node in s.run.net.active)
  {
    hide AnyFails, Barrier, FireLayer, Pendings, LayerStep, PendingBeyond, Explained, Kept;
    var layer := e.layers[k];
    StepCases(e, red, r, layer, checkpoint);
    HeldNode(e, r, layer, checkpoint);
    var s := LayerStep(e, red, r, layer, checkpoint);
    if !s.StepFailed? {
      BarrierIs(e, red, r, layer);
      var b := Barrier(e, red, r, layer).value;
      var pending := Pendings(e, r, layer, checkpoint);
      FiringExplains(e, answers, r, b.net, s.run.net, k, if pending == [] then None else Some(pending[0]));
      KeptOn(e, answers, s.run.net.ports, k);
    }
  }

  lemma KeptOn(e: Engine, answers: Answers, ports: Ports, k: nat)
    requires Kept(e, answers, ports, k)
    ensures Kept(e, answers, ports, k + 1)
  {
    forall n | n in answers ensures LayeredBefore(e.layers, k + 1, n) { var j :| j < k && In(e.layers, j, n); }
  }

  lemma FiringExplains(e: Engine, answers: Answers, r: Run, mid: Net, net: Net, k: nat, held: Option<string>)
    requires Compiled(e) && k < |e.layers| && Fits(e, r) && PendingBeyond(e, r.net.edges, k)
    requires Explained(e, answers, r.net, k, None) && Kept(e, answers, r.net.ports, k)
    requires mid == r.net.(ports := Fanout(e, r, e.layers[k], r.net.ports))
    requires held.Some? ==> held.value in e.layers[k] && held.value in mid.active
    requires FireLayer(WiresOf(e), mid, e.layers[k], held) == Ok(net)
    ensures Explained(e, answers, net, k + 1, held) && Kept(e, answers, net.ports, k)
    ensures PendingBeyond(e, net.edges, k + 1)
    ensures held.Some? ==> held.value in net.active
  {
    hide Fanout, FireLayer, Reason, PendingBeyond;
    FiringAdvances(e, mid, k, held);
    EarlierStays(e, r, mid, net, k, held);
    forall i | 0 <= i < |net.edges| && LayeredBefore(e.layers, k + 1, e.flow.edges[i].source.node)
      ensures Some(net.edges[i]) == if held == Some(e.flow.edges[i].source.node) then Some(Deferred) else Ending(e, answers, net.active, net.ports, i)
    {
      var src := e.flow.edges[i].source.node;
      var j :| j < k + 1 && In(e.layers, j, src);
      if j == k {
        FiredReason(e, mid, net, k, held, i);
        if src in answers { NotTwice(e, k, src); }
      } else {
        assert LayeredBefore(e.layers, k, src);
        SameReason(e, answers, r.net, net, i);
        assert src in e.layers[k] ==> In(e.layers, k, src);
      }
    }
  }

  lemma NotTwice(e: Engine, k: nat, n: string)
    requires Compiled(e) && k < |e.layers| && n in e.layers[k]
    ensures !LayeredBefore(e.layers, k, n)
  {
    assert In(e.layers, k, n);
  }

  /** Firing layer k changes nothing a node of an earlier layer holds. */
  lemma EarlierStays(e: Engine, r: Run, mid: Net, net: Net, k: nat, held: Option<string>)
    requires Compiled(e) && k < |e.layers| && Fits(e, r) && PendingBeyond(e, r.net.edges, k)
    requires mid == r.net.(ports := Fanout(e, r, e.layers[k], r.net.ports))
    requires FireLayer(WiresOf(e), mid, e.layers[k], held) == Ok(net)
    ensures |net.edges| == |e.flow.edges|
    ensures forall n :: LayeredBefore(e.layers, k, n) ==> PortsOf(net.ports, n) == PortsOf(r.net.ports, n) && (n in net.active <==> n in r.net.active)
    ensures forall n :: n in e.layers[k] ==> PortsOf(net.ports, n) == PortsOf(mid.ports, n) && (n in net.active <==> n in mid.active)
    ensures forall i :: 0 <= i < |net.edges| && LayeredBefore(e.layers, k, e.flow.edges[i].source.node) ==> net.edges[i] == r.net.edges[i]
  {
    hide Fanout, FireLayer, Recipients, LayerDeliveries, Apply, PendingBeyond;
    var w, layer := WiresOf(e), e.layers[k];
    LayersAreAhead(e, k);
    PendingOnLayer(e, mid.edges, k);
    FireLayerDelivers(w, mid, layer, held);
    FiringAdvances(e, mid, k, held);
    FrozenFacts(e, k);
    FrozenUntouched(w, mid.active, mid.ports, layer, held, UpTo(e, k));
    forall n | LayeredBefore(e.layers, k, n)
      ensures PortsOf(net.ports, n) == PortsOf(r.net.ports, n) && (n in net.active <==> n in r.net.active)
    {
      var j :| j < k && In(e.layers, j, n);
      UpToHolds(e, k, j, n);
      assert n in layer ==> In(e.layers, k, n);
      FanoutElsewhere(e, r, layer, n);
    }
  }

  /** An edge of the layer ends up as its source's ports say. */
  lemma FiredReason(e: Engine, mid: Net, net: Net, k: nat, held: Option<string>, i: nat)
    requires Compiled(e) && k < |e.layers| && PendingBeyond(e, mid.edges, k) && i < |e.flow.edges| == |net.edges|
    requires FireLayer(WiresOf(e), mid, e.layers[k], held) == Ok(net) && e.flow.edges[i].source.node in e.layers[k]
    requires var n := e.flow.edges[i].source.node;
             PortsOf(net.ports, n) == PortsOf(mid.ports, n) && (n in net.active <==> n in mid.active)
    ensures Some(net.edges[i]) == if held == Some(e.flow.edges[i].source.node) then Some(Deferred) else Reason(e, net.active, net.ports, i)
  {
    hide FireLayer, LayerDeliveries, Apply, Recipients;
    LayersAreAhead(e, k);
    PendingOnLayer(e, mid.edges, k);
    FireLayerDelivers(WiresOf(e), mid, e.layers[k], held);
    FiringAdvances(e, mid, k, held);
    assert In(e.layers, k, e.flow.edges[i].source.node);
    assert net.edges[i] == StateAfter(WiresOf(e), mid.active, mid.ports, e.layers[k], held, i, mid.edges[i]);
  }

  lemma SameReason(e: Engine, answers: Answers, x: Net, y: Net, i: nat)
    requires i < |e.flow.edges|
    requires var n := e.flow.edges[i].source.node;
             PortsOf(x.ports, n) == PortsOf(y.ports, n) && (n in x.active <==> n in y.active)
    ensures Ending(e, answers, x.active, x.ports, i) == Ending(e, answers, y.active, y.ports, i)
  {
    var n, p := e.flow.edges[i].source.node, e.flow.edges[i].source.port;
    assert p in PortsOf(x.ports, n) <==> p in PortsOf(y.ports, n);
  }

  /** A run explains the edges of every layer it passes. */
  lemma {:induction false} RunExplains(e: Engine, red: Option<Reducer>, answers: Answers, r: Run, k: nat,
                                       checkpoint: bool)
    requires Compiled(e) && k <= |e.layers| && Fits(e, r) && PendingBeyond(e, r.net.edges, k)
    requires Explained(e, answers, r.net, k, None) && Kept(e, answers, r.net.ports, k)
    ensures var f := RunFrom(e, red, r, k, checkpoint);
            && (f.Finished? ==> Explained(e, answers, f.run.net, |e.layers|, None) && Kept(e, answers, f.run.net.ports, |e.layers|))
            && (f.Suspended? ==>
                  && Explained(e, answers, f.run.net, f.layer + 1, Some(f.node))
                  && Kept(e, answers, f.run.net.ports, f.layer)
                  && PendingBeyond(e, f.run.net.edges, f.layer + 1) && f.node in e.layers[f.layer]
                  && f.node in f.run.net.active)
    decreases |e.layers| - k
  {
    hide RunFrom, LayerStep, Explained, PendingBeyond, Kept;
    RunStep(e, red, r, k, checkpoint);
    if k < |e.layers| {
      StepExplains(e, red, answers, r, k, checkpoint);
      match LayerStep(e, red, r, e.layers[k], checkpoint)
      case StepDone(s) => RunExplains(e, red, answers, s, k + 1, checkpoint);
      case StepFailed(_) =>
      case StepSuspended(_, _, _) =>
    }
  }

  lemma StartExplained(e: Engine, inputs: map<string, Value>)
    ensures var n := StartNet(e.flow, inputs);
            n.Ok? ==> PendingBeyond(e, n.value.edges, 0) && Explained(e, map[], n.value, 0, None) && Kept(e, map[], n.value.ports, 0)
  {
  }

  /** When an uninterrupted run is done, every edge state names exactly why the edge fired or died. */
  lemma FinalEdgesExplained(e: Engine, red: Option<Reducer>, seed: Option<Value>, inputs: map<string, Value>)
    requires Compiled(e)
    ensures var f := FreshRun(e, red, seed, inputs, false);
            f.Finished? ==> forall i :: 0 <= i < |e.flow.edges| ==>
              Some(f.run.net.edges[i]) == Reason(e, f.run.net.active, f.run.net.ports, i)
  {
    hide RunFrom, PendingBeyond, Kept;
    StartExplained(e, inputs);
    match StartNet(e.flow, inputs)
    case Err(_) =>
    case Ok(net) =>
      RunExplains(e, red, map[], Run(net, seed, []), 0, false);
      var f := RunFrom(e, red, Run(net, seed, []), 0, false);
      if f.Finished? {
        forall i | 0 <= i < |e.flow.edges|
          ensures Some(f.run.net.edges[i]) == Reason(e, f.run.net.active, f.run.net.ports, i)
        {
          AllBefore(e, i);
        }
      }
  }

  lemma AllBefore(e: Engine, i: nat)
    requires Compiled(e) && i < |e.flow.edges|
    ensures LayeredBefore(e.layers, |e.layers|, e.flow.edges[i].source.node)
  {
    SourceLayered(e, i);
    var j: int :| In(e.layers, j, e.flow.edges[i].source.node);
  }

  // ---------------------------------------------------------------- when a node runs

  /** An edge into n fired. */
  ghost predicate FiredInto(e: Engine, edges: seq<EdgeState>, n: string)
    requires |edges| == |e.flow.edges|
  {
    exists i :: 0 <= i < |edges| && edges[i] == Fired && e.flow.edges[i].target.node == n
  }

  /** A mapping into n found its source: an active node that holds the source port. */
  ghost predicate MappedInto(e: Engine, A: set<string>, F: Ports, n: string) {
    exists j :: 0 <= j < |e.flow.mappings| && MapsValue(e, A, F, j) && e.flow.mappings[j].target.node == n
  }

  ghost predicate MapsValue(e: Engine, A: set<string>, F: Ports, j: nat)
    requires j < |e.flow.mappings|
  {
    var m := e.flow.mappings[j];
    m.source.node != "" && m.source.node in A && PortKey(m.source.node, m.source.port) in F
  }

  lemma {:induction false} EdgeRecipients(w: Wires, src: string, sp: map<string, Value>, i: nat, n: string)
    requires i <= |w.edges| && EdgeDeliveries(w, src, sp, i).Some?
    ensures n in Recipients(EdgeDeliveries(w, src, sp, i).value) <==>
            exists j :: i <= j < |w.edges| && w.edges[j].source.node == src && Judge(w, j, sp) == Ok(Fired) && w.edges[j].target.node == n
    decreases |w.edges| - i
  {
    if i < |w.edges| {
      EdgeRecipients(w, src, sp, i + 1, n);
      if w.edges[i].source.node == src {
        RecipientsConcat(EdgeDelivery(w, i, sp).value, EdgeDeliveries(w, src, sp, i + 1).value);
        if Judge(w, i, sp) == Ok(Fired) {
          assert Recipients(EdgeDelivery(w, i, sp).value) == {w.edges[i].target.node};
        }
      }
    }
  }

  lemma {:induction false} MapRecipients(w: Wires, src: string, sp: map<string, Value>, i: nat, n: string)
    requires i <= |w.mappings| && MapDeliveries(w, src, sp, i).Some?
    ensures n in Recipients(MapDeliveries(w, src, sp, i).value) <==>
            exists j :: i <= j < |w.mappings| && w.mappings[j].source.node == src && w.mappings[j].source.port in sp && w.mappings[j].target.node == n
    decreases |w.mappings| - i
  {
    if i < |w.mappings| {
      MapRecipients(w, src, sp, i + 1, n);
      if w.mappings[i].source.node == src {
        RecipientsConcat(MapDelivery(w, i, sp).value, MapDeliveries(w, src, sp, i + 1).value);
        if w.mappings[i].source.port in sp {
          assert Recipients(MapDelivery(w, i, sp).value) == {w.mappings[i].target.node};
        }
      }
    }
  }

  ghost predicate SendsTo(w: Wires, A: set<string>, F: Ports, src: string, n: string) {
    src in A &&
    ((exists j :: 0 <= j < |w.edges| && w.edges[j].source.node == src && Judge(w, j, PortsOf(F, src)) == Ok(Fired) && w.edges[j].target.node == n) ||
     (exists j :: 0 <= j < |w.mappings| && w.mappings[j].source.node == src && w.mappings[j].source.port in PortsOf(F, src) &&
                  w.mappings[j].target.node == n))
  }

  ghost predicate PassTo(w: Wires, pass: Pass, A: set<string>, F: Ports, src: string, n: string) {
    src in A &&
    match pass
    case EdgePass =>
      exists j :: 0 <= j < |w.edges| && w.edges[j].source.node == src && Judge(w, j, PortsOf(F, src)) == Ok(Fired) && w.edges[j].target.node == n
    case MapPass =>
      exists j :: 0 <= j < |w.mappings| && w.mappings[j].source.node == src && w.mappings[j].source.port in PortsOf(F, src) &&
                  w.mappings[j].target.node == n
  }

  lemma {:induction false} PassRecipients(w: Wires, pass: Pass, A: set<string>, F: Ports, layer: seq<string>, n: string)
    requires PassSends(w, pass, A, F, layer, None).Some?
    ensures n in Recipients(PassSends(w, pass, A, F, layer, None).value) <==>
            exists src :: src in layer && PassTo(w, pass, A, F, src, n)
  {
    if layer != [] {
      var src, tail := layer[0], layer[1..];
      PassRecipients(w, pass, A, F, tail, n);
      var first := if src in A then NodeSends(w, pass, src, PortsOf(F, src)) else Some([]);
      RecipientsConcat(first.value, PassSends(w, pass, A, F, tail, None).value);
      if src in A {
        match pass
        case EdgePass => EdgeRecipients(w, src, PortsOf(F, src), 0, n);
        case MapPass => MapRecipients(w, src, PortsOf(F, src), 0, n);
      }
      assert n in Recipients(first.value) <==> PassTo(w, pass, A, F, src, n);
      assert forall x :: x in layer <==> x == src || x in tail;
    }
  }

  lemma LayerRecipients(w: Wires, A: set<string>, F: Ports, layer: seq<string>, n: string)
    requires LayerDeliveries(w, A, F, layer, None).Some?
    ensures n in Recipients(LayerDeliveries(w, A, F, layer, None).value) <==>
            exists src :: src in layer && SendsTo(w, A, F, src, n)
  {
    PassRecipients(w, EdgePass, A, F, layer, n);
    PassRecipients(w, MapPass, A, F, layer, n);
    RecipientsConcat(PassSends(w, EdgePass, A, F, layer, None).value, PassSends(w, MapPass, A, F, layer, None).value);
    forall src ensures SendsTo(w, A, F, src, n) <==> PassTo(w, EdgePass, A, F, src, n) || PassTo(w, MapPass, A, F, src, n) {}
  }

  lemma {:induction false} SendsBeforeRecipients(e: Engine, A: set<string>, F: Ports, inputs: map<string, Value>,
                                                 k: nat, n: string)
    requires k <= |e.layers| && SendsBefore(e, A, F, inputs, k).Some?
    ensures n in Recipients(SendsBefore(e, A, F, inputs, k).value) <==>
            GivenInput(e.flow, n) || exists src :: LayeredBefore(e.layers, k, src) && SendsTo(WiresOf(e), A, F, src, n)
  {
    if k == 0 {
      InputRecipients(e.flow, inputs, 0, n);
      InputMapRecipients(e.flow, inputs, 0, n);
      RecipientsConcat(InputSends(e.flow, inputs, 0).value, InputMapSends(e.flow, inputs, 0).value);
    } else {
      SendsBeforeRecipients(e, A, F, inputs, k - 1, n);
      LayerRecipients(WiresOf(e), A, F, e.layers[k - 1], n);
      RecipientsConcat(SendsBefore(e, A, F, inputs, k - 1).value,
                       LayerDeliveries(WiresOf(e), A, F, e.layers[k - 1], None).value);
      forall src ensures LayeredBefore(e.layers, k, src) <==> LayeredBefore(e.layers, k - 1, src) || src in e.layers[k - 1] {
        BeforeNext(e.layers, k - 1, src);
      }
    }
  }

  /** A node runs iff no edge and no mapping targets it, or an input names it, or an edge into it fired, or a
      mapping into it found its value. */
  lemma ActiveExactlyWhen(e: Engine, red: Option<Reducer>, seed: Option<Value>, inputs: map<string, Value>, n: string)
    requires Compiled(e) && n in Ids(e.flow)
    ensures var f := FreshRun(e, red, seed, inputs, false);
            f.Finished? ==>
              var net := f.run.net;
              (n in net.active <==>
                || (&& (forall i :: 0 <= i < |e.flow.edges| ==> e.flow.edges[i].target.node != n)
                    && (forall j :: 0 <= j < |e.flow.mappings| ==> e.flow.mappings[j].target.node != n))
                || GivenInput(e.flow, n) || FiredInto(e, net.edges, n) || MappedInto(e, net.active, net.ports, n))
  {
    var f := FreshRun(e, red, seed, inputs, false);
    var C := FinishedRunSolves(e, red, seed, inputs);
    if f.Finished? {
      FinalEdgesExplained(e, red, seed, inputs);
      SendsBeforeRecipients(e, f.run.net.active, f.run.net.ports, inputs, |e.layers|, n);
      WiresSend(e, f.run.net, n);
    }
  }

  lemma WiresSend(e: Engine, net: Net, n: string)
    requires Compiled(e) && |net.edges| == |e.flow.edges|
    requires forall i :: 0 <= i < |e.flow.edges| ==> Some(net.edges[i]) == Reason(e, net.active, net.ports, i)
    ensures (exists src :: LayeredBefore(e.layers, |e.layers|, src) && SendsTo(WiresOf(e), net.active, net.ports, src, n)) <==>
            FiredInto(e, net.edges, n) || MappedInto(e, net.active, net.ports, n)
  {
    if FiredInto(e, net.edges, n) { FiredSends(e, net, n); }
    if MappedInto(e, net.active, net.ports, n) { MappedSends(e, net, n); }
    forall src | LayeredBefore(e.layers, |e.layers|, src) && SendsTo(WiresOf(e), net.active, net.ports, src, n)
      ensures FiredInto(e, net.edges, n) || MappedInto(e, net.active, net.ports, n)
    {
      SendsFireOrMap(e, net, src, n);
    }
  }

  lemma FiredSends(e: Engine, net: Net, n: string)
    requires Compiled(e) && |net.edges| == |e.flow.edges| && FiredInto(e, net.edges, n)
    requires forall i :: 0 <= i < |e.flow.edges| ==> Some(net.edges[i]) == Reason(e, net.active, net.ports, i)
    ensures exists src :: LayeredBefore(e.layers, |e.layers|, src) && SendsTo(WiresOf(e), net.active, net.ports, src, n)
  {
    var i :| 0 <= i < |net.edges| && net.edges[i] == Fired && e.flow.edges[i].target.node == n;
    SourceLayered(e, i);
    var src := e.flow.edges[i].source.node;
    assert LayeredBefore(e.layers, |e.layers|, src) by { var k: int :| In(e.layers, k, src); }
    assert Reason(e, net.active, net.ports, i) == Some(Fired);
    assert SendsTo(WiresOf(e), net.active, net.ports, src, n);
  }

  lemma MappedSends(e: Engine, net: Net, n: string)
    requires Compiled(e) && MappedInto(e, net.active, net.ports, n)
    ensures exists src :: LayeredBefore(e.layers, |e.layers|, src) && SendsTo(WiresOf(e), net.active, net.ports, src, n)
  {
    var j :| 0 <= j < |e.flow.mappings| && MapsValue(e, net.active, net.ports, j) && e.flow.mappings[j].target.node == n;
    var src := e.flow.mappings[j].source.node;
    assert MappingOk(e.flow, e.flow.mappings[j]);
    assert LayeredBefore(e.layers, |e.layers|, src) by { var k: int :| In(e.layers, k, src); }
    assert SendsTo(WiresOf(e), net.active, net.ports, src, n);
  }

  lemma SendsFireOrMap(e: Engine, net: Net, src: string, n: string)
    requires Compiled(e) && |net.edges| == |e.flow.edges| && LayeredBefore(e.layers, |e.layers|, src)
    requires forall i :: 0 <= i < |e.flow.edges| ==> Some(net.edges[i]) == Reason(e, net.active, net.ports, i)
    requires SendsTo(WiresOf(e), net.active, net.ports, src, n)
    ensures FiredInto(e, net.edges, n) || MappedInto(e, net.active, net.ports, n)
  {
    var w := WiresOf(e);
    if j :| 0 <= j < |w.edges| && w.edges[j].source.node == src && Judge(w, j, PortsOf(net.ports, src)) == Ok(Fired) && w.edges[j].target.node == n {
      assert Reason(e, net.active, net.ports, j) == Some(Fired);
    } else {
      var j :| 0 <= j < |w.mappings| && w.mappings[j].source.node == src && w.mappings[j].source.port in PortsOf(net.ports, src)
          && w.mappings[j].target.node == n;
      LayeredIsNamed(e, src);
      assert MapsValue(e, net.active, net.ports, j);
    }
  }

  lemma LayeredIsNamed(e: Engine, n: string)
    requires Compiled(e) && LayeredBefore(e.layers, |e.layers|, n)
    ensures n != ""
  {
    BeforeIsLayered(e.layers, |e.layers|, n);
    var a: nat :| a < |Ids(e.flow)| && Ids(e.flow)[a] == n;
    assert NodeOk(e.flow, a);
  }

  // ---------------------------------------------------------------- the result map

  /** The i-th declared output is of an active node and reported under the key: its name or, without one, node and
      port. */
  ghost predicate Declared(f: Flow, net: Net, i: int, key: string) {
    && 0 <= i < |f.outputs| && f.outputs[i].node in net.active
    && key == if f.outputs[i].name != "" then f.outputs[i].name else f.outputs[i].node + "." + f.outputs[i].port
  }

  /** It is the last one under that key, and v is what its port holds. */
  ghost predicate Provides(f: Flow, net: Net, i: int, key: string, v: Value) {
    && Declared(f, net, i, key)
    && PortKey(f.outputs[i].node, f.outputs[i].port) in net.ports
    && v == net.ports[PortKey(f.outputs[i].node, f.outputs[i].port)]
    && forall j :: i < j ==> !Declared(f, net, j, key)
  }

  lemma {:induction false} OutputsGather(f: Flow, net: Net, i: nat, sofar: map<string, Value>)
    requires i <= |f.outputs|
    ensures var r := OutputsFrom(f, net, i, sofar);
            && (r.Err? <==> exists j :: i <= j < |f.outputs| && f.outputs[j].node in net.active &&
                                           PortKey(f.outputs[j].node, f.outputs[j].port) !in net.ports)
            && (r.Ok? ==> forall key :: key in r.value <==> key in sofar || exists j :: i <= j && Declared(f, net, j, key))
            && (r.Ok? ==> forall key :: key in r.value ==>
                  || (key in sofar && r.value[key] == sofar[key] && forall j :: i <= j ==> !Declared(f, net, j, key))
                  || exists j :: i <= j && Provides(f, net, j, key, r.value[key]))
    decreases |f.outputs| - i
  {
    if i < |f.outputs| {
      var ref := f.outputs[i];
      if ref.node !in net.active {
        OutputsGather(f, net, i + 1, sofar);
      } else if PortKey(ref.node, ref.port) in net.ports {
        var key, v := OutputKey(ref), net.ports[PortKey(ref.node, ref.port)];
        assert Declared(f, net, i, key);
        OutputsGather(f, net, i + 1, sofar[key := v]);
        var r := OutputsFrom(f, net, i, sofar);
        if r.Ok? && (forall j :: i + 1 <= j ==> !Declared(f, net, j, key)) { assert Provides(f, net, i, key, v); }
      }
    }
  }

  /** The result map holds exactly the declared outputs of active nodes, under the output's name or, without one, its
      node and port; under a key declared more than once the last one. Collecting fails exactly when an active node
      never filled a declared port. */
  lemma OutputsAreDeclared(f: Flow, net: Net)
    ensures Outputs(f, net).Err? <==>
            exists j :: 0 <= j < |f.outputs| && f.outputs[j].node in net.active && PortKey(f.outputs[j].node, f.outputs[j].port) !in net.ports
    ensures Outputs(f, net).Ok? ==>
            forall key :: key in Outputs(f, net).value <==> exists j :: Declared(f, net, j, key)
    ensures Outputs(f, net).Ok? ==> forall key :: key in Outputs(f, net).value ==>
              exists j :: Provides(f, net, j, key, Outputs(f, net).value[key])
  {
    OutputsGather(f, net, 0, map[]);
  }

  /** So outputs under different keys are all reported, each with its own port's value. */
  lemma DistinctOutputs(f: Flow, net: Net, i: nat, key: string)
    requires Outputs(f, net).Ok? && Declared(f, net, i, key)
    requires forall j :: Declared(f, net, j, key) ==> j == i
    ensures key in Outputs(f, net).value
    ensures Some(Outputs(f, net).value[key]) == Lookup(net.ports, PortKey(f.outputs[i].node, f.outputs[i].port))
  {
    OutputsAreDeclared(f, net);
    var j :| Provides(f, net, j, key, Outputs(f, net).value[key]);
  }
}
