/** One layer: suspended at p and resumed with the human's answer, against run straight through with the
    answer as p's outputs. */
module LateFiring {
  import opened Prelude
  import opened FlowIr
  import opened Paths
  import opened Wiring
  import opened Firing
  import opened LayeredEngine
  import opened Resume
  import opened Held

  ghost function LateState(w: Wires, edges: seq<EdgeState>, p: string, sp: map<string, Value>, i: nat,
                           j: nat): EdgeState
    requires j < |edges| == |w.edges|
  {
    if j >= i && w.edges[j].source.node == p && w.edges[j].source.port in sp then
      match Judge(w, j, sp) case Ok(s) => s case Err(_) => edges[j]
    else edges[j]
  }

  ghost function LateStates(w: Wires, edges: seq<EdgeState>, p: string, sp: map<string, Value>,
                            i: nat): (r: seq<EdgeState>)
    requires |edges| == |w.edges|
    ensures |r| == |edges|
    ensures forall j :: 0 <= j < |r| ==> r[j] == LateState(w, edges, p, sp, i, j)
  {
    seq(|edges|, j requires 0 <= j < |edges| => LateState(w, edges, p, sp, i, j))
  }

  /** The deferred edges, from i on, are p's and ones a human left without a value. */
  ghost predicate OnlyStaleBesides(w: Wires, net: Net, p: string, i: nat, frozen: set<string>)
    requires |net.edges| == |w.edges|
  {
    && (forall j :: i <= j < |w.edges| && w.edges[j].source.node == p ==> net.edges[j] == Deferred)
    && (forall j :: i <= j < |w.edges| && net.edges[j] == Deferred && w.edges[j].source.node != p ==>
          w.edges[j].source.node in frozen && PortKey(w.edges[j].source.node, w.edges[j].source.port) !in net.ports)
  }

  ghost predicate SendsOutside(w: Wires, p: string, frozen: set<string>) {
    && (forall j :: 0 <= j < |w.edges| && w.edges[j].source.node == p ==> w.edges[j].target.node !in frozen)
    && (forall j :: 0 <= j < |w.mappings| && w.mappings[j].source.node == p ==> w.mappings[j].target.node !in frozen)
  }

  /** The deferred pass of a resume makes exactly p's edge deliveries. */
  lemma {:induction false} DeferredDelivers(w: Wires, net: Net, p: string, sp: map<string, Value>, i: nat,
                                            frozen: set<string>)
    requires |net.edges| == |w.edges| && i <= |w.edges| && sp == PortsOf(net.ports, p) && p in frozen
    requires SendsOutside(w, p, frozen) && OnlyStaleBesides(w, net, p, i, frozen)
    ensures Reached(DeferredFrom(w, net, i), net, EdgeDeliveries(w, p, sp, i), LateStates(w, net.edges, p, sp, i))
    decreases |w.edges| - i
  {
    if i == |w.edges| {
      assert LateStates(w, net.edges, p, sp, i) == net.edges;
      assert net.active + Recipients([]) == net.active;
    } else if w.edges[i].source.node != p {
      DeferredDelivers(w, net, p, sp, i + 1, frozen);
      assert LateStates(w, net.edges, p, sp, i) == LateStates(w, net.edges, p, sp, i + 1);
    } else if w.edges[i].source.port !in sp {
      DeferredDelivers(w, net, p, sp, i + 1, frozen);
      assert LateStates(w, net.edges, p, sp, i) == LateStates(w, net.edges, p, sp, i + 1);
      var rest := EdgeDeliveries(w, p, sp, i + 1);
      if rest.Some? { assert [] + rest.value == rest.value; }
    } else {
      match Judge(w, i, sp)
      case Err(_) =>
      case Ok(s) =>
        var next := Settle(w, net, i, sp, s);
        StaleSettles(w, net, p, sp, i, frozen, s);
        DeferredDelivers(w, next, p, sp, i + 1, frozen);
        var rest := EdgeDeliveries(w, p, sp, i + 1);
        hide OnlyStaleBesides, SendsOutside, PortsOf, LateStates;
        if s.Fired? {
          EdgeFires(w, net, i, sp, next, rest, DeferredFrom(w, next, i + 1), LateStates(w, net.edges, p, sp, i));
        } else {
          assert next == net.(edges := next.edges);
          if rest.Some? { assert [] + rest.value == rest.value; }
        }
    }
  }

  /** Firing one of p's deferred edges leaves the others as they were. */
  lemma StaleSettles(w: Wires, net: Net, p: string, sp: map<string, Value>, i: nat, frozen: set<string>, s: EdgeState)
    requires |net.edges| == |w.edges| && i < |w.edges| && sp == PortsOf(net.ports, p) && p in frozen
    requires w.edges[i].source.node == p
    requires SendsOutside(w, p, frozen) && OnlyStaleBesides(w, net, p, i, frozen) && w.edges[i].source.port in sp
    requires Judge(w, i, sp) == Ok(s)
    ensures var next := Settle(w, net, i, sp, s);
            && OnlyStaleBesides(w, next, p, i + 1, frozen) && PortsOf(next.ports, p) == sp
            && LateStates(w, net.edges, p, sp, i) == LateStates(w, next.edges, p, sp, i + 1)
  {
    var next := Settle(w, net, i, sp, s);
    assert PortsOf(next.ports, p) == sp;
    assert LateStates(w, net.edges, p, sp, i) == LateStates(w, next.edges, p, sp, i + 1);
  }

  lemma EdgeFires(w: Wires, net: Net, i: nat, sp: map<string, Value>, next: Net, rest: Option<seq<Delivery>>,
                  r: Result<Net, FireError>, edges: seq<EdgeState>)
    requires i < |w.edges| == |net.edges| && Judge(w, i, sp) == Ok(Fired)
    requires next == Settle(w, net, i, sp, Fired) && Reached(r, next, rest, edges)
    ensures Reached(r, net, Both(EdgeDelivery(w, i, sp), rest), edges)
  {
    var d := Delivery(Key(w.edges[i].target), [], sp[w.edges[i].source.port]);
    assert Put(Lookup(net.ports, d.to), [], d.value) == Ok(d.value);
    assert [d][1..] == [];
    assert Apply(net.ports, [d]) == Some(next.ports);
    assert Recipients([d]) == {d.to.node};
    ReachedThen(net, [d], next, rest, r, edges);
  }

  /** Replaying p's mappings one by one is firing them as a source. */
  lemma {:induction false} ReplayIsFiring(w: Wires, net: Net, p: string, j: nat)
    requires j <= |w.mappings|
    requires forall i :: 0 <= i < |w.mappings| && w.mappings[i].source.node == p ==> w.mappings[i].target.node != p
    ensures ReplayFrom(w, net, p, j) == MapsFrom(w, net, p, PortsOf(net.ports, p), j)
    decreases |w.mappings| - j
  {
    if j < |w.mappings| {
      if w.mappings[j].source.node != p {
        ReplayIsFiring(w, net, p, j + 1);
      } else {
        match MapStep(w, net, j, PortsOf(net.ports, p))
        case Err(_) =>
        case Ok(n) =>
          assert PortsOf(n.ports, p) == PortsOf(net.ports, p);
          ReplayIsFiring(w, n, p, j + 1);
      }
    }
  }

  lemma NotToSelf(w: Wires, p: string, sp: map<string, Value>, frozen: set<string>)
    requires SendsOutside(w, p, frozen) && p in frozen
    ensures var ed := EdgeDeliveries(w, p, sp, 0); ed.Some? ==> p !in Recipients(ed.value)
  {
    EdgeDeliveriesSent(w, p, sp, 0);
    var ed := EdgeDeliveries(w, p, sp, 0);
    if ed.Some? {
      forall d | d in ed.value ensures d.to.node != p { assert SendsByEdge(w, p, d.to); }
    }
  }

  /** Resuming a held layer fires exactly p's own deliveries. */
  lemma ResumeDelivers(w: Wires, net: Net, p: string, human: map<string, Value>, frozen: set<string>)
    requires |net.edges| == |w.edges| && p in frozen && p in net.active
    requires SendsOutside(w, p, frozen) && OnlyStaleBesides(w, Inject(net, p, human), p, 0, frozen)
    ensures var ports := WriteAll(net.ports, p, human);
            Reached(ResumeNet(w, net, p, human), Inject(net, p, human), Own(w, ports, p),
                    LateStates(w, net.edges, p, PortsOf(ports, p), 0))
  {
    hide EdgeDeliveries, MapDeliveries, OnlyStaleBesides, DeferredFrom, ReplayFrom, MapsFrom, Recipients, Judge;
    hide WriteAll, PortsOf, Apply;
    var start := Inject(net, p, human);
    var sp := PortsOf(start.ports, p);
    DeferredDelivers(w, start, p, sp, 0, frozen);
    var ed, md := EdgeDeliveries(w, p, sp, 0), MapDeliveries(w, p, sp, 0);
    var edges := LateStates(w, net.edges, p, sp, 0);
    match DeferredFrom(w, start, 0)
    case Err(_) =>
      FailedFirst(start, ed, md, ResumeNet(w, net, p, human), edges);
    case Ok(mid) =>
      NotToSelf(w, p, sp, frozen);
      ApplyFrame(start.ports, ed.value, p);
      ReplayIsFiring(w, mid, p, 0);
      MapsFromDelivers(w, mid, p, sp, 0);
      ReachedThen(start, ed.value, mid, md, MapsFrom(w, mid, p, sp, 0), edges);
  }

  /** Edge states of the two runs agree, except that an edge the human left without a value stays deferred
      where the straight run finds no port. */
  ghost predicate EdgesMatch(legs: seq<EdgeState>, straight: seq<EdgeState>) {
    |legs| == |straight| &&
    forall i :: 0 <= i < |legs| ==> legs[i] == straight[i] || (legs[i] == Deferred && straight[i] == DeadNoPort)
  }

  lemma StatesMatch(w: Wires, active: set<string>, ports: Ports, layer: seq<string>, p: string,
                    human: map<string, Value>,
                    legs: seq<EdgeState>, straight: seq<EdgeState>)
    requires |legs| == |w.edges| && p in layer && p in active && EdgesMatch(legs, straight)
    requires PendingOn(w, straight, layer)
    requires LayerDeliveries(w, active, WriteAll(ports, p, human), layer, None).Some?
    requires Own(w, WriteAll(ports, p, human), p).Some?
    ensures var late := WriteAll(ports, p, human);
            EdgesMatch(LateStates(w, StatesAfter(w, active, ports, legs, layer, Some(p)), p, PortsOf(late, p), 0),
                       StatesAfter(w, active, late, straight, layer, None))
  {
    var late := WriteAll(ports, p, human);
    var sp := PortsOf(late, p);
    var mid := StatesAfter(w, active, ports, legs, layer, Some(p));
    forall i | 0 <= i < |legs|
      ensures var a, b := LateState(w, mid, p, sp, 0, i), StateAfter(w, active, late, layer, None, i, straight[i]);
              a == b || (a == Deferred && b == DeadNoPort)
    {
      var src := w.edges[i].source.node;
      if src in layer && src != p {
        WriteElsewhere(ports, p, human, src);
        assert straight[i] == Pending;
      } else if src == p {
        JudgedOk(w, p, sp, 0, i);
      }
    }
  }

  /** When the deliveries exist, none of p's edges stops the run. */
  lemma {:induction false} JudgedOk(w: Wires, p: string, sp: map<string, Value>, i: nat, j: nat)
    requires i <= j < |w.edges| && w.edges[j].source.node == p && EdgeDeliveries(w, p, sp, i).Some?
    ensures Judge(w, j, sp).Ok?
    decreases j - i
  {
    if i < j { JudgedOk(w, p, sp, i + 1, j); }
  }

  lemma RecipientsAdd(active: set<string>, p: string, a: Option<seq<Delivery>>, b: Option<seq<Delivery>>,
                      all: seq<Delivery>)
    requires a.Some? && b.Some? && p in active
    requires Recipients(all) == Recipients(Both(a, b).value)
    ensures active + Recipients(all) == (active + Recipients(a.value)) + {p} + Recipients(b.value)
  {
    RecipientsConcat(a.value, b.value);
  }

  lemma Shorten(ports: Ports, a: Option<seq<Delivery>>, b: Option<seq<Delivery>>, all: Option<seq<Delivery>>)
    requires all.Some? <==> Both(a, b).Some?
    requires all.Some? ==> Equiv(all.value, Both(a, b).value)
    ensures all.Some? ==>
            Apply(ports, all.value) == match Apply(ports, a.value) case None => None case Some(q) => Apply(q, b.value)
  {
    if all.Some? {
      ApplyConcat(ports, a.value, b.value);
    }
  }

  /** The heart of resumption. Firing the siblings, then injecting the human's answer and firing p, fails
      exactly when firing the whole layer with the answer as p's outputs fails, and otherwise gives the
      same activation, the same ports and matching edge states. */
  lemma HeldThenResumed(w: Wires, net: Net, straight: seq<EdgeState>, layer: seq<string>, p: string,
                        human: map<string, Value>, frozen: set<string>)
    requires Ahead(w, layer) && Distinct(layer) && p in layer && p in net.active
    requires Splits(w, net.active, WriteAll(net.ports, p, human), layer, p)
    requires PendingOn(w, net.edges, layer) && PendingOn(w, straight, layer) && EdgesMatch(net.edges, straight)
    requires SendsOutside(w, p, frozen) && (forall n :: n in layer ==> n in frozen)
    requires LayerSendsOutside(w, layer, frozen)
    requires forall j :: 0 <= j < |w.edges| && net.edges[j] == Deferred ==>
               w.edges[j].source.node in frozen && w.edges[j].source.node !in layer &&
               PortKey(w.edges[j].source.node, w.edges[j].source.port) !in net.ports
    ensures var held := FireLayer(w, net, layer, Some(p));
            var whole := FireLayer(w, Net(net.active, WriteAll(net.ports, p, human), straight), layer, None);
            && (held.Err? ==> whole.Err?)
            && (held.Ok? ==>
                  var late := ResumeNet(w, held.value, p, human);
                  && (late.Err? <==> whole.Err?)
                  && (late.Ok? ==> late.value.active == whole.value.active && late.value.ports == whole.value.ports
                                   && EdgesMatch(late.value.edges, whole.value.edges)))
  {
    hide *;
    var ports := WriteAll(net.ports, p, human);
    var start := Net(net.active, ports, straight);
    PendingLength(w, net.edges, layer);
    PendingLength(w, straight, layer);
    FireLayerDelivers(w, net, layer, Some(p));
    FireLayerDelivers(w, start, layer, None);
    HeldIgnores(w, net.active, net.ports, human, layer, p);
    var siblings := LayerDeliveries(w, net.active, net.ports, layer, Some(p));
    var own, all := Own(w, ports, p), LayerDeliveries(w, net.active, ports, layer, None);
    SplitsMeans(w, net.active, ports, layer, p);
    Shorten(ports, siblings, own, all);
    FrozenUntouched(w, net.active, net.ports, layer, Some(p), frozen);
    BothMeans(siblings, own);
    if siblings.Some? { WriteThenApply(net.ports, p, human, siblings.value); }
    var held := FireLayer(w, net, layer, Some(p));
    var edges := StatesAfter(w, net.active, net.ports, net.edges, layer, Some(p));
    var final := StatesAfter(w, net.active, ports, straight, layer, None);
    ReachedMeans(held, net, siblings, edges);
    ReachedMeans(FireLayer(w, start, layer, None), start, all, final);
    if held.Ok? {
      var mid := held.value;
      StaleStays(w, net, mid, siblings.value, edges, layer, p, human, frozen);
      ResumeDelivers(w, mid, p, human, frozen);
      InjectIs(mid, p, human);
      ReachedMeans(ResumeNet(w, mid, p, human), Inject(mid, p, human), Own(w, WriteAll(mid.ports, p, human), p),
                   LateStates(w, edges, p, PortsOf(WriteAll(mid.ports, p, human), p), 0));
      SamePortsLater(net.ports, siblings.value, p, human);
      OwnDepends(w, ports, WriteAll(mid.ports, p, human), p);
      if all.Some? {
        StatesMatch(w, net.active, net.ports, layer, p, human, net.edges, straight);
        RecipientsAdd(net.active, p, siblings, own, all.value);
      }
    }
  }

  lemma SplitsMeans(w: Wires, active: set<string>, ports: Ports, layer: seq<string>, p: string)
    requires Splits(w, active, ports, layer, p)
    ensures var all := LayerDeliveries(w, active, ports, layer, None);
            var late := Both(LayerDeliveries(w, active, ports, layer, Some(p)), Own(w, ports, p));
            (all.Some? <==> late.Some?) && (all.Some? ==> Equiv(all.value, late.value) && Recipients(all.value) == Recipients(late.value))
  {
  }

  ghost predicate LayerSendsOutside(w: Wires, layer: seq<string>, frozen: set<string>) {
    forall n :: n in layer ==> SendsOutside(w, n, frozen)
  }

  lemma HeldIgnores(w: Wires, active: set<string>, ports: Ports, human: map<string, Value>, layer: seq<string>,
                    p: string)
    ensures LayerDeliveries(w, active, WriteAll(ports, p, human), layer,
                            Some(p)) == LayerDeliveries(w, active, ports, layer, Some(p))
  {
    HeldPassIgnores(w, EdgePass, active, ports, human, layer, p);
    HeldPassIgnores(w, MapPass, active, ports, human, layer, p);
  }

  lemma ReachedMeans(r: Result<Net, FireError>, net: Net, ds: Option<seq<Delivery>>, edges: seq<EdgeState>)
    requires Reached(r, net, ds, edges)
    ensures r.Err? <==> ds.None? || Apply(net.ports, ds.value).None?
    ensures r.Ok? ==> r.value == Net(net.active + Recipients(ds.value), Apply(net.ports, ds.value).value, edges)
  {
  }

  lemma PendingLength(w: Wires, edges: seq<EdgeState>, layer: seq<string>)
    requires PendingOn(w, edges, layer)
    ensures |edges| == |w.edges|
  {
  }

  lemma BothMeans(a: Option<seq<Delivery>>, b: Option<seq<Delivery>>)
    ensures Both(a, b).Some? <==> a.Some? && b.Some?
  {
  }

  lemma InjectIs(net: Net, p: string, human: map<string, Value>)
    ensures Inject(net, p, human) == Net(net.active + {p}, WriteAll(net.ports, p, human), net.edges)
  {
  }

  lemma SamePortsLater(ports: Ports, ds: seq<Delivery>, p: string, human: map<string, Value>)
    requires p !in Recipients(ds) && Apply(ports, ds).Some?
    ensures PortsOf(WriteAll(Apply(ports, ds).value, p, human), p) == PortsOf(WriteAll(ports, p, human), p)
  {
    ApplyFrame(ports, ds, p);
    WriteOwn(Apply(ports, ds).value, p, human);
    WriteOwn(ports, p, human);
  }

  lemma WriteOwn(ports: Ports, p: string, human: map<string, Value>)
    ensures PortsOf(WriteAll(ports, p, human), p) == PortsOf(ports, p) + human
  {
  }

  lemma OwnDepends(w: Wires, a: Ports, b: Ports, p: string)
    requires PortsOf(a, p) == PortsOf(b, p)
    ensures Own(w, a, p) == Own(w, b, p)
  {
  }

  /** Firing the siblings leaves p's edges deferred and older stale edges stale. */
  lemma StaleStays(w: Wires, net: Net, mid: Net, ds: seq<Delivery>, edges: seq<EdgeState>, layer: seq<string>,
                   p: string,
                   human: map<string, Value>, frozen: set<string>)
    requires |net.edges| == |w.edges| && p in layer && p in net.active
    requires edges == StatesAfter(w, net.active, net.ports, net.edges, layer, Some(p))
    requires mid == Net(net.active + Recipients(ds), mid.ports, edges) && Apply(net.ports, ds) == Some(mid.ports)
    requires LayerDeliveries(w, net.active, net.ports, layer, Some(p)) == Some(ds)
    requires LayerSendsOutside(w, layer, frozen)
    requires forall n :: n in layer ==> n in frozen
    requires PendingOn(w, net.edges, layer)
    requires forall j :: 0 <= j < |w.edges| && net.edges[j] == Deferred ==>
               w.edges[j].source.node in frozen && w.edges[j].source.node !in layer &&
               PortKey(w.edges[j].source.node, w.edges[j].source.port) !in net.ports
    ensures |mid.edges| == |w.edges| && p in mid.active && p in frozen
    ensures OnlyStaleBesides(w, Inject(mid, p, human), p, 0, frozen)
  {
    FrozenUntouched(w, net.active, net.ports, layer, Some(p), frozen);
    forall j | 0 <= j < |w.edges| && edges[j] == Deferred && w.edges[j].source.node != p
      ensures w.edges[j].source.node in frozen
      ensures PortKey(w.edges[j].source.node, w.edges[j].source.port) !in Inject(mid, p, human).ports
    {
      var n := w.edges[j].source.node;
      assert n !in layer && net.edges[j] == Deferred;
      ApplyFrame(net.ports, ds, n);
      assert w.edges[j].source.port !in PortsOf(net.ports, n);
    }
  }

  lemma FrozenUntouched(w: Wires, active: set<string>, ports: Ports, layer: seq<string>, held: Option<string>,
                        frozen: set<string>)
    requires LayerSendsOutside(w, layer, frozen)
    ensures var ds := LayerDeliveries(w, active, ports, layer, held);
            ds.Some? ==> forall n :: n in frozen ==> n !in Recipients(ds.value)
  {
    PassMissesFrozen(w, EdgePass, active, ports, layer, held, frozen);
    PassMissesFrozen(w, MapPass, active, ports, layer, held, frozen);
    var e, m := PassSends(w, EdgePass, active, ports, layer, held), PassSends(w, MapPass, active, ports, layer, held);
    if e.Some? && m.Some? { RecipientsConcat(e.value, m.value); }
  }

  lemma {:induction false} PassMissesFrozen(w: Wires, pass: Pass, active: set<string>, ports: Ports, layer: seq<string>,
      held: Option<string>, frozen: set<string>)
    requires LayerSendsOutside(w, layer, frozen)
    ensures var ds := PassSends(w, pass, active, ports, layer, held);
            ds.Some? ==> forall n :: n in frozen ==> n !in Recipients(ds.value)
  {
    if layer != [] {
      var n, tail := layer[0], layer[1..];
      assert n in layer && forall x :: x in tail ==> x in layer;
      PassMissesFrozen(w, pass, active, ports, tail, held, frozen);
      NodeSendsSent(w, pass, n, PortsOf(ports, n));
      var first := if Feeds(active, held, n) then NodeSends(w, pass, n, PortsOf(ports, n)) else Some([]);
      var others := PassSends(w, pass, active, ports, tail, held);
      if first.Some? && others.Some? {
        forall d | d in first.value ensures d.to.node !in frozen { assert Sends(w, n, d.to); }
        RecipientsConcat(first.value, others.value);
      }
    }
  }
}
