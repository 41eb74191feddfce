/** When the order a layer's nodes are listed in does not matter: exactly when no two of them write comparable
    places in the same pass of the firing stage. */
module Listing {
  import opened Prelude
  import opened FlowIr
  import opened Wiring
  import opened Firing
  import opened LayeredEngine
  import opened Held
  import opened TwoWires
  import Cycles

  ghost predicate SameMembers(a: seq<string>, b: seq<string>) {
    forall n :: n in a <==> n in b
  }

  /** In neither pass do two nodes of the layer write comparable places of one port. */
  ghost predicate Orderless(w: Wires, layer: seq<string>) {
    forall p, q :: p in layer && q in layer && p != q ==> !Clash(w, EdgePass, p, EdgePass, q) && !Clash(w, MapPass, p, MapPass, q)
  }

  // ---------------------------------------------------------------- without a clash

  /** What node n sends in the pass. */
  ghost function Turn(w: Wires, pass: Pass, A: set<string>, F: Ports, held: Option<string>,
                      n: string): Option<seq<Delivery>> {
    if Feeds(A, held, n) then NodeSends(w, pass, n, PortsOf(F, n)) else Some([])
  }

  /** The pass over a list, split around one node. */
  lemma PassSplit(w: Wires, pass: Pass, A: set<string>, F: Ports, b: seq<string>, i: nat, held: Option<string>)
    requires i < |b|
    ensures var x, y := PassSends(w, pass, A, F, b[..i], held), PassSends(w, pass, A, F, b[i + 1..], held);
            && PassSends(w, pass, A, F, b, held) == Both(x, Both(Turn(w, pass, A, F, held, b[i]), y))
            && PassSends(w, pass, A, F, b[..i] + b[i + 1..], held) == Both(x, y)
  {
    assert b == b[..i] + ([b[i]] + b[i + 1..]) && ([b[i]] + b[i + 1..])[1..] == b[i + 1..];
    PassConcat(w, pass, A, F, b[..i], [b[i]] + b[i + 1..], held);
    PassConcat(w, pass, A, F, b[..i], b[i + 1..], held);
  }

  lemma EquivConcat(a: seq<Delivery>, b: seq<Delivery>, c: seq<Delivery>, d: seq<Delivery>)
    requires Equiv(a, c) && Equiv(b, d)
    ensures Equiv(a + b, c + d)
  {
    forall ports: Ports ensures Apply(ports, a + b) == Apply(ports, c + d) {
      ApplyConcat(ports, a, b);
      ApplyConcat(ports, c, d);
    }
  }

  /** The same writes to every port, to the same nodes. */
  ghost predicate Alike(x: Option<seq<Delivery>>, y: Option<seq<Delivery>>) {
    && (x.Some? <==> y.Some?)
    && (x.Some? ==> Equiv(x.value, y.value) && Recipients(x.value) == Recipients(y.value))
  }

  lemma AlikeBoth(a: Option<seq<Delivery>>, b: Option<seq<Delivery>>, c: Option<seq<Delivery>>,
                  d: Option<seq<Delivery>>)
    requires Alike(a, c) && Alike(b, d)
    ensures Alike(Both(a, b), Both(c, d))
  {
    hide Equiv, Recipients;
    if Both(a, b).Some? {
      EquivConcat(a.value, b.value, c.value, d.value);
      RecipientsConcat(a.value, b.value);
      RecipientsConcat(c.value, d.value);
    }
  }

  /** A block moves to the front of the list past what it does not clash with. */
  lemma ToFront(x: Option<seq<Delivery>>, n: Option<seq<Delivery>>, y: Option<seq<Delivery>>)
    requires x.Some? && n.Some? ==> Apart(n.value, x.value)
    ensures Alike(Both(n, Both(x, y)), Both(x, Both(n, y)))
  {
    hide Equiv, Apart;
    if x.Some? && n.Some? && y.Some? {
      var xs, ns, ys := x.value, n.value, y.value;
      SwapWithin([], ns, xs, ys);
      assert [] + xs + ns + ys == xs + (ns + ys) && [] + ns + xs + ys == ns + (xs + ys);
      forall d ensures d in ns + (xs + ys) <==> d in xs + (ns + ys) {}
    }
  }

  lemma TurnWrites(w: Wires, pass: Pass, A: set<string>, F: Ports, held: Option<string>, n: string)
    ensures var ds := Turn(w, pass, A, F, held, n);
            ds.Some? ==> forall d :: d in ds.value ==> WritesAt(w, pass, n, d.to, d.path)
  {
    NodeWrites(w, pass, n, PortsOf(F, n));
  }

  lemma {:induction false} PassPermutes(w: Wires, pass: Pass, A: set<string>, F: Ports, a: seq<string>, b: seq<string>,
                                        held: Option<string>)
    requires Distinct(a) && Distinct(b) && SameMembers(a, b)
    requires forall p, q :: p in a && q in a && p != q ==> !Clash(w, pass, p, pass, q)
    ensures Alike(PassSends(w, pass, A, F, a, held), PassSends(w, pass, A, F, b, held))
    decreases |a|
  {
    hide Alike, Clash, NodeSends, Apart, PassSends, Turn, Both;
    if a == [] {
      Someone(b);
      AlikeSelf(PassSends(w, pass, A, F, a, held));
    } else {
      var n, tail := a[0], a[1..];
      assert n in a && a == [n] + tail && n !in tail;
      var i :| 0 <= i < |b| && b[i] == n;
      var rest := b[..i] + b[i + 1..];
      Without(b, i);
      assert Distinct(tail) && forall m :: m in tail <==> m in a && m != n;
      PassPermutes(w, pass, A, F, tail, rest, held);
      PassSplit(w, pass, A, F, a, 0, held);
      PassSplit(w, pass, A, F, b, i, held);
      var own, x := Turn(w, pass, A, F, held, n), PassSends(w, pass, A, F, b[..i], held);
      var y := PassSends(w, pass, A, F, b[i + 1..], held);
      assert a[..0] == [] && PassSends(w, pass, A, F, a[..0], held) == Some([]) by { NoPass(w, pass, A, F, held); }
      assert a[..0] + a[1..] == tail;
      BothNothing(Both(own, PassSends(w, pass, A, F, tail, held)));
      AlikeSelf(own);
      AlikeBoth(own, PassSends(w, pass, A, F, tail, held), own, Both(x, y));
      if own.Some? && x.Some? {
        TurnWrites(w, pass, A, F, held, n);
        PassWrites(w, pass, A, F, b[..i], held);
        assert forall q :: q in b[..i] ==> q in b && q != n;
        NoClashIsApart(w, pass, n, own.value, pass, b[..i], x.value);
      }
      ToFront(x, own, y);
      AlikeChain(PassSends(w, pass, A, F, a, held), Both(own, Both(x, y)), PassSends(w, pass, A, F, b, held));
    }
  }

  lemma Someone(b: seq<string>)
    ensures b == [] || exists n :: n in b
  {
    if b != [] { assert b[0] in b; }
  }

  lemma NoPass(w: Wires, pass: Pass, A: set<string>, F: Ports, held: Option<string>)
    ensures PassSends(w, pass, A, F, [], held) == Some([])
  {
  }

  lemma AlikeSelf(x: Option<seq<Delivery>>)
    ensures Alike(x, x)
  {
  }

  lemma AlikeChain(a: Option<seq<Delivery>>, b: Option<seq<Delivery>>, c: Option<seq<Delivery>>)
    requires Alike(a, b) && Alike(b, c)
    ensures Alike(a, c)
  {
  }

  lemma Without(b: seq<string>, i: nat)
    requires Distinct(b) && i < |b|
    ensures Distinct(b[..i] + b[i + 1..]) && forall n :: n in b[..i] + b[i + 1..] <==> n in b && n != b[i]
    ensures forall n :: n in b[..i] ==> n != b[i]
  {
    assert b == b[..i] + [b[i]] + b[i + 1..];
  }

  /** Two firings that fail together or leave the same state. */
  ghost predicate FireAlike(x: Result<Net, FireError>, y: Result<Net, FireError>) {
    (x.Err? <==> y.Err?) && (x.Ok? ==> x == y)
  }

  /** Firing does not depend on the order inside the layer. */
  lemma FiringPermutes(w: Wires, net: Net, a: seq<string>, b: seq<string>, held: Option<string>)
    requires Orderless(w, a) && SameMembers(a, b) && Distinct(a) && Distinct(b)
    requires Ahead(w, a) && PendingOn(w, net.edges, a)
    ensures FireAlike(FireLayer(w, net, a, held), FireLayer(w, net, b, held))
  {
    hide Clash, FireLayer, PassSends, Equiv, Recipients, Apply;
    FireLayerDelivers(w, net, a, held);
    FireLayerDelivers(w, net, b, held);
    PassPermutes(w, EdgePass, net.active, net.ports, a, b, held);
    PassPermutes(w, MapPass, net.active, net.ports, a, b, held);
    var x, y := LayerDeliveries(w, net.active, net.ports, a, held), LayerDeliveries(w, net.active, net.ports, b, held);
    AlikeBoth(PassSends(w, EdgePass, net.active, net.ports, a, held),
              PassSends(w, MapPass, net.active, net.ports, a, held),
              PassSends(w, EdgePass, net.active, net.ports, b, held), PassSends(w, MapPass, net.active, net.ports, b, held));
    AlikeApplies(net.ports, x, y);
    assert StatesAfter(w, net.active, net.ports, net.edges, a, held) == StatesAfter(w, net.active, net.ports, net.edges, b, held);
  }

  lemma AlikeApplies(ports: Ports, x: Option<seq<Delivery>>, y: Option<seq<Delivery>>)
    requires Alike(x, y)
    ensures x.Some? <==> y.Some?
    ensures x.Some? ==> Apply(ports, x.value) == Apply(ports, y.value) && Recipients(x.value) == Recipients(y.value)
  {
  }

  // ---------------------------------------------------------------- the exact condition

  /** For every state, every set of conditions and whichever node is held back, the layer fires alike however its
      nodes are listed. */
  ghost predicate Unordered(edges: seq<Edge>, mappings: seq<Mapping>, layer: seq<string>) {
    forall cond, net: Net, held, b ::
      PendingOn(Wires(edges, mappings, cond), net.edges, layer) && SameMembers(layer, b) && Distinct(b) ==>
        FireAlike(FireLayer(Wires(edges, mappings, cond), net, layer, held),
                  FireLayer(Wires(edges, mappings, cond), net, b, held))
  }

  lemma PendingSize(w: Wires, edges: seq<EdgeState>, layer: seq<string>)
    requires PendingOn(w, edges, layer)
    ensures |edges| == |w.edges|
  {
  }

  lemma SameOrderless(w: Wires, v: Wires, layer: seq<string>)
    requires w.edges == v.edges && w.mappings == v.mappings
    ensures (Ahead(w, layer) <==> Ahead(v, layer)) && (Orderless(w, layer) <==> Orderless(v, layer))
  {
    forall pass, src, k, path ensures WritesAt(w, pass, src, k, path) <==> WritesAt(v, pass, src, k, path) {}
    forall pp, n, pq, q ensures Clash(w, pp, n, pq, q) <==> Clash(v, pp, n, pq, q) {}
  }

  lemma OrderlessSuffices(w: Wires, layer: seq<string>)
    requires Ahead(w, layer) && Distinct(layer) && Orderless(w, layer)
    ensures Unordered(w.edges, w.mappings, layer)
  {
    hide Orderless, Ahead, FireLayer, FireAlike;
    forall cond, net: Net, held, b | PendingOn(Wires(w.edges, w.mappings, cond), net.edges,
                                               layer) && SameMembers(layer, b) && Distinct(b)
      ensures |net.edges| == |w.edges|
      ensures FireAlike(FireLayer(Wires(w.edges, w.mappings, cond), net, layer, held),
                        FireLayer(Wires(w.edges, w.mappings, cond), net, b, held))
    {
      var v := Wires(w.edges, w.mappings, cond);
      SameOrderless(w, v, layer);
      PendingSize(v, net.edges, layer);
      FiringPermutes(v, net, layer, b, held);
    }
  }

  /** A list read backwards has every pair of its members the other way round. */
  lemma Backwards(layer: seq<string>, p: string, q: string)
    requires Distinct(layer) && p in layer && q in layer && p != q
    ensures Distinct(Cycles.Reversed(layer)) && SameMembers(layer, Cycles.Reversed(layer))
    ensures Precedes(Cycles.Reversed(layer), p, q) <==> !Precedes(layer, p, q)
  {
    var back := Cycles.Reversed(layer);
    forall n ensures n in layer <==> n in back {
      if n in layer {
        var i :| 0 <= i < |layer| && layer[i] == n;
        assert back[|layer| - 1 - i] == n;
      }
    }
    var i :| 0 <= i < |layer| && layer[i] == p;
    var j :| 0 <= j < |layer| && layer[j] == q;
    assert back[|layer| - 1 - i] == p && back[|layer| - 1 - j] == q;
  }

  /** Both nodes have run. */
  ghost function BothRan(w: Wires, a: Wire, b: Wire): Net
    requires Has(w, a) && Has(w, b)
  {
    Net({FromOf(w, a).node, FromOf(w, b).node},
        map[FromOf(w, a) := Nested(PickOf(w, a), Str("p")), FromOf(w, b) := Nested(PickOf(w, b), Str("q"))], seq(|w.edges|, _ => Pending))
  }

  lemma BothRanLoaded(w: Wires, layer: seq<string>, a: Wire, b: Wire)
    requires Ahead(w, layer) && Meets(w, layer, a, b)
    ensures Loaded(w, BothRan(w, a, b).ports, a, b) && PendingOn(w, BothRan(w, a, b).edges, layer)
    ensures BothRan(w, a, b).active == {FromOf(w, a).node, FromOf(w, b).node}
    ensures Lookup(BothRan(w, a, b).ports, ToOf(w, a)) == None
  {
    hide Nested;
    var ports := BothRan(w, a, b).ports;
    assert PortsOf(ports, FromOf(w, a).node) == Carrying(w, a, "p");
    assert PortsOf(ports, FromOf(w, b).node) == Carrying(w, b, "q");
  }

  /** What a listing of the layer leaves in the contested port. */
  lemma ListingLands(w: Wires, layer: seq<string>, a: Wire, b: Wire)
    requires Ahead(w, layer) && Tellable(w, layer, a, b)
    ensures |BothRan(w, a, b).edges| == |w.edges|
    ensures var x, y := Dispatch(w, a, "p"), Dispatch(w, b, "q");
            var both, r := Fold(None,
                                if First(w, layer, a, b) then [x, y] else [y, x]), FireLayer(w, BothRan(w, a, b), layer, None);
            (r.Err? <==> both.None?) && (r.Ok? ==> both == Some(Lookup(r.value.ports, ToOf(w, a))) && ToOf(w, a).node in r.value.active)
  {
    hide FireLayer, LayerDeliveries, Clean, Apply, StatesAfter, Fold, Lands, Ahead, Recipients, Dispatch, First;
    hide BothRan;
    var net, x, y := BothRan(w, a, b), Dispatch(w, a, "p"), Dispatch(w, b, "q");
    BothRanLoaded(w, layer, a, b);
    PendingSize(w, net.edges, layer);
    LayerLands(w, layer, a, b, net.ports);
    FireLayerDelivers(w, net, layer, None);
    var ds := LayerDeliveries(w, net.active, net.ports, layer, None);
    var xs := if First(w, layer, a, b) then [x, y] else [y, x];
    LandsSome(ds, ToOf(w, a), xs);
    LandsApply(net.ports, ds.value, ToOf(w, a), xs);
  }

  /** Two wires of one pass that meet tell a listing from its reverse. */
  lemma ReversalShows(w: Wires, layer: seq<string>, a: Wire, b: Wire)
    requires Ahead(w, layer) && Tellable(w, layer, a, b) && a.pass == b.pass
    ensures PendingOn(w, BothRan(w, a, b).edges, layer) && |BothRan(w, a, b).edges| == |w.edges|
    ensures Distinct(Cycles.Reversed(layer)) && SameMembers(layer, Cycles.Reversed(layer))
    ensures !FireAlike(FireLayer(w, BothRan(w, a, b), layer, None),
                       FireLayer(w, BothRan(w, a, b), Cycles.Reversed(layer), None))
  {
    hide FireLayer, Clean, Fold, Dispatch, BothRan, PathsOk;
    Backwards(layer, FromOf(w, a).node, FromOf(w, b).node);
    BothRanLoaded(w, layer, a, b);
    assert Ahead(w, Cycles.Reversed(layer));
    ListingLands(w, layer, a, b);
    ListingLands(w, Cycles.Reversed(layer), a, b);
    OrderShows(w, layer, a, b);
  }

  /** Where no wire can rewrite what another wire of its port wrote, the listing of a layer's nodes never matters
      exactly when no two of them write comparable places in one pass. */
  lemma OrderlessExactly(w: Wires, layer: seq<string>)
    requires Ahead(w, layer) && Distinct(layer) && PathsOk(w) && CleanPorts(w, layer)
    ensures Unordered(w.edges, w.mappings, layer) <==> Orderless(w, layer)
  {
    hide Ahead, FireLayer, FireAlike, Clash, Clean, PendingOn, BothRan;
    if Orderless(w, layer) {
      OrderlessSuffices(w, layer);
    } else {
      var v := Wires(w.edges, w.mappings, ALWAYS);
      SameOrderless(w, v, layer);
      var p, q :| p in layer && q in layer && p != q && (Clash(w, EdgePass, p, EdgePass, q) || Clash(w, MapPass, p, MapPass, q));
      var pass := if Clash(w, EdgePass, p, EdgePass, q) then EdgePass else MapPass;
      var a, b := ClashMeets(w, layer, pass, p, pass, q);
      SameClean(w, v, a);
      SameClean(w, v, b);
      ReversalShows(v, layer, a, b);
    }
  }

  /** Whatever the wires share, the layer is orderless exactly when the listing matters for no choice among them. */
  lemma OrderlessByPart(w: Wires, layer: seq<string>)
    requires Ahead(w, layer) && Distinct(layer) && PathsOk(w)
    ensures Orderless(w, layer) <==> forall v: Wires :: PartOf(v, w) ==> Unordered(v.edges, v.mappings, layer)
  {
    hide Unordered, Ahead, Clash;
    if Orderless(w, layer) {
      forall v: Wires | PartOf(v, w) ensures Unordered(v.edges, v.mappings, layer) {
        PartClashes(w, v, layer);
        OrderlessSuffices(v, layer);
      }
    } else {
      var p, q :| p in layer && q in layer && p != q && (Clash(w, EdgePass, p, EdgePass, q) || Clash(w, MapPass, p, MapPass, q));
      var pass := if Clash(w, EdgePass, p, EdgePass, q) then EdgePass else MapPass;
      var a, b := ClashMeets(w, layer, pass, p, pass, q);
      var v := Pair(w, a, b);
      var x, y := PairMeets(w, layer, a, b);
      MeetsClash(v, layer, x, y);
      PartClashes(w, v, layer);
      OrderlessExactly(v, layer);
    }
  }

  /** In a compiled engine this covers every layer whose mapped ports feed one mapping each, whatever the edges. */
  lemma CompiledListing(e: Engine, k: nat)
    requires Compiled(e) && k < |e.layers| && MappingsAlone(WiresOf(e), e.layers[k])
    ensures Unordered(e.flow.edges, e.flow.mappings, e.layers[k]) <==> Orderless(WiresOf(e), e.layers[k])
  {
    CompiledPorts(e, e.layers[k]);
    LayersAreAhead(e, k);
    OrderlessExactly(WiresOf(e), e.layers[k]);
  }
}
