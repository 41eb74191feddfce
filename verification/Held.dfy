/** Holding one node of a layer back and firing it later, with the human's answer as its outputs, against
    firing it in its turn. */
module Held {
  import opened Prelude
  import opened FlowIr
  import opened Paths
  import opened Wiring
  import opened Firing
  import opened LayeredEngine

  // ---------------------------------------------------------------- writing a node's ports early or late

  lemma WriteElsewhere(ports: Ports, p: string, out: map<string, Value>, n: string)
    requires n != p
    ensures PortsOf(WriteAll(ports, p, out), n) == PortsOf(ports, n)
  {
  }

  /** Deliveries to other nodes do not care whether p's outputs are written before or after them. */
  lemma {:induction false} WriteThenApply(ports: Ports, p: string, out: map<string, Value>, ds: seq<Delivery>)
    requires p !in Recipients(ds)
    ensures Apply(WriteAll(ports, p, out), ds) ==
            match Apply(ports, ds) case None => None case Some(q) => Some(WriteAll(q, p, out))
    decreases |ds|
  {
    hide Put, WriteAll;
    if ds != [] {
      var d := ds[0];
      assert d in ds;
      assert Lookup(WriteAll(ports, p, out), d.to) == Lookup(ports, d.to);
      match Put(Lookup(ports, d.to), d.path, d.value)
      case Err(_) =>
      case Ok(v) =>
        assert WriteAll(ports, p, out)[d.to := v] == WriteAll(ports[d.to := v], p, out);
        assert forall x :: x in ds[1..] ==> x in ds;
        WriteThenApply(ports[d.to := v], p, out, ds[1..]);
    }
  }

  // ---------------------------------------------------------------- the deliveries of the layer with and without p

  /** What p itself delivers. */
  function Own(w: Wires, ports: Ports, p: string): Option<seq<Delivery>> {
    Both(NodeSends(w, EdgePass, p, PortsOf(ports, p)), NodeSends(w, MapPass, p, PortsOf(ports, p)))
  }

  lemma {:induction false} HeldPassIgnores(w: Wires, pass: Pass, active: set<string>, ports: Ports,
                                           out: map<string, Value>,
      layer: seq<string>, p: string)
    ensures PassSends(w, pass, active, WriteAll(ports, p, out), layer,
                      Some(p)) == PassSends(w, pass, active, ports, layer, Some(p))
  {
    if layer != [] {
      HeldPassIgnores(w, pass, active, ports, out, layer[1..], p);
      if layer[0] != p { WriteElsewhere(ports, p, out, layer[0]); }
    }
  }

  lemma {:induction false} HoldingAbsent(w: Wires, pass: Pass, active: set<string>, ports: Ports, layer: seq<string>,
                                         p: string)
    requires p !in layer
    ensures PassSends(w, pass, active, ports, layer, None) == PassSends(w, pass, active, ports, layer, Some(p))
  {
    if layer != [] {
      assert layer[0] in layer;
      assert forall n :: n in layer[1..] ==> n in layer;
      HoldingAbsent(w, pass, active, ports, layer[1..], p);
    }
  }

  // ---------------------------------------------------------------- where a wire writes

  /** A wire of src that this pass fires can write at this path of k; an edge writes the whole port. */
  ghost predicate WritesAt(w: Wires, pass: Pass, src: string, k: PortKey, path: seq<string>) {
    match pass
    case EdgePass => path == [] && SendsByEdge(w, src, k)
    case MapPass =>
      exists j :: 0 <= j < |w.mappings| && w.mappings[j].source.node == src && Targets(w.mappings[j]) == k && w.mappings[j].target.path == path
  }

  lemma {:induction false} EdgesWrite(w: Wires, src: string, sp: map<string, Value>, i: nat)
    requires i <= |w.edges|
    ensures var ds := EdgeDeliveries(w, src, sp, i);
            ds.Some? ==> forall d :: d in ds.value ==> WritesAt(w, EdgePass, src, d.to, d.path)
    decreases |w.edges| - i
  {
    if i < |w.edges| { EdgesWrite(w, src, sp, i + 1); }
  }

  lemma {:induction false} MapsWrite(w: Wires, src: string, sp: map<string, Value>, j: nat)
    requires j <= |w.mappings|
    ensures var ds := MapDeliveries(w, src, sp, j);
            ds.Some? ==> forall d :: d in ds.value ==> WritesAt(w, MapPass, src, d.to, d.path)
    decreases |w.mappings| - j
  {
    if j < |w.mappings| { MapsWrite(w, src, sp, j + 1); }
  }

  lemma NodeWrites(w: Wires, pass: Pass, src: string, sp: map<string, Value>)
    ensures var ds := NodeSends(w, pass, src, sp);
            ds.Some? ==> forall d :: d in ds.value ==> WritesAt(w, pass, src, d.to, d.path)
  {
    EdgesWrite(w, src, sp, 0);
    MapsWrite(w, src, sp, 0);
  }

  /** Some wire of p and some wire of q write comparable places of one port. */
  ghost predicate Clash(w: Wires, pp: Pass, p: string, pq: Pass, q: string) {
    exists k, x, y :: WritesAt(w, pp, p, k, x) && WritesAt(w, pq, q, k, y) && !Incomparable(x, y)
  }

  ghost predicate Precedes(layer: seq<string>, p: string, q: string) {
    exists i, j :: 0 <= i < j < |layer| && layer[i] == p && layer[j] == q
  }

  /** No sibling of p writes a place p writes after p has written it: not with a mapping where p has an edge,
      and not in the same pass from a later position in the layer. */
  ghost predicate LastWord(w: Wires, layer: seq<string>, p: string) {
    forall q :: q in layer && q != p ==> !Overtakes(w, layer, p, q)
  }

  ghost predicate Overtakes(w: Wires, layer: seq<string>, p: string, q: string) {
    || Clash(w, EdgePass, p, MapPass, q)
    || (Precedes(layer, p, q) && (Clash(w, EdgePass, p, EdgePass, q) || Clash(w, MapPass, p, MapPass, q)))
  }

  // ---------------------------------------------------------------- deliveries that commute

  ghost predicate Apart(a: seq<Delivery>, b: seq<Delivery>) {
    forall x, y :: x in a && y in b && x.to == y.to ==> Incomparable(x.path, y.path)
  }

  /** The same writes to every port whatever it holds, failure included. */
  ghost predicate Equiv(a: seq<Delivery>, b: seq<Delivery>) {
    forall ports: Ports :: Apply(ports, a) == Apply(ports, b)
  }

  lemma ApplyOne(ports: Ports, x: Delivery)
    ensures Apply(ports, [x]) == match Put(Lookup(ports, x.to), x.path, x.value) case Err(_) => None case Ok(v) => Some(ports[x.to := v])
  {
    assert [x][1..] == [];
  }

  lemma ApplyTwo(ports: Ports, x: Delivery, y: Delivery)
    ensures Apply(ports, [x, y]) == match Apply(ports, [x]) case None => None case Some(mid) => Apply(mid, [y])
  {
    assert [x, y] == [x] + [y];
    ApplyConcat(ports, [x], [y]);
  }

  lemma SamePortTwice(ports: Ports, x: Delivery, y: Delivery)
    requires x.to == y.to
    ensures Apply(ports, [x, y]) ==
            match PutAgain(Put(Lookup(ports, x.to), x.path, x.value), y.path,
                           y.value) case None => None case Some(v) => Some(ports[x.to := v])
  {
    ApplyTwo(ports, x, y);
    ApplyOne(ports, x);
    hide Put, Apply;
    var a := Put(Lookup(ports, x.to), x.path, x.value);
    if a.Ok? {
      var mid := ports[x.to := a.value];
      ApplyOne(mid, y);
      assert Lookup(mid, y.to) == Some(a.value);
      var b := Put(Some(a.value), y.path, y.value);
      if b.Ok? { assert mid[y.to := b.value] == ports[x.to := b.value]; }
    }
  }

  lemma SwapTwo(ports: Ports, x: Delivery, y: Delivery)
    requires x.to == y.to ==> Incomparable(x.path, y.path)
    ensures Apply(ports, [x, y]) == Apply(ports, [y, x])
  {
    hide Put, Apply, PutAgain;
    if x.to == y.to {
      SamePortTwice(ports, x, y);
      SamePortTwice(ports, y, x);
      PutsCommute(Lookup(ports, x.to), x.path, x.value, y.path, y.value);
    } else {
      ApplyTwo(ports, x, y);
      ApplyTwo(ports, y, x);
      ApplyOne(ports, x);
      ApplyOne(ports, y);
      var a, b := Put(Lookup(ports, x.to), x.path, x.value), Put(Lookup(ports, y.to), y.path, y.value);
      if a.Ok? { ApplyOne(ports[x.to := a.value], y); }
      if b.Ok? { ApplyOne(ports[y.to := b.value], x); }
      if a.Ok? && b.Ok? { assert ports[x.to := a.value][y.to := b.value] == ports[y.to := b.value][x.to := a.value]; }
    }
  }

  lemma {:induction false} SwapOne(ports: Ports, x: Delivery, b: seq<Delivery>)
    requires Apart([x], b)
    ensures Apply(ports, [x] + b) == Apply(ports, b + [x])
    decreases |b|
  {
    if b == [] {
      assert [x] + b == b + [x];
    } else {
      var y, rest := b[0], b[1..];
      assert x in [x] && y in b && b == [y] + rest && forall d :: d in rest ==> d in b;
      assert [x] + b == [x, y] + rest && [y] + ([x] + rest) == [y, x] + rest && b + [x] == [y] + (rest + [x]);
      SwapTwo(ports, x, y);
      ApplyConcat(ports, [x, y], rest);
      ApplyConcat(ports, [y, x], rest);
      ApplyConcat(ports, [y], [x] + rest);
      ApplyConcat(ports, [y], rest + [x]);
      var mid := Apply(ports, [y]);
      if mid.Some? { SwapOne(mid.value, x, rest); }
    }
  }

  lemma {:induction false} SwapBlocks(ports: Ports, a: seq<Delivery>, b: seq<Delivery>)
    requires Apart(a, b)
    ensures Apply(ports, a + b) == Apply(ports, b + a)
    decreases |a|
  {
    if a == [] {
      assert a + b == b + a;
    } else {
      var x, rest := a[0], a[1..];
      assert x in a && a == [x] + rest && forall d :: d in rest ==> d in a;
      assert a + b == [x] + (rest + b) && b + a == (b + [x]) + rest && [x] + (b + rest) == ([x] + b) + rest;
      ApplyConcat(ports, [x], rest + b);
      ApplyConcat(ports, [x], b + rest);
      ApplyConcat(ports, [x] + b, rest);
      ApplyConcat(ports, b + [x], rest);
      var mid := Apply(ports, [x]);
      if mid.Some? { SwapBlocks(mid.value, rest, b); }
      SwapOne(ports, x, b);
    }
  }

  /** Swapping two blocks in the middle of a list. */
  lemma SwapWithin(pre: seq<Delivery>, a: seq<Delivery>, b: seq<Delivery>, post: seq<Delivery>)
    requires Apart(a, b)
    ensures Equiv(pre + a + b + post, pre + b + a + post)
  {
    forall ports: Ports ensures Apply(ports, pre + a + b + post) == Apply(ports, pre + b + a + post) {
      assert pre + a + b + post == pre + ((a + b) + post) && pre + b + a + post == pre + ((b + a) + post);
      ApplyConcat(ports, pre, (a + b) + post);
      ApplyConcat(ports, pre, (b + a) + post);
      var mid := Apply(ports, pre);
      if mid.Some? {
        SwapBlocks(mid.value, a, b);
        ApplyConcat(mid.value, a + b, post);
        ApplyConcat(mid.value, b + a, post);
      }
    }
  }

  // ---------------------------------------------------------------- the layer around p

  lemma BothConcat<T>(a: Option<seq<T>>, b: Option<seq<T>>, c: Option<seq<T>>)
    ensures Both(a, Both(b, c)) == Both(Both(a, b), c)
  {
    if a.Some? && b.Some? && c.Some? { assert a.value + (b.value + c.value) == (a.value + b.value) + c.value; }
  }

  lemma {:induction false} PassConcat(w: Wires, pass: Pass, active: set<string>, ports: Ports, a: seq<string>,
                                      b: seq<string>, held: Option<string>)
    ensures PassSends(w, pass, active, ports, a + b, held) ==
            Both(PassSends(w, pass, active, ports, a, held), PassSends(w, pass, active, ports, b, held))
  {
    var rest := PassSends(w, pass, active, ports, b, held);
    if a == [] {
      assert a + b == b;
      BothNothing(rest);
    } else {
      assert (a + b)[1..] == a[1..] + b;
      PassConcat(w, pass, active, ports, a[1..], b, held);
      BothConcat(if Feeds(active, held, a[0]) then NodeSends(w, pass, a[0], PortsOf(ports, a[0])) else Some([]),
                 PassSends(w, pass, active, ports, a[1..], held), rest);
    }
  }

  /** A pass over the layer, split at p. */
  lemma PassAround(w: Wires, pass: Pass, active: set<string>, ports: Ports, layer: seq<string>, i: nat)
    requires Distinct(layer) && i < |layer| && layer[i] in active
    ensures var p, before := layer[i], PassSends(w, pass, active, ports, layer[..i], None);
            var after := PassSends(w, pass, active, ports, layer[i + 1..], None);
            && PassSends(w, pass, active, ports, layer, None) == Both(before, Both(NodeSends(w, pass, p, PortsOf(ports, p)), after))
            && PassSends(w, pass, active, ports, layer, Some(p)) == Both(before, after)
  {
    var p := layer[i];
    assert layer == layer[..i] + ([p] + layer[i + 1..]);
    assert ([p] + layer[i + 1..])[1..] == layer[i + 1..];
    forall held {
      PassConcat(w, pass, active, ports, layer[..i], [p] + layer[i + 1..], held);
    }
    HoldingAbsent(w, pass, active, ports, layer[..i], p);
    HoldingAbsent(w, pass, active, ports, layer[i + 1..], p);
    var after := PassSends(w, pass, active, ports, layer[i + 1..], None);
    BothNothing(after);
  }

  /** Whatever a part of the layer delivers in a pass, one of its nodes may write. */
  lemma {:induction false} PassWrites(w: Wires, pass: Pass, active: set<string>, ports: Ports, rest: seq<string>,
                                      held: Option<string>)
    ensures var ds := PassSends(w, pass, active, ports, rest, held);
            ds.Some? ==> forall d :: d in ds.value ==> exists q :: q in rest && WritesAt(w, pass, q, d.to, d.path)
  {
    if rest != [] {
      var n, tail := rest[0], rest[1..];
      assert n in rest && forall x :: x in tail ==> x in rest;
      PassWrites(w, pass, active, ports, tail, held);
      NodeWrites(w, pass, n, PortsOf(ports, n));
    }
  }

  /** Without a clash, what p sends in one pass commutes with what part of its siblings send in another. */
  lemma NoClashIsApart(w: Wires, pp: Pass, p: string, own: seq<Delivery>, pq: Pass, rest: seq<string>,
                       ds: seq<Delivery>)
    requires forall q :: q in rest ==> !Clash(w, pp, p, pq, q)
    requires forall d :: d in own ==> WritesAt(w, pp, p, d.to, d.path)
    requires forall d :: d in ds ==> exists q :: q in rest && WritesAt(w, pq, q, d.to, d.path)
    ensures Apart(own, ds)
  {
    forall x, y | x in own && y in ds && x.to == y.to ensures Incomparable(x.path, y.path) {
      var q :| q in rest && WritesAt(w, pq, q, y.to, y.path);
      assert !Clash(w, pp, p, pq, q);
    }
  }

  lemma LaterNodes(layer: seq<string>, i: nat, q: string)
    requires Distinct(layer) && i < |layer| && q in layer[i + 1..]
    ensures q in layer && q != layer[i] && Precedes(layer, layer[i], q)
  {
    var j :| 0 <= j < |layer[i + 1..]| && layer[i + 1..][j] == q;
    assert layer[i + 1 + j] == q;
  }

  lemma EarlierNodes(layer: seq<string>, i: nat, q: string)
    requires Distinct(layer) && i < |layer| && q in layer[..i]
    ensures q in layer && q != layer[i]
  {
  }

  /** What a suspended layer delivers and then what p still owes writes what the whole layer writes. */
  ghost predicate Splits(w: Wires, active: set<string>, ports: Ports, layer: seq<string>, p: string) {
    var all := LayerDeliveries(w, active, ports, layer, None);
    var late := Both(LayerDeliveries(w, active, ports, layer, Some(p)), Own(w, ports, p));
    && (all.Some? <==> late.Some?)
    && (all.Some? ==> Equiv(all.value, late.value) && Recipients(all.value) == Recipients(late.value))
  }

  /** When p has the last word, firing it in its turn or after everyone else writes the same. */
  lemma LayerSplits(w: Wires, active: set<string>, ports: Ports, layer: seq<string>, p: string)
    requires LastWord(w, layer, p) && Distinct(layer) && p in layer && p in active
    ensures Splits(w, active, ports, layer, p)
  {
    hide PassSends, NodeSends, Clash, Equiv, Recipients;
    var i :| 0 <= i < |layer| && layer[i] == p;
    PassAround(w, EdgePass, active, ports, layer, i);
    PassAround(w, MapPass, active, ports, layer, i);
    var a, b, sp := layer[..i], layer[i + 1..], PortsOf(ports, p);
    var e1, e2 := PassSends(w, EdgePass, active, ports, a, None), PassSends(w, EdgePass, active, ports, b, None);
    var ep := NodeSends(w, EdgePass, p, sp);
    var m1, m2 := PassSends(w, MapPass, active, ports, a, None), PassSends(w, MapPass, active, ports, b, None);
    var mp := NodeSends(w, MapPass, p, sp);
    if e1.Some? && e2.Some? && ep.Some? && m1.Some? && m2.Some? && mp.Some? {
      PassWrites(w, EdgePass, active, ports, b, None);
      PassWrites(w, MapPass, active, ports, a, None);
      PassWrites(w, MapPass, active, ports, b, None);
      NodeWrites(w, EdgePass, p, sp);
      NodeWrites(w, MapPass, p, sp);
      OvertakenByNone(w, layer, i);
      NoClashIsApart(w, EdgePass, p, ep.value, EdgePass, b, e2.value);
      NoClashIsApart(w, EdgePass, p, ep.value, MapPass, a, m1.value);
      NoClashIsApart(w, EdgePass, p, ep.value, MapPass, b, m2.value);
      NoClashIsApart(w, MapPass, p, mp.value, MapPass, b, m2.value);
      MoveLast(e1.value, ep.value, e2.value, m1.value, mp.value, m2.value);
    }
  }

  lemma OvertakenByNone(w: Wires, layer: seq<string>, i: nat)
    requires i < |layer| && Distinct(layer) && LastWord(w, layer, layer[i])
    ensures forall q :: q in layer[..i] + layer[i + 1..] ==> !Clash(w, EdgePass, layer[i], MapPass, q)
    ensures forall q :: q in layer[i + 1..] ==> !Clash(w, EdgePass, layer[i], EdgePass, q) && !Clash(w, MapPass, layer[i], MapPass, q)
  {
    forall q | q in layer[i + 1..]
      ensures !Clash(w, EdgePass, layer[i], EdgePass, q) && !Clash(w, MapPass, layer[i], MapPass, q)
      ensures !Clash(w, EdgePass, layer[i], MapPass, q)
    {
      LaterNodes(layer, i, q);
      assert !Overtakes(w, layer, layer[i], q);
    }
    forall q | q in layer[..i] ensures !Clash(w, EdgePass, layer[i], MapPass, q) {
      EarlierNodes(layer, i, q);
      assert !Overtakes(w, layer, layer[i], q);
    }
  }

  /** p's edge writes move past the later edge writes and all mapping writes, its mapping writes past the later ones. */
  lemma MoveLast(e1: seq<Delivery>, ep: seq<Delivery>, e2: seq<Delivery>, m1: seq<Delivery>, mp: seq<Delivery>,
                 m2: seq<Delivery>)
    requires Apart(ep, e2) && Apart(ep, m1) && Apart(ep, m2) && Apart(mp, m2)
    ensures var all, late := (e1 + (ep + e2)) + (m1 + (mp + m2)), ((e1 + e2) + (m1 + m2)) + (ep + mp);
            Equiv(all, late) && Recipients(all) == Recipients(late)
  {
    var all, late := (e1 + (ep + e2)) + (m1 + (mp + m2)), ((e1 + e2) + (m1 + m2)) + (ep + mp);
    var others := e2 + m1 + m2;
    SwapWithin(e1 + ep + e2 + m1, mp, m2, []);
    SwapWithin(e1, ep, others, mp);
    assert all == (e1 + ep + e2 + m1) + mp + m2 + [];
    assert (e1 + ep + e2 + m1) + m2 + mp + [] == e1 + ep + others + mp;
    assert late == e1 + others + ep + mp;
    forall d ensures d in all <==> d in late {}
  }
}
