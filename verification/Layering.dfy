/** Kahn layering as Compile does it (v2/flow/engine.go), and what a layer index means. */
module Layering {
  import opened Prelude
  import opened FlowIr
  import opened Topology

  // ---------------------------------------------------------------- what a layering is

  /** n sits in layer k. */
  ghost predicate In(layers: seq<seq<string>>, k: int, n: string) {
    0 <= k < |layers| && n in layers[k]
  }

  ghost predicate Layered(layers: seq<seq<string>>, n: string) {
    exists k :: In(layers, k, n)
  }

  ghost predicate Disjoint(layers: seq<seq<string>>) {
    && (forall j, k, n :: In(layers, j, n) && In(layers, k, n) ==> j == k)
    && (forall k :: 0 <= k < |layers| ==> Distinct(layers[k]))
  }

  /** Every arc into a layered node comes from an earlier layer. */
  ghost predicate Forward(arcs: seq<Arc>, layers: seq<seq<string>>) {
    forall u, v, k :: Arc(u, v) in arcs && In(layers, k, v) ==> LayeredBefore(layers, k, u)
  }

  ghost predicate LayeredBefore(layers: seq<seq<string>>, k: int, u: string) {
    exists j :: j < k && In(layers, j, u)
  }

  /** Every node past layer 0 has a predecessor in the layer just before. */
  ghost predicate Tight(arcs: seq<Arc>, layers: seq<seq<string>>) {
    forall k, v :: k > 0 && In(layers, k, v) ==> FedBy(arcs, layers, k - 1, v)
  }

  ghost predicate FedBy(arcs: seq<Arc>, layers: seq<seq<string>>, j: int, v: string) {
    exists u :: In(layers, j, u) && Arc(u, v) in arcs
  }

  ghost predicate IsLayering(ids: seq<string>, arcs: seq<Arc>, layers: seq<seq<string>>) {
    && (forall n :: n in ids <==> Layered(layers, n))
    && Disjoint(layers)
    && Forward(arcs, layers)
    && Tight(arcs, layers)
    && (forall k :: 0 <= k < |layers| ==> layers[k] != [])
  }

  ghost function LayerOf(layers: seq<seq<string>>, n: string): (k: nat)
    requires Layered(layers, n)
    ensures In(layers, k, n)
  {
    var k: int :| In(layers, k, n);
    k
  }

  // ---------------------------------------------------------------- in-degrees

  /** How many arcs into v come from outside `done`. */
  ghost function InCount(arcs: seq<Arc>, v: string, done: set<string>): nat {
    if arcs == [] then 0 else
      var last := arcs[|arcs| - 1];
      InCount(arcs[..|arcs| - 1], v, done) + (if last.to == v && last.from !in done then 1 else 0)
  }

  ghost function Occurrences(s: seq<string>, v: string): nat {
    if s == [] then 0 else (if s[0] == v then 1 else 0) + Occurrences(s[1..], v)
  }

  lemma {:induction false} OccurrencesSnoc(s: seq<string>, x: string, v: string)
    ensures Occurrences(s + [x], v) == Occurrences(s, v) + (if x == v then 1 else 0)
  {
    if s == [] {
      assert (s + [x])[1..] == [];
    } else {
      assert (s + [x])[1..] == s[1..] + [x];
      OccurrencesSnoc(s[1..], x, v);
    }
  }

  lemma {:induction false} CountDrop(arcs: seq<Arc>, v: string, done: set<string>, u: string)
    requires u !in done
    ensures InCount(arcs, v, done) == InCount(arcs, v, done + {u}) + Occurrences(Targets(arcs, u), v)
  {
    if arcs != [] {
      var init, last := arcs[..|arcs| - 1], arcs[|arcs| - 1];
      CountDrop(init, v, done, u);
      OccurrencesSnoc(Targets(init, u), last.to, v);
      assert Targets(arcs, u) == Targets(init, u) + (if last.from == u then [last.to] else []);
      if last.from != u { assert Targets(arcs, u) == Targets(init, u); }
    }
  }

  lemma {:induction false} CountPositive(arcs: seq<Arc>, v: string, done: set<string>)
    ensures InCount(arcs, v, done) > 0 <==> exists u :: u !in done && Arc(u, v) in arcs
  {
    if arcs != [] {
      var init, last := arcs[..|arcs| - 1], arcs[|arcs| - 1];
      CountPositive(init, v, done);
      assert arcs == init + [last];
      if last.to == v && last.from !in done { assert Arc(last.from, v) in arcs; }
    }
  }

  // ---------------------------------------------------------------- the order inside a layer

  /** The arcs a round follows out of a layer, by their targets. */
  ghost function Followed(arcs: seq<Arc>, layer: seq<string>): seq<string> {
    if layer == [] then [] else Targets(arcs, layer[0]) + Followed(arcs, layer[1..])
  }

  /** The members of s in the order in which they last occur in t. */
  ghost function LastSeen(t: seq<string>, s: set<string>): seq<string> {
    if t == [] then [] else (if t[0] in s && t[0] !in t[1..] then [t[0]] else []) + LastSeen(t[1..], s)
  }

  /** The members of s in listing order. */
  ghost function Picked(ids: seq<string>, s: set<string>): seq<string> {
    if ids == [] then [] else Picked(ids[..|ids| - 1], s) + (if ids[|ids| - 1] in s then [ids[|ids| - 1]] else [])
  }

  /** The first layer lists its nodes as the flow does, every later one as the last arc into each was followed. */
  ghost predicate Listed(ids: seq<string>, arcs: seq<Arc>, layers: seq<seq<string>>) {
    && (layers != [] ==> layers[0] == Picked(ids, Elems(layers[0])))
    && forall k :: 0 < k < |layers| ==> layers[k] == LastSeen(Followed(arcs, layers[k - 1]), Elems(layers[k]))
  }

  /** How the queue of the next round is ordered. */
  ghost predicate ListedNext(ids: seq<string>, arcs: seq<Arc>, layers: seq<seq<string>>, queue: seq<string>) {
    queue == if layers == [] then Picked(ids, Elems(queue)) else LastSeen(Followed(arcs, layers[|layers| - 1]), Elems(queue))
  }

  lemma ListedSnoc(ids: seq<string>, arcs: seq<Arc>, layers: seq<seq<string>>, queue: seq<string>)
    requires Listed(ids, arcs, layers) && ListedNext(ids, arcs, layers, queue)
    ensures Listed(ids, arcs, layers + [queue])
  {
  }

  lemma {:induction false} OccurrencesConcat(a: seq<string>, b: seq<string>, v: string)
    ensures Occurrences(a + b, v) == Occurrences(a, v) + Occurrences(b, v)
  {
    if a == [] {
      assert a + b == b;
    } else {
      assert (a + b)[1..] == a[1..] + b;
      OccurrencesConcat(a[1..], b, v);
    }
  }

  lemma {:induction false} OccurrencesMember(s: seq<string>, v: string)
    ensures Occurrences(s, v) == 0 <==> v !in s
  {
    if s != [] { OccurrencesMember(s[1..], v); }
  }

  /** Arcs from the rest of a layer are the ones a round has still to follow. */
  lemma {:induction false} CountLayer(arcs: seq<Arc>, v: string, base: set<string>, rest: seq<string>)
    requires Distinct(rest) && forall u :: u in rest ==> u !in base
    ensures InCount(arcs, v, base) == InCount(arcs, v, base + Elems(rest)) + Occurrences(Followed(arcs, rest), v)
    decreases |rest|
  {
    if rest == [] {
      assert base + Elems(rest) == base;
    } else {
      var u, tail := rest[0], rest[1..];
      assert rest == [u] + tail;
      CountDrop(arcs, v, base, u);
      CountLayer(arcs, v, base + {u}, tail);
      assert base + {u} + Elems(tail) == base + Elems(rest);
      OccurrencesConcat(Targets(arcs, u), Followed(arcs, tail), v);
    }
  }

  lemma CountSnoc(arcs: seq<Arc>, a: Arc, v: string, done: set<string>)
    ensures InCount(arcs + [a], v, done) == InCount(arcs, v, done) + (if a.to == v && a.from !in done then 1 else 0)
  {
    assert (arcs + [a])[..|arcs|] == arcs;
  }

  function Degree(indeg: map<string, int>, v: string): int {
    if v in indeg then indeg[v] else 0
  }

  ghost predicate CountsArcs(indeg: map<string, int>, arcs: seq<Arc>, done: set<string>) {
    forall v :: Degree(indeg, v) == InCount(arcs, v, done)
  }

  /** The loops that fill indeg. */
  method InDegrees(f: Flow) returns (indeg: map<string, int>)
    ensures CountsArcs(indeg, Arcs(f), {})
  {
    hide *;
    indeg := map[];
    NothingCounted();
    for i := 0 to |f.nodes|
      invariant forall v :: Degree(indeg, v) == 0
    {
      indeg := SetDegree(indeg, f.nodes[i].id, 0);
    }
    ghost var arcs: seq<Arc> := [];
    StartCounting(f, indeg);
    for i := 0 to |f.edges|
      invariant arcs == EdgeArcs(f.edges[..i])
      invariant CountsArcs(indeg, arcs, {})
    {
      var e := f.edges[i];
      EdgeArcsSnoc(f.edges, i);
      indeg := CountArc(indeg, e.source.node, e.target.node, arcs);
      arcs := arcs + [Arc(e.source.node, e.target.node)];
    }
    assert f.edges[..|f.edges|] == f.edges;
    for i := 0 to |f.mappings|
      invariant arcs == EdgeArcs(f.edges) + MappingArcs(f.mappings[..i])
      invariant CountsArcs(indeg, arcs, {})
    {
      var m := f.mappings[i];
      MappingArcsSnoc(f.mappings, i);
      if m.source.node != "" {
        indeg := CountArc(indeg, m.source.node, m.target.node, arcs);
        assert EdgeArcs(f.edges) + (MappingArcs(f.mappings[..i]) + [Arc(m.source.node, m.target.node)])
            == arcs + [Arc(m.source.node, m.target.node)];
        arcs := arcs + [Arc(m.source.node, m.target.node)];
      }
    }
    assert f.mappings[..|f.mappings|] == f.mappings;
    ArcsAre(f);
  }

  method SetDegree(indeg: map<string, int>, v: string, d: int) returns (r: map<string, int>)
    ensures forall x :: Degree(r, x) == if x == v then d else Degree(indeg, x)
  {
    r := indeg[v := d];
  }

  method CountArc(indeg: map<string, int>, u: string, v: string, ghost arcs: seq<Arc>) returns (r: map<string, int>)
    requires CountsArcs(indeg, arcs, {})
    ensures CountsArcs(r, arcs + [Arc(u, v)], {})
  {
    r := SetDegree(indeg, v, Degree(indeg, v) + 1);
    forall x ensures Degree(r, x) == InCount(arcs + [Arc(u, v)], x, {}) {
      CountSnoc(arcs, Arc(u, v), x, {});
      assert Degree(indeg, x) == InCount(arcs, x, {});
    }
  }

  lemma NothingCounted()
    ensures forall v :: Degree(map[], v) == 0
  {
  }

  lemma StartCounting(f: Flow, indeg: map<string, int>)
    requires forall v :: Degree(indeg, v) == 0
    ensures CountsArcs(indeg, [], {}) && EdgeArcs(f.edges[..0]) == [] && MappingArcs(f.mappings[..0]) == []
  {
  }

  // ---------------------------------------------------------------- Kahn's algorithm

  /** The processed layers are final: closed under predecessors, and tight. */
  ghost predicate Settled(arcs: seq<Arc>, layers: seq<seq<string>>, done: set<string>) {
    && (forall n :: n in done <==> Layered(layers, n))
    && Disjoint(layers)
    && Forward(arcs, layers)
    && Tight(arcs, layers)
    && (forall k :: 0 <= k < |layers| ==> layers[k] != [])
  }

  /** The queue holds exactly the declared, unprocessed nodes of in-degree zero, each once, and each
      was freed by the last layer. */
  ghost predicate Ready(ids: seq<string>, arcs: seq<Arc>, layers: seq<seq<string>>, done: set<string>,
                        queue: seq<string>) {
    && Distinct(queue)
    && (forall v :: v in queue <==> v in ids && v !in done && InCount(arcs, v, done) == 0)
    && (layers != [] ==> forall v :: v in queue ==> FedBy(arcs, layers, |layers| - 1, v))
  }

  /** Appending the queue as a new layer keeps the layering settled. */
  lemma AppendLayer(ids: seq<string>, arcs: seq<Arc>, layers: seq<seq<string>>, done: set<string>, queue: seq<string>)
    requires Settled(arcs, layers, done) && Ready(ids, arcs, layers, done, queue) && queue != []
    ensures Settled(arcs, layers + [queue], done + Elems(queue))
  {
    var more := layers + [queue];
    assert forall k, n :: In(more, k, n) <==> In(layers, k, n) || (k == |layers| && n in queue);
    assert In(more, |layers|, queue[0]);
    forall n ensures n in done + Elems(queue) <==> Layered(more, n) {
      if n in queue { assert In(more, |layers|, n); }
      if n in done {
        var k :| In(layers, k, n);
        assert In(more, k, n);
      }
      if Layered(more, n) {
        var k :| In(more, k, n);
        if k < |layers| { assert In(layers, k, n) && Layered(layers, n); }
      }
    }
    AppendDisjoint(layers, done, queue);
    AppendForward(ids, arcs, layers, done, queue);
    forall k, v | k > 0 && In(more, k, v) ensures FedBy(arcs, more, k - 1, v) {
      if k < |layers| { assert In(layers, k, v); }
      assert FedBy(arcs, layers, k - 1, v);
      var u :| In(layers, k - 1, u) && Arc(u, v) in arcs;
      assert In(more, k - 1, u);
    }
  }

  lemma AppendDisjoint(layers: seq<seq<string>>, done: set<string>, queue: seq<string>)
    requires Disjoint(layers) && Distinct(queue)
    requires forall n :: n in done <==> Layered(layers, n)
    requires forall n :: n in queue ==> n !in done
    ensures Disjoint(layers + [queue])
  {
    var more := layers + [queue];
    forall j, k, n | In(more, j, n) && In(more, k, n) ensures j == k {
      if j < |layers| { assert In(layers, j, n) && Layered(layers, n); }
      if k < |layers| { assert In(layers, k, n) && Layered(layers, n); }
    }
  }

  lemma AppendForward(ids: seq<string>, arcs: seq<Arc>, layers: seq<seq<string>>, done: set<string>, queue: seq<string>)
    requires Settled(arcs, layers, done) && Ready(ids, arcs, layers, done, queue)
    ensures Forward(arcs, layers + [queue])
  {
    var more := layers + [queue];
    forall u, v, k | Arc(u, v) in arcs && In(more, k, v) ensures LayeredBefore(more, k, u) {
      if k < |layers| {
        assert In(layers, k, v) && LayeredBefore(layers, k, u);
        var j :| j < k && In(layers, j, u);
        assert In(more, j, u);
      } else {
        CountPositive(arcs, v, done);
        assert u in done && Layered(layers, u);
        var j :| In(layers, j, u);
        assert In(more, j, u);
      }
    }
  }

  /** One queue round: decrement along every arc out of the layer, collecting the nodes freed. */
  method Round(ghost ids: seq<string>, ghost arcs: seq<Arc>, out: map<string, seq<string>>,
               indeg: map<string, int>, layer: seq<string>, ghost done: set<string>, ghost layers: seq<seq<string>>)
      returns (indeg': map<string, int>, next: seq<string>)
    requires IsSuccessorMap(out, arcs) && CountsArcs(indeg, arcs, done)
    requires Settled(arcs, layers, done) && Ready(ids, arcs, layers, done, layer) && layer != []
    requires forall a :: a in arcs ==> a.to in ids
    ensures CountsArcs(indeg', arcs, done + Elems(layer))
    ensures Ready(ids, arcs, layers + [layer], done + Elems(layer), next)
    ensures ListedNext(ids, arcs, layers + [layer], next)
  {
    hide *;
    indeg', next := indeg, [];
    ghost var now := done;
    ghost var freed := FreedSet(ids, arcs, done, layer);
    RoundStarts(ids, arcs, layers, done, layer, indeg);
    assert layer[0..] == layer;
    NothingListed(next, arcs, layer, freed);
    for a := 0 to |layer|
      invariant now == done + Elems(layer[..a])
      invariant CountsArcs(indeg', arcs, now)
      invariant Freed(ids, arcs, done, layer, indeg', next)
      invariant next + LastSeen(Followed(arcs, layer[a..]), freed) == LastSeen(Followed(arcs, layer), freed)
    {
      var u := layer[a];
      FollowedStep(arcs, layer, a);
      ghost var t := Targets(arcs, u);
      NodeStarts(ids, arcs, layers, done, layer, now, a, indeg', out);
      var targets := At(out, u);
      for j := 0 to |targets|
        invariant CountsRest(indeg', arcs, now + {u}, t[j..])
        invariant Freed(ids, arcs, done, layer, indeg', next)
        invariant next + LastSeen(t[j..] + Followed(arcs, layer[a + 1..]), freed) == LastSeen(Followed(arcs, layer), freed)
      {
        var v := targets[j];
        ghost var before := indeg';
        indeg' := SetDegree(indeg', v, Degree(indeg', v) - 1);
        TargetStep(ids, arcs, layers, done, layer, now, a, t, j, before, next, indeg');
        OrderStep(ids, arcs, layers, done, layer, now, a, t, j, indeg', next);
        if Degree(indeg', v) == 0 { next := next + [v]; }
      }
      assert t[|t|..] == [] && [] + Followed(arcs, layer[a + 1..]) == Followed(arcs, layer[a + 1..]);
      NodeEnds(indeg', arcs, now + {u});
      now := now + {u};
      ElemsSnoc(layer, a);
    }
    assert layer[..|layer|] == layer && layer[|layer|..] == [];
    RoundEnds(ids, arcs, layers, done, layer, indeg', next);
    RoundListed(ids, arcs, layers, done, layer, next);
  }

  /** The nodes a layer frees. */
  ghost function FreedSet(ids: seq<string>, arcs: seq<Arc>, done: set<string>, layer: seq<string>): set<string> {
    set v | v in ids && v !in done && v !in layer && InCount(arcs, v, done + Elems(layer)) == 0
  }

  lemma NothingListed(next: seq<string>, arcs: seq<Arc>, layer: seq<string>, freed: set<string>)
    requires next == []
    ensures next + LastSeen(Followed(arcs, layer), freed) == LastSeen(Followed(arcs, layer), freed)
  {
  }

  lemma FollowedStep(arcs: seq<Arc>, layer: seq<string>, a: nat)
    requires a < |layer|
    ensures Followed(arcs, layer[a..]) == Targets(arcs, layer[a]) + Followed(arcs, layer[a + 1..])
    ensures Targets(arcs, layer[a])[0..] == Targets(arcs, layer[a])
  {
    assert layer[a..][1..] == layer[a + 1..];
  }

  /** A counter reaches zero exactly when the last arc into a freed node is followed. */
  lemma OrderStep(ids: seq<string>, arcs: seq<Arc>, layers: seq<seq<string>>, done: set<string>, layer: seq<string>,
                  now: set<string>, a: nat, t: seq<string>, j: nat, after: map<string, int>, next: seq<string>)
    requires Settled(arcs, layers, done) && Ready(ids, arcs, layers, done, layer) && a < |layer|
    requires now == done + Elems(layer[..a])
    requires t == Targets(arcs, layer[a]) && j < |t| && forall x :: x in arcs ==> x.to in ids
    requires CountsRest(after, arcs, now + {layer[a]}, t[j + 1..])
    ensures var freed, rest := FreedSet(ids, arcs, done, layer), Followed(arcs, layer[a + 1..]);
            next + LastSeen(t[j..] + rest, freed) == (if Degree(after, t[j]) == 0 then next + [t[j]] else next) + LastSeen(t[j + 1..] + rest, freed)
  {
    hide Settled, InCount, LayeredBefore, Followed, Targets, Occurrences;
    var u, v, freed := layer[a], t[j], FreedSet(ids, arcs, done, layer);
    var behind, rest := layer[a + 1..], Followed(arcs, layer[a + 1..]);
    TargetsMember(arcs, u, v);
    assert v in t && Arc(u, v) in arcs && u in layer;
    ArcLeavesLayer(ids, arcs, layers, done, layer, u, v);
    forall n | n in behind ensures n !in now + {u} { RestIsNew(ids, arcs, layers, done, layer, a, n); }
    assert Distinct(behind);
    CountLayer(arcs, v, now + {u}, behind);
    assert layer == layer[..a] + [u] + behind;
    assert now + {u} + Elems(behind) == done + Elems(layer);
    OccurrencesMember(t[j + 1..], v);
    OccurrencesMember(rest, v);
    assert Degree(after, v) == 0 <==> v in freed && v !in t[j + 1..] + rest;
    assert (t[j..] + rest)[1..] == t[j + 1..] + rest && (t[j..] + rest)[0] == v;
  }

  lemma RestIsNew(ids: seq<string>, arcs: seq<Arc>, layers: seq<seq<string>>, done: set<string>, layer: seq<string>,
                  a: nat, n: string)
    requires Ready(ids, arcs, layers, done, layer) && a < |layer| && n in layer[a + 1..]
    ensures n !in done + Elems(layer[..a]) + {layer[a]}
  {
    var j :| 0 <= j < |layer[a + 1..]| && layer[a + 1..][j] == n;
    assert layer[a + 1 + j] == n && n in layer;
    forall i | 0 <= i <= a ensures layer[i] != n {}
  }

  lemma RoundListed(ids: seq<string>, arcs: seq<Arc>, layers: seq<seq<string>>, done: set<string>, layer: seq<string>,
                    next: seq<string>)
    requires Ready(ids, arcs, layers + [layer], done + Elems(layer), next)
    requires var freed := FreedSet(ids, arcs, done, layer);
             next + LastSeen(Followed(arcs, []), freed) == LastSeen(Followed(arcs, layer), freed)
    ensures ListedNext(ids, arcs, layers + [layer], next)
  {
    hide InCount;
    assert FreedSet(ids, arcs, done, layer) == Elems(next);
    assert Followed(arcs, []) == [] && LastSeen([], Elems(next)) == [];
  }

  /** indeg still includes the arcs of the current node that have not been followed yet. */
  ghost predicate CountsRest(indeg: map<string, int>, arcs: seq<Arc>, done: set<string>, rest: seq<string>) {
    forall v :: Degree(indeg, v) == InCount(arcs, v, done) + Occurrences(rest, v)
  }

  /** `next` holds, once each, the declared nodes outside the processed layers whose count reached zero. */
  ghost predicate Freed(ids: seq<string>, arcs: seq<Arc>, done: set<string>, layer: seq<string>,
                        indeg: map<string, int>, next: seq<string>) {
    && Distinct(next)
    && (forall v :: v in next <==> v in ids && v !in done && v !in layer && Degree(indeg, v) == 0)
    && (forall v :: v in next ==> exists u :: u in layer && Arc(u, v) in arcs)
  }

  lemma RoundStarts(ids: seq<string>, arcs: seq<Arc>, layers: seq<seq<string>>, done: set<string>, layer: seq<string>,
                    indeg: map<string, int>)
    requires CountsArcs(indeg, arcs, done) && Ready(ids, arcs, layers, done, layer)
    ensures Freed(ids, arcs, done, layer, indeg, [])
    ensures done == done + Elems(layer[..0])
  {
    forall v | v in ids && v !in done && v !in layer ensures Degree(indeg, v) != 0 {
      assert Degree(indeg, v) == InCount(arcs, v, done);
    }
  }

  lemma NodeStarts(ids: seq<string>, arcs: seq<Arc>, layers: seq<seq<string>>, done: set<string>, layer: seq<string>,
                   now: set<string>, a: nat, indeg: map<string, int>, out: map<string, seq<string>>)
    requires Ready(ids, arcs, layers, done, layer) && a < |layer| && now == done + Elems(layer[..a])
    requires CountsArcs(indeg, arcs, now) && IsSuccessorMap(out, arcs)
    ensures layer[a] !in now
    ensures At(out, layer[a]) == Targets(arcs, layer[a])
    ensures CountsRest(indeg, arcs, now + {layer[a]}, Targets(arcs, layer[a])[0..])
  {
    var u, t := layer[a], Targets(arcs, layer[a]);
    assert u in layer;
    assert u !in now;
    assert t[0..] == t;
    forall v ensures Degree(indeg, v) == InCount(arcs, v, now + {u}) + Occurrences(t, v) {
      assert Degree(indeg, v) == InCount(arcs, v, now);
      CountDrop(arcs, v, now, u);
    }
  }

  lemma NodeEnds(indeg: map<string, int>, arcs: seq<Arc>, done: set<string>)
    requires CountsRest(indeg, arcs, done, [])
    ensures CountsArcs(indeg, arcs, done)
  {
    forall v ensures Degree(indeg, v) == InCount(arcs, v, done) {
      assert Degree(indeg, v) == InCount(arcs, v, done) + Occurrences([], v);
    }
  }

  ghost predicate Lowered(indeg: map<string, int>, v: string, after: map<string, int>) {
    forall x :: Degree(after, x) == if x == v then Degree(indeg, v) - 1 else Degree(indeg, x)
  }

  /** Following the j-th arc out of the a-th node of the layer. */
  lemma TargetStep(ids: seq<string>, arcs: seq<Arc>, layers: seq<seq<string>>, done: set<string>, layer: seq<string>,
                   now: set<string>, a: nat, t: seq<string>, j: nat, indeg: map<string, int>, next: seq<string>,
                   after: map<string, int>)
    requires Settled(arcs, layers, done) && Ready(ids, arcs, layers, done, layer) && a < |layer|
    requires t == Targets(arcs, layer[a]) && j < |t|
    requires forall x :: x in arcs ==> x.to in ids
    requires CountsRest(indeg, arcs, now + {layer[a]}, t[j..])
    requires Freed(ids, arcs, done, layer, indeg, next)
    requires Lowered(indeg, t[j], after)
    ensures CountsRest(after, arcs, now + {layer[a]}, t[j + 1..])
    ensures Freed(ids, arcs, done, layer, after, if Degree(after, t[j]) == 0 then next + [t[j]] else next)
  {
    var u, v := layer[a], t[j];
    TargetsMember(arcs, u, v);
    assert v in t && Arc(u, v) in arcs;
    assert t[j..] == [v] + t[j + 1..];
    assert Degree(indeg, v) == InCount(arcs, v, now + {u}) + Occurrences(t[j..], v);
    assert Degree(indeg, v) >= 1;
    ArcLeavesLayer(ids, arcs, layers, done, layer, u, v);
    forall x ensures Degree(after, x) == InCount(arcs, x, now + {u}) + Occurrences(t[j + 1..], x) {
      assert Degree(indeg, x) == InCount(arcs, x, now + {u}) + Occurrences(t[j..], x);
    }
    FreedStep(ids, arcs, done, layer, indeg, next, u, v, after);
  }

  lemma FreedStep(ids: seq<string>, arcs: seq<Arc>, done: set<string>, layer: seq<string>,
                  indeg: map<string, int>, next: seq<string>, u: string, v: string, after: map<string, int>)
    requires Freed(ids, arcs, done, layer, indeg, next) && Lowered(indeg, v, after)
    requires v in ids && v !in done && v !in layer && Degree(indeg, v) >= 1 && u in layer && Arc(u, v) in arcs
    ensures Freed(ids, arcs, done, layer, after, if Degree(after, v) == 0 then next + [v] else next)
  {
    var more := if Degree(after, v) == 0 then next + [v] else next;
    assert v !in next;
    forall x ensures x in more <==> x in ids && x !in done && x !in layer && Degree(after, x) == 0 {
      assert Degree(after, x) == if x == v then Degree(indeg, v) - 1 else Degree(indeg, x);
    }
  }

  /** Arcs out of the layer lead neither back into it nor into a processed layer. */
  lemma ArcLeavesLayer(ids: seq<string>, arcs: seq<Arc>, layers: seq<seq<string>>, done: set<string>,
                       layer: seq<string>, u: string, v: string)
    requires Settled(arcs, layers, done) && Ready(ids, arcs, layers, done, layer)
    requires u in layer && Arc(u, v) in arcs
    ensures v !in done && v !in layer
  {
    if v in layer { CountPositive(arcs, v, done); }
    if v in done {
      var k :| In(layers, k, v);
      BeforeIsLayered(layers, k, u);
    }
  }

  lemma BeforeIsLayered(layers: seq<seq<string>>, k: int, u: string)
    ensures LayeredBefore(layers, k, u) ==> Layered(layers, u)
  {
  }

  lemma RoundEnds(ids: seq<string>, arcs: seq<Arc>, layers: seq<seq<string>>, done: set<string>, layer: seq<string>,
      indeg: map<string, int>, next: seq<string>)
    requires CountsArcs(indeg, arcs, done + Elems(layer)) && Freed(ids, arcs, done, layer, indeg, next)
    ensures Ready(ids, arcs, layers + [layer], done + Elems(layer), next)
  {
    var more := layers + [layer];
    var all := done + Elems(layer);
    forall v ensures v in next <==> v in ids && v !in all && InCount(arcs, v, all) == 0 {
      assert Degree(indeg, v) == InCount(arcs, v, all);
    }
    forall v | v in next ensures FedBy(arcs, more, |more| - 1, v) {
      var u :| u in layer && Arc(u, v) in arcs;
      assert In(more, |more| - 1, u);
    }
  }

  /** The layer loop of Compile. None is the "residual cycle" error. */
  method Layer(f: Flow) returns (r: Option<seq<seq<string>>>)
    requires Distinct(Ids(f)) && forall a :: a in Arcs(f) ==> a.from in Ids(f) && a.to in Ids(f)
    ensures r.Some? ==> IsLayering(Ids(f), Arcs(f), r.value) && Listed(Ids(f), Arcs(f), r.value)
    ensures r.None? ==> !Acyclic(Arcs(f))
  {
    hide *;
    ghost var ids, arcs := Ids(f), Arcs(f);
    var out := Successors(f);
    var indeg := InDegrees(f);
    var layers: seq<seq<string>> := [];
    var queue := [];
    ghost var done: set<string> := {};
    assert |done| == 0;
    SelectReadyNone(Ids(f), indeg);
    for i := 0 to |f.nodes|
      invariant queue == SelectReady(Ids(f)[..i], indeg)
    {
      var id := Ids(f)[i];
      SelectReadySnoc(Ids(f), i, indeg);
      if Degree(indeg, id) == 0 { queue := queue + [id]; }
    }
    assert Ids(f)[..|f.nodes|] == Ids(f);
    FirstQueue(ids, arcs, indeg, queue);
    FirstListed(ids, arcs, indeg, queue);
    var visited := 0;
    while |queue| > 0
      invariant done <= Elems(ids)
      invariant Settled(arcs, layers, done)
      invariant Ready(ids, arcs, layers, done, queue)
      invariant CountsArcs(indeg, arcs, done)
      invariant Listed(ids, arcs, layers) && ListedNext(ids, arcs, layers, queue)
      invariant visited == |done|
      decreases Elems(ids) - done
    {
      var layer := queue;
      AppendLayer(ids, arcs, layers, done, layer);
      ghost var all := done + Elems(layer);
      QueueIsNew(ids, arcs, layers, done, layer);
      ListedSnoc(ids, arcs, layers, layer);
      indeg, queue := Round(ids, arcs, out, indeg, layer, done, layers);
      visited := visited + |layer|;
      layers := layers + [layer];
      done := all;
    }
    assert queue == [];
    if visited != |f.nodes| {
      Residual(ids, arcs, layers, done);
      return None;
    }
    AllDone(ids, arcs, layers, done);
    return Some(layers);
  }

  function SelectReady(ids: seq<string>, indeg: map<string, int>): seq<string> {
    if ids == [] then [] else
      SelectReady(ids[..|ids| - 1], indeg) +
      (if Degree(indeg, ids[|ids| - 1]) == 0 then [ids[|ids| - 1]] else [])
  }

  lemma SelectReadyNone(ids: seq<string>, indeg: map<string, int>)
    ensures SelectReady(ids[..0], indeg) == []
  {
  }

  lemma SelectReadySnoc(ids: seq<string>, i: nat, indeg: map<string, int>)
    requires i < |ids|
    ensures SelectReady(ids[..i + 1], indeg) == SelectReady(ids[..i], indeg) + (if Degree(indeg, ids[i]) == 0 then [ids[i]] else [])
  {
    assert ids[..i + 1][..i] == ids[..i];
  }

  lemma {:induction false} SelectReadyMembers(ids: seq<string>, indeg: map<string, int>)
    requires Distinct(ids)
    ensures Distinct(SelectReady(ids, indeg))
    ensures forall v :: v in SelectReady(ids, indeg) <==> v in ids && Degree(indeg, v) == 0
  {
    if ids != [] {
      var init := ids[..|ids| - 1];
      SelectReadyMembers(init, indeg);
      assert ids == init + [ids[|ids| - 1]];
    }
  }

  lemma {:induction false} SelectsPicked(ids: seq<string>, indeg: map<string, int>, s: set<string>)
    requires forall v :: v in ids ==> (v in s <==> Degree(indeg, v) == 0)
    ensures SelectReady(ids, indeg) == Picked(ids, s)
  {
    if ids != [] { SelectsPicked(ids[..|ids| - 1], indeg, s); }
  }

  lemma FirstListed(ids: seq<string>, arcs: seq<Arc>, indeg: map<string, int>, queue: seq<string>)
    requires Distinct(ids) && queue == SelectReady(ids, indeg)
    ensures Listed(ids, arcs, []) && ListedNext(ids, arcs, [], queue)
  {
    SelectReadyMembers(ids, indeg);
    SelectsPicked(ids, indeg, Elems(queue));
  }

  lemma FirstQueue(ids: seq<string>, arcs: seq<Arc>, indeg: map<string, int>, queue: seq<string>)
    requires Distinct(ids) && CountsArcs(indeg, arcs, {}) && queue == SelectReady(ids, indeg)
    ensures Settled(arcs, [], {}) && Ready(ids, arcs, [], {}, queue)
  {
    SelectReadyMembers(ids, indeg);
    forall v ensures v in queue <==> v in ids && InCount(arcs, v, {}) == 0 {
      assert Degree(indeg, v) == InCount(arcs, v, {});
    }
  }

  lemma QueueIsNew(ids: seq<string>, arcs: seq<Arc>, layers: seq<seq<string>>, done: set<string>, queue: seq<string>)
    requires Ready(ids, arcs, layers, done, queue) && queue != [] && done <= Elems(ids)
    ensures var all := done + Elems(queue);
            all <= Elems(ids) && done < all && |all| == |done| + |queue|
  {
    var added := Elems(queue);
    DistinctCardinality(queue, added);
    assert done !! added;
    assert queue[0] in added;
  }

  lemma Residual(ids: seq<string>, arcs: seq<Arc>, layers: seq<seq<string>>, done: set<string>)
    requires Distinct(ids) && done <= Elems(ids) && |done| != |ids|
    requires Settled(arcs, layers, done) && Ready(ids, arcs, layers, done, [])
    requires forall a :: a in arcs ==> a.from in ids
    ensures !Acyclic(arcs)
  {
    hide Ready, Settled, Acyclic, HasPredecessorIn;
    var all := Elems(ids);
    DistinctCardinality(ids, all);
    var rest := all - done;
    SubsetCardinality(done, all);
    assert all == done + rest;
    forall v | v in rest ensures HasPredecessorIn(arcs, rest, v) { LeftHasPredecessor(ids, arcs, layers, done, v); }
    NoEntryMeansCycle(arcs, rest);
  }

  /** With nothing ready, a node that is left has a predecessor that is left. */
  lemma LeftHasPredecessor(ids: seq<string>, arcs: seq<Arc>, layers: seq<seq<string>>, done: set<string>, v: string)
    requires v in Elems(ids) - done && Ready(ids, arcs, layers, done, []) && forall a :: a in arcs ==> a.from in ids
    ensures HasPredecessorIn(arcs, Elems(ids) - done, v)
  {
    CountPositive(arcs, v, done);
    var none: seq<string> := [];
    assert v !in none;
    var u :| u !in done && Arc(u, v) in arcs;
    assert u in Elems(ids) - done;
  }

  lemma AllDone(ids: seq<string>, arcs: seq<Arc>, layers: seq<seq<string>>, done: set<string>)
    requires Distinct(ids) && done <= Elems(ids) && |done| == |ids|
    requires Settled(arcs, layers, done)
    ensures IsLayering(ids, arcs, layers)
  {
    var all := Elems(ids);
    DistinctCardinality(ids, all);
    SubsetCardinality(done, all);
    assert done == all;
  }

  // ---------------------------------------------------------------- what a layer index means

  /** A node's layer index is the length of the longest path into it: some walk with that many arcs
      ends there and none with more does. */
  lemma LayerIsLongestPath(ids: seq<string>, arcs: seq<Arc>, layers: seq<seq<string>>, k: nat, v: string)
    requires IsLayering(ids, arcs, layers) && In(layers, k, v)
    ensures exists w :: EndsAt(arcs, w, v) && |w| - 1 == k
    ensures forall w :: EndsAt(arcs, w, v) ==> |w| - 1 <= k
  {
    var w := LongestWalk(ids, arcs, layers, k, v);
    forall w | EndsAt(arcs, w, v) ensures |w| - 1 <= k {
      WalkFits(ids, arcs, layers, w, k);
    }
  }

  ghost predicate EndsAt(arcs: seq<Arc>, w: seq<string>, v: string) {
    Walk(arcs, w) && w[|w| - 1] == v
  }

  lemma {:induction false} LongestWalk(ids: seq<string>, arcs: seq<Arc>, layers: seq<seq<string>>, k: nat,
                                       v: string) returns (w: seq<string>)
    requires IsLayering(ids, arcs, layers) && In(layers, k, v)
    ensures EndsAt(arcs, w, v) && |w| == k + 1
  {
    if k == 0 {
      w := [v];
    } else {
      assert FedBy(arcs, layers, k - 1, v);
      var u :| In(layers, k - 1, u) && Arc(u, v) in arcs;
      var t := LongestWalk(ids, arcs, layers, k - 1, u);
      w := t + [v];
      forall i | 0 <= i < |w| - 1 ensures Arc(w[i], w[i + 1]) in arcs {
        if i < |t| - 1 { assert Arc(t[i], t[i + 1]) in arcs; }
      }
    }
  }

  lemma {:induction false} WalkFits(ids: seq<string>, arcs: seq<Arc>, layers: seq<seq<string>>, w: seq<string>, k: nat)
    requires IsLayering(ids, arcs, layers) && Walk(arcs, w) && In(layers, k, w[|w| - 1])
    ensures |w| - 1 <= k
  {
    if |w| > 1 {
      var n := |w|;
      assert Arc(w[n - 2], w[n - 2 + 1]) in arcs;
      assert LayeredBefore(layers, k, w[n - 2]);
      var j :| j < k && In(layers, j, w[n - 2]);
      var t := w[..n - 1];
      forall i | 0 <= i < |t| - 1 ensures Arc(t[i], t[i + 1]) in arcs { assert Arc(w[i], w[i + 1]) in arcs; }
      WalkFits(ids, arcs, layers, t, j);
    }
  }

  /** Same nodes and same arcs, listed in any order and with any repetition. */
  ghost predicate SameGraph(ids: seq<string>, arcs: seq<Arc>, ids': seq<string>, arcs': seq<Arc>) {
    && (forall n :: n in ids <==> n in ids')
    && (forall a :: a in arcs <==> a in arcs')
  }

  /** The layers depend on the graph alone: whatever order nodes and arcs are listed in, every layer
      holds the same nodes. */
  lemma LayersIgnoreListingOrder(ids: seq<string>, arcs: seq<Arc>, layers: seq<seq<string>>,
                                 ids': seq<string>, arcs': seq<Arc>, layers': seq<seq<string>>)
    requires IsLayering(ids, arcs, layers) && IsLayering(ids', arcs', layers')
    requires SameGraph(ids, arcs, ids', arcs')
    ensures |layers| == |layers'|
    ensures forall k, n :: In(layers, k, n) <==> In(layers', k, n)
  {
    forall k, n | In(layers, k, n) ensures In(layers', k, n) {
      SameLayer(ids, arcs, layers, ids', arcs', layers', k, n);
    }
    forall k, n | In(layers', k, n) ensures In(layers, k, n) {
      SameLayer(ids', arcs', layers', ids, arcs, layers, k, n);
    }
    LastLayerMatches(layers, layers');
    LastLayerMatches(layers', layers);
  }

  lemma LastLayerMatches(layers: seq<seq<string>>, layers': seq<seq<string>>)
    requires forall k :: 0 <= k < |layers| ==> layers[k] != []
    requires forall k, n :: In(layers, k, n) ==> In(layers', k, n)
    ensures |layers| <= |layers'|
  {
    if layers != [] {
      var k := |layers| - 1;
      assert In(layers, k, layers[k][0]);
    }
  }

  lemma SameLayer(ids: seq<string>, arcs: seq<Arc>, layers: seq<seq<string>>,
                  ids': seq<string>, arcs': seq<Arc>, layers': seq<seq<string>>, k: int, n: string)
    requires IsLayering(ids, arcs, layers) && IsLayering(ids', arcs', layers')
    requires SameGraph(ids, arcs, ids', arcs') && In(layers, k, n)
    ensures In(layers', k, n)
  {
    assert Layered(layers, n) && n in ids && Layered(layers', n);
    var k' :| In(layers', k', n);
    var w := LongestWalk(ids, arcs, layers, k, n);
    assert Walk(arcs', w);
    WalkFits(ids', arcs', layers', w, k');
    var w' := LongestWalk(ids', arcs', layers', k', n);
    assert Walk(arcs, w');
    WalkFits(ids, arcs, layers, w', k);
  }

  /** A graph has one layering in the order Compile lists it: the layers are a function of the flow. */
  lemma ListedIsUnique(ids: seq<string>, arcs: seq<Arc>, a: seq<seq<string>>, b: seq<seq<string>>)
    requires IsLayering(ids, arcs, a) && IsLayering(ids, arcs, b) && Listed(ids, arcs, a) && Listed(ids, arcs, b)
    ensures a == b
  {
    hide IsLayering;
    LayersIgnoreListingOrder(ids, arcs, a, ids, arcs, b);
    forall k | 0 <= k < |a| ensures a[k] == b[k] { ListedSame(ids, arcs, a, b, k); }
  }

  lemma {:induction false} ListedSame(ids: seq<string>, arcs: seq<Arc>, a: seq<seq<string>>, b: seq<seq<string>>,
                                      k: nat)
    requires Listed(ids, arcs, a) && Listed(ids, arcs, b) && k < |a| == |b|
    requires forall j, n :: In(a, j, n) <==> In(b, j, n)
    ensures a[k] == b[k]
  {
    hide Picked, LastSeen, Followed;
    forall n ensures n in a[k] <==> n in b[k] { assert In(a, k, n) <==> In(b, k, n); }
    assert Elems(a[k]) == Elems(b[k]);
    if k > 0 { ListedSame(ids, arcs, a, b, k - 1); }
  }

  /** A layering exists only for acyclic graphs (whose arcs stay among the layered nodes). */
  lemma LayeringMeansAcyclic(ids: seq<string>, arcs: seq<Arc>, layers: seq<seq<string>>)
    requires IsLayering(ids, arcs, layers) && forall a :: a in arcs ==> a.to in ids
    ensures Acyclic(arcs)
  {
    forall w | ClosedWalk(arcs, w) ensures false {
      assert Arc(w[|w| - 2], w[|w| - 2 + 1]) in arcs;
      assert Layered(layers, w[|w| - 1]);
      var k: int :| In(layers, k, w[|w| - 1]);
      WalkClimbs(ids, arcs, layers, w, k, k);
    }
  }

  lemma {:induction false} WalkClimbs(ids: seq<string>, arcs: seq<Arc>, layers: seq<seq<string>>, w: seq<string>,
                                      j: nat, k: nat)
    requires IsLayering(ids, arcs, layers) && Walk(arcs, w) && |w| >= 2
    requires In(layers, j, w[0]) && In(layers, k, w[|w| - 1])
    ensures j < k
  {
    var n := |w|;
    assert Arc(w[n - 2], w[n - 2 + 1]) in arcs;
    assert LayeredBefore(layers, k, w[n - 2]);
    var m :| m < k && In(layers, m, w[n - 2]);
    if n > 2 {
      var t := w[..n - 1];
      forall a | 0 <= a < |t| - 1 ensures Arc(t[a], t[a + 1]) in arcs { assert Arc(w[a], w[a + 1]) in arcs; }
      WalkClimbs(ids, arcs, layers, t, j, m);
    }
  }
}
