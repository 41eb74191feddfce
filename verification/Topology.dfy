/** The directed graph of a flow: every edge is an arc, and so is every mapping that reads a node port. */
module Topology {
  import opened Prelude
  import opened FlowIr

  datatype Arc = Arc(from: string, to: string)

  function EdgeArcs(es: seq<Edge>): seq<Arc> {
    if es == [] then [] else
      var last := es[|es| - 1];
      EdgeArcs(es[..|es| - 1]) + [Arc(last.source.node, last.target.node)]
  }

  function MappingArcs(ms: seq<Mapping>): seq<Arc> {
    if ms == [] then [] else
      var last := ms[|ms| - 1];
      MappingArcs(ms[..|ms| - 1]) +
      (if last.source.node != "" then [Arc(last.source.node, last.target.node)] else [])
  }

  function Arcs(f: Flow): seq<Arc> { EdgeArcs(f.edges) + MappingArcs(f.mappings) }

  /** out[u]: the targets of u's arcs, in listing order and with repetition. */
  function Targets(arcs: seq<Arc>, u: string): seq<string> {
    if arcs == [] then [] else
      var last := arcs[|arcs| - 1];
      Targets(arcs[..|arcs| - 1], u) + (if last.from == u then [last.to] else [])
  }

  lemma TargetsSnoc(arcs: seq<Arc>, a: Arc, u: string)
    ensures Targets(arcs + [a], u) == Targets(arcs, u) + (if a.from == u then [a.to] else [])
  {
    assert (arcs + [a])[..|arcs|] == arcs;
  }

  lemma {:induction false} TargetsMember(arcs: seq<Arc>, u: string, v: string)
    ensures v in Targets(arcs, u) <==> Arc(u, v) in arcs
  {
    if arcs != [] {
      TargetsMember(arcs[..|arcs| - 1], u, v);
      assert arcs == arcs[..|arcs| - 1] + [arcs[|arcs| - 1]];
    }
  }

  lemma {:induction false} EdgeArcMember(es: seq<Edge>, a: Arc)
    ensures a in EdgeArcs(es) <==> exists i :: 0 <= i < |es| && Arc(es[i].source.node, es[i].target.node) == a
  {
    if es != [] {
      var init := es[..|es| - 1];
      EdgeArcMember(init, a);
      assert forall i :: 0 <= i < |init| ==> init[i] == es[i];
      assert es[|es| - 1] == es[|es| - 1];
    }
  }

  lemma {:induction false} MappingArcMember(ms: seq<Mapping>, a: Arc)
    ensures a in MappingArcs(ms) <==>
            exists i :: 0 <= i < |ms| && ms[i].source.node != "" && Arc(ms[i].source.node, ms[i].target.node) == a
  {
    if ms != [] {
      var init := ms[..|ms| - 1];
      MappingArcMember(init, a);
      assert forall i :: 0 <= i < |init| ==> init[i] == ms[i];
      assert ms[|ms| - 1] == ms[|ms| - 1];
    }
  }

  function At(out: map<string, seq<string>>, u: string): seq<string> {
    if u in out then out[u] else []
  }

  ghost predicate IsSuccessorMap(out: map<string, seq<string>>, arcs: seq<Arc>) {
    forall u :: At(out, u) == Targets(arcs, u)
  }

  lemma SuccessorMapSnoc(out: map<string, seq<string>>, arcs: seq<Arc>, a: Arc)
    requires IsSuccessorMap(out, arcs)
    ensures IsSuccessorMap(out[a.from := At(out, a.from) + [a.to]], arcs + [a])
  {
    forall u ensures At(out[a.from := At(out, a.from) + [a.to]], u) == Targets(arcs + [a], u) {
      assert At(out, u) == Targets(arcs, u);
      TargetsSnoc(arcs, a, u);
    }
  }

  lemma EdgeArcsSnoc(es: seq<Edge>, i: nat)
    requires i < |es|
    ensures EdgeArcs(es[..i + 1]) == EdgeArcs(es[..i]) + [Arc(es[i].source.node, es[i].target.node)]
  {
    assert es[..i + 1][..i] == es[..i];
  }

  lemma MappingArcsSnoc(ms: seq<Mapping>, i: nat)
    requires i < |ms|
    ensures MappingArcs(ms[..i + 1]) == MappingArcs(ms[..i]) +
              (if ms[i].source.node != "" then [Arc(ms[i].source.node, ms[i].target.node)] else [])
  {
    assert ms[..i + 1][..i] == ms[..i];
  }

  /** The successor lists that findCycle and Compile each build. */
  method Successors(f: Flow) returns (out: map<string, seq<string>>)
    ensures IsSuccessorMap(out, Arcs(f))
  {
    hide *;
    out := map[];
    ghost var arcs: seq<Arc> := [];
    NoArcs(f);
    for i := 0 to |f.edges|
      invariant arcs == EdgeArcs(f.edges[..i])
      invariant IsSuccessorMap(out, arcs)
    {
      var e := f.edges[i];
      EdgeArcsSnoc(f.edges, i);
      SuccessorMapSnoc(out, arcs, Arc(e.source.node, e.target.node));
      arcs := arcs + [Arc(e.source.node, e.target.node)];
      out := out[e.source.node := At(out, e.source.node) + [e.target.node]];
    }
    assert f.edges[..|f.edges|] == f.edges;
    for i := 0 to |f.mappings|
      invariant arcs == EdgeArcs(f.edges) + MappingArcs(f.mappings[..i])
      invariant IsSuccessorMap(out, arcs)
    {
      var m := f.mappings[i];
      MappingArcsSnoc(f.mappings, i);
      if m.source.node != "" {
        SuccessorMapSnoc(out, arcs, Arc(m.source.node, m.target.node));
        assert EdgeArcs(f.edges) + (MappingArcs(f.mappings[..i]) + [Arc(m.source.node, m.target.node)])
            == arcs + [Arc(m.source.node, m.target.node)];
        arcs := arcs + [Arc(m.source.node, m.target.node)];
        out := out[m.source.node := At(out, m.source.node) + [m.target.node]];
      }
    }
    assert f.mappings[..|f.mappings|] == f.mappings;
    ArcsAre(f);
  }

  lemma NoArcs(f: Flow)
    ensures EdgeArcs(f.edges[..0]) == [] && MappingArcs(f.mappings[..0]) == [] && IsSuccessorMap(map[], [])
  {
  }

  lemma ArcsAre(f: Flow)
    ensures Arcs(f) == EdgeArcs(f.edges) + MappingArcs(f.mappings)
  {
  }

  // ---------------------------------------------------------------- walks and cycles

  ghost predicate Walk(arcs: seq<Arc>, w: seq<string>) {
    |w| > 0 && forall i :: 0 <= i < |w| - 1 ==> Arc(w[i], w[i + 1]) in arcs
  }

  ghost predicate ClosedWalk(arcs: seq<Arc>, w: seq<string>) {
    |w| >= 2 && Walk(arcs, w) && w[0] == w[|w| - 1]
  }

  ghost predicate Acyclic(arcs: seq<Arc>) {
    forall w :: !ClosedWalk(arcs, w)
  }

  /** Every successor of a listed node is listed before it. */
  ghost predicate ClosedOrder(arcs: seq<Arc>, order: seq<string>) {
    forall k, v :: 0 <= k < |order| && v in Targets(arcs, order[k]) ==> v in order[..k]
  }

  ghost function FirstIndex(order: seq<string>, x: string): (i: nat)
    requires x in order
    ensures i < |order| && order[i] == x && forall j :: 0 <= j < i ==> order[j] != x
  {
    if order[0] == x then 0 else 1 + FirstIndex(order[1..], x)
  }

  lemma FirstIndexBefore(order: seq<string>, k: nat, x: string)
    requires k <= |order| && x in order[..k]
    ensures x in order && FirstIndex(order, x) < k
  {
    var i :| 0 <= i < k && order[..k][i] == x;
    assert order[i] == x;
  }

  /** An order in which successors always come first rules out closed walks. */
  lemma OrderRulesOutCycles(arcs: seq<Arc>, order: seq<string>)
    requires ClosedOrder(arcs, order)
    requires forall a :: a in arcs ==> a.from in order
    ensures Acyclic(arcs)
  {
    forall w | ClosedWalk(arcs, w) ensures false {
      assert Arc(w[0], w[1]) in arcs;
      WalkDescends(arcs, order, w, |w| - 1);
    }
  }

  lemma {:induction false} WalkDescends(arcs: seq<Arc>, order: seq<string>, w: seq<string>, i: nat)
    requires ClosedOrder(arcs, order) && Walk(arcs, w) && i < |w| && w[0] in order
    ensures w[i] in order
    ensures i > 0 ==> FirstIndex(order, w[i]) < FirstIndex(order, w[0])
  {
    if i > 0 {
      WalkDescends(arcs, order, w, i - 1);
      var k := FirstIndex(order, w[i - 1]);
      assert Arc(w[i - 1], w[i - 1 + 1]) in arcs;
      TargetsMember(arcs, w[i - 1], w[i]);
      FirstIndexBefore(order, k, w[i]);
    }
  }

  ghost predicate HasPredecessorIn(arcs: seq<Arc>, rest: set<string>, v: string) {
    exists u :: u in rest && Arc(u, v) in arcs
  }

  /** If every node of a nonempty finite set has a predecessor in the set, the graph has a cycle. */
  lemma NoEntryMeansCycle(arcs: seq<Arc>, rest: set<string>)
    requires rest != {}
    requires forall v :: v in rest ==> HasPredecessorIn(arcs, rest, v)
    ensures !Acyclic(arcs)
  {
    var w := BackwardWalk(arcs, rest, |rest| + 1);
    if Distinct(w) { Pigeonhole(w, rest); }
    var i, j :| 0 <= i < j < |w| && w[i] == w[j];
    RepeatIsCycle(arcs, w, i, j);
  }

  lemma Pigeonhole(w: seq<string>, rest: set<string>)
    requires Distinct(w) && forall x :: x in w ==> x in rest
    ensures |w| <= |rest|
  {
    var seen := set x | x in w;
    DistinctCardinality(w, seen);
    SubsetCardinality(seen, rest);
  }

  lemma RepeatIsCycle(arcs: seq<Arc>, w: seq<string>, i: nat, j: nat)
    requires Walk(arcs, w) && i < j < |w| && w[i] == w[j]
    ensures !Acyclic(arcs)
  {
    var c := w[i..j + 1];
    forall k | 0 <= k < |c| - 1 ensures Arc(c[k], c[k + 1]) in arcs {
      assert c[k] == w[i + k] && c[k + 1] == w[i + k + 1];
      assert Arc(w[i + k], w[i + k + 1]) in arcs;
    }
    assert ClosedWalk(arcs, c);
  }

  lemma {:induction false} BackwardWalk(arcs: seq<Arc>, rest: set<string>, n: nat) returns (w: seq<string>)
    requires rest != {} && n > 0
    requires forall v :: v in rest ==> HasPredecessorIn(arcs, rest, v)
    ensures |w| == n && Walk(arcs, w) && forall x :: x in w ==> x in rest
  {
    if n == 1 {
      var v :| v in rest;
      w := [v];
    } else {
      var t := BackwardWalk(arcs, rest, n - 1);
      assert t[0] in t;
      var u :| u in rest && Arc(u, t[0]) in arcs;
      w := [u] + t;
      forall i | 0 <= i < |w| - 1 ensures Arc(w[i], w[i + 1]) in arcs {
        if i > 0 { assert Arc(t[i - 1], t[i - 1 + 1]) in arcs; }
      }
    }
  }
}
