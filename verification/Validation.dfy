/** Validate (v2/flow/validate.go): every static check, and exactly when a flow passes all of them. */
module Validation {
  import opened Prelude
  import opened FlowIr
  import opened Topology
  import Cycles
  import opened Layering

  datatype Issue =
    | EmptyId(node: nat) | EmptyType(node: nat) | DuplicateId(node: nat)
    | EdgeSource(edge: nat) | EdgeTarget(edge: nat) | EdgeSelfLoop(edge: nat) | DuplicateEdge(edge: nat)
    | InputNode(input: nat) | OutputNode(output: nat)
    | MappingSourceAmbiguous(mapping: nat) | MappingSourceEmpty(mapping: nat)
    | MappingSourceNode(mapping: nat) | MappingSourcePort(mapping: nat)
    | MappingTargetNode(mapping: nat) | MappingTargetPort(mapping: nat)
    | MappingPathSegment(mapping: nat) | MappingSelfLoop(mapping: nat)
    | CycleFound(cycle: seq<string>)

  datatype Verdict = Accepted | EmptyFlow | Rejected(issues: seq<Issue>)

  // ---------------------------------------------------------------- a valid flow

  ghost predicate Declares(f: Flow, id: string) { id != "" && id in Ids(f) }

  ghost predicate NodeOk(f: Flow, i: nat)
    requires i < |f.nodes|
  {
    f.nodes[i].id != "" && f.nodes[i].kind != "" && f.nodes[i].id !in Ids(f)[..i]
  }

  /** The text Validate uses to recognise a repeated edge. */
  function EdgeKey(e: Edge): string {
    e.source.node + "." + e.source.port + " -> " + e.target.node + "." + e.target.port
  }

  ghost predicate EdgeOk(f: Flow, i: nat)
    requires i < |f.edges|
  {
    var e := f.edges[i];
    Declares(f, e.source.node) && Declares(f, e.target.node) && e.source.node != e.target.node &&
    forall j :: 0 <= j < i ==> EdgeKey(f.edges[j]) != EdgeKey(e)
  }

  ghost predicate MappingOk(f: Flow, m: Mapping) {
    && (m.source.input != "") != (m.source.node != "" || m.source.port != "")
    && (m.source.input == "" ==> Declares(f, m.source.node) && m.source.port != "")
    && Declares(f, m.target.node) && m.target.port != ""
    && "" !in m.source.path && "" !in m.target.path
    && (m.source.node != "" ==> m.source.node != m.target.node)
  }

  ghost predicate Valid(f: Flow) {
    && f.nodes != []
    && (forall i :: 0 <= i < |f.nodes| ==> NodeOk(f, i))
    && (forall i :: 0 <= i < |f.edges| ==> EdgeOk(f, i))
    && (forall r :: r in f.inputs + f.outputs ==> Declares(f, r.node))
    && (forall m :: m in f.mappings ==> MappingOk(f, m))
    && Acyclic(Arcs(f))
  }

  // ---------------------------------------------------------------- what is reported

  /** What is to be reported of node i. One without an id is looked at no further. */
  ghost predicate NodeIssue(f: Flow, i: nat, x: Issue)
    requires i < |f.nodes|
  {
    var n := f.nodes[i];
    || (n.id == "" && x == EmptyId(i))
    || (n.id != "" && n.kind == "" && x == EmptyType(i))
    || (n.id != "" && n.id in Ids(f)[..i] && x == DuplicateId(i))
  }

  ghost predicate EdgeIssue(f: Flow, i: nat, x: Issue)
    requires i < |f.edges|
  {
    var e := f.edges[i];
    || (!Declares(f, e.source.node) && x == EdgeSource(i))
    || (!Declares(f, e.target.node) && x == EdgeTarget(i))
    || (e.source.node == e.target.node && x == EdgeSelfLoop(i))
    || ((exists j :: 0 <= j < i && EdgeKey(f.edges[j]) == EdgeKey(e)) && x == DuplicateEdge(i))
  }

  ghost predicate RefIssue(f: Flow, x: Issue) {
    || (exists i :: 0 <= i < |f.inputs| && !Declares(f, f.inputs[i].node) && x == InputNode(i))
    || (exists i :: 0 <= i < |f.outputs| && !Declares(f, f.outputs[i].node) && x == OutputNode(i))
  }

  /** What is to be reported of mapping i. Its source is an input or a port of a node, one of them and not both. */
  ghost predicate MappingIssue(f: Flow, i: nat, x: Issue)
    requires i < |f.mappings|
  {
    SourceIssue(f, i, x) || TargetIssue(f, i, x)
  }

  ghost predicate SourceIssue(f: Flow, i: nat, x: Issue)
    requires i < |f.mappings|
  {
    var m := f.mappings[i];
    || (m.source.input != "" && (m.source.node != "" || m.source.port != "") && x == MappingSourceAmbiguous(i))
    || (m.source.input == "" && m.source.node == "" && m.source.port == "" && x == MappingSourceEmpty(i))
    || (m.source.input == "" && (m.source.node != "" || m.source.port != "") && !Declares(f, m.source.node)
        && x == MappingSourceNode(i))
    || (m.source.input == "" && m.source.node != "" && m.source.port == "" && x == MappingSourcePort(i))
  }

  ghost predicate TargetIssue(f: Flow, i: nat, x: Issue)
    requires i < |f.mappings|
  {
    var m := f.mappings[i];
    || (!Declares(f, m.target.node) && x == MappingTargetNode(i))
    || (m.target.port == "" && x == MappingTargetPort(i))
    || (("" in m.source.path || "" in m.target.path) && x == MappingPathSegment(i))
    || (m.source.node != "" && m.source.node == m.target.node && x == MappingSelfLoop(i))
  }

  /** The issues of a flow, besides a cycle. */
  ghost predicate Raised(f: Flow, x: Issue) {
    || (exists i :: 0 <= i < |f.nodes| && NodeIssue(f, i, x))
    || (exists i :: 0 <= i < |f.edges| && EdgeIssue(f, i, x))
    || RefIssue(f, x)
    || (exists i :: 0 <= i < |f.mappings| && MappingIssue(f, i, x))
  }

  // ---------------------------------------------------------------- the checks

  /** Accepts exactly the valid flows, and reports of any other exactly the issues there are. */
  method Validate(f: Flow) returns (v: Verdict)
    ensures v.Accepted? <==> Valid(f)
    ensures v.EmptyFlow? <==> f.nodes == []
    ensures v.Rejected? ==> forall x: Issue :: !x.CycleFound? ==> (x in v.issues <==> Raised(f, x))
    ensures v.Rejected? && (exists c :: CycleFound(c) in v.issues) ==> !Acyclic(Arcs(f))
    ensures v.Rejected? && Cycles.SourcesDeclared(f) && !Acyclic(Arcs(f)) ==> exists c :: CycleFound(c) in v.issues
  {
    hide NodeIssue, EdgeIssue, RefIssue, MappingIssue, NodeOk, EdgeOk, MappingOk, Acyclic;
    if |f.nodes| == 0 { return EmptyFlow; }
    var ids, issues := CheckNodes(f);
    var more := CheckEdges(f, ids);
    issues := issues + more;
    more := CheckRefs(f, ids);
    issues := issues + more;
    ghost var before := issues;
    for i := 0 to |f.mappings|
      invariant issues == [] <==> Good(f) && forall j :: 0 <= j < i ==> MappingOk(f, f.mappings[j])
      invariant forall x :: x in issues <==> x in before || exists j :: 0 <= j < i && MappingIssue(f, j, x)
    {
      more := CheckMapping(f, ids, i);
      issues := issues + more;
    }
    assert (forall m :: m in f.mappings ==> MappingOk(f, m)) <==>
           (forall j :: 0 <= j < |f.mappings| ==> MappingOk(f, f.mappings[j]));
    assert forall x :: x in issues <==> Raised(f, x);
    CyclesApart(f);
    var cycle := Cycles.FindCycle(f);
    if issues == [] { ArcsDeclared(f); }
    if |cycle| > 0 {
      issues := issues + [CycleFound(cycle)];
      assert CycleFound(cycle) in issues;
    }
    if |issues| > 0 { return Rejected(issues); }
    return Accepted;
  }

  ghost predicate Good(f: Flow) {
    && (forall i :: 0 <= i < |f.nodes| ==> NodeOk(f, i))
    && (forall i :: 0 <= i < |f.edges| ==> EdgeOk(f, i))
    && (forall r :: r in f.inputs + f.outputs ==> Declares(f, r.node))
  }

  method CheckNodes(f: Flow) returns (ids: set<string>, issues: seq<Issue>)
    ensures forall x :: x in ids <==> Declares(f, x)
    ensures issues == [] <==> forall i :: 0 <= i < |f.nodes| ==> NodeOk(f, i)
    ensures forall x :: x in issues <==> exists i :: 0 <= i < |f.nodes| && NodeIssue(f, i, x)
  {
    ids, issues := {}, [];
    for i := 0 to |f.nodes|
      invariant forall x :: x in ids <==> x != "" && x in Ids(f)[..i]
      invariant issues == [] <==> forall j :: 0 <= j < i ==> NodeOk(f, j)
      invariant forall x :: x in issues <==> exists j :: 0 <= j < i && NodeIssue(f, j, x)
    {
      var n := f.nodes[i];
      assert Ids(f)[..i + 1] == Ids(f)[..i] + [n.id];
      var found := [];
      if n.id == "" {
        found := [EmptyId(i)];
      } else {
        if n.kind == "" { found := found + [EmptyType(i)]; }
        if n.id in ids {
          found := found + [DuplicateId(i)];
        } else {
          ids := ids + {n.id};
        }
      }
      assert found == [] <==> NodeOk(f, i);
      assert forall x :: x in found <==> NodeIssue(f, i, x);
      issues := issues + found;
    }
    assert Ids(f)[..|f.nodes|] == Ids(f);
  }

  method CheckEdges(f: Flow, ids: set<string>) returns (issues: seq<Issue>)
    requires forall x :: x in ids <==> Declares(f, x)
    ensures issues == [] <==> forall i :: 0 <= i < |f.edges| ==> EdgeOk(f, i)
    ensures forall x :: x in issues <==> exists i :: 0 <= i < |f.edges| && EdgeIssue(f, i, x)
  {
    hide Declares, EdgeKey;
    issues := [];
    var seen: set<string> := {};
    for i := 0 to |f.edges|
      invariant forall j :: 0 <= j < i ==> EdgeKey(f.edges[j]) in seen
      invariant forall k :: k in seen ==> exists j :: 0 <= j < i && EdgeKey(f.edges[j]) == k
      invariant forall x :: x in issues <==> exists j :: 0 <= j < i && EdgeIssue(f, j, x)
    {
      var e := f.edges[i];
      var found: seq<Issue> := [];
      if e.source.node !in ids { found := found + [EdgeSource(i)]; }
      if e.target.node !in ids { found := found + [EdgeTarget(i)]; }
      if e.source.node == e.target.node { found := found + [EdgeSelfLoop(i)]; }
      var key := EdgeKey(e);
      if key in seen { found := found + [DuplicateEdge(i)]; }
      seen := seen + {key};
      assert forall x :: x in found <==> EdgeIssue(f, i, x);
      issues := issues + found;
    }
    EdgesRaised(f, issues);
  }

  lemma EdgesRaised(f: Flow, issues: seq<Issue>)
    requires forall x :: x in issues <==> exists i :: 0 <= i < |f.edges| && EdgeIssue(f, i, x)
    ensures issues == [] <==> forall i :: 0 <= i < |f.edges| ==> EdgeOk(f, i)
  {
    if issues != [] {
      assert issues[0] in issues;
      var i :| 0 <= i < |f.edges| && EdgeIssue(f, i, issues[0]);
      EdgeRaised(f, i);
    } else {
      forall i | 0 <= i < |f.edges| ensures EdgeOk(f, i) {
        assert forall x :: EdgeIssue(f, i, x) ==> x in issues;
        EdgeRaised(f, i);
      }
    }
  }

  lemma EdgeRaised(f: Flow, i: nat)
    requires i < |f.edges|
    ensures EdgeOk(f, i) <==> forall x :: !EdgeIssue(f, i, x)
  {
    hide Declares, EdgeKey;
    if !EdgeOk(f, i) {
      var e := f.edges[i];
      assert EdgeIssue(f, i, EdgeSource(i)) || EdgeIssue(f, i, EdgeTarget(i))
          || EdgeIssue(f, i, EdgeSelfLoop(i)) || EdgeIssue(f, i, DuplicateEdge(i));
    }
  }

  method CheckRefs(f: Flow, ids: set<string>) returns (issues: seq<Issue>)
    requires forall x :: x in ids <==> Declares(f, x)
    ensures issues == [] <==> forall r :: r in f.inputs + f.outputs ==> Declares(f, r.node)
    ensures forall x :: x in issues <==> RefIssue(f, x)
  {
    issues := [];
    for i := 0 to |f.inputs|
      invariant forall x :: x in issues <==> exists j :: 0 <= j < i && !Declares(f, f.inputs[j].node) && x == InputNode(j)
    {
      if f.inputs[i].node !in ids { issues := issues + [InputNode(i)]; }
    }
    ghost var before := issues;
    for i := 0 to |f.outputs|
      invariant forall x :: x in issues <==> x in before || exists j :: 0 <= j < i && !Declares(f, f.outputs[j].node) && x == OutputNode(j)
    {
      if f.outputs[i].node !in ids { issues := issues + [OutputNode(i)]; }
    }
    RefsRaised(f, issues);
  }

  lemma RefsRaised(f: Flow, issues: seq<Issue>)
    requires forall x :: x in issues <==> RefIssue(f, x)
    ensures issues == [] <==> forall r :: r in f.inputs + f.outputs ==> Declares(f, r.node)
  {
    var refs := f.inputs + f.outputs;
    if issues != [] {
      var x := issues[0];
      assert x in issues;
      assert if x.InputNode? then f.inputs[x.input] in refs else f.outputs[x.output] in refs;
    } else {
      forall r | r in refs ensures Declares(f, r.node) {
        if r in f.inputs {
          var i :| 0 <= i < |f.inputs| && f.inputs[i] == r;
          assert !RefIssue(f, InputNode(i));
        } else {
          var i :| 0 <= i < |f.outputs| && f.outputs[i] == r;
          assert !RefIssue(f, OutputNode(i));
        }
      }
    }
  }

  method CheckMapping(f: Flow, ids: set<string>, i: nat) returns (issues: seq<Issue>)
    requires i < |f.mappings| && forall x :: x in ids <==> Declares(f, x)
    ensures issues == [] <==> MappingOk(f, f.mappings[i])
    ensures forall x :: x in issues <==> MappingIssue(f, i, x)
  {
    var m := f.mappings[i];
    issues := [];
    var inputSource, nodeSource := m.source.input != "", m.source.node != "" || m.source.port != "";
    if inputSource && nodeSource {
      issues := issues + [MappingSourceAmbiguous(i)];
    } else if !inputSource && !nodeSource {
      issues := issues + [MappingSourceEmpty(i)];
    } else if nodeSource {
      if m.source.node == "" || m.source.node !in ids { issues := issues + [MappingSourceNode(i)]; }
      if m.source.port == "" { issues := issues + [MappingSourcePort(i)]; }
    }
    if m.target.node == "" || m.target.node !in ids { issues := issues + [MappingTargetNode(i)]; }
    if m.target.port == "" { issues := issues + [MappingTargetPort(i)]; }
    ghost var before := issues;
    for j := 0 to |m.source.path|
      invariant forall x :: x in issues <==> x in before || (x == MappingPathSegment(i) && "" in m.source.path[..j])
    {
      assert m.source.path[..j + 1] == m.source.path[..j] + [m.source.path[j]];
      if m.source.path[j] == "" { issues := issues + [MappingPathSegment(i)]; }
    }
    assert m.source.path[..|m.source.path|] == m.source.path;
    ghost var between := issues;
    for j := 0 to |m.target.path|
      invariant forall x :: x in issues <==> x in between || (x == MappingPathSegment(i) && "" in m.target.path[..j])
    {
      assert m.target.path[..j + 1] == m.target.path[..j] + [m.target.path[j]];
      if m.target.path[j] == "" { issues := issues + [MappingPathSegment(i)]; }
    }
    assert m.target.path[..|m.target.path|] == m.target.path;
    if m.source.node != "" && m.source.node == m.target.node { issues := issues + [MappingSelfLoop(i)]; }
    MappingRaised(f, i, issues);
  }

  lemma MappingRaised(f: Flow, i: nat, issues: seq<Issue>)
    requires i < |f.mappings| && forall x :: x in issues <==> MappingIssue(f, i, x)
    ensures issues == [] <==> MappingOk(f, f.mappings[i])
  {
    if issues != [] {
      assert MappingIssue(f, i, issues[0]);
    } else {
      assert !MappingIssue(f, i, MappingSourceAmbiguous(i)) && !MappingIssue(f, i, MappingSourceEmpty(i));
      assert !MappingIssue(f, i, MappingSourceNode(i)) && !MappingIssue(f, i, MappingSourcePort(i));
      assert !MappingIssue(f, i, MappingTargetNode(i)) && !MappingIssue(f, i, MappingTargetPort(i));
      assert !MappingIssue(f, i, MappingPathSegment(i)) && !MappingIssue(f, i, MappingSelfLoop(i));
    }
  }

  /** A cycle is none of the other issues. */
  lemma CyclesApart(f: Flow)
    ensures forall c :: !Raised(f, CycleFound(c))
  {
  }

  // ---------------------------------------------------------------- repeated edges

  lemma Inside(a: string, x: string, b: string, y: string, c: char)
    requires a + [c] + x == b + [c] + y && |a| < |b|
    ensures c in b
  {
    assert (a + [c] + x)[|a|] == c && (b + [c] + y)[|a|] == b[|a|];
  }

  lemma SplitOnce(a: string, x: string, b: string, y: string, c: char)
    requires c !in a && c !in b && a + [c] + x == b + [c] + y
    ensures a == b && x == y
  {
    if |a| < |b| { Inside(a, x, b, y, c); }
    if |b| < |a| { Inside(b, y, a, x, c); }
    var s, t := a + [c] + x, b + [c] + y;
    assert a == s[..|a|] == t[..|b|] == b;
    assert x == s[|a| + 1..] == t[|b| + 1..] == y;
  }

  /** Among node ids without a dot and source ports without a space, the text tells edges apart by their ends. */
  lemma KeysTellApart(a: Edge, b: Edge)
    requires '.' !in a.source.node && '.' !in b.source.node && '.' !in a.target.node && '.' !in b.target.node
    requires ' ' !in a.source.port && ' ' !in b.source.port
    ensures EdgeKey(a) == EdgeKey(b) <==> a.source == b.source && a.target == b.target
  {
    if EdgeKey(a) == EdgeKey(b) {
      var u, v := a.target.node + "." + a.target.port, b.target.node + "." + b.target.port;
      assert EdgeKey(a) == a.source.node + ['.'] + (a.source.port + [' '] + ("-> " + u));
      assert EdgeKey(b) == b.source.node + ['.'] + (b.source.port + [' '] + ("-> " + v));
      SplitOnce(a.source.node, a.source.port + [' '] + ("-> " + u), b.source.node, b.source.port + [' '] + ("-> " + v),
                '.');
      SplitOnce(a.source.port, "-> " + u, b.source.port, "-> " + v, ' ');
      assert u == ("-> " + u)[3..] == ("-> " + v)[3..] == v;
      SplitOnce(a.target.node, a.target.port, b.target.node, b.target.port, '.');
    }
  }

  /** A dot in a node id can make two different edges read the same, and Validate takes the second for a repetition. */
  lemma FalseRepetition(n: string, p: string, to: PortRef, cond: string)
    ensures var a, b := Edge(PortRef(n + ".x", p), to, cond), Edge(PortRef(n, "x." + p), to, cond);
            a != b && EdgeKey(a) == EdgeKey(b)
  {
    assert n + ".x" + "." + p == n + "." + ("x." + p);
    assert |n + ".x"| != |n|;
  }

  // ---------------------------------------------------------------- consequences for Compile

  lemma ArcsDeclared(f: Flow)
    requires forall i :: 0 <= i < |f.edges| ==> EdgeOk(f, i)
    requires forall m :: m in f.mappings ==> MappingOk(f, m)
    ensures forall a :: a in Arcs(f) ==> Declares(f, a.from) && Declares(f, a.to)
  {
    forall a | a in Arcs(f) ensures Declares(f, a.from) && Declares(f, a.to) {
      EdgeArcMember(f.edges, a);
      MappingArcMember(f.mappings, a);
      if a in EdgeArcs(f.edges) {
        var i :| 0 <= i < |f.edges| && Arc(f.edges[i].source.node, f.edges[i].target.node) == a;
        assert EdgeOk(f, i);
      } else {
        var i :| 0 <= i < |f.mappings| && f.mappings[i].source.node != "" &&
                 Arc(f.mappings[i].source.node, f.mappings[i].target.node) == a;
        assert f.mappings[i] in f.mappings;
      }
    }
  }

  lemma ValidIsDistinct(f: Flow)
    requires Valid(f)
    ensures Distinct(Ids(f))
  {
    var ids := Ids(f);
    forall i, j | 0 <= i < j < |ids| ensures ids[i] != ids[j] {
      assert NodeOk(f, j) && ids[..j][i] == ids[i];
    }
  }

  /** Compile's layering step on a flow Validate accepts. The depth-first search and Kahn's algorithm
      agree: every accepted flow is fully layered, so the residual-cycle error is never returned. */
  method LayerValidated(f: Flow) returns (layers: Option<seq<seq<string>>>)
    requires Valid(f)
    ensures layers.Some? && IsLayering(Ids(f), Arcs(f), layers.value) && Listed(Ids(f), Arcs(f), layers.value)
  {
    ValidIsDistinct(f);
    ArcsDeclared(f);
    layers := Layer(f);
  }
}
