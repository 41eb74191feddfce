/** The structural hash (v2/flow/structhash.go), Compile (v2/flow/engine.go), and what the resume guard's
    admission of a checkpoint means for its cursor. */
module Guard {
  import opened Prelude
  import opened FlowIr
  import opened Topology
  import opened Layering
  import opened Validation
  import opened Wiring
  import opened State
  import opened LayeredEngine
  import opened Resume
  import opened LegChain

  // ---------------------------------------------------------------- the descriptor

  datatype NodeDesc = NodeDesc(id: string, kind: string, inputs: seq<string>, outputs: seq<string>)

  datatype EdgeDesc = EdgeDesc(index: nat, edge: Edge)

  datatype MappingDesc = MappingDesc(index: nat, mapping: Mapping)

  datatype Descriptor = Descriptor(nodes: seq<NodeDesc>, edges: seq<EdgeDesc>, mappings: seq<MappingDesc>)

  /** typeByID[id]: the type of the last node declared with the id. */
  function TypeOf(nodes: seq<NodeDecl>, id: string): string {
    if nodes == [] then ""
    else if nodes[|nodes| - 1].id == id then nodes[|nodes| - 1].kind
    else TypeOf(nodes[..|nodes| - 1], id)
  }

  function DescribeNode(f: Flow, nodes: map<string, NodeKind>, id: string): NodeDesc
    requires id in nodes
  {
    NodeDesc(id, TypeOf(f.nodes, id), SortStrings(nodes[id].inputs), SortStrings(nodes[id].outputs))
  }

  /** Nodes by id, edges and mappings by position. Node.Config is left out; so are Inputs and Outputs. */
  function Describe(f: Flow, nodes: map<string, NodeKind>): Option<Descriptor> {
    var ids := SortStrings(Ids(f));
    if !(forall i :: 0 <= i < |ids| ==> ids[i] in nodes) then None
    else Some(Descriptor(
      seq(|ids|, i requires 0 <= i < |ids| => DescribeNode(f, nodes, ids[i])),
      seq(|f.edges|, i requires 0 <= i < |f.edges| => EdgeDesc(i, f.edges[i])),
      seq(|f.mappings|, i requires 0 <= i < |f.mappings| => MappingDesc(i, f.mappings[i]))))
  }

  /** structuralHash, up to the marshalling and hashing of the descriptor. */
  method StructuralDescriptor(f: Flow, nodes: map<string, NodeKind>) returns (d: Option<Descriptor>)
    ensures d == Describe(f, nodes)
    ensures d.None? <==> exists i :: 0 <= i < |f.nodes| && f.nodes[i].id !in nodes
    ensures d.Some? ==> |d.value.nodes| == |f.nodes| && forall x :: x in d.value.nodes ==> x.id in Ids(f)
    ensures d.Some? ==> |d.value.edges| == |f.edges| && |d.value.mappings| == |f.mappings|
    ensures d.Some? ==> forall i :: 0 <= i < |f.edges| ==> d.value.edges[i] == EdgeDesc(i, f.edges[i])
    ensures d.Some? ==> forall i :: 0 <= i < |f.mappings| ==> d.value.mappings[i] == MappingDesc(i, f.mappings[i])
  {
    var ids := SortStrings(Ids(f));
    var nds: seq<NodeDesc> := [];
    for i := 0 to |ids|
      invariant forall j :: 0 <= j < i ==> ids[j] in nodes
      invariant |nds| == i && forall j :: 0 <= j < i ==> nds[j] == DescribeNode(f, nodes, ids[j])
    {
      assert ids[i] in ids;
      if ids[i] !in nodes { return None; }
      nds := nds + [DescribeNode(f, nodes, ids[i])];
    }
    var eds: seq<EdgeDesc> := [];
    for i := 0 to |f.edges|
      invariant |eds| == i && forall j :: 0 <= j < i ==> eds[j] == EdgeDesc(j, f.edges[j])
    {
      eds := eds + [EdgeDesc(i, f.edges[i])];
    }
    var mds: seq<MappingDesc> := [];
    for i := 0 to |f.mappings|
      invariant |mds| == i && forall j :: 0 <= j < i ==> mds[j] == MappingDesc(j, f.mappings[j])
    {
      mds := mds + [MappingDesc(i, f.mappings[i])];
    }
    forall i | 0 <= i < |f.nodes| ensures f.nodes[i].id in nodes { assert Ids(f)[i] in ids; }
    d := Some(Descriptor(nds, eds, mds));
    var spec := Describe(f, nodes).value;
    assert nds == spec.nodes && eds == spec.edges && mds == spec.mappings;
  }

  // ---------------------------------------------------------------- Compile

  /** ConditionEvaluator.Compile: None is a syntax error. */
  type Evaluator = string -> Option<string -> CondResult>

  datatype CompileError =
    | Invalid(verdict: Verdict)
    | BuildFailed(node: string)
    | NoEvaluator(edge: nat)
    | BadCondition(edge: nat)
    | ResidualCycle
    | AmbiguousInterrupts(layer: nat)

  ghost predicate Builds(f: Flow, build: NodeDecl -> Option<NodeKind>) {
    forall i :: 0 <= i < |f.nodes| ==> build(f.nodes[i]).Some?
  }

  ghost predicate ConditionOk(e: Edge, eval: Option<Evaluator>) {
    e.condition == "" || (eval.Some? && eval.value(e.condition).Some?)
  }

  ghost predicate Conditions(f: Flow, eval: Option<Evaluator>) {
    forall i :: 0 <= i < |f.edges| ==> ConditionOk(f.edges[i], eval)
  }

  function Evaluate(eval: Option<Evaluator>): (string, string) -> CondResult {
    (text, value) => if eval.Some? && eval.value(text).Some? then eval.value(text).value(value) else Breaks
  }

  ghost predicate Resolved(f: Flow, build: NodeDecl -> Option<NodeKind>, nodes: map<string, NodeKind>, upto: nat)
    requires upto <= |f.nodes|
  {
    && (forall n :: n in nodes <==> exists i :: 0 <= i < upto && f.nodes[i].id == n)
    && (forall i :: 0 <= i < upto ==> build(f.nodes[i]) == Some(nodes[f.nodes[i].id]))
  }

  /** Layer k of the flow holds two interrupt-capable nodes. By LayersIgnoreListingOrder every layering agrees. */
  ghost predicate Ambiguous(f: Flow, build: NodeDecl -> Option<NodeKind>, k: nat) {
    exists e: Engine :: CrowdedIn(e, f, build, k)
  }

  ghost predicate CrowdedIn(e: Engine, f: Flow, build: NodeDecl -> Option<NodeKind>, k: nat) {
    && e.flow == f && IsLayering(Ids(f), Arcs(f), e.layers) && Resolved(f, build, e.nodes, |f.nodes|)
    && k < |e.layers| && !AtMostOneInterrupt(e, e.layers[k])
  }

  /** Compile succeeds exactly on a valid flow whose nodes all build, whose conditions all compile and, when
      a checkpoint store is configured, whose layers hold at most one interrupt-capable node each; the
      engine is then compiled and its conditions are the evaluator's. The residual-cycle error never happens. */
  method Compile(f: Flow, build: NodeDecl -> Option<NodeKind>, eval: Option<Evaluator>, store: bool,
                 hashFlow: Flow -> string, hashDesc: Descriptor -> string) returns (r: Result<Engine, CompileError>)
    ensures r.Ok? ==> && Compiled(r.value) && r.value.flow == f && r.value.hasStore == store
                      && Builds(f, build) && Conditions(f, eval) && Resolved(f, build, r.value.nodes, |f.nodes|)
                      && Hashed(r.value, hashFlow, hashDesc) && Listed(Ids(f), Arcs(f), r.value.layers)
    ensures r.Ok? ==> forall i :: 0 <= i < |f.edges| && f.edges[i].condition != "" ==>
              eval.Some? && eval.value(f.edges[i].condition).Some?
    ensures r.Ok? ==> forall i, v :: 0 <= i < |f.edges| && f.edges[i].condition != "" ==>
              r.value.cond(f.edges[i].condition, v) == eval.value(f.edges[i].condition).value(v)
    ensures r.Err? ==> match r.error
                       case Invalid(_) => !Valid(f)
                       case BuildFailed(n) => exists i :: 0 <= i < |f.nodes| && f.nodes[i].id == n && build(f.nodes[i]).None?
                       case NoEvaluator(i) => i < |f.edges| && f.edges[i].condition != "" && eval.None?
                       case BadCondition(i) => i < |f.edges| && f.edges[i].condition != "" && eval.Some? && eval.value(f.edges[i].condition).None?
                       case AmbiguousInterrupts(k) => store && Ambiguous(f, build, k)
                       case ResidualCycle => false
  {
    hide Valid, Describe, IsLayering, Listed, AtMostOneInterrupt, Builds, Conditions;
    var verdict := Validate(f);
    if !verdict.Accepted? { return Err(Invalid(verdict)); }
    var nodes := BuildNodes(f, build);
    if nodes.Err? { return Err(nodes.error); }
    var bad := CheckConditions(f, eval);
    if bad.Some? { return Err(bad.value); }
    var layers := LayerValidated(f);
    if layers.None? { return Err(ResidualCycle); }
    AllResolved(f, build, nodes.value);
    var d := StructuralDescriptor(f, nodes.value);
    var e := Engine.Engine(f, nodes.value, layers.value, Evaluate(eval), store, hashFlow(f), hashDesc(d.value));
    if store {
      for k := 0 to |layers.value|
        invariant forall j :: 0 <= j < k ==> AtMostOneInterrupt(e, layers.value[j])
      {
        var one := CheckLayer(e, layers.value[k]);
        if !one {
          assert CrowdedIn(e, f, build, k);
          return Err(AmbiguousInterrupts(k));
        }
      }
    }
    r := Ok(e);
    Evaluated(r.value, f, eval);
  }

  lemma Evaluated(e: Engine, f: Flow, eval: Option<Evaluator>)
    requires e.cond == Evaluate(eval) && Conditions(f, eval)
    ensures forall i :: 0 <= i < |f.edges| && f.edges[i].condition != "" ==>
              eval.Some? && eval.value(f.edges[i].condition).Some?
    ensures forall i, v :: 0 <= i < |f.edges| && f.edges[i].condition != "" ==>
              e.cond(f.edges[i].condition, v) == eval.value(f.edges[i].condition).value(v)
  {
    forall i | 0 <= i < |f.edges| && f.edges[i].condition != "" ensures ConditionOk(f.edges[i], eval) {}
    forall i, v | 0 <= i < |f.edges| && f.edges[i].condition != ""
      ensures eval.Some? && eval.value(f.edges[i].condition).Some?
      ensures e.cond(f.edges[i].condition, v) == eval.value(f.edges[i].condition).value(v)
    {
      assert ConditionOk(f.edges[i], eval);
      assert Evaluate(eval)(f.edges[i].condition, v) == eval.value(f.edges[i].condition).value(v);
    }
  }

  /** The static check passes on no layering that it refuses on another. */
  lemma CompiledIsUnambiguous(e: Engine, build: NodeDecl -> Option<NodeKind>, k: nat)
    requires Compiled(e) && e.hasStore && Resolved(e.flow, build, e.nodes, |e.flow.nodes|)
    ensures !Ambiguous(e.flow, build, k)
  {
    hide Valid;
    var f := e.flow;
    if x: Engine :| CrowdedIn(x, f, build, k) {
      LayersIgnoreListingOrder(Ids(f), Arcs(f), x.layers, Ids(f), Arcs(f), e.layers);
      var i, j :| 0 <= i < j < |x.layers[k]| && CanInterrupt(x, x.layers[k][i]) && CanInterrupt(x, x.layers[k][j]);
      var m, n := x.layers[k][i], x.layers[k][j];
      assert In(x.layers, k, m) && In(x.layers, k, n);
      assert In(e.layers, k, m) && In(e.layers, k, n);
      var a :| 0 <= a < |e.layers[k]| && e.layers[k][a] == m;
      var b :| 0 <= b < |e.layers[k]| && e.layers[k][b] == n;
      assert CanInterrupt(e, m) && CanInterrupt(e, n) && m != n;
    }
  }

  method BuildNodes(f: Flow,
                    build: NodeDecl -> Option<NodeKind>) returns (r: Result<map<string, NodeKind>, CompileError>)
    requires Valid(f)
    ensures r.Ok? ==> Builds(f, build) && Resolved(f, build, r.value, |f.nodes|)
    ensures r.Err? ==> r.error.BuildFailed? && exists i :: 0 <= i < |f.nodes| && f.nodes[i].id == r.error.node && build(f.nodes[i]).None?
  {
    var nodes: map<string, NodeKind> := map[];
    ValidIsDistinct(f);
    for i := 0 to |f.nodes|
      invariant Resolved(f, build, nodes, i)
    {
      var kind := build(f.nodes[i]);
      if kind.None? { return Err(BuildFailed(f.nodes[i].id)); }
      forall j | 0 <= j < i ensures f.nodes[j].id != f.nodes[i].id { assert Ids(f)[j] != Ids(f)[i]; }
      nodes := nodes[f.nodes[i].id := kind.value];
    }
    return Ok(nodes);
  }

  method CheckConditions(f: Flow, eval: Option<Evaluator>) returns (bad: Option<CompileError>)
    ensures bad.None? <==> Conditions(f, eval)
    ensures bad.Some? ==> match bad.value
                          case NoEvaluator(i) => i < |f.edges| && f.edges[i].condition != "" && eval.None?
                          case BadCondition(i) => i < |f.edges| && f.edges[i].condition != "" && eval.Some? && eval.value(f.edges[i].condition).None?
                          case _ => false
  {
    for i := 0 to |f.edges|
      invariant forall j :: 0 <= j < i ==> ConditionOk(f.edges[j], eval)
    {
      if f.edges[i].condition == "" { continue; }
      if eval.None? {
        assert !ConditionOk(f.edges[i], eval);
        return Some(NoEvaluator(i));
      }
      if eval.value(f.edges[i].condition).None? {
        assert !ConditionOk(f.edges[i], eval);
        return Some(BadCondition(i));
      }
    }
    return None;
  }

  lemma AllResolved(f: Flow, build: NodeDecl -> Option<NodeKind>, nodes: map<string, NodeKind>)
    requires Resolved(f, build, nodes, |f.nodes|)
    ensures forall n :: n in Ids(f) ==> n in nodes
    ensures Describe(f, nodes).Some?
  {
    forall n | n in Ids(f) ensures n in nodes {
      var i :| 0 <= i < |Ids(f)| && Ids(f)[i] == n;
      assert f.nodes[i].id == n;
    }
    var ids := SortStrings(Ids(f));
    forall i | 0 <= i < |ids| ensures ids[i] in nodes { assert ids[i] in ids; }
  }

  /** The static multi-interrupt check of one layer. */
  method CheckLayer(e: Engine, layer: seq<string>) returns (one: bool)
    ensures one <==> AtMostOneInterrupt(e, layer)
  {
    var count := 0;
    ghost var first := -1;
    ghost var second := -1;
    for i := 0 to |layer|
      invariant count >= 0
      invariant count == 0 ==> forall j :: 0 <= j < i ==> !CanInterrupt(e, layer[j])
      invariant count >= 1 ==> 0 <= first < i && CanInterrupt(e, layer[first])
      invariant count == 1 ==> forall j :: 0 <= j < i && j != first ==> !CanInterrupt(e, layer[j])
      invariant count >= 2 ==> first < second < i && CanInterrupt(e, layer[second])
    {
      if CanInterrupt(e, layer[i]) {
        if count == 0 { first := i; } else if count == 1 { second := i; }
        count := count + 1;
      }
    }
    one := count <= 1;
  }

  // ---------------------------------------------------------------- the guard

  /** The engine's hashes are those of its flow and descriptor. */
  ghost predicate Hashed(e: Engine, hashFlow: Flow -> string, hashDesc: Descriptor -> string) {
    && e.flowHash == hashFlow(e.flow)
    && Describe(e.flow, e.nodes).Some?
    && e.structHash == hashDesc(Describe(e.flow, e.nodes).value)
  }

  ghost predicate Injective<T(!new)>(h: T -> string) {
    forall a, b :: h(a) == h(b) ==> a == b
  }

  /** Equal descriptors fix the wires, their positions and the nodes. */
  lemma DescriptorFixesGraph(f: Flow, nodes: map<string, NodeKind>, f': Flow, nodes': map<string, NodeKind>)
    requires Describe(f, nodes).Some? && Describe(f, nodes) == Describe(f', nodes')
    ensures f.edges == f'.edges && f.mappings == f'.mappings
    ensures forall n :: n in Ids(f) <==> n in Ids(f')
  {
    var d, d' := Describe(f, nodes).value, Describe(f', nodes').value;
    assert |f.edges| == |d.edges| == |d'.edges| == |f'.edges|;
    forall i | 0 <= i < |f.edges| ensures f.edges[i] == f'.edges[i] { assert d.edges[i] == d'.edges[i]; }
    assert |f.mappings| == |d.mappings| == |d'.mappings| == |f'.mappings|;
    forall i | 0 <= i < |f.mappings| ensures f.mappings[i] == f'.mappings[i] { assert d.mappings[i] == d'.mappings[i]; }
    var ids, ids' := SortStrings(Ids(f)), SortStrings(Ids(f'));
    assert |ids| == |d.nodes| == |d'.nodes| == |ids'|;
    forall i | 0 <= i < |ids| ensures ids[i] == ids'[i] { assert d.nodes[i] == d'.nodes[i]; }
    assert ids == ids';
  }

  /** The ports of a node type, in any order. */
  ghost predicate SamePorts(k: NodeKind, k': NodeKind) {
    multiset(k.inputs) == multiset(k'.inputs) && multiset(k.outputs) == multiset(k'.outputs)
  }

  /** The nodes the flows declare with the same id have the same type. */
  ghost predicate SameTypes(f: Flow, f': Flow) {
    forall i, j :: 0 <= i < |f.nodes| && 0 <= j < |f'.nodes| && f.nodes[i].id == f'.nodes[j].id ==>
                     f.nodes[i].kind == f'.nodes[j].kind
  }

  lemma {:induction false} TypeOfDeclared(nodes: seq<NodeDecl>, i: nat)
    requires i < |nodes| && forall j, k :: 0 <= j < k < |nodes| ==> nodes[j].id != nodes[k].id
    ensures TypeOf(nodes, nodes[i].id) == nodes[i].kind
  {
    if i < |nodes| - 1 { TypeOfDeclared(nodes[..|nodes| - 1], i); }
  }

  lemma TypesAre(f: Flow, f': Flow)
    requires Distinct(Ids(f)) && Distinct(Ids(f')) && forall n :: n in Ids(f) <==> n in Ids(f')
    ensures SameTypes(f, f') <==> forall n :: n in Ids(f) ==> TypeOf(f.nodes, n) == TypeOf(f'.nodes, n)
  {
    hide TypeOf;
    forall i, j | 0 <= i < j < |f.nodes| ensures f.nodes[i].id != f.nodes[j].id { assert Ids(f)[i] != Ids(f)[j]; }
    forall i, j | 0 <= i < j < |f'.nodes| ensures f'.nodes[i].id != f'.nodes[j].id { assert Ids(f')[i] != Ids(f')[j]; }
    forall i | 0 <= i < |f.nodes|
      ensures TypeOf(f.nodes, f.nodes[i].id) == f.nodes[i].kind
    {
      TypeOfDeclared(f.nodes, i);
    }
    forall i | 0 <= i < |f'.nodes|
      ensures TypeOf(f'.nodes, f'.nodes[i].id) == f'.nodes[i].kind
    {
      TypeOfDeclared(f'.nodes, i);
    }
    if SameTypes(f, f') {
      forall n | n in Ids(f) ensures TypeOf(f.nodes, n) == TypeOf(f'.nodes, n) {
        var i :| 0 <= i < |f.nodes| && Ids(f)[i] == n;
        var j :| 0 <= j < |f'.nodes| && Ids(f')[j] == n;
      }
    } else {
      var i, j :| 0 <= i < |f.nodes| && 0 <= j < |f'.nodes| && f.nodes[i].id == f'.nodes[j].id && f.nodes[i].kind != f'.nodes[j].kind;
      assert Ids(f)[i] in Ids(f);
    }
  }

  /** What the descriptor forgets: the order nodes are listed in and their types list ports in, their Config, what Run
      does, and the declared inputs and outputs of the flow. Everything else it keeps, so admission by descriptor is
      exactly this. */
  lemma DescriptorForgets(f: Flow, nodes: map<string, NodeKind>, f': Flow, nodes': map<string, NodeKind>)
    requires Valid(f) && Valid(f') && (forall n :: n in Ids(f) <==> n in Ids(f'))
    requires forall n :: n in Ids(f) ==> n in nodes && n in nodes'
    ensures Describe(f, nodes) == Describe(f', nodes') <==>
            && f.edges == f'.edges && f.mappings == f'.mappings && SameTypes(f, f')
            && forall n :: n in Ids(f) ==> SamePorts(nodes[n], nodes'[n])
  {
    hide Valid, TypeOf, SortStrings, SameTypes;
    ValidIsDistinct(f);
    ValidIsDistinct(f');
    TypesAre(f, f');
    SortStringsSorts(Ids(f));
    SortStringsSorts(Ids(f'));
    var ids := SortStrings(Ids(f));
    SortedIsUnique(ids, SortStrings(Ids(f')));
    forall n | n in Ids(f)
      ensures DescribeNode(f, nodes, n) == DescribeNode(f', nodes', n) <==>
              TypeOf(f.nodes, n) == TypeOf(f'.nodes, n) && SamePorts(nodes[n], nodes'[n])
    {
      SortsAlike(nodes[n].inputs, nodes'[n].inputs);
      SortsAlike(nodes[n].outputs, nodes'[n].outputs);
    }
    hide SamePorts, DescribeNode;
    var d, d' := Describe(f, nodes).value, Describe(f', nodes').value;
    if f.edges == f'.edges && f.mappings == f'.mappings
       && forall n :: n in Ids(f) ==> DescribeNode(f, nodes, n) == DescribeNode(f', nodes', n)
    {
      assert d.edges == d'.edges && d.mappings == d'.mappings;
      forall i | 0 <= i < |ids| ensures d.nodes[i] == d'.nodes[i] { assert ids[i] in ids; }
      assert d.nodes == d'.nodes;
    }
    if Describe(f, nodes) == Describe(f', nodes') {
      DescriptorFixesGraph(f, nodes, f', nodes');
      forall n | n in Ids(f) ensures DescribeNode(f, nodes, n) == DescribeNode(f', nodes', n) {
        assert n in ids;
        var i :| 0 <= i < |ids| && ids[i] == n;
        assert d.nodes[i] == d'.nodes[i];
      }
    }
  }

  /** Two engines wired alike, with the same layers up to the order inside each. */
  ghost predicate SameShape(e: Engine, e': Engine) {
    && e.flow.edges == e'.flow.edges && e.flow.mappings == e'.flow.mappings
    && |e.layers| == |e'.layers|
    && (forall k, n :: In(e.layers, k, n) <==> In(e'.layers, k, n))
  }

  /** A checkpoint that the first leg or a resume wrote and the guard admits, by either hash, comes from an
      engine with the same edge indexing and the same layers as sets: its cursor means the same thing here.
      Every edge leaving a layer after the suspend layer is pending, no other is. */
  lemma AdmittedCursorIsMeaningful(e: Engine, c: Codec, red: Option<Reducer>, seed: Option<Value>, runId: string,
                                   inputs: map<string, Value>, calls: seq<Call>, e': Engine, hashFlow: Flow -> string,
                                   hashDesc: Descriptor -> string)
    requires Compiled(e) && Compiled(e') && Hashed(e, hashFlow, hashDesc) && Hashed(e', hashFlow, hashDesc)
    requires Injective(hashFlow) && Injective(hashDesc)
    ensures var leg := LegAfter(e, c, runId, FirstLeg(e, c, red, seed, runId, inputs), calls);
            leg.LegSuspended? && Admits(e', leg.cp) ==> SameShape(e, e') && PendingBeyond(e', leg.cp.edges, leg.cp.suspendLayer + 1)
  {
    hide FirstLeg, LegAfter, Compiled;
    LegsKeepCursor(e, c, red, seed, runId, inputs, calls, []);
    var leg := LegAfter(e, c, runId, FirstLeg(e, c, red, seed, runId, inputs), calls);
    if leg.LegSuspended? && Admits(e', leg.cp) { AdmissionFixesShape(e, e', leg.cp, hashFlow, hashDesc); }
  }

  lemma AdmissionFixesShape(e: Engine, e': Engine, cp: Checkpoint, hashFlow: Flow -> string,
                            hashDesc: Descriptor -> string)
    requires Compiled(e) && Compiled(e') && Hashed(e, hashFlow, hashDesc) && Hashed(e', hashFlow, hashDesc)
    requires Injective(hashFlow) && Injective(hashDesc)
    requires cp.flowHash == e.flowHash && cp.structHash == e.structHash && Admits(e', cp)
    ensures SameShape(e, e')
    ensures forall k :: PendingBeyond(e, cp.edges, k) ==> PendingBeyond(e', cp.edges, k)
  {
    if cp.flowHash == e'.flowHash {
      assert e.flow == e'.flow;
    } else {
      assert hashDesc(Describe(e.flow, e.nodes).value) == hashDesc(Describe(e'.flow, e'.nodes).value);
      DescriptorFixesGraph(e.flow, e.nodes, e'.flow, e'.nodes);
    }
    LayersIgnoreListingOrder(Ids(e.flow), Arcs(e.flow), e.layers, Ids(e'.flow), Arcs(e'.flow), e'.layers);
  }

  // ---------------------------------------------------------------- whom the guard admits

  /** The same nodes up to listing, Config and what Run does, with the same wires at the same positions. */
  ghost predicate SameStructure(e: Engine, e': Engine) {
    && (forall n :: n in Ids(e.flow) <==> n in Ids(e'.flow)) && SameTypes(e.flow, e'.flow)
    && (forall n :: n in Ids(e.flow) ==> n in e.nodes && n in e'.nodes && SamePorts(e.nodes[n], e'.nodes[n]))
    && e.flow.edges == e'.flow.edges && e.flow.mappings == e'.flow.mappings
  }

  lemma SameDescriptors(e: Engine, e': Engine)
    requires Compiled(e) && Compiled(e')
    ensures Describe(e.flow, e.nodes) == Describe(e'.flow, e'.nodes) && Describe(e.flow, e.nodes).Some? ==> SameStructure(e, e')
    ensures SameStructure(e, e') ==> Describe(e.flow, e.nodes) == Describe(e'.flow, e'.nodes)
  {
    hide Valid, SameTypes, SamePorts, Describe;
    if Describe(e.flow, e.nodes) == Describe(e'.flow, e'.nodes) && Describe(e.flow, e.nodes).Some? {
      DescriptorFixesGraph(e.flow, e.nodes, e'.flow, e'.nodes);
    }
    if forall n :: n in Ids(e.flow) <==> n in Ids(e'.flow) {
      DescriptorForgets(e.flow, e.nodes, e'.flow, e'.nodes);
    }
  }

  /** A checkpoint of any leg is admitted exactly by the engines of the same flow and those of the same structure: a
      change of Config alone keeps it alive, a change of nodes, types, ports or wires does not. */
  lemma AdmitsExactly(e: Engine, c: Codec, red: Option<Reducer>, seed: Option<Value>, runId: string,
                      inputs: map<string, Value>, calls: seq<Call>, e': Engine, hashFlow: Flow -> string,
                      hashDesc: Descriptor -> string)
    requires Compiled(e) && Compiled(e') && Hashed(e, hashFlow, hashDesc) && Hashed(e', hashFlow, hashDesc)
    requires Injective(hashFlow) && Injective(hashDesc) && forall d :: hashDesc(d) != ""
    ensures var leg := LegAfter(e, c, runId, FirstLeg(e, c, red, seed, runId, inputs), calls);
            leg.LegSuspended? ==> (Admits(e', leg.cp) <==> e.flow == e'.flow || SameStructure(e, e'))
  {
    hide FirstLeg, LegAfter, Compiled, SameStructure, Describe;
    LegsKeepCursor(e, c, red, seed, runId, inputs, calls, []);
    SameDescriptors(e, e');
    assert hashFlow(e.flow) == hashFlow(e'.flow) <==> e.flow == e'.flow;
    var d, d' := Describe(e.flow, e.nodes).value, Describe(e'.flow, e'.nodes).value;
    assert hashDesc(d) == hashDesc(d') <==> d == d';
  }
}
