/** The serialized flow shape (v2/flow/ir.go) and the values its ports carry. */
module FlowIr {

  /** A Go `any` as far as path selection and conditional edges can tell values apart. */
  datatype Value =
    | Nil
    | Str(text: string)
    | Obj(fields: map<string, Value>)
    | StrMap(texts: map<string, string>)
    | Struct(exported: map<string, Value>, hidden: set<string>)
    | Ptr(target: Value)
    | NilPtr
    | Opaque(goType: string, payload: int)

  datatype PortRef = PortRef(node: string, port: string)

  datatype Edge = Edge(source: PortRef, target: PortRef, condition: string)

  datatype MappingSource = MappingSource(input: string, node: string, port: string, path: seq<string>)

  datatype MappingTarget = MappingTarget(node: string, port: string, path: seq<string>)

  datatype Mapping = Mapping(source: MappingSource, target: MappingTarget)

  datatype NodeDecl = NodeDecl(id: string, kind: string, config: string)

  datatype NamedPortRef = NamedPortRef(name: string, node: string, port: string)

  datatype Flow = Flow(
    id: string,
    nodes: seq<NodeDecl>,
    edges: seq<Edge>,
    mappings: seq<Mapping>,
    inputs: seq<NamedPortRef>,
    outputs: seq<NamedPortRef>)

  function Ids(f: Flow): (r: seq<string>)
    ensures |r| == |f.nodes|
    ensures forall i :: 0 <= i < |r| ==> r[i] == f.nodes[i].id
  {
    seq(|f.nodes|, i requires 0 <= i < |f.nodes| => f.nodes[i].id)
  }
}
