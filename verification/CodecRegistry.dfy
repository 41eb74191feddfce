/** The registry behind checkpoint values (v2/flow/codec.go): two maps, one per direction, filled by
    registrations that never overwrite. */
module CodecRegistry {
  import opened Prelude
  import opened FlowIr
  import opened LayeredEngine
  import opened Resume

  type GoType = string

  /** The dynamic type of a value, and JSON as the registered types use it. */
  datatype Json = Json(typeOf: Value -> GoType, marshal: Value -> Option<string>,
                       unmarshal: (GoType, string) -> Option<Value>)

  ghost predicate JsonRoundTrips(j: Json) {
    forall v :: j.marshal(v).Some? ==> j.unmarshal(j.typeOf(v), j.marshal(v).value) == Some(v)
  }

  datatype Tables = Tables(byName: map<string, GoType>, byType: map<GoType, string>)

  /** The two maps are inverse to each other. */
  ghost predicate Inverse(t: Tables) {
    && (forall n :: n in t.byName ==> t.byName[n] in t.byType && t.byType[t.byName[n]] == n)
    && (forall g :: g in t.byType ==> t.byType[g] in t.byName && t.byName[t.byType[g]] == g)
  }

  /** Nothing registered is ever changed. */
  ghost predicate Extends(t: Tables, u: Tables) {
    && (forall n :: n in t.byName ==> n in u.byName && u.byName[n] == t.byName[n])
    && (forall g :: g in t.byType ==> g in u.byType && u.byType[g] == t.byType[g])
  }

  const FRESH := Tables(map["string" := "string"], map["string" := "string"])

  datatype Registration = Registration(name: string, t: GoType)

  /** A registration is refused when it would change one already made. */
  function Registered(t: Tables, r: Registration): Tables {
    if (r.name in t.byName && t.byName[r.name] != r.t) || (r.t in t.byType && t.byType[r.t] != r.name) then t
    else Tables(t.byName[r.name := r.t], t.byType[r.t := r.name])
  }

  function AllRegistered(t: Tables, rs: seq<Registration>): Tables
    decreases |rs|
  {
    if rs == [] then t else AllRegistered(Registered(t, rs[0]), rs[1..])
  }

  class Registry {
    var byName: map<string, GoType>
    var byType: map<GoType, string>

    function Now(): Tables
      reads this
    {
      Tables(byName, byType)
    }

    constructor ()
      ensures Now() == FRESH
    {
      byName, byType := map["string" := "string"], map["string" := "string"];
    }

    /** RegisterCodec: the tables stay inverse, and the registration takes effect exactly when neither the name
        nor the type is registered otherwise. */
    method RegisterCodec(name: string, t: GoType)
      requires Inverse(Now())
      modifies this
      ensures Now() == Registered(old(Now()), Registration(name, t)) && Inverse(Now()) && Extends(old(Now()), Now())
      ensures (name in byName && byName[name] == t) <==>
              (name !in old(byName) || old(byName)[name] == t) && (t !in old(byType) || old(byType)[t] == name)
    {
      if name in byName && byName[name] != t { return; }
      if t in byType && byType[t] != name { return; }
      byName := byName[name := t];
      byType := byType[t := name];
    }
  }

  /** encodePortValue. */
  function Encode(t: Tables, j: Json, v: Value): Option<Raw> {
    if v.Nil? || j.typeOf(v) !in t.byType then None
    else match j.marshal(v)
      case None => None
      case Some(text) => Some(Raw(t.byType[j.typeOf(v)], text))
  }

  /** decodePortValue. */
  function Decode(t: Tables, j: Json, raw: Raw): Option<Value> {
    if raw.tag !in t.byName then None else j.unmarshal(t.byName[raw.tag], raw.json)
  }

  function StateTag(t: Tables, j: Json, v: Value): Option<string> {
    if v.Nil? || j.typeOf(v) !in t.byType then None else Some(t.byType[j.typeOf(v)])
  }

  function CodecOf(t: Tables, j: Json): Codec {
    Codec(v => Encode(t, j, v), raw => Decode(t, j, raw), v => StateTag(t, j, v))
  }

  /** What one registry encoded, any later one decodes to the same value. */
  lemma DecodesLater(t: Tables, u: Tables, j: Json, v: Value)
    requires Inverse(t) && Extends(t, u) && JsonRoundTrips(j) && Encode(t, j, v).Some?
    ensures Decode(u, j, Encode(t, j, v).value) == Some(v)
  {
    var tag := t.byType[j.typeOf(v)];
    assert tag in t.byName && u.byName[tag] == j.typeOf(v);
  }

  /** Registrations of any names and types, in any order, keep the tables inverse and change nothing. */
  lemma {:induction false} RegisteringKeeps(t: Tables, rs: seq<Registration>)
    requires Inverse(t)
    ensures Inverse(AllRegistered(t, rs)) && Extends(t, AllRegistered(t, rs))
    decreases |rs|
  {
    if rs != [] {
      var next := Registered(t, rs[0]);
      RegisteringKeeps(next, rs[1..]);
      assert Extends(t, next) && Extends(next, AllRegistered(next, rs[1..]));
    }
  }

  /** The hypothesis of the resume theorem holds after any registrations; and what was encoded then still decodes
      after any further ones. */
  lemma RegistryRoundTrips(before: seq<Registration>, after: seq<Registration>, j: Json)
    requires JsonRoundTrips(j)
    ensures var t := AllRegistered(FRESH, before);
            var u := AllRegistered(t, after);
            && RoundTrips(CodecOf(t, j))
            && forall v :: Encode(t, j, v).Some? ==> Decode(u, j, Encode(t, j, v).value) == Some(v)
  {
    var t := AllRegistered(FRESH, before);
    var u := AllRegistered(t, after);
    RegisteringKeeps(FRESH, before);
    RegisteringKeeps(t, after);
    forall v | Encode(t, j, v).Some?
      ensures Decode(t, j, Encode(t, j, v).value) == Some(v) && Decode(u, j, Encode(t, j, v).value) == Some(v)
    {
      DecodesLater(t, t, j, v);
      DecodesLater(t, u, j, v);
    }
  }

  // ---------------------------------------------------------------- when encoding succeeds

  lemma {:induction false} RegisteredApart(t: Tables, rs: seq<Registration>, n: string, g: GoType)
    requires n !in t.byName && g !in t.byType && forall i :: 0 <= i < |rs| ==> rs[i].name != n && rs[i].t != g
    ensures n !in AllRegistered(t, rs).byName && g !in AllRegistered(t, rs).byType
    decreases |rs|
  {
    if rs != [] { RegisteredApart(Registered(t, rs[0]), rs[1..], n, g); }
  }

  lemma {:induction false} RegisteredConcat(t: Tables, a: seq<Registration>, b: seq<Registration>)
    ensures AllRegistered(t, a + b) == AllRegistered(AllRegistered(t, a), b)
    decreases |a|
  {
    if a == [] {
      assert a + b == b;
    } else {
      assert (a + b)[0] == a[0] && (a + b)[1..] == a[1..] + b;
      RegisteredConcat(Registered(t, a[0]), a[1..], b);
    }
  }

  /** A registration that is the first to mention its name and its type holds for good. */
  lemma FirstHolds(before: seq<Registration>, r: Registration, after: seq<Registration>)
    requires r.name != "string" && r.t != "string" && forall i :: 0 <= i < |before| ==>
             before[i].name != r.name && before[i].t != r.t
    ensures var u := AllRegistered(FRESH, before + [r] + after);
            r.name in u.byName && u.byName[r.name] == r.t && r.t in u.byType && u.byType[r.t] == r.name
  {
    var t := AllRegistered(FRESH, before);
    RegisteredApart(FRESH, before, r.name, r.t);
    RegisteringKeeps(FRESH, before);
    RegisteredConcat(FRESH, before + [r], after);
    RegisteredConcat(FRESH, before, [r]);
    assert [r][1..] == [];
    var next := Registered(t, r);
    assert AllRegistered(t, [r]) == next;
    RegisteringKeeps(t, [r]);
    RegisteringKeeps(next, after);
  }

  /** A value whose type was registered, first of its name and type, encodes with that name as its tag whenever it
      marshals, has that tag as its State tag, and decodes to itself after any further registrations. */
  lemma RegisteredEncodes(before: seq<Registration>, r: Registration, after: seq<Registration>,
                          later: seq<Registration>,
                          j: Json, v: Value)
    requires JsonRoundTrips(j) && !v.Nil? && j.typeOf(v) == r.t && r.name != "string" && r.t != "string"
    requires forall i :: 0 <= i < |before| ==> before[i].name != r.name && before[i].t != r.t
    ensures var t := AllRegistered(FRESH, before + [r] + after);
            && StateTag(t, j, v) == Some(r.name)
            && (j.marshal(v).None? ==> Encode(t, j, v) == None)
            && (j.marshal(v).Some? ==> Encode(t, j, v) == Some(Raw(r.name, j.marshal(v).value)) &&
                                       Decode(AllRegistered(t, later), j, Encode(t, j, v).value) == Some(v))
  {
    FirstHolds(before, r, after);
    RegisteringKeeps(FRESH, before + [r] + after);
    var t := AllRegistered(FRESH, before + [r] + after);
    RegisteringKeeps(t, later);
    if j.marshal(v).Some? { DecodesLater(t, AllRegistered(t, later), j, v); }
  }

  /** Texts are registered from the start. */
  lemma TextsEncode(rs: seq<Registration>, j: Json, v: Value)
    requires !v.Nil? && j.typeOf(v) == "string"
    ensures var t := AllRegistered(FRESH, rs);
            StateTag(t, j, v) == Some("string") &&
            Encode(t, j, v) == match j.marshal(v) case Some(text) => Some(Raw("string", text)) case None => None
  {
    RegisteringKeeps(FRESH, rs);
  }

  /** A nil value, and a value of a type that no registration mentioned, cannot be encoded and have no State tag. */
  lemma UnregisteredRefused(rs: seq<Registration>, j: Json, v: Value)
    requires v.Nil? || (j.typeOf(v) != "string" && forall i :: 0 <= i < |rs| ==> rs[i].t != j.typeOf(v))
    ensures var t := AllRegistered(FRESH, rs); Encode(t, j, v) == None && StateTag(t, j, v) == None
  {
    if !v.Nil? { NeverRegistered(FRESH, rs, j.typeOf(v)); }
  }

  lemma {:induction false} NeverRegistered(t: Tables, rs: seq<Registration>, g: GoType)
    requires g !in t.byType && forall i :: 0 <= i < |rs| ==> rs[i].t != g
    ensures g !in AllRegistered(t, rs).byType
    decreases |rs|
  {
    if rs != [] { NeverRegistered(Registered(t, rs[0]), rs[1..], g); }
  }

  /** In every registry: what can be encoded is exactly the values that are not nil, whose type is registered and
      which marshal. */
  lemma EncodesExactly(rs: seq<Registration>, j: Json, v: Value)
    ensures var t := AllRegistered(FRESH, rs);
            && (Encode(t, j, v).Some? <==> !v.Nil? && j.marshal(v).Some? && exists n :: n in t.byName && t.byName[n] == j.typeOf(v))
            && (StateTag(t, j, v).Some? <==> !v.Nil? && exists n :: n in t.byName && t.byName[n] == j.typeOf(v))
            && (Encode(t, j, v).Some? ==>
                  Encode(t, j, v).value.tag in t.byName && t.byName[Encode(t, j, v).value.tag] == j.typeOf(v) &&
                  Encode(t, j, v).value.json == j.marshal(v).value)
  {
    RegisteringKeeps(FRESH, rs);
  }

  /** The value is not nil, its type is registered under some name, and it marshals. */
  ghost predicate Codable(rs: seq<Registration>, j: Json, v: Value) {
    !v.Nil? && j.marshal(v).Some? && exists n :: n in AllRegistered(FRESH, rs).byName && AllRegistered(FRESH, rs).byName[n] == j.typeOf(v)
  }

  /** A run can be checkpointed exactly when every port value, every input and the State, unless it is nil, can be
      encoded. */
  lemma CheckpointsExactly(rs: seq<Registration>, j: Json, e: Engine, runId: string, r: Run, layer: nat, node: string,
                           request: Request, inputs: map<string, Value>)
    ensures var cp := Snapshot(e, CodecOf(AllRegistered(FRESH, rs), j), runId, r, layer, node, request, inputs);
            cp.Some? <==>
              && (forall k :: k in r.net.ports ==> Codable(rs, j, r.net.ports[k]))
              && (forall k :: k in inputs ==> Codable(rs, j, inputs[k]))
              && (r.cell.Some? ==> r.cell.value.Nil? || Codable(rs, j, r.cell.value))
  {
    var t := AllRegistered(FRESH, rs);
    var c := CodecOf(t, j);
    SnapshotExactlyWhen(e, c, runId, r, layer, node, request, inputs);
    hide Snapshot, Encode, StateTag;
    forall v ensures c.encode(v).Some? <==> Codable(rs, j, v) { EncodesExactly(rs, j, v); }
    if r.cell.Some? { EncodesExactly(rs, j, r.cell.value); }
  }
}
