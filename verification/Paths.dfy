/** Path selection and path writes on structured values (v2/flow/mapping.go). */
module Paths {
  import opened Prelude
  import opened FlowIr

  datatype PathError = EmptySegment | NotFound(key: string) | NotExported(key: string) | NilPointer(key: string) | NotStructured | NotAMap

  /** Follows pointers the way the reflect loop does. */
  function Deref(v: Value): Value {
    if v.Ptr? then Deref(v.target) else v
  }

  function SelectOne(v: Value, key: string): Result<Value, PathError> {
    match v
    case Obj(fields) => if key in fields then Ok(fields[key]) else Err(NotFound(key))
    case StrMap(texts) => if key in texts then Ok(Str(texts[key])) else Err(NotFound(key))
    case _ =>
      match Deref(v)
      case Struct(exported, hidden) =>
        if key in exported then Ok(exported[key])
        else if key in hidden then Err(NotExported(key))
        else Err(NotFound(key))
      case NilPtr => Err(NilPointer(key))
      case _ => Err(NotStructured)
  }

  function Select(v: Value, path: seq<string>): Result<Value, PathError>
    decreases |path|
  {
    if path == [] then Ok(v)
    else if path[0] == "" then Err(EmptySegment)
    else match SelectOne(v, path[0])
      case Err(e) => Err(e)
      case Ok(w) => Select(w, path[1..])
  }

  /** v behind n pointers. */
  function Behind(n: nat, v: Value): Value {
    if n == 0 then v else Ptr(Behind(n - 1, v))
  }

  lemma {:induction false} DerefBehind(n: nat, v: Value)
    requires !v.Ptr?
    ensures Deref(Behind(n, v)) == v
  {
    if n > 0 { DerefBehind(n - 1, v); }
  }

  /** What one segment selects: a map's own entry or text, an exported field of a struct behind any number of
      pointers, and otherwise the reason why not. Pointers are followed to structs only, an empty segment nowhere. */
  lemma OneSegment(n: nat, v: Value, key: string)
    requires !v.Ptr?
    ensures Select(Behind(n, v), [key]) ==
            if key == "" then Err(EmptySegment) else
            match v
            case Obj(fields) => if n > 0 then Err(NotStructured) else if key in fields then Ok(fields[key]) else Err(NotFound(key))
            case StrMap(texts) => if n > 0 then Err(NotStructured) else if key in texts then Ok(Str(texts[key])) else Err(NotFound(key))
            case Struct(exported, hidden) =>
              if key in exported then Ok(exported[key]) else if key in hidden then Err(NotExported(key)) else Err(NotFound(key))
            case NilPtr => Err(NilPointer(key))
            case _ => Err(NotStructured)
  {
    DerefBehind(n, v);
    assert [key][1..] == [];
  }

  /** A longer path goes on from what its beginning selects. */
  lemma {:induction false} SelectConcat(v: Value, p: seq<string>, q: seq<string>)
    ensures Select(v, p + q) == match Select(v, p) case Err(x) => Err(x) case Ok(w) => Select(w, q)
    decreases |p|
  {
    if p == [] {
      assert p + q == q;
    } else {
      assert (p + q)[1..] == p[1..] + q;
      match SelectOne(v, p[0])
      case Err(_) =>
      case Ok(w) => SelectConcat(w, p[1..], q);
    }
  }

  /** selectPath's loop. */
  method SelectPath(v: Value, path: seq<string>) returns (r: Result<Value, PathError>)
    ensures r == Select(v, path)
  {
    var cur := v;
    for i := 0 to |path|
      invariant Select(v, path) == Select(cur, path[i..])
    {
      if path[i] == "" { return Err(EmptySegment); }
      var next := SelectOne(cur, path[i]);
      assert path[i..][1..] == path[i + 1..];
      match next {
        case Err(e) => return Err(e);
        case Ok(w) => cur := w;
      }
    }
    return Ok(cur);
  }

  /** What setMappedPort leaves in a port that held `existing`: the whole value for an empty path,
      otherwise the map tree with the value written at the path, creating the maps on the way. */
  function Put(existing: Option<Value>, path: seq<string>, value: Value): Result<Value, PathError>
    decreases |path|
  {
    if path == [] then Ok(value)
    else if existing.Some? && !existing.value.Obj? then Err(NotAMap)
    else if path[0] == "" then Err(EmptySegment)
    else
      var base := if existing.Some? then existing.value.fields else map[];
      match Put(Child(base, path[0]), path[1..], value)
      case Err(e) => Err(e)
      case Ok(w) => Ok(Obj(base[path[0] := w]))
  }

  function Child(base: map<string, Value>, key: string): Option<Value> {
    if key in base then Some(base[key]) else None
  }

  /** Neither path is a prefix of the other. */
  predicate Incomparable(p: seq<string>, q: seq<string>) {
    p != [] && q != [] && (p[0] != q[0] || Incomparable(p[1..], q[1..]))
  }

  lemma {:induction false} IncomparableMeaning(p: seq<string>, q: seq<string>)
    ensures Incomparable(p, q) <==> !(p <= q) && !(q <= p)
  {
    if p != [] && q != [] && p[0] == q[0] {
      IncomparableMeaning(p[1..], q[1..]);
      assert p == [p[0]] + p[1..] && q == [q[0]] + q[1..];
      if p[1..] <= q[1..] { assert p <= q; }
      if q[1..] <= p[1..] { assert q <= p; }
    }
  }

  /** Reading back a written path gives the written value. */
  lemma {:induction false} PutThenSelect(existing: Option<Value>, path: seq<string>, value: Value)
    requires Put(existing, path, value).Ok?
    ensures Select(Put(existing, path, value).value, path) == Ok(value)
    decreases |path|
  {
    if path != [] {
      var base := if existing.Some? then existing.value.fields else map[];
      PutThenSelect(Child(base, path[0]), path[1..], value);
    }
  }

  /** Selecting from a port that may be unset. */
  function SelectFrom(v: Option<Value>, path: seq<string>): Option<Value> {
    match v
    case None => None
    case Some(w) => (match Select(w, path) case Ok(x) => Some(x) case Err(_) => None)
  }

  /** A write succeeds exactly when no segment is empty and whatever the path meets on its way, if anything, is a map
      of values: the port itself first. */
  lemma {:induction false} PutsExactlyWhen(existing: Option<Value>, path: seq<string>, value: Value)
    ensures Put(existing, path, value).Ok? <==>
            && "" !in path
            && forall i :: 0 <= i < |path| ==> var met := SelectFrom(existing, path[..i]); met.None? || met.value.Obj?
    decreases |path|
  {
    if path != [] {
      assert path[..0] == [] && path == [path[0]] + path[1..];
      if existing.Some? && !existing.value.Obj? {
        assert SelectFrom(existing, path[..0]) == existing;
      } else if path[0] != "" {
        var base := if existing.Some? then existing.value.fields else map[];
        PutsExactlyWhen(Child(base, path[0]), path[1..], value);
        forall i | 0 < i <= |path|
          ensures SelectFrom(existing, path[..i]) == SelectFrom(Child(base, path[0]), path[1..][..i - 1])
        {
          assert path[..i][0] == path[0] && path[..i][1..] == path[1..][..i - 1];
        }
        forall i | 0 <= i < |path| - 1 ensures SelectFrom(Child(base, path[0]), path[1..][..i]) == SelectFrom(existing, path[..i + 1]) {}
      }
    }
  }

  /** A write at p leaves the selection at every path incomparable with p as it was: the same value
      when there was one, no value when there was none. */
  lemma {:induction false} PutFrame(existing: Option<Value>, p: seq<string>, value: Value, q: seq<string>)
    requires Put(existing, p, value).Ok? && Incomparable(p, q)
    ensures SelectFrom(Some(Put(existing, p, value).value), q) == SelectFrom(existing, q)
    decreases |p|
  {
    var base := if existing.Some? then existing.value.fields else map[];
    if p[0] == q[0] {
      PutFrame(Child(base, p[0]), p[1..], value, q[1..]);
      assert SelectFrom(existing, q) == SelectFrom(Child(base, q[0]), q[1..]);
    }
  }

  function PutAgain(r: Result<Value, PathError>, path: seq<string>, value: Value): Option<Value> {
    match r
    case Err(_) => None
    case Ok(v) => (match Put(Some(v), path, value) case Ok(w) => Some(w) case Err(_) => None)
  }

  /** Two writes at incomparable paths commute: either order fails, or both give the same value. */
  lemma {:induction false} PutsCommute(existing: Option<Value>, p: seq<string>, a: Value, q: seq<string>, b: Value)
    requires Incomparable(p, q)
    ensures PutAgain(Put(existing, p, a), q, b) == PutAgain(Put(existing, q, b), p, a)
    decreases |p|
  {
    if !(existing.Some? && !existing.value.Obj?) && p[0] != "" && q[0] != "" {
      var base := if existing.Some? then existing.value.fields else map[];
      if p[0] == q[0] {
        PutsCommute(Child(base, p[0]), p[1..], a, q[1..], b);
        PutTwiceUnder(existing, p, a, q, b);
        PutTwiceUnder(existing, q, b, p, a);
      } else {
        ApartCommute(existing, p, a, q, b);
      }
    }
  }

  lemma ApartCommute(existing: Option<Value>, p: seq<string>, a: Value, q: seq<string>, b: Value)
    requires p != [] && q != [] && p[0] != q[0] && p[0] != "" && q[0] != ""
    requires !(existing.Some? && !existing.value.Obj?)
    ensures PutAgain(Put(existing, p, a), q, b) == PutAgain(Put(existing, q, b), p, a)
  {
    hide Put, PutAgain;
    var base := if existing.Some? then existing.value.fields else map[];
    PutTwiceApart(existing, p, a, q, b);
    PutTwiceApart(existing, q, b, p, a);
    forall x: Value, y: Value {:trigger base[p[0] := x], base[q[0] := y]}
      ensures base[p[0] := x][q[0] := y] == base[q[0] := y][p[0] := x] {}
  }

  /** Two writes that share their first key are two writes to that child. */
  lemma PutTwiceUnder(existing: Option<Value>, p: seq<string>, a: Value, q: seq<string>, b: Value)
    requires p != [] && q != [] && p[0] == q[0] != "" && !(existing.Some? && !existing.value.Obj?)
    ensures var base := if existing.Some? then existing.value.fields else map[];
            var twice := PutAgain(Put(Child(base, p[0]), p[1..], a), q[1..], b);
            PutAgain(Put(existing, p, a), q, b) == if twice.None? then None else Some(Obj(base[p[0] := twice.value]))
  {
    var base := if existing.Some? then existing.value.fields else map[];
    var one := Put(Child(base, p[0]), p[1..], a);
    if one.Ok? {
      var mid := base[p[0] := one.value];
      assert Child(mid, q[0]) == Some(one.value);
      var two := Put(Some(one.value), q[1..], b);
      if two.Ok? { assert mid[q[0] := two.value] == base[p[0] := two.value]; }
    }
  }

  /** Two writes with different first keys are two independent writes. */
  lemma PutTwiceApart(existing: Option<Value>, p: seq<string>, a: Value, q: seq<string>, b: Value)
    requires p != [] && q != [] && p[0] != q[0] && p[0] != "" && q[0] != ""
    requires !(existing.Some? && !existing.value.Obj?)
    ensures var base := if existing.Some? then existing.value.fields else map[];
            var one, two := Put(Child(base, p[0]), p[1..], a), Put(Child(base, q[0]), q[1..], b);
            PutAgain(Put(existing, p, a), q, b) ==
              if one.Err? || two.Err? then None else Some(Obj(base[p[0] := one.value][q[0] := two.value]))
  {
    var base := if existing.Some? then existing.value.fields else map[];
    var one := Put(Child(base, p[0]), p[1..], a);
    if one.Ok? {
      assert Child(base[p[0] := one.value], q[0]) == Child(base, q[0]);
    }
  }

  /** What validation asks of a path. */
  predicate Segments(path: seq<string>) { forall i :: 0 <= i < |path| ==> path[i] != "" }

  /** Two texts written at comparable paths of an unset port do not commute: the order shows in the value, or
      decides whether the second write finds a map. */
  lemma {:induction false} PutsClash(p: seq<string>, a: string, q: seq<string>, b: string)
    requires Segments(p) && Segments(q) && !Incomparable(p, q) && a != b
    ensures PutAgain(Put(None, p, Str(a)), q, Str(b)) != PutAgain(Put(None, q, Str(b)), p, Str(a))
    decreases |p|
  {
    if p == [] {
      PutFresh(q, Str(b));
    } else if q == [] {
      PutFresh(p, Str(a));
    } else {
      PutsClash(p[1..], a, q[1..], b);
      PutTwiceUnder(None, p, Str(a), q, Str(b));
      PutTwiceUnder(None, q, Str(b), p, Str(a));
      var x := PutAgain(Put(None, p[1..], Str(a)), q[1..], Str(b));
      var y := PutAgain(Put(None, q[1..], Str(b)), p[1..], Str(a));
      var base: map<string, Value> := map[];
      assert Child(base, p[0]) == None;
      if x.Some? && y.Some? {
        assert base[p[0] := x.value][p[0]] == x.value && base[p[0] := y.value][p[0]] == y.value;
      }
    }
  }

  /** A write into an unset port succeeds. */
  lemma {:induction false} PutFresh(path: seq<string>, v: Value)
    requires Segments(path)
    ensures Put(None, path, v).Ok? && (path != [] ==> Put(None, path, v).value.Obj?)
    decreases |path|
  {
    if path != [] { PutFresh(path[1..], v); }
  }

  ghost predicate Commute(p: seq<string>, q: seq<string>) {
    forall existing, a, b :: PutAgain(Put(existing, p, a), q, b) == PutAgain(Put(existing, q, b), p, a)
  }

  /** Writes at two paths commute, whatever is written into whatever value, exactly when the paths are incomparable. */
  lemma PutsCommuteExactly(p: seq<string>, q: seq<string>)
    requires Segments(p) && Segments(q)
    ensures Commute(p, q) <==> Incomparable(p, q)
  {
    if Incomparable(p, q) {
      forall existing, a, b ensures PutAgain(Put(existing, p, a), q, b) == PutAgain(Put(existing, q, b), p, a) {
        PutsCommute(existing, p, a, q, b);
      }
    } else {
      PutsClash(p, "a", q, "b");
    }
  }
}
