/** The flow store behind its two engine caches (cmd/flowd/server/server.go). Each handler is one step. */
module FlowServer {
  import opened Prelude
  import opened EngineCaching

  /** What the server is configured with: the flow header parser (None when it does not parse) and the two
      compilers, each a function of the stored JSON. */
  datatype Config<!E, !F> = Config(head: string -> Option<string>, compile: string -> Option<E>,
                                   compileV2: string -> Option<F>, size: int)

  /** How the store's PutFlow ends: it writes the row and then reads it back, and either can fail. */
  datatype Outcome = Written | Unwritten | WrittenThenFailed

  /** storeFails: deleting reports an error other than a missing flow, and changes nothing. */
  datatype Request =
    | Create(reqId: string, body: string, outcome: Outcome)
    | Put(id: string, reqId: string, body: string, outcome: Outcome)
    | DeleteFlow(id: string, storeFails: bool)
    | EngineFor(id: string)
    | EngineForV2(id: string)

  datatype Answer<E, F> =
    | BadRequest | Conflict | Created | NotFound | ServerError | Updated | Deleted | CompileFailed
    | Engine(engine: E)
    | EngineV2(engineV2: F)

  type Store = map<string, string>

  // ---------------------------------------------------------------- a server without caches

  /** flowHeaderFromBody: the id a created flow is stored under. */
  function HeaderId<E, F>(c: Config<E, F>, reqId: string, body: string): Option<string> {
    match c.head(body)
    case None => None
    case Some(head) =>
      var id := if reqId == "" then head else reqId;
      if body == "" || id == "" || (head != "" && head != id) then None else Some(id)
  }

  /** handlePutFlow lets the body through to the store. */
  predicate Puts<E, F>(c: Config<E, F>, id: string, reqId: string, body: string) {
    (reqId == "" || reqId == id) && body != "" && c.compile(body).Some?
  }

  /** What the caller is told and what the store holds afterwards, had every engine been compiled afresh. */
  function Reply<E, F>(c: Config<E, F>, store: Store, r: Request): (Store, Answer<E, F>) {
    match r
    case Create(reqId, body, outcome) =>
      (match HeaderId(c, reqId, body)
       case None => (store, BadRequest)
       case Some(id) =>
         if c.compile(body).None? then (store, BadRequest)
         else if outcome.Unwritten? then (store, ServerError)
         else if id in store then (store, Conflict)
         else (store[id := body], if outcome.Written? then Created else ServerError))
    case Put(id, reqId, body, outcome) =>
      if !Puts(c, id, reqId, body) then (store, BadRequest)
      else if outcome.Unwritten? then (store, ServerError)
      else (store[id := body], if outcome.Written? then Updated else ServerError)
    case DeleteFlow(id, storeFails) =>
      if id !in store then (store, NotFound)
      else if storeFails then (store, ServerError)
      else (store - {id}, Deleted)
    case EngineFor(id) =>
      if id !in store then (store, NotFound)
      else (store, match c.compile(store[id]) case Some(e) => Engine(e) case None => CompileFailed)
    case EngineForV2(id) =>
      if id !in store then (store, NotFound)
      else (store, match c.compileV2(store[id]) case Some(e) => EngineV2(e) case None => CompileFailed)
  }

  function Replies<E, F>(c: Config<E, F>, store: Store, rs: seq<Request>): (Store, seq<Answer<E, F>>)
    decreases |rs|
  {
    if rs == [] then (store, [])
    else
      var (next, a) := Reply(c, store, rs[0]);
      var (last, rest) := Replies(c, next, rs[1..]);
      (last, [a] + rest)
  }

  // ---------------------------------------------------------------- what a history of requests stores

  /** The request names the flow id: in its own id or in the body's header, which agree when both are given. */
  ghost predicate Names<E, F>(c: Config<E, F>, reqId: string, body: string, id: string) {
    && id != "" && body != "" && c.head(body).Some?
    && (reqId == id || (reqId == "" && c.head(body).value == id))
    && (c.head(body).value == "" || c.head(body).value == id)
  }

  lemma HeaderNames<E, F>(c: Config<E, F>, reqId: string, body: string, id: string)
    ensures HeaderId(c, reqId, body) == Some(id) <==> Names(c, reqId, body, id)
    ensures HeaderId(c, reqId, body).None? <==> forall x :: !Names(c, reqId, body, x)
  {
    var x := HeaderId(c, reqId, body);
    assert x.Some? ==> Names(c, reqId, body, x.value);
    forall y | Names(c, reqId, body, y) ensures x == Some(y) {}
  }

  /** The body an accepted request leaves under id, given what was there. */
  ghost function Leaves<E, F>(c: Config<E, F>, id: string, was: Option<string>, r: Request,
                              a: Answer<E, F>): Option<string> {
    if r.Put? && a.Updated? && r.id == id then Some(r.body)
    else if r.Create? && a.Created? && Names(c, r.reqId, r.body, id) then Some(r.body)
    else if r.DeleteFlow? && a.Deleted? && r.id == id then None
    else was
  }

  /** The body last written for id and not deleted since, read off the requests and their answers. */
  ghost function LastWritten<E, F>(c: Config<E, F>, id: string, was: Option<string>, rs: seq<Request>,
                                   answers: seq<Answer<E, F>>): Option<string>
    requires |answers| == |rs|
    decreases |rs|
  {
    if rs == [] then was else LastWritten(c, id, Leaves(c, id, was, rs[0], answers[0]), rs[1..], answers[1..])
  }

  function Stored(store: Store, id: string): Option<string> { if id in store then Some(store[id]) else None }

  /** No write fails after it was made. */
  predicate NothingLate(rs: seq<Request>) {
    forall i :: 0 <= i < |rs| && (rs[i].Put? || rs[i].Create?) ==> !rs[i].outcome.WrittenThenFailed?
  }

  lemma ReplyLeaves<E, F>(c: Config<E, F>, store: Store, r: Request, id: string)
    requires r.Put? || r.Create? ==> !r.outcome.WrittenThenFailed?
    ensures var (next, a) := Reply(c, store, r); Stored(next, id) == Leaves(c, id, Stored(store, id), r, a)
  {
    if r.Create? {
      HeaderNames(c, r.reqId, r.body, id);
    }
  }

  /** What the answer to a lookup of a flow with this body is. */
  ghost predicate Tells<E, F>(c: Config<E, F>, r: Request, a: Answer<E, F>, body: Option<string>) {
    && (r.EngineFor? ==>
          a == match body
               case None => NotFound
               case Some(text) => match c.compile(text) case Some(e) => Engine(e) case None => CompileFailed)
    && (r.EngineForV2? ==>
          a == match body
               case None => NotFound
               case Some(text) => match c.compileV2(text) case Some(e) => EngineV2(e) case None => CompileFailed)
  }

  /** A lookup answers with the compilation of the body last written for the id, or that there is none. */
  lemma {:induction false} HistoryTells<E, F>(c: Config<E, F>, store: Store, rs: seq<Request>, i: nat)
    requires NothingLate(rs) && i < |rs| && (rs[i].EngineFor? || rs[i].EngineForV2?)
    ensures var answers := Replies(c, store, rs).1;
            && |answers| == |rs|
            && Tells(c, rs[i], answers[i], LastWritten(c, rs[i].id, Stored(store, rs[i].id), rs[..i], answers[..i]))
    decreases |rs|
  {
    var id, answers := rs[i].id, Replies(c, store, rs).1;
    var (next, a) := Reply(c, store, rs[0]);
    RepliesLength(c, next, rs[1..]);
    assert answers == [a] + Replies(c, next, rs[1..]).1;
    assert rs[0].Put? || rs[0].Create? ==> !rs[0].outcome.WrittenThenFailed?;
    ReplyLeaves(c, store, rs[0], id);
    if i > 0 {
      var rest := rs[1..];
      forall k | 0 <= k < |rest| && (rest[k].Put? || rest[k].Create?)
        ensures !rest[k].outcome.WrittenThenFailed?
      {
        assert rest[k] == rs[k + 1];
      }
      assert rest[i - 1] == rs[i];
      HistoryTells(c, next, rest, i - 1);
      assert rs[..i][0] == rs[0] && rs[..i][1..] == rest[..i - 1];
      assert answers[..i][0] == a && answers[..i][1..] == Replies(c, next, rest).1[..i - 1];
    }
  }

  lemma AllTold<E, F>(c: Config<E, F>, store: Store, rs: seq<Request>)
    requires NothingLate(rs)
    ensures var answers := Replies(c, store, rs).1;
            |answers| == |rs| &&
            forall i :: 0 <= i < |rs| && (rs[i].EngineFor? || rs[i].EngineForV2?) ==>
              Tells(c, rs[i], answers[i], LastWritten(c, rs[i].id, Stored(store, rs[i].id), rs[..i], answers[..i]))
  {
    RepliesLength(c, store, rs);
    forall i | 0 <= i < |rs| && (rs[i].EngineFor? || rs[i].EngineForV2?)
      ensures var answers := Replies(c, store, rs).1;
              Tells(c, rs[i], answers[i], LastWritten(c, rs[i].id, Stored(store, rs[i].id), rs[..i], answers[..i]))
    {
      HistoryTells(c, store, rs, i);
    }
  }

  lemma {:induction false} RepliesLength<E, F>(c: Config<E, F>, store: Store, rs: seq<Request>)
    ensures |Replies(c, store, rs).1| == |rs|
    decreases |rs|
  {
    if rs != [] { RepliesLength(c, Reply(c, store, rs[0]).0, rs[1..]); }
  }

  // ---------------------------------------------------------------- what a cache may hold

  /** A cached engine is the compilation of the stored flow. In particular an id that is not stored is not
      cached, which is why creating a flow need not evict. */
  ghost predicate Mirrors<V>(contents: map<string, V>, store: Store, compile: string -> Option<V>) {
    forall id :: id in contents ==> id in store && compile(store[id]) == Some(contents[id])
  }

  /** All but the doubtful ids. */
  ghost predicate MirrorsBut<V>(contents: map<string, V>, store: Store, compile: string -> Option<V>,
                                doubt: set<string>) {
    Mirrors(contents - doubt, store, compile)
  }

  datatype Looked<V> = Missing | Broken | Found(engine: V)

  function Fresh<V>(store: Store, compile: string -> Option<V>, id: string): Looked<V> {
    if id !in store then Missing
    else match compile(store[id]) case Some(e) => Found(e) case None => Broken
  }

  /** What a lookup finds. */
  function Seen<V>(contents: map<string, V>, store: Store, compile: string -> Option<V>, id: string): Looked<V> {
    if id in contents then Found(contents[id]) else Fresh(store, compile, id)
  }

  /** A cache goes unnoticed at every lookup exactly when it mirrors the store. */
  lemma MirrorsExactly<V>(contents: map<string, V>, store: Store, compile: string -> Option<V>)
    ensures Mirrors(contents, store, compile) <==>
            forall id :: Seen(contents, store, compile, id) == Fresh(store, compile, id)
  {
    if forall id :: Seen(contents, store, compile, id) == Fresh(store, compile, id) {
      forall id | id in contents ensures id in store && compile(store[id]) == Some(contents[id]) {
        assert Seen(contents, store, compile, id) == Fresh(store, compile, id);
      }
    }
  }

  /** The cache holds another engine for id than the body compiles to. */
  ghost predicate Outdated<V>(contents: map<string, V>, compile: string -> Option<V>, id: string, body: string) {
    id in contents && compile(body) != Some(contents[id])
  }

  lemma PutMirrors<V>(contents: map<string, V>, store: Store, compile: string -> Option<V>, doubt: set<string>,
                      id: string, body: string)
    requires MirrorsBut(contents, store, compile, doubt)
    ensures MirrorsBut(contents, store[id := body], compile, doubt + {id})
    ensures MirrorsBut(contents - {id}, store[id := body], compile, doubt - {id})
    ensures Mirrors(contents, store, compile) ==> Mirrors(contents - {id}, store[id := body], compile)
    ensures Mirrors(contents, store, compile) ==>
            (Mirrors(contents, store[id := body], compile) <==> !Outdated(contents, compile, id, body))
  {
  }

  lemma DeleteMirrors<V>(contents: map<string, V>, store: Store, compile: string -> Option<V>, doubt: set<string>,
                         id: string)
    requires MirrorsBut(contents, store, compile, doubt)
    ensures MirrorsBut(contents - {id}, store - {id}, compile, doubt - {id})
    ensures Mirrors(contents, store, compile) ==> Mirrors(contents - {id}, store - {id}, compile)
  {
  }

  /** The ids whose cached engines may be out of date: a PUT wrote their flow and then failed, and none has
      succeeded since, nor has the flow been deleted. */
  function Doubt<E, F>(c: Config<E, F>, store: Store, doubt: set<string>, r: Request): set<string> {
    match r
    case Put(id, reqId, body, outcome) =>
      if !Puts(c, id, reqId, body) || outcome.Unwritten? then doubt
      else if outcome.Written? then doubt - {id}
      else doubt + {id}
    case DeleteFlow(id, storeFails) => if id in store && !storeFails then doubt - {id} else doubt
    case _ => doubt
  }

  function DoubtAfter<E, F>(c: Config<E, F>, store: Store, doubt: set<string>, rs: seq<Request>): set<string>
    decreases |rs|
  {
    if rs == [] then doubt else DoubtAfter(c, Reply(c, store, rs[0]).0, Doubt(c, store, doubt, rs[0]), rs[1..])
  }

  /** The request looks up the engine of such an id. */
  predicate AsksFor(r: Request, doubt: set<string>) { (r.EngineFor? || r.EngineForV2?) && r.id in doubt }

  /** Both lists answer alike, but for lookups of doubtful ids. */
  ghost predicate AnsweredBut<E, F>(c: Config<E, F>, store: Store, doubt: set<string>, rs: seq<Request>,
                                    answers: seq<Answer<E, F>>)
    decreases |rs|
  {
    |answers| == |rs| &&
    (rs != [] ==>
       var next := Reply(c, store, rs[0]);
       && (AsksFor(rs[0], doubt) || answers[0] == next.1)
       && AnsweredBut(c, next.0, Doubt(c, store, doubt, rs[0]), rs[1..], answers[1..]))
  }

  predicate NoneFailsLate(rs: seq<Request>) {
    forall i :: 0 <= i < |rs| && rs[i].Put? ==> !rs[i].outcome.WrittenThenFailed?
  }

  /** Unless some PUT fails after writing, the answers are those of a server without caches. */
  lemma {:induction false} AnsweredAll<E, F>(c: Config<E, F>, store: Store, rs: seq<Request>,
                                             answers: seq<Answer<E, F>>)
    requires AnsweredBut(c, store, {}, rs, answers) && NoneFailsLate(rs)
    ensures answers == Replies(c, store, rs).1
    decreases |rs|
  {
    if rs != [] {
      assert rs[0].Put? ==> !rs[0].outcome.WrittenThenFailed?;
      assert Doubt(c, store, {}, rs[0]) == {};
      forall i | 0 <= i < |rs[1..]| && rs[1..][i].Put?
        ensures !rs[1..][i].outcome.WrittenThenFailed?
      {
        assert rs[i + 1] == rs[1..][i];
      }
      AnsweredAll(c, Reply(c, store, rs[0]).0, rs[1..], answers[1..]);
      assert answers == [answers[0]] + answers[1..];
    }
  }

  // ---------------------------------------------------------------- the server

  /** The common body of engineFor and engineForV2: the cached engine, or the stored flow compiled and cached.
      That is what compiling the stored flow afresh gives, unless an out-of-date engine is cached. */
  method Lookup<V>(cache: EngineCache<V>, store: Store, compile: string -> Option<V>, id: string,
                   ghost doubt: set<string>) returns (r: Looked<V>)
    requires cache.Valid() && MirrorsBut(cache.contents, store, compile, doubt)
    modifies cache.Repr
    ensures cache.Valid() && fresh(cache.Repr - old(cache.Repr)) && MirrorsBut(cache.contents, store, compile, doubt)
    ensures r == Seen(old(cache.contents), store, compile, id) && (id !in doubt ==> r == Fresh(store, compile, id))
    ensures r.Found? ==> id in cache.contents && cache.contents[id] == r.engine
  {
    hide Indexed, ByUse, IsOldest;
    var hit := cache.Get(id);
    if hit.Some? {
      assert id !in doubt ==> id in cache.contents - doubt;
      return Found(hit.value);
    }
    if id !in store { return Missing; }
    var compiled := compile(store[id]);
    if compiled.None? { return Broken; }
    var victim := cache.Set(id, compiled.value);
    return Found(compiled.value);
  }

  class Server<E, F> {
    const c: Config<E, F>
    var store: Store
    const engines: EngineCache<E>
    const enginesV2: EngineCache<F>
    ghost var doubt: set<string>

    ghost predicate Apart()
      reads this, engines, enginesV2
    {
      this !in engines.Repr && this !in enginesV2.Repr && engines.Repr !! enginesV2.Repr && engines in engines.Repr && enginesV2 in enginesV2.Repr
    }

    ghost predicate Valid()
      reads this, engines, enginesV2, engines.Repr, enginesV2.Repr
    {
      && Apart() && engines.Valid() && enginesV2.Valid() && doubt <= store.Keys
      && MirrorsBut(engines.contents, store, c.compile, doubt)
      && MirrorsBut(enginesV2.contents, store, c.compileV2, doubt)
    }

    /** No lookup tells this server from one without caches. */
    ghost predicate Honest()
      reads this, engines, enginesV2
    {
      Mirrors(engines.contents, store, c.compile) && Mirrors(enginesV2.contents, store, c.compileV2)
    }

    constructor (c: Config<E, F>, store: Store)
      ensures Valid() && Honest() && doubt == {} && this.c == c && this.store == store
    {
      this.c, this.store, doubt := c, store, {};
      engines := new EngineCache(c.size);
      enginesV2 := new EngineCache(c.size);
    }

    method EngineFor(id: string) returns (a: Answer<E, F>)
      requires Valid()
      modifies engines.Repr
      ensures Valid() && fresh(engines.Repr - old(engines.Repr))
      ensures a == Reply(c, store, Request.EngineFor(id)).1 <==>
              Seen(old(engines.contents), store, c.compile, id) == Fresh(store, c.compile, id)
      ensures id !in doubt ==>
              a == Reply(c, store, Request.EngineFor(id)).1 && Tells(c, Request.EngineFor(id), a, Stored(store, id))
      ensures id in old(engines.contents) ==> a == Engine(old(engines.contents)[id])
      ensures a.Engine? ==> id in engines.contents && engines.contents[id] == a.engine
    {
      var r := Lookup(engines, store, c.compile, id, doubt);
      match r {
        case Missing => return NotFound;
        case Broken => return CompileFailed;
        case Found(e) => return Engine(e);
      }
    }

    method EngineForV2(id: string) returns (a: Answer<E, F>)
      requires Valid()
      modifies enginesV2.Repr
      ensures Valid() && fresh(enginesV2.Repr - old(enginesV2.Repr))
      ensures a == Reply(c, store, Request.EngineForV2(id)).1 <==>
              Seen(old(enginesV2.contents), store, c.compileV2, id) == Fresh(store, c.compileV2, id)
      ensures id !in doubt ==>
              a == Reply(c, store, Request.EngineForV2(id)).1 && Tells(c, Request.EngineForV2(id), a, Stored(store, id))
    {
      var r := Lookup(enginesV2, store, c.compileV2, id, doubt);
      match r {
        case Missing => return NotFound;
        case Broken => return CompileFailed;
        case Found(e) => return EngineV2(e);
      }
    }

    /** engineEvict, between the change of the stored flow and the next lookup. */
    method Evict(id: string)
      requires Apart() && engines.Valid() && enginesV2.Valid()
      modifies engines, enginesV2
      ensures Apart() && engines.Valid() && enginesV2.Valid()
      ensures engines.contents == old(engines.contents) - {id} && enginesV2.contents == old(enginesV2.contents) - {id}
      ensures engines.Repr == old(engines.Repr) && enginesV2.Repr == old(enginesV2.Repr)
    {
      engines.Delete(id);
      enginesV2.Delete(id);
    }

    /** Nothing is evicted, however the store ends: a new id is not cached. */
    method CreateFlow(reqId: string, body: string, outcome: Outcome) returns (a: Answer<E, F>)
      requires Valid()
      modifies this`store
      ensures Valid() && (old(Honest()) ==> Honest())
      ensures (store, a) == Reply(c, old(store), Create(reqId, body, outcome))
      ensures a.Created? <==>
                outcome.Written? && c.compile(body).Some? && exists id :: Names(c, reqId, body, id) && id !in old(store)
      ensures forall id :: Names(c, reqId, body, id) ==>
                && (a.Created? || (a.ServerError? && outcome.WrittenThenFailed?) ==> id !in old(store) && store == old(store)[id := body])
                && (a.Conflict? ==> id in old(store))
      ensures a.BadRequest? <==> c.compile(body).None? || forall id :: !Names(c, reqId, body, id)
      ensures !a.Created? && !outcome.WrittenThenFailed? ==> store == old(store)
      ensures a.BadRequest? || a.Conflict? ==> store == old(store)
    {
      forall id { HeaderNames(c, reqId, body, id); }
      var id := HeaderId(c, reqId, body);
      if id.None? { return BadRequest; }
      if c.compile(body).None? { return BadRequest; }
      if outcome.Unwritten? { return ServerError; }
      if id.value in store { return Conflict; }
      store := store[id.value := body];
      return if outcome.Written? then Created else ServerError;
    }

    /** A PUT that fails after it wrote evicts nothing. The caches stay unnoticed exactly when neither holds an
        engine that the new body makes out of date. */
    method PutFlow(id: string, reqId: string, body: string, outcome: Outcome) returns (a: Answer<E, F>)
      requires Valid()
      modifies this`store, this`doubt, engines, enginesV2
      ensures Valid() && engines.Repr == old(engines.Repr) && enginesV2.Repr == old(enginesV2.Repr)
      ensures (store, a) == Reply(c, old(store), Put(id, reqId, body, outcome))
      ensures doubt == Doubt(c, old(store), old(doubt), Put(id, reqId, body, outcome))
      ensures a.BadRequest? <==> !(reqId == "" || reqId == id) || body == "" || c.compile(body).None?
      ensures a.Updated? <==> !a.BadRequest? && outcome.Written?
      ensures store == if a.Updated? || (a.ServerError? && outcome.WrittenThenFailed?) then old(store)[id := body] else old(store)
      ensures a.ServerError? ==>
              engines.contents == old(engines.contents) && enginesV2.contents == old(enginesV2.contents)
      ensures old(Honest()) ==>
                (Honest() <==> !(a.ServerError? && outcome.WrittenThenFailed? &&
                                 (Outdated(old(engines.contents), c.compile, id, body) || Outdated(old(enginesV2.contents), c.compileV2, id, body))))
    {
      hide Mirrors, MirrorsBut, Outdated, Indexed, ByUse;
      PutMirrors(engines.contents, store, c.compile, doubt, id, body);
      PutMirrors(enginesV2.contents, store, c.compileV2, doubt, id, body);
      if reqId != "" && reqId != id { return BadRequest; }
      if body == "" { return BadRequest; }
      if c.compile(body).None? { return BadRequest; }
      if outcome.Unwritten? { return ServerError; }
      store := store[id := body];
      if outcome.WrittenThenFailed? {
        doubt := doubt + {id};
        return ServerError;
      }
      Evict(id);
      doubt := doubt - {id};
      return Updated;
    }

    method DeleteFlow(id: string, storeFails: bool) returns (a: Answer<E, F>)
      requires Valid()
      modifies this`store, this`doubt, engines, enginesV2
      ensures Valid() && engines.Repr == old(engines.Repr) && enginesV2.Repr == old(enginesV2.Repr)
      ensures (old(Honest()) ==> Honest())
      ensures (store, a) == Reply(c, old(store), Request.DeleteFlow(id, storeFails))
      ensures doubt == Doubt(c, old(store), old(doubt), Request.DeleteFlow(id, storeFails))
      ensures (a.NotFound? <==> id !in old(store)) && (a.Deleted? <==> id in old(store) && !storeFails)
      ensures store == if a.Deleted? then old(store) - {id} else old(store)
    {
      hide Mirrors, MirrorsBut, Indexed, ByUse;
      DeleteMirrors(engines.contents, store, c.compile, doubt, id);
      DeleteMirrors(enginesV2.contents, store, c.compileV2, doubt, id);
      if id !in store { return NotFound; }
      if storeFails { return ServerError; }
      store := store - {id};
      Evict(id);
      doubt := doubt - {id};
      return Deleted;
    }

    method Serve(r: Request) returns (a: Answer<E, F>)
      requires Valid()
      modifies this`store, this`doubt, engines.Repr, enginesV2.Repr
      ensures Valid() && store == Reply(c, old(store), r).0 && doubt == Doubt(c, old(store), old(doubt), r)
      ensures AsksFor(r, old(doubt)) || a == Reply(c, old(store), r).1
      ensures fresh(engines.Repr - old(engines.Repr)) && fresh(enginesV2.Repr - old(enginesV2.Repr))
    {
      match r
      case Create(reqId, body, outcome) => a := CreateFlow(reqId, body, outcome);
      case Put(id, reqId, body, outcome) => a := PutFlow(id, reqId, body, outcome);
      case DeleteFlow(id, storeFails) => a := DeleteFlow(id, storeFails);
      case EngineFor(id) => a := EngineFor(id);
      case EngineForV2(id) => a := EngineForV2(id);
    }

    /** Over any sequence of requests the server stores what a server without caches would, and answers as it
        would, but for lookups of an id whose last PUT failed after it wrote. Without such a PUT the caches are
        invisible; and if no write at all fails late, every lookup tells of the body last written for its id. */
    method ServeAll(rs: seq<Request>) returns (answers: seq<Answer<E, F>>)
      requires Valid()
      modifies this`store, this`doubt, engines.Repr, enginesV2.Repr
      ensures Valid() && store == Replies(c, old(store), rs).0 && doubt == DoubtAfter(c, old(store), old(doubt), rs)
      ensures AnsweredBut(c, old(store), old(doubt), rs, answers)
      ensures old(doubt) == {} && NoneFailsLate(rs) ==> answers == Replies(c, old(store), rs).1
      ensures |answers| == |rs|
      ensures old(doubt) == {} && NothingLate(rs) ==>
                forall i :: 0 <= i < |rs| && (rs[i].EngineFor? || rs[i].EngineForV2?) ==>
                  Tells(c, rs[i], answers[i],
                        LastWritten(c, rs[i].id, Stored(old(store), rs[i].id), rs[..i], answers[..i]))
      ensures fresh(engines.Repr - old(engines.Repr)) && fresh(enginesV2.Repr - old(enginesV2.Repr))
      decreases |rs|
    {
      if rs == [] { return []; }
      var a := Serve(rs[0]);
      var rest := ServeAll(rs[1..]);
      answers := [a] + rest;
      assert answers[1..] == rest;
      if old(doubt) == {} && NoneFailsLate(rs) { AnsweredAll(c, old(store), rs, answers); }
      if old(doubt) == {} && NothingLate(rs) { AllTold(c, old(store), rs); }
    }

    /** Such a lookup does go wrong: a flow is looked up, replaced by a PUT that fails after it wrote, and looked
        up again. The second lookup still gets the first engine. */
    method FailedPutShows(id: string, body: string) returns (a: Answer<E, F>)
      requires Valid() && Honest() && id in store && c.compile(store[id]).Some? && Puts(c, id, "", body)
      modifies this`store, this`doubt, engines.Repr, enginesV2.Repr
      ensures store == old(store)[id := body] && a == Engine(c.compile(old(store)[id]).value)
      ensures Reply(c, store, Request.EngineFor(id)).1 == Engine(c.compile(body).value)
    {
      hide Mirrors, MirrorsBut, Indexed, ByUse, Doubt, EngineCache.Valid;
      MirrorsExactly(engines.contents, store, c.compile);
      var first := EngineFor(id);
      assert first == Engine(c.compile(store[id]).value);
      var put := PutFlow(id, "", body, WrittenThenFailed);
      a := EngineFor(id);
    }
  }
}
