/** The data-stream executors (v2/flow/graph/streamgraph.go, streamdag.go, runnable.go) walk the same graph
    without the engine, carrying a value or a live stream from node to node. Draining what they return gives
    Invoke's result. */
module StreamWalk {
  import opened Prelude
  import opened FlowIr
  import opened Layering
  import opened LayeredEngine
  import opened StreamGraph
  import opened Streaming

  datatype Carrier = Whole(v: Value) | Flowing(frames: seq<Frame>)

  /** lookupConcat: the folder for a target type, if exactly one fits. */
  type Folders = map<string, seq<Frame> -> Option<Value>>

  /** concatToValue where the carrier is a stream. */
  function Materialise(folders: Folders, c: Carrier, t: string): Option<Value> {
    match c
    case Whole(v) => Some(v)
    case Flowing(frames) => if t in folders then folders[t](frames) else None
  }

  /** One turn of walkChain's loop: the port taken and what it carries. */
  function Turn(folders: Folders, n: GraphNode, c: Carrier): Option<(string, Carrier)> {
    match Materialise(folders, c, n.inT)
    case None => None
    case Some(v) =>
      if n.kind.ChatModel? then (match n.kind.stream(v) case Some(frames) => Some((PORT_OUT, Flowing(frames))) case None => None)
      else match Yields(n.kind, v) case Some((port, w)) => Some((port, Whole(w))) case None => None
  }

  /** Where walkChain stops. */
  datatype Stop = StoppedAt(sink: string, carrier: Carrier) | WalkFailed

  ghost function Chain(e: Engine, g: Graph, folders: Folders, cur: string, c: Carrier): Stop
    requires EngineOf(e, g) && IsNode(g, cur) && Layered(e.layers, cur)
    decreases |e.layers| - LayerOf(e.layers, cur)
  {
    var n := NodeAt(g.nodes, cur).value;
    match Turn(folders, n, c)
    case None => WalkFailed
    case Some((port, d)) =>
      if EdgeFrom(g, cur, port).None? then (if n.kind.Branch? then WalkFailed else StoppedAt(cur, d))
      else
        NextIsLater(e, g, cur, port);
        Chain(e, g, folders, EdgeFrom(g, cur, port).value, d)
  }

  /** walkChain's loop. Carriers are run for their effect on live streams only, which is not part of the model. */
  method WalkChain(g: Graph, folders: Folders, start: string, entry: Carrier, ghost e: Engine) returns (r: Stop)
    requires EngineOf(e, g) && IsNode(g, start) && Layered(e.layers, start)
    ensures r == Chain(e, g, folders, start, entry)
  {
    hide EngineOf, NodeAt, EdgeFrom, LayerOf, Layered;
    var carrier, cur := entry, start;
    while true
      invariant IsNode(g, cur) && Layered(e.layers, cur)
      invariant Chain(e, g, folders, start, entry) == Chain(e, g, folders, cur, carrier)
      decreases |e.layers| - LayerOf(e.layers, cur)
    {
      var n := NodeAt(g.nodes, cur).value;
      ghost var before := carrier;
      if carrier.Flowing? {
        match Materialise(folders, carrier, n.inT) {
          case None => return WalkFailed;
          case Some(v) => carrier := Whole(v);
        }
      }
      var port := PORT_OUT;
      match n.kind {
        case Branch(_, _) =>
          match Yields(n.kind, carrier.v) {
            case None => return WalkFailed;
            case Some((p, w)) => port, carrier := p, Whole(w);
          }
        case ChatModel(_, stream) =>
          match stream(carrier.v) {
            case None => return WalkFailed;
            case Some(frames) => carrier := Flowing(frames);
          }
        case _ =>
          match Yields(n.kind, carrier.v) {
            case None => return WalkFailed;
            case Some((_, w)) => carrier := Whole(w);
          }
      }
      assert Turn(folders, n, before) == Some((port, carrier));
      match EdgeFrom(g, cur, port) {
        case None => return if n.kind.Branch? then WalkFailed else StoppedAt(cur, carrier);
        case Some(t) =>
          NextIsLater(e, g, cur, port);
          cur := t;
      }
    }
  }

  /** What draining the returned reader gives: the tail value, folded to the graph output type if the sink
      streams, and asserted to it. */
  function Drained(g: Graph, folders: Folders, s: Stop): Option<Value> {
    match s
    case WalkFailed => None
    case StoppedAt(_, c) =>
      match Materialise(folders, c, g.outT)
      case Some(w) => if g.isOut(w) then Some(w) else None
      case None => None
  }

  ghost function Streamed(e: Engine, g: Graph, folders: Folders, v: Value): Option<Value>
    requires EngineOf(e, g) && g.entry in GraphIds(g)
  {
    NodesAreNodes(e, g, g.entry);
    Drained(g, folders, Chain(e, g, folders, g.entry, Whole(v)))
  }

  // ---------------------------------------------------------------- the per-node law

  /** The stream of a chat model folds, at every type that consumes it, to what Run returns. */
  ghost predicate FoldsTo(k: Kind, folders: Folders, t: string)
    requires k.ChatModel?
  {
    t in folders && forall v :: k.generate(v) == match k.stream(v) case Some(frames) => folders[t](frames) case None => None
  }

  ghost predicate Faithful(g: Graph, folders: Folders) {
    && (forall i :: 0 <= i < |g.edges| ==>
          var n, m := NodeAt(g.nodes, g.edges[i].source), NodeAt(g.nodes, g.edges[i].target);
          n.Some? && m.Some? && n.value.kind.ChatModel? ==> FoldsTo(n.value.kind, folders, m.value.inT))
    && (var x := NodeAt(g.nodes, g.exit);
        x.Some? && x.value.kind.ChatModel? ==> FoldsTo(x.value.kind, folders, g.outT))
  }

  // ---------------------------------------------------------------- stream equals invoke

  /** What the walk on values ends with, as the caller of Invoke sees it. */
  ghost function Result(g: Graph, c: Course): Option<Value> {
    match c
    case Broke(_) => None
    case Ended(_, sink, w) => if sink == g.exit && g.isOut(w) then Some(w) else None
  }

  lemma BranchHasRoute(g: Graph, n: GraphNode, v: Value)
    requires WellBuilt(g) && n in g.nodes && n.kind.Branch? && Yields(n.kind, v).Some?
    ensures EdgeFrom(g, n.id, Yields(n.kind, v).value.0).Some?
  {
  }

  /** A branch always finds the edge of the route it selected, so the walk stops at ordinary sinks only. */
  lemma StopsAtSink(e: Engine, g: Graph, folders: Folders, cur: string, c: Carrier)
    requires Routed(e, g) && IsNode(g, cur)
    ensures var x := Turn(folders, NodeAt(g.nodes, cur).value, c);
            x.Some? && EdgeFrom(g, cur, x.value.0).None? ==> !KindAt(g, cur).Branch? && x.value.0 == PORT_OUT
  {
    hide NodeAt, EdgeFrom, Routed, EngineOf, WellBuilt, Turn, Yields;
    RoutedIs(e, g);
    RoutedBuilt(e, g);
    var n := NodeAt(g.nodes, cur).value;
    if Turn(folders, n, c).Some? { TurnPort(folders, n, c); }
    NodeAtIs(g.nodes, cur);
    if n.kind.Branch? && Turn(folders, n, c).Some? { BranchHasRoute(g, n, Materialise(folders, c, n.inT).value); }
  }

  lemma TurnPort(folders: Folders, n: GraphNode, c: Carrier)
    requires Turn(folders, n, c).Some?
    ensures Materialise(folders, c, n.inT).Some?
    ensures var y, port := Yields(n.kind, Materialise(folders, c, n.inT).value), Turn(folders, n, c).value.0;
            if n.kind.Branch? then y.Some? && y.value.0 == port else port == PORT_OUT
  {
  }

  /** What c becomes when something of type t consumes it. */
  function At(folders: Folders, d: Option<Carrier>, t: string): Option<Value> {
    match d case None => None case Some(c) => Materialise(folders, c, t)
  }

  function Value1(y: Option<(string, Value)>): Option<Value> { match y case Some((_, w)) => Some(w) case None => None }

  function Carrier1(y: Option<(string, Carrier)>): Option<Carrier> { match y case Some((_, d)) => Some(d) case None => None }

  /** At every type that consumes a node, its carrier is worth the value Run emits, failure included. */
  lemma TurnIsRun(folders: Folders, n: GraphNode, c: Carrier, v: Value, t: string)
    requires Materialise(folders, c, n.inT) == Some(v) && (n.kind.ChatModel? ==> FoldsTo(n.kind, folders, t))
    ensures At(folders, Carrier1(Turn(folders, n, c)), t) == Value1(Yields(n.kind, v))
    ensures var x, y := Turn(folders, n, c), Yields(n.kind, v);
            (x.None? ==> y.None?) && (x.Some? && y.Some? ==> x.value.0 == y.value.0) && (n.kind.ChatModel? && x.Some? ==> x.value.0 == PORT_OUT)
    ensures !n.kind.ChatModel? ==> Turn(folders, n, c).Some? == Yields(n.kind, v).Some?
  {
  }

  lemma WalkIs(e: Engine, g: Graph, folders: Folders, cur: string, c: Carrier)
    requires Routed(e, g) && IsNode(g, cur) && Layered(e.layers, cur)
    ensures match Turn(folders, NodeAt(g.nodes, cur).value, c)
            case None => Chain(e, g, folders, cur, c) == WalkFailed
            case Some((port, d)) =>
              match EdgeFrom(g, cur, port)
              case None => Chain(e, g, folders, cur, c) == StoppedAt(cur, d)
              case Some(t) => IsNode(g, t) && Layered(e.layers, t) && Chain(e, g, folders, cur, c) == Chain(e, g, folders, t, d)
  {
    StopsAtSink(e, g, folders, cur, c);
    match Turn(folders, NodeAt(g.nodes, cur).value, c)
    case None =>
    case Some((port, d)) => if EdgeFrom(g, cur, port).Some? { NextIsLater(e, g, cur, port); }
  }

  lemma ConsumerFolds(e: Engine, g: Graph, folders: Folders, cur: string, port: string)
    requires Routed(e, g) && Faithful(g, folders) && IsNode(g, cur) && KindAt(g, cur).ChatModel?
    ensures match EdgeFrom(g, cur, port)
            case Some(t) => IsNode(g, t) ==> FoldsTo(KindAt(g, cur), folders, NodeAt(g.nodes, t).value.inT)
            case None => cur == g.exit ==> FoldsTo(KindAt(g, cur), folders, g.outT)
  {
    EdgeFromIs(g, cur, port, 0);
    hide NodeAt, EdgeFromAt;
    match EdgeFrom(g, cur, port)
    case None =>
    case Some(t) =>
      var i :| 0 <= i < |g.edges| && g.edges[i].source == cur && g.edges[i].fromPort == port && g.edges[i].target == t;
  }

  lemma OrdinaryEdge(g: Graph, cur: string, i: nat)
    requires WellBuilt(g) && IsNode(g, cur) && !KindAt(g, cur).Branch? && i < |g.edges| && g.edges[i].source == cur
    ensures EdgeFrom(g, cur, PORT_OUT).Some?
  {
    EdgeFromIs(g, cur, PORT_OUT, 0);
    assert g.edges[i].fromPort == PORT_OUT || g.edges[i].fromPort in OutPorts(KindAt(g, cur));
  }

  /** An ordinary node with no edge on its output port has no edge at all. */
  lemma SinkIsExit(e: Engine, g: Graph, cur: string)
    requires Routed(e, g) && EndsAtExit(g, cur) && IsNode(g, cur) && !KindAt(g, cur).Branch?
    requires EdgeFrom(g, cur, PORT_OUT).None?
    ensures cur == g.exit
  {
    hide EdgeFrom, NodeAt, GetsTo;
    RoutedBuilt(e, g);
    forall i | 0 <= i < |g.edges| && g.edges[i].source == cur
      ensures EdgeFrom(g, cur, PORT_OUT).Some?
    {
      OrdinaryEdge(g, cur, i);
    }
    GetsToSelf(g, cur);
    assert Sink(g, cur);
  }

  /** The law holds at whatever consumes a chat model. */
  lemma ChatTurns(e: Engine, g: Graph, folders: Folders, cur: string, c: Carrier, v: Value)
    requires Routed(e, g) && Faithful(g, folders) && IsNode(g, cur) && KindAt(g, cur).ChatModel?
    requires EdgeFrom(g, cur, PORT_OUT).None? ==> cur == g.exit
    requires Materialise(folders, c, NodeAt(g.nodes, cur).value.inT) == Some(v)
    requires Turn(folders, NodeAt(g.nodes, cur).value, c).None?
    ensures Yields(KindAt(g, cur), v).None?
  {
    hide Routed, EngineOf, Faithful, NodeAt, EdgeFrom, Turn, Yields, FoldsTo;
    RoutedIs(e, g);
    var n := NodeAt(g.nodes, cur).value;
    ConsumerFolds(e, g, folders, cur, PORT_OUT);
    match EdgeFrom(g, cur, PORT_OUT)
    case Some(t) =>
      NextIsLater(e, g, cur, PORT_OUT);
      TurnIsRun(folders, n, c, v, NodeAt(g.nodes, t).value.inT);
    case None =>
      TurnIsRun(folders, n, c, v, g.outT);
  }

  /** From any node of the walk, the stream walk drains to what the value walk results in. */
  lemma {:induction false} WalkDrains(e: Engine, g: Graph, folders: Folders, cur: string, c: Carrier)
    requires Routed(e, g) && EndsAtExit(g, cur) && Faithful(g, folders) && IsNode(g, cur) && Layered(e.layers, cur)
    ensures Drained(g, folders, Chain(e, g, folders, cur, c)) ==
            match Materialise(folders, c, NodeAt(g.nodes, cur).value.inT)
            case None => None
            case Some(v) => Result(g, Follow(e, g, cur, v))
    decreases |e.layers| - LayerOf(e.layers, cur)
  {
    hide Routed, EngineOf, EndsAtExit, Faithful, NodeAt, EdgeFrom, Chain, Follow, Turn, Yields, FoldsTo, Layered;
    hide LayerOf;
    RoutedIs(e, g);
    var n := NodeAt(g.nodes, cur).value;
    WalkIs(e, g, folders, cur, c);
    match Materialise(folders, c, n.inT)
    case None => NoTurn(folders, n, c);
    case Some(v) => WalkDrainsOn(e, g, folders, cur, c, v);
  }

  lemma NoTurn(folders: Folders, n: GraphNode, c: Carrier)
    requires Materialise(folders, c, n.inT).None?
    ensures Turn(folders, n, c).None?
  {
  }

  lemma {:induction false} WalkDrainsOn(e: Engine, g: Graph, folders: Folders, cur: string, c: Carrier, v: Value)
    requires Routed(e, g) && EndsAtExit(g, cur) && Faithful(g, folders) && IsNode(g, cur) && Layered(e.layers, cur)
    requires Materialise(folders, c, NodeAt(g.nodes, cur).value.inT) == Some(v)
    ensures Drained(g, folders, Chain(e, g, folders, cur, c)) == Result(g, Follow(e, g, cur, v))
    decreases |e.layers| - LayerOf(e.layers, cur), 0
  {
    hide Routed, EngineOf, EndsAtExit, Faithful, NodeAt, EdgeFrom, Chain, Follow, Turn, Yields, FoldsTo, Layered;
    hide LayerOf;
    RoutedIs(e, g);
    var n := NodeAt(g.nodes, cur).value;
    WalkIs(e, g, folders, cur, c);
    FollowIs(e, g, cur, v);
    StopsAtSink(e, g, folders, cur, c);
    match Turn(folders, n, c)
    case None =>
      TurnFails(folders, n, c, v);
      if n.kind.ChatModel? {
        if EdgeFrom(g, cur, PORT_OUT).None? { SinkIsExit(e, g, cur); }
        ChatTurns(e, g, folders, cur, c, v);
      }
    case Some((port, d)) =>
      if n.kind.ChatModel? { ConsumerFolds(e, g, folders, cur, port); }
      match EdgeFrom(g, cur, port)
      case Some(t) =>
        TurnIsRun(folders, n, c, v, NodeAt(g.nodes, t).value.inT);
        NextIsLater(e, g, cur, port);
        TurnEndsAtExit(g, folders, cur, c);
        WalkDrains(e, g, folders, t, d);
      case None =>
        SinkIsExit(e, g, cur);
        TurnIsRun(folders, n, c, v, g.outT);
  }

  /** The walk stays where every way on ends at the exit. */
  lemma TurnEndsAtExit(g: Graph, folders: Folders, cur: string, c: Carrier)
    requires IsNode(g, cur) && EndsAtExit(g, cur) && Turn(folders, NodeAt(g.nodes, cur).value, c).Some?
    requires EdgeFrom(g, cur, Turn(folders, NodeAt(g.nodes, cur).value, c).value.0).Some?
    ensures EndsAtExit(g, EdgeFrom(g, cur, Turn(folders, NodeAt(g.nodes, cur).value, c).value.0).value)
  {
    hide NodeAt, EdgeFromAt;
    var port := Turn(folders, NodeAt(g.nodes, cur).value, c).value.0;
    var t := EdgeFrom(g, cur, port).value;
    EdgeFromIs(g, cur, port, 0);
    var j :| 0 <= j < |g.edges| && g.edges[j].source == cur && g.edges[j].fromPort == port && g.edges[j].target == t;
    TurnPort(folders, NodeAt(g.nodes, cur).value, c);
    assert Live(g, j);
    forall s | GetsTo(g, t, s) && Sink(g, s) ensures s == g.exit {
      var w :| Leads(g, w, t, s);
      LeadsOn(g, w, cur, t, s);
    }
  }

  lemma TurnFails(folders: Folders, n: GraphNode, c: Carrier, v: Value)
    requires Materialise(folders, c, n.inT) == Some(v) && Turn(folders, n, c).None?
    ensures !n.kind.ChatModel? ==> Yields(n.kind, v).None?
  {
  }

  /** Draining Stream gives what Invoke gives: the exit is the only sink a walk can end at, each chat model's stream folds to
      what its Run returns, and the input's walk meets no branch that selects past a route named after the input
      port (or past one whose target the walk meets anyway). */
  lemma StreamIsInvoke(e: Engine, g: Graph, folders: Folders, v: Value)
    requires Routed(e, g) && Tracked(e, g, v) && OnlySink(g) && Faithful(g, folders)
    ensures Streamed(e, g, folders, v) == Invoke(e, g, v)
  {
    hide Routed, EngineOf, EndsAtExit, Faithful, Chain, Follow, Invoke;
    RoutedIs(e, g);
    InvokeIsWalk(e, g, v);
    assert g.entry in GraphIds(g);
    WalkDrains(e, g, folders, g.entry, Whole(v));
  }

  /** The nodes the stream walk turns. */
  ghost function Visited(e: Engine, g: Graph, folders: Folders, cur: string, c: Carrier): set<string>
    requires EngineOf(e, g) && IsNode(g, cur) && Layered(e.layers, cur)
    decreases |e.layers| - LayerOf(e.layers, cur)
  {
    match Turn(folders, NodeAt(g.nodes, cur).value, c)
    case None => {cur}
    case Some((port, d)) =>
      if EdgeFrom(g, cur, port).None? then {cur}
      else
        NextIsLater(e, g, cur, port);
        {cur} + Visited(e, g, folders, EdgeFrom(g, cur, port).value, d)
  }

  lemma VisitedIs(e: Engine, g: Graph, folders: Folders, cur: string, c: Carrier, port: string, d: Carrier)
    requires Routed(e, g) && IsNode(g, cur) && Layered(e.layers, cur)
    requires Turn(folders, NodeAt(g.nodes, cur).value, c) == Some((port, d))
    ensures match EdgeFrom(g, cur, port)
            case None => Visited(e, g, folders, cur, c) == {cur}
            case Some(t) => IsNode(g, t) && Layered(e.layers, t) && Visited(e, g, folders, cur, c) == {cur} + Visited(e, g, folders, t, d)
  {
    hide Routed, EngineOf, Turn, NodeAt, EdgeFrom;
    RoutedIs(e, g);
    if EdgeFrom(g, cur, port).Some? { NextIsLater(e, g, cur, port); }
  }

  lemma TurnsWhenRuns(e: Engine, g: Graph, folders: Folders, cur: string, c: Carrier, v: Value)
    requires Routed(e, g) && Faithful(g, folders) && IsNode(g, cur) && Yields(KindAt(g, cur), v).Some?
    requires EdgeFrom(g, cur, Yields(KindAt(g, cur), v).value.0).None? ==> cur == g.exit
    requires Materialise(folders, c, NodeAt(g.nodes, cur).value.inT) == Some(v)
    ensures Turn(folders, NodeAt(g.nodes, cur).value, c).Some?
  {
    hide Routed, EngineOf, Faithful, NodeAt, Turn, Yields, EdgeFromAt;
    RoutedIs(e, g);
    if Turn(folders, NodeAt(g.nodes, cur).value, c).None? {
      TurnFails(folders, NodeAt(g.nodes, cur).value, c, v);
      if KindAt(g, cur).ChatModel? {
        YieldsOn(KindAt(g, cur), v);
        ChatTurns(e, g, folders, cur, c, v);
      }
    }
  }

  /** A walk on values that ends at the exit: the stream walk goes through the same nodes, and what it ends on
      drains to the same result. */
  lemma {:induction false} ExitDrains(e: Engine, g: Graph, folders: Folders, cur: string, c: Carrier, v: Value)
    requires Routed(e, g) && Faithful(g, folders) && IsNode(g, cur) && Layered(e.layers, cur)
    requires Materialise(folders, c, NodeAt(g.nodes, cur).value.inT) == Some(v) && Follow(e, g, cur, v).Ended?
    requires Follow(e, g, cur, v).sink == g.exit
    ensures Visited(e, g, folders, cur, c) == Follow(e, g, cur, v).seen
    ensures Drained(g, folders, Chain(e, g, folders, cur, c)) == Result(g, Follow(e, g, cur, v))
    decreases |e.layers| - LayerOf(e.layers, cur)
  {
    hide Routed, EngineOf, Faithful, NodeAt, EdgeFrom, Chain, Follow, Turn, Yields, FoldsTo, Layered, LayerOf, Visited;
    RoutedIs(e, g);
    var n := NodeAt(g.nodes, cur).value;
    FollowIs(e, g, cur, v);
    TurnsWhenRuns(e, g, folders, cur, c, v);
    WalkIs(e, g, folders, cur, c);
    var (port, d) := Turn(folders, n, c).value;
    VisitedIs(e, g, folders, cur, c, port, d);
    if n.kind.ChatModel? { ConsumerFolds(e, g, folders, cur, port); }
    StopsAtSink(e, g, folders, cur, c);
    match EdgeFrom(g, cur, port)
    case Some(t) =>
      TurnIsRun(folders, n, c, v, NodeAt(g.nodes, t).value.inT);
      NextIsLater(e, g, cur, port);
      ExitDrains(e, g, folders, t, d, Value1(Yields(n.kind, v)).value);
    case None =>
      YieldsOn(n.kind, v);
      TurnIsRun(folders, n, c, v, g.outT);
  }

  /** When the run succeeds, the nodes walked are exactly the nodes the engine activates. */
  lemma WalkedIsActivated(e: Engine, g: Graph, folders: Folders, v: Value)
    requires Routed(e, g) && Tracked(e, g, v) && Faithful(g, folders) && Invoke(e, g, v).Some?
    ensures IsNode(g, g.entry) && Layered(e.layers, g.entry)
    ensures var f := FreshRun(e, None, None, map[GRAPH_IN := v], false);
            f.Finished? && Visited(e, g, folders, g.entry, Whole(v)) == f.run.net.active
  {
    hide Routed, EngineOf, Faithful, Follow, Visited, Invoke, Chain;
    RoutedIs(e, g);
    InvokeIsWalk(e, g, v);
    ExitDrains(e, g, folders, g.entry, Whole(v), v);
  }

  // ---------------------------------------------------------------- any sinks

  /** Whatever other sinks there are, Stream and Invoke agree exactly on the inputs whose walk ends at the exit or
      whose stream fails: a walk that ends on a value elsewhere gives Stream that value and Invoke no output. */
  lemma StreamIsInvokeExactly(e: Engine, g: Graph, folders: Folders, v: Value)
    requires Routed(e, g) && Tracked(e, g, v) && Faithful(g, folders)
    ensures g.entry in GraphIds(g) && IsNode(g, g.entry) && Layered(e.layers, g.entry)
    ensures var c := Follow(e, g, g.entry, v);
            Streamed(e, g, folders, v) == Invoke(e, g, v) <==> (c.Ended? && c.sink == g.exit) || Streamed(e, g, folders, v).None?
  {
    hide EngineOf, Faithful, Follow, Invoke, Chain, NodeAt;
    RoutedIs(e, g);
    InvokeIsWalk(e, g, v);
    var c := Follow(e, g, g.entry, v);
    if c.Ended? && c.sink == g.exit { ExitDrains(e, g, folders, g.entry, Whole(v), v); }
  }

  /** Without chat models the walk carries values only. */
  lemma {:induction false} WalkOnValues(e: Engine, g: Graph, folders: Folders, cur: string, v: Value)
    requires Routed(e, g) && IsNode(g, cur) && Layered(e.layers, cur) && forall n :: n in g.nodes ==> !n.kind.ChatModel?
    ensures match Follow(e, g, cur, v)
            case Broke(_) => Chain(e, g, folders, cur, Whole(v)) == WalkFailed
            case Ended(_, sink, w) => Chain(e, g, folders, cur, Whole(v)) == StoppedAt(sink, Whole(w))
    decreases |e.layers| - LayerOf(e.layers, cur)
  {
    hide Routed, EngineOf, Chain, Follow, Yields, EdgeFrom, LayerOf, Layered;
    RoutedIs(e, g);
    var n := NodeAt(g.nodes, cur).value;
    NodeAtIs(g.nodes, cur);
    hide NodeAt;
    FollowIs(e, g, cur, v);
    WalkIs(e, g, folders, cur, Whole(v));
    match Yields(n.kind, v)
    case None =>
    case Some((port, w)) =>
      match EdgeFrom(g, cur, port)
      case None =>
      case Some(t) =>
        NextIsLater(e, g, cur, port);
        WalkOnValues(e, g, folders, t, w);
  }
}
