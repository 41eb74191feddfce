/** The readers Stream returns (v2/flow/graph/stream.go), and the graphs the stream walk and the engine
    disagree on. */
module StreamTail {
  import opened Prelude
  import opened FlowIr
  import opened Layering
  import opened Validation
  import opened Wiring
  import opened LayeredEngine
  import opened Legs
  import opened Lifecycle
  import opened Dataflow
  import opened Equations
  import opened StreamGraph

  datatype Read = Item(v: Value) | ReadFailed | Eof

  /** A live upstream: its frames and how often Close reached it. */
  class Upstream {
    const frames: seq<Frame>
    var closes: nat

    constructor (frames: seq<Frame>)
      ensures this.frames == frames && closes == 0
    {
      this.frames, closes := frames, 0;
    }

    method Close()
      modifies this
      ensures closes == old(closes) + 1
    {
      closes := closes + 1;
    }
  }

  /** The lazy tail of a walk that ends on a stream: one value, folded at the first Next. The folder closes
      the stream it drains, and Next's deferred Close does so again; Close is idempotent upstream. */
  class FoldTailReader {
    const stream: Upstream
    const fold: seq<Frame> -> Option<Value>
    const isOut: Value -> bool
    var done: bool
    var closed: bool

    /** Once a Next or a Close has returned, the upstream has been released. */
    ghost predicate Valid()
      reads this, stream
    {
      (done ==> closed) && (closed ==> stream.closes > 0)
    }

    constructor (stream: Upstream, fold: seq<Frame> -> Option<Value>, isOut: Value -> bool)
      requires stream.closes == 0
      ensures Valid() && !done && !closed && this.stream == stream && this.fold == fold && this.isOut == isOut
    {
      this.stream, this.fold, this.isOut := stream, fold, isOut;
      done, closed := false, false;
    }

    /** The folded value asserted to the output type, or an error; io.EOF ever after. */
    method Next() returns (r: Read)
      requires Valid()
      modifies this, stream
      ensures Valid() && closed
      ensures (old(closed) ==> r == Eof && done == old(done) && stream.closes == old(stream.closes))
      ensures !old(closed) ==> done && r == match fold(stream.frames)
                                            case Some(v) => if isOut(v) then Item(v) else ReadFailed
                                            case None => ReadFailed
    {
      if closed || done { return Eof; }
      done, closed := true, true;
      var v := fold(stream.frames);
      stream.Close();
      stream.Close();
      match v {
        case None => return ReadFailed;
        case Some(x) => return if isOut(x) then Item(x) else ReadFailed;
      }
    }

    /** Closing before the first Next releases the upstream without folding it. */
    method Close()
      requires Valid()
      modifies this, stream
      ensures Valid() && closed && done == old(done) && (done ==> stream.closes == old(stream.closes))
    {
      closed := true;
      if !done { stream.Close(); }
    }

    /** A consumer that reads to the end and closes. */
    method Drain() returns (r: Option<Value>)
      requires Valid() && !closed
      modifies this, stream
      ensures Valid() && closed && stream.closes > 0
      ensures r == match fold(stream.frames) case Some(v) => (if isOut(v) then Some(v) else None) case None => None
    {
      var first := Next();
      match first {
        case Item(v) => r := Some(v);
        case ReadFailed => r := None;
        case Eof => r := None;
      }
      var last := Next();
      assert last == Eof;
      Close();
    }
  }

  /** The one-element reader of a value tail. */
  class BoxReader {
    const v: Value
    var done: bool
    var closed: bool

    constructor (v: Value)
      ensures this.v == v && !done && !closed
    {
      this.v, done, closed := v, false, false;
    }

    method Next() returns (r: Read)
      modifies this
      ensures closed == old(closed) && r == (if old(closed || done) then Eof else Item(v))
      ensures (done <==> old(done) || r.Item?)
    {
      if closed || done { return Eof; }
      done := true;
      return Item(v);
    }

    method Close()
      modifies this
      ensures closed && done == old(done)
    {
      closed := true;
    }
  }

  // ---------------------------------------------------------------- a route named after the input port

  /** The engine keeps a node's inputs and outputs in one port map. So an edge that leaves a port called "in"
      fires whenever its node runs, whichever route a branch selected, and its target runs too; the stream
      walk follows the selected route only. */
  lemma InRouteAlwaysFires(e: Engine, g: Graph, v: Value, i: nat)
    requires EngineOf(e, g) && i < |g.edges| && g.edges[i].fromPort == PORT_IN && g.edges[i].source in GraphIds(g)
    ensures var f := FreshRun(e, None, None, map[GRAPH_IN := v], false);
            f.Finished? && g.edges[i].source in f.run.net.active ==>
              f.run.net.edges[i] == Fired && g.edges[i].target in f.run.net.active
  {
    hide Solution;
    var inputs, f := map[GRAPH_IN := v], FreshRun(e, None, None, map[GRAPH_IN := v], false);
    var C := FinishedRunSolves(e, None, None, inputs);
    FinalEdgesExplained(e, None, None, inputs);
    if f.Finished? && g.edges[i].source in f.run.net.active {
      var src, net := g.edges[i].source, f.run.net;
      InputStays(e, g, inputs, net.active, net.ports, C, src);
      assert e.flow.edges[i] == Edge(PortRef(src, PORT_IN), PortRef(g.edges[i].target, g.edges[i].toPort), "");
      assert Judge(WiresOf(e), i, PortsOf(net.ports, src)) == Ok(Fired);
      TargetRuns(e, g, inputs, i);
    }
  }

  /** A node that has run still holds the input it ran on, under a value its outputs may have replaced. */
  lemma InputStays(e: Engine, g: Graph, inputs: map<string, Value>, A: set<string>, F: Ports, C: seq<Option<Value>>,
                   n: string)
    requires EngineOf(e, g) && n in GraphIds(g) && n in A && Solution(e, None, None, inputs, A, F, C)
    ensures PORT_IN in PortsOf(F, n)
  {
    hide SendsBefore, Compiled, Apply;
    var base := Apply(map[], SendsBefore(e, A, F, inputs, |e.layers|).value).value;
    var k := LayerHolding(e, g, n);
    var view := View(A, base, C[k]);
    assert !Fails(e, view, n, false);
    assert e.nodes[n] == Adapter(NodeAt(g.nodes, n).value.kind);
    assert PORT_IN in PortsOf(base, n);
    var x := PortKey(n, PORT_IN);
    assert Lookup(F, x) == FinalPort(e, A, base, C[k], x);
  }

  /** In a finished run an active node has been given an input it does not fail on, and its ports hold what it
      then emitted. */
  lemma RanWell(e: Engine, g: Graph, inputs: map<string, Value>, A: set<string>, F: Ports, C: seq<Option<Value>>,
                n: string) returns (u: Value)
    requires EngineOf(e, g) && n in GraphIds(g) && n in A && Solution(e, None, None, inputs, A, F, C)
    ensures NodeAt(g.nodes, n).Some? && Yields(NodeAt(g.nodes, n).value.kind, u).Some?
    ensures var (port, w) := Yields(NodeAt(g.nodes, n).value.kind, u).value; PortKey(n, port) in F
  {
    hide SendsBefore, Compiled, Apply, Yields;
    var base := Apply(map[], SendsBefore(e, A, F, inputs, |e.layers|).value).value;
    var k := LayerHolding(e, g, n);
    var view := View(A, base, C[k]);
    assert !Fails(e, view, n, false);
    assert e.nodes[n] == Adapter(NodeAt(g.nodes, n).value.kind);
    assert PORT_IN in PortsOf(base, n);
    u := PortsOf(base, n)[PORT_IN];
    var (port, w) := Yields(NodeAt(g.nodes, n).value.kind, u).value;
    var x := PortKey(n, port);
    assert Emits(e, view, x) == Some(w);
    assert Lookup(F, x) == FinalPort(e, A, base, C[k], x);
  }

  lemma LayerHolding(e: Engine, g: Graph, n: string) returns (k: nat)
    requires EngineOf(e, g) && n in GraphIds(g)
    ensures In(e.layers, k, n) && n in e.nodes
  {
    assert Layered(e.layers, n);
    k :| In(e.layers, k, n);
  }

  lemma TargetRuns(e: Engine, g: Graph, inputs: map<string, Value>, i: nat)
    requires EngineOf(e, g) && i < |g.edges|
    ensures var f := FreshRun(e, None, None, inputs, false);
            f.Finished? && |f.run.net.edges| == |g.edges| && f.run.net.edges[i] == Fired ==> g.edges[i].target in f.run.net.active
  {
    var f := FreshRun(e, None, None, inputs, false);
    var t := g.edges[i].target;
    assert e.flow.edges[i].target.node == t;
    if f.Finished? && |f.run.net.edges| == |g.edges| && f.run.net.edges[i] == Fired {
      TargetDeclared(e, g, i);
      ActiveExactlyWhen(e, None, None, inputs, t);
      assert FiredInto(e, f.run.net.edges, t);
    }
  }

  lemma TargetDeclared(e: Engine, g: Graph, i: nat)
    requires EngineOf(e, g) && i < |g.edges|
    ensures g.edges[i].target in GraphIds(g) && Layered(e.layers, g.edges[i].target)
  {
    assert EdgeOk(e.flow, i) && e.flow.edges[i].target.node == g.edges[i].target;
  }
}
