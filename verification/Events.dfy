/** The event stream of a run (v2/flow/engine.go): what every interleaving of every run keeps. Emission is
    serialised by a mutex, so a trace is one sequence; the run is not cancelled from outside. */
module Events {
  import opened Prelude
  import opened FlowIr
  import opened Topology
  import opened Layering
  import opened State
  import opened LayeredEngine
  import opened Schedule

  /** NodeFinished stands for both ways a node's task reports back, finished or interrupted; Terminal for
      FlowDone, FlowErr and FlowSuspended. */
  datatype Event = FlowStarted | NodeSkipped(node: string) | NodeStarted(node: string) | NodeFinished(node: string) | Terminal

  predicate IsNodeEvent(x: Event) { x.NodeSkipped? || x.NodeStarted? || x.NodeFinished? }

  /** The events among the steps of a layer's tasks. */
  function Marks(s: seq<Micro>): seq<Event> {
    if s == [] then []
    else (match s[0] case Started(n) => [NodeStarted(n)] case Ended(n) => [NodeFinished(n)] case _ => []) + Marks(s[1..])
  }

  /** The skip events sent while the layer's tasks are built. */
  function Skips(layer: seq<string>, active: set<string>): seq<Event> {
    if layer == [] then [] else (if layer[0] in active then [] else [NodeSkipped(layer[0])]) + Skips(layer[1..], active)
  }

  function Block(layer: seq<string>, active: set<string>, s: seq<Micro>): seq<Event> { Skips(layer, active) + Marks(s) }

  /** A layer that fails: tasks fanout never started emit nothing, the others run to their end. */
  ghost predicate Partial(e: Engine, r: Run, layer: seq<string>, s: seq<Micro>) {
    && (forall x :: x in s ==> x.node in layer && x.node in r.net.active)
    && (forall n :: n in layer && n in r.net.active ==> Of(s, n) == [] || IsTask(e, r, n, Of(s, n)))
  }

  /** The events from layer k on, under the given schedule. */
  ghost function TraceFrom(e: Engine, red: Option<Reducer>, r: Run, k: nat, checkpoint: bool,
                           plan: seq<seq<Micro>>): (t: seq<Event>)
    requires Fits(e, r) && |plan| == |e.layers|
    ensures t != []
    decreases |e.layers| - k
  {
    if k >= |e.layers| then [Terminal]
    else
      Block(e.layers[k], r.net.active, plan[k]) +
      match ScheduledStep(e, red, r, e.layers[k], checkpoint, plan[k])
      case StepDone(s) => TraceFrom(e, red, s, k + 1, checkpoint, plan)
      case _ => [Terminal]
  }

  /** The events of a fresh streamed run; a run that cannot start reports FlowErr at once. */
  ghost function Trace(e: Engine, red: Option<Reducer>, cell: Option<Value>, inputs: map<string, Value>,
      checkpoint: bool, plan: seq<seq<Micro>>): seq<Event>
    requires |plan| == |e.layers|
  {
    [FlowStarted] + match StartNet(e.flow, inputs)
                    case Err(_) => [Terminal]
                    case Ok(n) => TraceFrom(e, red, Run(n, cell, []), 0, checkpoint, plan)
  }

  /** Every layer reached runs under some interleaving, complete unless a node fails. */
  ghost predicate Possible(e: Engine, red: Option<Reducer>, r: Run, k: nat, checkpoint: bool, plan: seq<seq<Micro>>)
    requires Fits(e, r) && |plan| == |e.layers|
    decreases |e.layers| - k
  {
    k < |e.layers| ==>
      if AnyFails(e, r, e.layers[k], checkpoint) then Partial(e, r, e.layers[k], plan[k])
      else
        && Interleaving(e, r, e.layers[k], plan[k])
        && match ScheduledStep(e, red, r, e.layers[k], checkpoint, plan[k])
           case StepDone(s) => Possible(e, red, s, k + 1, checkpoint, plan)
           case _ => true
  }

  // ---------------------------------------------------------------- one node's events

  function EventsOf(t: seq<Event>, n: string): seq<Event> {
    if t == [] then [] else (if IsNodeEvent(t[0]) && t[0].node == n then [t[0]] else []) + EventsOf(t[1..], n)
  }

  lemma {:induction false} EventsConcat(a: seq<Event>, b: seq<Event>, n: string)
    ensures EventsOf(a + b, n) == EventsOf(a, n) + EventsOf(b, n)
  {
    if a == [] {
      assert a + b == b;
    } else {
      var head := if IsNodeEvent(a[0]) && a[0].node == n then [a[0]] else [];
      assert (a + b)[1..] == a[1..] + b;
      assert EventsOf(a + b, n) == head + EventsOf(a[1..] + b, n) && EventsOf(a, n) == head + EventsOf(a[1..], n);
      hide EventsOf;
      EventsConcat(a[1..], b, n);
    }
  }

  lemma {:induction false} MarksOf(s: seq<Micro>, n: string)
    ensures EventsOf(Marks(s), n) == Marks(Of(s, n))
  {
    if s != [] {
      MarksOf(s[1..], n);
      var head := match s[0] case Started(m) => [NodeStarted(m)] case Ended(m) => [NodeFinished(m)] case _ => [];
      EventsConcat(head, Marks(s[1..]), n);
      HeadEvents(s[0], head, n);
      MarksConcat(if s[0].node == n then [s[0]] else [], Of(s[1..], n));
    }
  }

  lemma HeadEvents(x: Micro, head: seq<Event>, n: string)
    requires head == match x case Started(m) => [NodeStarted(m)] case Ended(m) => [NodeFinished(m)] case _ => []
    ensures EventsOf(head, n) == if x.node == n then head else []
    ensures Marks([x]) == head && Marks([]) == []
  {
    assert [x][1..] == [];
    if head != [] { assert head[1..] == []; }
  }

  lemma {:induction false} MarksConcat(a: seq<Micro>, b: seq<Micro>)
    ensures Marks(a + b) == Marks(a) + Marks(b)
  {
    if a == [] {
      assert a + b == b;
    } else {
      assert (a + b)[1..] == a[1..] + b;
      var head := match a[0] case Started(n) => [NodeStarted(n)] case Ended(n) => [NodeFinished(n)] case _ => [];
      assert Marks(a + b) == head + Marks(a[1..] + b) && Marks(a) == head + Marks(a[1..]);
      hide Marks;
      MarksConcat(a[1..], b);
    }
  }

  lemma {:induction false} QuietMarks(s: seq<Micro>)
    requires forall x :: x in s ==> x.Stage? || x.Write?
    ensures Marks(s) == []
  {
    if s != [] {
      assert s[0] in s && forall x :: x in s[1..] ==> x in s;
      QuietMarks(s[1..]);
    }
  }

  lemma BracketMarks(n: string, inner: seq<Micro>)
    requires forall x :: x in inner ==> x.Stage? || x.Write?
    ensures Marks([Started(n)] + inner + [Ended(n)]) == [NodeStarted(n), NodeFinished(n)]
  {
    hide Marks, EventsOf;
    QuietMarks(inner);
    MarksConcat([Started(n)] + inner, [Ended(n)]);
    MarksConcat([Started(n)], inner);
    HeadEvents(Started(n), [NodeStarted(n)], n);
    HeadEvents(Ended(n), [NodeFinished(n)], n);
  }

  /** A task starts, and then finishes. */
  lemma TaskMarks(e: Engine, r: Run, n: string, task: seq<Micro>)
    requires IsTask(e, r, n, task)
    ensures Marks(task) == [NodeStarted(n), NodeFinished(n)]
  {
    hide Marks, RunNode;
    var o := RunNode(e, n, r.net.ports, r.cell);
    var out := if o.Done? then o.out else map[];
    var ws: seq<Micro> :| task == [Started(n)] + Stages(n, o.writes) + ws + [Ended(n)] && Walks(n, out, ws);
    var inner := Stages(n, o.writes) + ws;
    BracketMarks(n, inner);
    assert task == [Started(n)] + inner + [Ended(n)];
  }

  lemma {:induction false} SkipsOf(layer: seq<string>, active: set<string>, n: string)
    requires Distinct(layer)
    ensures EventsOf(Skips(layer, active), n) == if n in layer && n !in active then [NodeSkipped(n)] else []
  {
    if layer != [] {
      var tail := layer[1..];
      assert Distinct(tail) by { assert forall i :: 0 <= i < |tail| ==> tail[i] == layer[i + 1]; }
      assert forall m :: m in layer <==> m == layer[0] || m in tail;
      assert layer[0] !in tail by { assert forall i :: 0 <= i < |tail| ==> tail[i] == layer[i + 1]; }
      SkipsOf(tail, active, n);
      var head := if layer[0] in active then [] else [NodeSkipped(layer[0])];
      EventsConcat(head, Skips(tail, active), n);
      if head != [] { assert head[1..] == []; }
    }
  }

  /** What a node may show: nothing, a skip, or a start followed by its finish. */
  ghost predicate WellFormed(t: seq<Event>, n: string) {
    var x := EventsOf(t, n);
    x == [] || x == [NodeSkipped(n)] || x == [NodeStarted(n), NodeFinished(n)]
  }

  lemma BlockOf(e: Engine, r: Run, layer: seq<string>, s: seq<Micro>, n: string)
    requires Distinct(layer) && (Interleaving(e, r, layer, s) || Partial(e, r, layer, s))
    ensures WellFormed(Block(layer, r.net.active, s), n)
    ensures n !in layer ==> EventsOf(Block(layer, r.net.active, s), n) == []
    ensures n in layer && Interleaving(e, r, layer, s) ==> EventsOf(Block(layer, r.net.active, s), n) != []
  {
    hide Interleaving, Partial;
    SkipsOf(layer, r.net.active, n);
    MarksOf(s, n);
    EventsConcat(Skips(layer, r.net.active), Marks(s), n);
    TasksOf(e, r, layer, s, n);
    if n in layer && n in r.net.active {
      if Of(s, n) != [] { TaskMarks(e, r, n, Of(s, n)); }
    }
  }

  lemma TasksOf(e: Engine, r: Run, layer: seq<string>, s: seq<Micro>, n: string)
    requires Interleaving(e, r, layer, s) || Partial(e, r, layer, s)
    ensures n in layer && n in r.net.active ==> Of(s, n) == [] || IsTask(e, r, n, Of(s, n))
    ensures n in layer && n in r.net.active && Interleaving(e, r, layer, s) ==> Of(s, n) != []
    ensures !(n in layer && n in r.net.active) ==> Of(s, n) == []
  {
    if !(n in layer && n in r.net.active) { OfNone(s, n); }
  }

  // ---------------------------------------------------------------- whole traces

  lemma {:induction false} EventIn(t: seq<Event>, n: string, x: Event)
    ensures x in EventsOf(t, n) <==> x in t && IsNodeEvent(x) && x.node == n
  {
    if t != [] { EventIn(t[1..], n, x); }
  }

  lemma {:induction false} MarksAreNodeEvents(s: seq<Micro>)
    ensures forall x :: x in Marks(s) ==> IsNodeEvent(x)
  {
    if s != [] { MarksAreNodeEvents(s[1..]); }
  }

  lemma {:induction false} SkipsAreNodeEvents(layer: seq<string>, active: set<string>)
    ensures forall x :: x in Skips(layer, active) ==> IsNodeEvent(x)
  {
    if layer != [] { SkipsAreNodeEvents(layer[1..], active); }
  }

  /** One terminal event, at the end; before it, node events only. */
  ghost predicate EndsOnce(t: seq<Event>) {
    t != [] && t[|t| - 1] == Terminal && forall i :: 0 <= i < |t| - 1 ==> IsNodeEvent(t[i])
  }

  lemma EndsOnceConcat(block: seq<Event>, rest: seq<Event>)
    requires (forall x :: x in block ==> IsNodeEvent(x)) && EndsOnce(rest)
    ensures EndsOnce(block + rest)
  {
    var t := block + rest;
    forall i | 0 <= i < |t| - 1 ensures IsNodeEvent(t[i]) {
      if i < |block| { assert t[i] in block; } else { assert t[i] == rest[i - |block|]; }
    }
  }

  ghost predicate FromLayer(e: Engine, k: int, n: string) { exists j :: k <= j && In(e.layers, j, n) }

  lemma TraceStep(e: Engine, red: Option<Reducer>, r: Run, k: nat, checkpoint: bool,
                  plan: seq<seq<Micro>>) returns (rest: seq<Event>)
    requires Compiled(e) && Fits(e, r) && |plan| == |e.layers| && k < |e.layers|
    requires Possible(e, red, r, k, checkpoint, plan)
    ensures TraceFrom(e, red, r, k, checkpoint, plan) == Block(e.layers[k], r.net.active, plan[k]) + rest
    ensures Distinct(e.layers[k]) && (Interleaving(e, r, e.layers[k], plan[k]) || Partial(e, r, e.layers[k], plan[k]))
    ensures var s := ScheduledStep(e, red, r, e.layers[k], checkpoint, plan[k]);
            if s.StepDone?
            then Interleaving(e, r, e.layers[k], plan[k]) && Possible(e, red, s.run, k + 1, checkpoint, plan)
                 && rest == TraceFrom(e, red, s.run, k + 1, checkpoint, plan)
            else rest == [Terminal]
  {
    hide Interleaving, Partial, Block, Compiled;
    LayersAreAhead(e, k);
    match ScheduledStep(e, red, r, e.layers[k], checkpoint, plan[k])
    case StepDone(s) => rest := TraceFrom(e, red, s, k + 1, checkpoint, plan);
    case _ => rest := [Terminal];
  }

  /** From any layer on, each node shows nothing, one skip, or one start and then one finish; and the trace
      ends with its only terminal event. */
  lemma {:induction false} TraceShape(e: Engine, red: Option<Reducer>, r: Run, k: nat, checkpoint: bool,
                                      plan: seq<seq<Micro>>)
    requires Compiled(e) && Fits(e, r) && |plan| == |e.layers| && Possible(e, red, r, k, checkpoint, plan)
    ensures var t := TraceFrom(e, red, r, k, checkpoint, plan);
            EndsOnce(t) && forall n :: WellFormed(t, n) && (EventsOf(t, n) != [] ==> FromLayer(e, k, n))
    decreases |e.layers| - k
  {
    hide TraceFrom, Possible, ScheduledStep, Interleaving, Partial, Block, EndsOnce, WellFormed, Compiled;
    if k >= |e.layers| {
      TraceOver(e, red, r, k, checkpoint, plan);
    } else {
      var layer := e.layers[k];
      var rest := TraceStep(e, red, r, k, checkpoint, plan);
      var s := ScheduledStep(e, red, r, layer, checkpoint, plan[k]);
      if s.StepDone? { TraceShape(e, red, s.run, k + 1, checkpoint, plan); } else { JustTerminal(); }
      var block := Block(layer, r.net.active, plan[k]);
      BlockIsNodeEvents(layer, r.net.active, plan[k]);
      EndsOnceConcat(block, rest);
      forall n ensures WellFormed(block + rest, n) && (EventsOf(block + rest, n) != [] ==> FromLayer(e, k, n)) {
        BlockOf(e, r, layer, plan[k], n);
        OneSide(e, k, n, block, rest);
      }
    }
  }

  lemma BlockIsNodeEvents(layer: seq<string>, active: set<string>, s: seq<Micro>)
    ensures forall x :: x in Block(layer, active, s) ==> IsNodeEvent(x)
  {
    MarksAreNodeEvents(s);
    SkipsAreNodeEvents(layer, active);
  }

  lemma TraceOver(e: Engine, red: Option<Reducer>, r: Run, k: nat, checkpoint: bool, plan: seq<seq<Micro>>)
    requires Fits(e, r) && |plan| == |e.layers| && k >= |e.layers|
    ensures TraceFrom(e, red, r, k, checkpoint, plan) == [Terminal]
    ensures EndsOnce([Terminal]) && forall n :: WellFormed([Terminal], n) && EventsOf([Terminal], n) == []
  {
    JustTerminal();
  }

  lemma JustTerminal()
    ensures EndsOnce([Terminal]) && forall n :: WellFormed([Terminal], n) && EventsOf([Terminal], n) == []
  {
    forall n ensures EventsOf([Terminal], n) == [] { assert [Terminal][1..] == []; }
  }

  /** A node sits in one layer, so its events are all in the block or all in the rest. */
  lemma OneSide(e: Engine, k: nat, n: string, block: seq<Event>, rest: seq<Event>)
    requires Compiled(e) && k < |e.layers| && WellFormed(block, n) && WellFormed(rest, n)
    requires (n !in e.layers[k] ==> EventsOf(block, n) == []) && (EventsOf(rest, n) != [] ==> FromLayer(e, k + 1, n))
    ensures WellFormed(block + rest, n) && (EventsOf(block + rest, n) != [] ==> FromLayer(e, k, n))
  {
    EventsConcat(block, rest, n);
    if EventsOf(rest, n) == [] {
      assert EventsOf(block + rest, n) == EventsOf(block, n);
      if EventsOf(block, n) != [] { assert In(e.layers, k, n); }
    } else {
      var j :| k + 1 <= j && In(e.layers, j, n);
      assert n !in e.layers[k] by { assert n in e.layers[k] ==> In(e.layers, k, n); }
      assert EventsOf(block + rest, n) == EventsOf(rest, n);
    }
  }

  // ---------------------------------------------------------------- causality

  ghost predicate SettledBefore(t: seq<Event>, i: int, u: string) {
    exists j :: 0 <= j < i && j < |t| && (t[j] == NodeFinished(u) || t[j] == NodeSkipped(u))
  }

  lemma BlockSettles(e: Engine, r: Run, layer: seq<string>, s: seq<Micro>, rest: seq<Event>, u: string, i: nat)
    requires Distinct(layer) && Interleaving(e, r, layer, s) && u in layer && i >= |Block(layer, r.net.active, s)|
    ensures SettledBefore(Block(layer, r.net.active, s) + rest, i, u)
  {
    hide Interleaving, Block;
    var block := Block(layer, r.net.active, s);
    BlockOf(e, r, layer, s, u);
    var x := if EventsOf(block, u) == [NodeSkipped(u)] then NodeSkipped(u) else NodeFinished(u);
    assert x in EventsOf(block, u);
    EventIn(block, u, x);
    var j :| 0 <= j < |block| && block[j] == x;
    assert (block + rest)[j] == x;
  }

  lemma {:induction false} TraceCausal(e: Engine, red: Option<Reducer>, r: Run, k: nat, checkpoint: bool,
                                       plan: seq<seq<Micro>>,
                                       u: string, v: string, i: nat)
    requires Compiled(e) && Fits(e, r) && |plan| == |e.layers| && Possible(e, red, r, k, checkpoint, plan)
    requires Arc(u, v) in Arcs(e.flow) && FromLayer(e, k, u)
    requires i < |TraceFrom(e, red, r, k, checkpoint, plan)|
    requires TraceFrom(e, red, r, k, checkpoint, plan)[i] == NodeStarted(v)
    ensures SettledBefore(TraceFrom(e, red, r, k, checkpoint, plan), i, u)
    decreases |e.layers| - k
  {
    hide TraceFrom, Possible, ScheduledStep, Interleaving, Partial, Block, Compiled, SettledBefore;
    var j :| k <= j && In(e.layers, j, u);
    var layer := e.layers[k];
    var rest := TraceStep(e, red, r, k, checkpoint, plan);
    var block := Block(layer, r.net.active, plan[k]);
    var s := ScheduledStep(e, red, r, layer, checkpoint, plan[k]);
    if i < |block| {
      StartedHere(e, r, k, plan[k], v, i);
      NotHere(e, k, u, v);
    } else {
      assert rest[i - |block|] == NodeStarted(v);
      if j == k {
        BlockSettles(e, r, layer, plan[k], rest, u, i);
      } else {
        assert FromLayer(e, k + 1, u);
        TraceCausal(e, red, s.run, k + 1, checkpoint, plan, u, v, i - |block|);
        SettledLater(block, rest, i - |block|, u);
      }
    }
  }

  lemma NotHere(e: Engine, k: nat, u: string, v: string)
    requires Compiled(e) && k < |e.layers| && Arc(u, v) in Arcs(e.flow) && FromLayer(e, k, u)
    ensures v !in e.layers[k]
  {
    var j :| k <= j && In(e.layers, j, u);
    ArcGoesForward(e, u, v, j);
    assert v in e.layers[k] ==> In(e.layers, k, v);
  }

  lemma StartedHere(e: Engine, r: Run, k: nat, s: seq<Micro>, v: string, i: nat)
    requires Compiled(e) && k < |e.layers| && (Interleaving(e, r, e.layers[k], s) || Partial(e, r, e.layers[k], s))
    requires i < |Block(e.layers[k], r.net.active, s)| && Block(e.layers[k], r.net.active, s)[i] == NodeStarted(v)
    ensures v in e.layers[k]
  {
    hide Interleaving, Partial, Block;
    LayersAreAhead(e, k);
    BlockOf(e, r, e.layers[k], s, v);
    EventIn(Block(e.layers[k], r.net.active, s), v, NodeStarted(v));
  }

  lemma SettledLater(block: seq<Event>, rest: seq<Event>, i: nat, u: string)
    requires SettledBefore(rest, i, u)
    ensures SettledBefore(block + rest, |block| + i, u)
  {
    var j :| 0 <= j < i && j < |rest| && (rest[j] == NodeFinished(u) || rest[j] == NodeSkipped(u));
    assert (block + rest)[|block| + j] == rest[j];
  }

  /** Every interleaving of a run, one that cannot start included: the trace starts with FlowStarted and ends with its
      only terminal event; a node is skipped once, or starts once and then finishes once, or is never mentioned; and a
      node starts only after each of its predecessors has finished or been skipped. */
  lemma TracesAreOrdered(e: Engine, red: Option<Reducer>, cell: Option<Value>, inputs: map<string, Value>,
                         checkpoint: bool, plan: seq<seq<Micro>>)
    requires Compiled(e) && |plan| == |e.layers|
    requires StartNet(e.flow, inputs).Ok? ==>
             Possible(e, red, Run(StartNet(e.flow, inputs).value, cell, []), 0, checkpoint, plan)
    ensures var t := Trace(e, red, cell, inputs, checkpoint, plan);
            && t[0] == FlowStarted && EndsOnce(t[1..])
            && (forall n :: WellFormed(t[1..], n))
            && (forall u, v, i :: Arc(u, v) in Arcs(e.flow) && 0 <= i < |t| && t[i] == NodeStarted(v) ==> SettledBefore(t, i, u))
  {
    hide TraceFrom, Possible, EndsOnce, WellFormed, SettledBefore, Compiled, StartNet, EventsOf;
    if StartNet(e.flow, inputs).Err? {
      assert Trace(e, red, cell, inputs, checkpoint, plan)[1..] == [Terminal];
      TerminalAlone();
      return;
    }
    var r := Run(StartNet(e.flow, inputs).value, cell, []);
    var rest := TraceFrom(e, red, r, 0, checkpoint, plan);
    var t := Trace(e, red, cell, inputs, checkpoint, plan);
    assert t == [FlowStarted] + rest && t[1..] == rest;
    TraceShape(e, red, r, 0, checkpoint, plan);
    forall u, v, i | Arc(u, v) in Arcs(e.flow) && 0 <= i < |t| && t[i] == NodeStarted(v)
      ensures SettledBefore(t, i, u)
    {
      assert rest[i - 1] == NodeStarted(v);
      ArcLayered(e, u, v);
      TraceCausal(e, red, r, 0, checkpoint, plan, u, v, i - 1);
      SettledLater([FlowStarted], rest, i - 1, u);
    }
  }

  lemma TerminalAlone()
    ensures EndsOnce([Terminal]) && forall n :: WellFormed([Terminal], n)
  {
    assert [Terminal][1..] == [];
    forall n ensures EventsOf([Terminal], n) == [] {}
  }

  lemma ArcLayered(e: Engine, u: string, v: string)
    requires Compiled(e) && Arc(u, v) in Arcs(e.flow)
    ensures FromLayer(e, 0, u)
  {
    ArcSourceDeclared(e.flow, u, v);
    assert Layered(e.layers, u);
    var j: int :| In(e.layers, j, u);
  }

  lemma ArcSourceDeclared(f: Flow, u: string, v: string)
    requires Validation.Valid(f) && Arc(u, v) in Arcs(f)
    ensures u in Ids(f)
  {
    if Arc(u, v) in EdgeArcs(f.edges) {
      EdgeArcMember(f.edges, Arc(u, v));
      var i :| 0 <= i < |f.edges| && f.edges[i].source.node == u && f.edges[i].target.node == v;
      assert Validation.EdgeOk(f, i);
    } else {
      MappingArcMember(f.mappings, Arc(u, v));
      var j :| 0 <= j < |f.mappings| && f.mappings[j].source.node == u && f.mappings[j].target.node == v && u != "";
      assert Validation.MappingOk(f, f.mappings[j]);
    }
  }
}
