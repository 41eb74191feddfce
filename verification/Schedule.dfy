/** Sibling nodes run concurrently. Every interleaving of their port writes, State writes and events, under
    any concurrency cap, ends a layer in the same ports, State and verdict. */
module Schedule {
  import opened Prelude
  import opened FlowIr
  import opened Wiring
  import opened State
  import opened LayeredEngine
  import opened Legs

  /** One locked step of a node's task. */
  datatype Micro =
    | Started(node: string)
    | Stage(node: string, value: Value)
    | Write(node: string, port: string, value: Value)
    | Ended(node: string)

  /** What the tasks share. */
  datatype Memory = Memory(ports: Ports, staged: map<string, Value>)

  function Do(m: Memory, x: Micro): Memory {
    match x
    case Stage(n, v) => m.(staged := m.staged[n := v])
    case Write(n, p, v) => m.(ports := m.ports[PortKey(n, p) := v])
    case _ => m
  }

  function Exec(m: Memory, s: seq<Micro>): Memory
    decreases |s|
  {
    if s == [] then m else Exec(Do(m, s[0]), s[1..])
  }

  /** The steps of one node, in order. */
  function Of(s: seq<Micro>, n: string): seq<Micro> {
    if s == [] then [] else (if s[0].node == n then [s[0]] else []) + Of(s[1..], n)
  }

  function Stages(n: string, writes: seq<Value>): seq<Micro> {
    seq(|writes|, i requires 0 <= i < |writes| => Stage(n, writes[i]))
  }

  /** The output loop of a task: each emitted port, in whatever order the map is walked. */
  ghost predicate Walks(n: string, out: map<string, Value>, ws: seq<Micro>) {
    && (forall x :: x in ws ==> x.Write? && x.node == n && x.port in out && x.value == out[x.port])
    && (forall p :: p in out ==> Write(n, p, out[p]) in ws)
  }

  /** The whole task of n: it starts, stages its State writes, then writes its outputs if it finished, and
      ends. */
  ghost predicate IsTask(e: Engine, r: Run, n: string, task: seq<Micro>) {
    var o := RunNode(e, n, r.net.ports, r.cell);
    exists ws :: task == [Started(n)] + Stages(n, o.writes) + ws + [Ended(n)] && Walks(n, if o.Done? then o.out else map[], ws)
  }

  /** Any interleaving of the tasks of the layer's active nodes. */
  ghost predicate Interleaving(e: Engine, r: Run, layer: seq<string>, s: seq<Micro>) {
    && (forall x :: x in s ==> x.node in layer && x.node in r.net.active)
    && (forall n :: n in layer && n in r.net.active ==> IsTask(e, r, n, Of(s, n)))
  }

  // ---------------------------------------------------------------- only the per-node order matters

  function LastWrite(s: seq<Micro>, k: PortKey): Option<Value> {
    if s == [] then None
    else
      var x := s[|s| - 1];
      if x.Write? && PortKey(x.node, x.port) == k then Some(x.value) else LastWrite(s[..|s| - 1], k)
  }

  function LastStage(s: seq<Micro>, n: string): Option<Value> {
    if s == [] then None
    else
      var x := s[|s| - 1];
      if x.Stage? && x.node == n then Some(x.value) else LastStage(s[..|s| - 1], n)
  }

  lemma {:induction false} ExecSnoc(m: Memory, s: seq<Micro>, x: Micro)
    ensures Exec(m, s + [x]) == Do(Exec(m, s), x)
    decreases |s|
  {
    if s == [] {
      assert s + [x] == [x] && [x][1..] == [];
      assert Exec(Do(m, x), []) == Do(m, x);
    } else {
      assert (s + [x])[1..] == s[1..] + [x];
      ExecSnoc(Do(m, s[0]), s[1..], x);
    }
  }

  lemma {:induction false} ExecLooksUp(m: Memory, s: seq<Micro>, k: PortKey)
    ensures Lookup(Exec(m, s).ports, k) == if LastWrite(s, k).Some? then LastWrite(s, k) else Lookup(m.ports, k)
  {
    if s != [] {
      var init, x := s[..|s| - 1], s[|s| - 1];
      assert s == init + [x];
      ExecSnoc(m, init, x);
      ExecLooksUp(m, init, k);
    }
  }

  lemma {:induction false} ExecStages(m: Memory, s: seq<Micro>, n: string)
    ensures var staged := Exec(m, s).staged;
            (n in staged <==> LastStage(s, n).Some? || n in m.staged) &&
            (n in staged ==> staged[n] == if LastStage(s, n).Some? then LastStage(s, n).value else m.staged[n])
  {
    if s != [] {
      var init, x := s[..|s| - 1], s[|s| - 1];
      assert s == init + [x];
      ExecSnoc(m, init, x);
      ExecStages(m, init, n);
    }
  }

  lemma {:induction false} OfSnoc(s: seq<Micro>, x: Micro, n: string)
    ensures Of(s + [x], n) == Of(s, n) + (if x.node == n then [x] else [])
  {
    if s == [] {
      assert s + [x] == [x] && [x][1..] == [];
    } else {
      assert (s + [x])[1..] == s[1..] + [x];
      OfSnoc(s[1..], x, n);
    }
  }

  /** The last write to a port is the last write in its node's own task. */
  lemma {:induction false} LastWriteOf(s: seq<Micro>, k: PortKey)
    ensures LastWrite(s, k) == LastWrite(Of(s, k.node), k)
    ensures LastStage(s, k.node) == LastStage(Of(s, k.node), k.node)
  {
    if s != [] {
      var init, x := s[..|s| - 1], s[|s| - 1];
      assert s == init + [x];
      LastWriteOf(init, k);
      OfSnoc(init, x, k.node);
      if x.node == k.node {
        var t := Of(s, k.node);
        assert t[..|t| - 1] == Of(init, k.node);
      } else {
        assert Of(s, k.node) == Of(init, k.node);
      }
    }
  }

  lemma {:induction false} WalkWrites(n: string, out: map<string, Value>, ws: seq<Micro>, p: string)
    requires forall x :: x in ws ==> x.Write? && x.node == n && x.port in out && x.value == out[x.port]
    ensures LastWrite(ws, PortKey(n, p)) == (if exists i :: 0 <= i < |ws| && ws[i].port == p then Some(out[p]) else None)
    ensures LastStage(ws, n) == None
  {
    if ws != [] {
      var init, x := ws[..|ws| - 1], ws[|ws| - 1];
      assert x in ws;
      assert forall y :: y in init ==> y in ws;
      WalkWrites(n, out, init, p);
      if x.port != p {
        if i :| 0 <= i < |ws| && ws[i].port == p { assert init[i] == ws[i]; }
        if i :| 0 <= i < |init| && init[i].port == p { assert ws[i] == init[i]; }
      }
    }
  }

  /** What a task leaves at its node: its outputs over what was there, and its last State write. */
  lemma TaskEffect(e: Engine, r: Run, n: string, task: seq<Micro>, p: string)
    requires IsTask(e, r, n, task)
    ensures var o := RunNode(e, n, r.net.ports, r.cell);
            && LastWrite(task, PortKey(n, p)) == (if o.Done? && p in o.out then Some(o.out[p]) else None)
            && LastStage(task, n) == (if o.writes == [] then None else Some(LastOf(o.writes)))
  {
    var o := RunNode(e, n, r.net.ports, r.cell);
    var out := if o.Done? then o.out else map[];
    var ws: seq<Micro> :| task == [Started(n)] + Stages(n, o.writes) + ws + [Ended(n)] && Walks(n, out, ws);
    var k := PortKey(n, p);
    WalkWrites(n, out, ws, p);
    if p in out {
      assert Write(n, p, out[p]) in ws;
      var i :| 0 <= i < |ws| && ws[i] == Write(n, p, out[p]);
      assert ws[i].port == p;
    }
    if i :| 0 <= i < |ws| && ws[i].port == p { assert ws[i] in ws; }
    LastOfParts(Stages(n, o.writes), ws, n, k);
    StagesLast(n, o.writes, k);
    assert task[..|task| - 1] == [Started(n)] + Stages(n, o.writes) + ws;
  }

  lemma {:induction false} LastOfParts(stages: seq<Micro>, ws: seq<Micro>, n: string, k: PortKey)
    ensures var whole := [Started(n)] + stages + ws;
            && LastWrite(whole, k) == (if LastWrite(ws, k).Some? then LastWrite(ws, k) else LastWrite([Started(n)] + stages, k))
            && LastStage(whole, n) == (if LastStage(ws, n).Some? then LastStage(ws, n) else LastStage([Started(n)] + stages, n))
  {
    if ws == [] {
      assert [Started(n)] + stages + ws == [Started(n)] + stages;
    } else {
      var init, x := ws[..|ws| - 1], ws[|ws| - 1];
      LastOfParts(stages, init, n, k);
      var whole := [Started(n)] + stages + ws;
      assert whole[..|whole| - 1] == [Started(n)] + stages + init;
    }
  }

  lemma {:induction false} StagesLast(n: string, writes: seq<Value>, k: PortKey)
    ensures LastWrite([Started(n)] + Stages(n, writes), k) == None
    ensures LastStage([Started(n)] + Stages(n, writes), n) == if writes == [] then None else Some(LastOf(writes))
  {
    var s := [Started(n)] + Stages(n, writes);
    if writes == [] {
      assert s == [Started(n)] && s[..0] == [];
    } else {
      var init := writes[..|writes| - 1];
      StagesLast(n, init, k);
      assert s[..|s| - 1] == [Started(n)] + Stages(n, init);
    }
  }

  /** Schedule independence of one layer. */
  lemma ScheduleIndependent(e: Engine, r: Run, layer: seq<string>, s: seq<Micro>)
    requires Distinct(layer) && Interleaving(e, r, layer, s)
    ensures Exec(Memory(r.net.ports, map[]), s) == Memory(Fanout(e, r, layer, r.net.ports), Staged(e, r, layer))
  {
    hide Exec, Fanout, Staged, Interleaving;
    var m := Exec(Memory(r.net.ports, map[]), s);
    forall k ensures Lookup(m.ports, k) == Lookup(Fanout(e, r, layer, r.net.ports), k) {
      PortAfter(e, r, layer, s, k);
    }
    SameLookups(m.ports, Fanout(e, r, layer, r.net.ports));
    var staged := Staged(e, r, layer);
    forall n
      ensures n in m.staged <==> n in staged
      ensures n in staged ==> m.staged[n] == staged[n]
    {
      StagedAfter(e, r, layer, s, n);
    }
    assert m.staged == staged;
  }

  lemma {:induction false} OfNone(s: seq<Micro>, n: string)
    requires forall x :: x in s ==> x.node != n
    ensures Of(s, n) == []
  {
    if s != [] {
      assert s[0] in s && forall x :: x in s[1..] ==> x in s;
      OfNone(s[1..], n);
    }
  }

  lemma PortAfter(e: Engine, r: Run, layer: seq<string>, s: seq<Micro>, k: PortKey)
    requires Distinct(layer) && Interleaving(e, r, layer, s)
    ensures Lookup(Exec(Memory(r.net.ports, map[]), s).ports, k) == Lookup(Fanout(e, r, layer, r.net.ports), k)
  {
    ExecLooksUp(Memory(r.net.ports, map[]), s, k);
    LastWriteOf(s, k);
    FanoutAt(e, r, layer, r.net.ports, k);
    if k.node in layer && k.node in r.net.active {
      TaskEffect(e, r, k.node, Of(s, k.node), k.port);
    } else {
      OfNone(s, k.node);
    }
  }

  lemma StagedAfter(e: Engine, r: Run, layer: seq<string>, s: seq<Micro>, n: string)
    requires Interleaving(e, r, layer, s)
    ensures var staged := Exec(Memory(r.net.ports, map[]), s).staged;
            (n in staged <==> n in Staged(e, r, layer)) && (n in staged ==> staged[n] == Staged(e, r, layer)[n])
  {
    ExecStages(Memory(r.net.ports, map[]), s, n);
    LastWriteOf(s, PortKey(n, ""));
    if n in layer && n in r.net.active {
      TaskEffect(e, r, n, Of(s, n), "");
    } else {
      OfNone(s, n);
    }
  }

  // ---------------------------------------------------------------- whole runs

  /** runCore with an explicit schedule per layer. */
  ghost function ScheduledRun(e: Engine, red: Option<Reducer>, r: Run, k: nat, checkpoint: bool,
                              plan: seq<seq<Micro>>): Final
    requires Fits(e, r) && |plan| == |e.layers|
    decreases |e.layers| - k
  {
    if k >= |e.layers| then Finished(r)
    else match ScheduledStep(e, red, r, e.layers[k], checkpoint, plan[k])
      case StepFailed(x) => Failed(x)
      case StepSuspended(s, n, q) => Suspended(s, k, n, q)
      case StepDone(s) => ScheduledRun(e, red, s, k + 1, checkpoint, plan)
  }

  /** LayerStep with the fanout executed step by step. */
  ghost function ScheduledStep(e: Engine, red: Option<Reducer>, r: Run, layer: seq<string>, checkpoint: bool,
                               s: seq<Micro>): (t: Step)
    requires Fits(e, r)
    ensures !t.StepFailed? ==> Fits(e, t.run)
  {
    if AnyFails(e, r, layer, checkpoint) then StepFailed(NodeFailed)
    else
      var m := Exec(Memory(r.net.ports, map[]), s);
      match ReducedCell(r.cell, m.staged, red)
      case Err(x) => StepFailed(x)
      case Ok(c) =>
        var b := Run(r.net.(ports := m.ports), c, r.log + Visits(layer, r.net.active));
        var pending := Pendings(e, r, layer, checkpoint);
        if pending == [] then
          (match FireLayer(WiresOf(e), b.net, layer, None)
           case Err(x) => StepFailed(FiringFailed(x))
           case Ok(n) => StepDone(b.(net := n)))
        else if !e.hasStore then StepFailed(NoCheckpointStore)
        else if |pending| > 1 then StepFailed(MultipleInterrupts)
        else
          (assert pending[0] in pending;
           match FireLayer(WiresOf(e), b.net, layer, Some(pending[0]))
           case Err(x) => StepFailed(FiringFailed(x))
           case Ok(n) => StepSuspended(b.(net := n), pending[0], RunNode(e, pending[0], r.net.ports, r.cell).request))
  }

  /** Every layer that is reached without a node error runs under some interleaving of its tasks. */
  ghost predicate Plausible(e: Engine, red: Option<Reducer>, r: Run, k: nat, checkpoint: bool, plan: seq<seq<Micro>>)
    requires Fits(e, r) && |plan| == |e.layers|
    decreases |e.layers| - k
  {
    k < |e.layers| && !AnyFails(e, r, e.layers[k], checkpoint) ==>
      && Interleaving(e, r, e.layers[k], plan[k])
      && match ScheduledStep(e, red, r, e.layers[k], checkpoint, plan[k])
         case StepDone(s) => Plausible(e, red, s, k + 1, checkpoint, plan)
         case _ => true
  }

  /** Whatever interleaving each layer runs under, a run ends in the same way: same ports, activation, edge
      states, State, suspension or failure. */
  lemma {:induction false} RunIgnoresSchedule(e: Engine, red: Option<Reducer>, r: Run, k: nat, checkpoint: bool,
                                              plan: seq<seq<Micro>>)
    requires Fits(e, r) && |plan| == |e.layers| && (forall j :: 0 <= j < |e.layers| ==> Distinct(e.layers[j]))
    requires Plausible(e, red, r, k, checkpoint, plan)
    ensures ScheduledRun(e, red, r, k, checkpoint, plan) == RunFrom(e, red, r, k, checkpoint)
    decreases |e.layers| - k
  {
    hide LayerStep, ScheduledStep, Interleaving;
    if k < |e.layers| {
      StepIgnoresSchedule(e, red, r, e.layers[k], checkpoint, plan[k]);
      match LayerStep(e, red, r, e.layers[k], checkpoint)
      case StepDone(s) =>
        StepDoneNoFailure(e, red, r, e.layers[k], checkpoint);
        RunIgnoresSchedule(e, red, s, k + 1, checkpoint, plan);
      case StepFailed(_) =>
      case StepSuspended(_, _, _) =>
    }
  }

  lemma StepDoneNoFailure(e: Engine, red: Option<Reducer>, r: Run, layer: seq<string>, checkpoint: bool)
    requires Fits(e, r)
    ensures LayerStep(e, red, r, layer, checkpoint).StepDone? ==> !AnyFails(e, r, layer, checkpoint)
  {
  }

  lemma StepIgnoresSchedule(e: Engine, red: Option<Reducer>, r: Run, layer: seq<string>, checkpoint: bool,
                            s: seq<Micro>)
    requires Fits(e, r) && Distinct(layer)
    requires !AnyFails(e, r, layer, checkpoint) ==> Interleaving(e, r, layer, s)
    ensures ScheduledStep(e, red, r, layer, checkpoint, s) == LayerStep(e, red, r, layer, checkpoint)
  {
    hide Exec, Fanout, Staged, Interleaving, FireLayer, Reduced, AnyFails, Pendings, Visits;
    if !AnyFails(e, r, layer, checkpoint) {
      ScheduleIndependent(e, r, layer, s);
    }
  }
}
