/** The life of an edge over a whole chain of legs: pending until its source's layer, deferred while its source
    waits for a human, and in the end in a state that says why. */
module LegEdges {
  import opened Prelude
  import opened FlowIr
  import opened Layering
  import opened Wiring
  import opened Firing
  import opened State
  import opened LayeredEngine
  import opened Resume
  import opened Held
  import opened LateFiring
  import opened Legs
  import opened Resumption
  import opened LegChain
  import opened Lifecycle

  // ---------------------------------------------------------------- one resume

  /** What is deferred besides p's edges had no value before and gets none. */
  lemma OnlyStale(e: Engine, answers: Answers, mid: Net, k: nat, p: string, human: map<string, Value>)
    requires Compiled(e) && k < |e.layers| && p in e.layers[k] && PendingBeyond(e, mid.edges, k + 1)
    requires Explained(e, answers, mid, k + 1, Some(p))
    ensures |mid.edges| == |WiresOf(e).edges| && OnlyStaleBesides(WiresOf(e), Inject(mid, p, human), p, 0, UpTo(e, k))
  {
    assert In(e.layers, k, p);
    forall i | 0 <= i < |mid.edges|
      ensures e.flow.edges[i].source.node == p ==> mid.edges[i] == Deferred
      ensures mid.edges[i] == Deferred && e.flow.edges[i].source.node != p ==>
                e.flow.edges[i].source.node in UpTo(e, k) && Key(e.flow.edges[i].source) !in mid.ports
    {
      SourceLayered(e, i);
      var src := e.flow.edges[i].source.node;
      var j: int :| In(e.layers, j, src);
      UpToHolds(e, k, j, src);
      if j <= k { assert LayeredBefore(e.layers, k + 1, src); }
    }
  }

  /** A resume that fires: p's deferred edges are judged on the human's answer, nothing else of a passed layer moves. */
  lemma LateIsJudged(e: Engine, answers: Answers, mid: Net, k: nat, p: string, human: map<string, Value>)
    requires Compiled(e) && k < |e.layers| && p in e.layers[k] && p in mid.active && PendingBeyond(e, mid.edges, k + 1)
    requires Explained(e, answers, mid, k + 1, Some(p)) && ResumeNet(WiresOf(e), mid, p, human).Ok?
    ensures var w, sp, late := WiresOf(e), PortsOf(WriteAll(mid.ports, p, human), p), ResumeNet(WiresOf(e), mid, p, human).value;
            && |mid.edges| == |w.edges| && late.edges == LateStates(w, mid.edges, p, sp, 0)
            && EdgeDeliveries(w, p, sp, 0).Some?
            && (forall n :: n in UpTo(e, k) ==> PortsOf(late.ports, n) == PortsOf(WriteAll(mid.ports, p, human), n))
            && (forall n :: n in UpTo(e, k) ==> (n in late.active <==> n in mid.active))
  {
    hide LateStates, OnlyStaleBesides, WriteAll, PortsOf;
    var w, frozen := WiresOf(e), UpTo(e, k);
    FrozenFacts(e, k);
    OnlyStale(e, answers, mid, k, p, human);
    ResumeDelivers(w, mid, p, human, frozen);
    var start := Inject(mid, p, human);
    OwnMisses(w, start.ports, p, frozen);
    forall n | n in frozen ensures PortsOf(ResumeNet(w, mid, p, human).value.ports, n) == PortsOf(start.ports, n) {
      ApplyFrame(start.ports, Own(w, start.ports, p).value, n);
    }
  }

  /** After a resume the answers include the human's, and every passed layer is explained again. */
  lemma ResumeExplains(e: Engine, answers: Answers, mid: Net, k: nat, p: string, human: map<string, Value>)
    requires Compiled(e) && k < |e.layers| && p in e.layers[k] && p in mid.active && PendingBeyond(e, mid.edges, k + 1)
    requires Explained(e, answers, mid, k + 1, Some(p)) && Kept(e, answers, mid.ports, k)
    requires ResumeNet(WiresOf(e), mid, p, human).Ok?
    ensures var late, more := ResumeNet(WiresOf(e), mid, p, human).value, answers[p := human];
            Explained(e, more, late, k + 1, None) && Kept(e, more, late.ports, k + 1) && PendingBeyond(e, late.edges, k + 1)
  {
    hide ResumeNet, EdgeDeliveries, PendingBeyond, Ending, Kept, Inject, LateStates;
    LateIsJudged(e, answers, mid, k, p, human);
    ResumeKeepsCursor(e, mid, p, human, k + 1);
    var late := ResumeNet(WiresOf(e), mid, p, human).value;
    forall i | 0 <= i < |late.edges| && LayeredBefore(e.layers, k + 1, e.flow.edges[i].source.node)
      ensures Some(late.edges[i]) == Ending(e, answers[p := human], late.active, late.ports, i)
    {
      EdgeLate(e, answers, mid, late, k, p, human, i);
    }
    KeptLate(e, answers, mid, late, k, p, human);
  }

  lemma EdgeLate(e: Engine, answers: Answers, mid: Net, late: Net, k: nat, p: string, human: map<string, Value>, i: nat)
    requires Compiled(e) && k < |e.layers| && p in e.layers[k] && p in mid.active && |mid.edges| == |e.flow.edges|
    requires Explained(e, answers, mid, k + 1, Some(p))
    requires var w, sp := WiresOf(e), PortsOf(WriteAll(mid.ports, p, human), p);
             late.edges == LateStates(w, mid.edges, p, sp, 0) && EdgeDeliveries(w, p, sp, 0).Some?
    requires forall n :: n in UpTo(e, k) ==> PortsOf(late.ports, n) == PortsOf(WriteAll(mid.ports, p, human), n)
    requires forall n :: n in UpTo(e, k) ==> (n in late.active <==> n in mid.active)
    requires i < |e.flow.edges| && LayeredBefore(e.layers, k + 1, e.flow.edges[i].source.node)
    ensures |late.edges| == |e.flow.edges|
    ensures Some(late.edges[i]) == Ending(e, answers[p := human], late.active, late.ports, i)
  {
    hide EdgeDeliveries, Ending, UpTo, WriteAll, PortsOf, Compiled;
    var src, sp := e.flow.edges[i].source.node, PortsOf(WriteAll(mid.ports, p, human), p);
    var j :| j < k + 1 && In(e.layers, j, src);
    UpToHolds(e, k, j, src);
    assert late.edges[i] == LateState(WiresOf(e), mid.edges, p, sp, 0, i);
    if src == p {
      JudgedLate(e, answers[p := human], mid, late, p, sp, i);
    } else {
      WriteElsewhere(mid.ports, p, human, src);
      SameReason(e, answers, mid, late, i);
      AnswerElsewhere(e, answers, late, p, human, i);
    }
  }

  lemma AnswerElsewhere(e: Engine, answers: Answers, net: Net, p: string, human: map<string, Value>, i: nat)
    requires i < |e.flow.edges| && e.flow.edges[i].source.node != p
    ensures Ending(e, answers[p := human], net.active, net.ports, i) == Ending(e, answers, net.active, net.ports, i)
  {
  }

  lemma JudgedLate(e: Engine, answers: Answers, mid: Net, late: Net, p: string, sp: map<string, Value>, i: nat)
    requires i < |e.flow.edges| == |mid.edges| == |late.edges| && e.flow.edges[i].source.node == p && p in answers
    requires p in late.active
    requires PortsOf(late.ports, p) == sp && EdgeDeliveries(WiresOf(e), p, sp, 0).Some? && mid.edges[i] == Deferred
    requires late.edges[i] == LateState(WiresOf(e), mid.edges, p, sp, 0, i)
    ensures Some(late.edges[i]) == Ending(e, answers, late.active, late.ports, i)
  {
    JudgedOk(WiresOf(e), p, sp, 0, i);
    assert e.flow.edges[i].source.port in sp <==> Key(e.flow.edges[i].source) in late.ports;
  }

  lemma KeptLate(e: Engine, answers: Answers, mid: Net, late: Net, k: nat, p: string, human: map<string, Value>)
    requires Compiled(e) && k < |e.layers| && p in e.layers[k] && Kept(e, answers, mid.ports, k)
    requires forall n :: n in UpTo(e, k) ==> PortsOf(late.ports, n) == PortsOf(WriteAll(mid.ports, p, human), n)
    ensures Kept(e, answers[p := human], late.ports, k + 1)
  {
    var more := answers[p := human];
    forall n | n in more
      ensures LayeredBefore(e.layers, k + 1, n)
      ensures forall q :: q in more[n] ==> Lookup(late.ports, PortKey(n, q)) == Some(more[n][q])
    {
      if n == p {
        assert In(e.layers, k, p);
        UpToHolds(e, k, k, p);
        WriteOwn(mid.ports, p, human);
        forall q | q in human
          ensures Lookup(late.ports, PortKey(p, q)) == Some(human[q])
        {
          assert q in PortsOf(late.ports, p);
        }
      } else {
        var j :| j < k && In(e.layers, j, n);
        UpToHolds(e, k, j, n);
        WriteElsewhere(mid.ports, p, human, n);
        forall q | q in answers[n] ensures Lookup(late.ports, PortKey(n, q)) == Some(answers[n][q]) {
          assert Lookup(mid.ports, PortKey(n, q)) == Some(answers[n][q]);
          assert q in PortsOf(mid.ports, n);
          assert q in PortsOf(late.ports, n);
        }
      }
    }
  }

  // ---------------------------------------------------------------- the chain

  /** The answers the calls gave, by the node each leg had suspended at. */
  ghost function AnswersOf(e: Engine, c: Codec, runId: string, leg: Leg, calls: seq<Call>, sofar: Answers): Answers
    decreases |calls|
  {
    if calls == [] || !leg.LegSuspended? then sofar
    else AnswersOf(e, c, runId, ResumeCall(e, c, runId, leg, calls[0]), calls[1..],
                   sofar[leg.cp.node := calls[0].human])
  }

  /** The net a checkpoint decodes to. */
  ghost predicate Restores(c: Codec, cp: Checkpoint, net: Net) {
    DecodeAll(c, cp.ports) == Some(net.ports) && net.active == cp.active && net.edges == cp.edges
  }

  ghost predicate LegExplained(e: Engine, c: Codec, answers: Answers, leg: Leg) {
    match leg
    case LegSuspended(cp, _) => exists net :: Restores(c, cp, net) && Waiting(e, answers, cp, net)
    case LegDone(r, _) => Explained(e, answers, r.net, |e.layers|, None) && Kept(e, answers, r.net.ports, |e.layers|)
    case LegFailed(_) => true
  }

  ghost predicate Waiting(e: Engine, answers: Answers, cp: Checkpoint, net: Net) {
    && cp.suspendLayer < |e.layers| && cp.node in e.layers[cp.suspendLayer] && cp.node in net.active
    && PendingBeyond(e, net.edges, cp.suspendLayer + 1)
    && Explained(e, answers, net, cp.suspendLayer + 1, Some(cp.node)) && Kept(e, answers, net.ports, cp.suspendLayer)
  }

  lemma ConcludeExplained(e: Engine, c: Codec, red: Option<Reducer>, runId: string, answers: Answers, r: Run, k: nat,
                          inputs: map<string, Value>)
    requires Compiled(e) && RoundTrips(c) && k <= |e.layers| && Fits(e, r) && PendingBeyond(e, r.net.edges, k)
    requires Explained(e, answers, r.net, k, None) && Kept(e, answers, r.net.ports, k)
    ensures LegExplained(e, c, answers, Conclude(e, c, runId, RunFrom(e, red, r, k, true), inputs))
  {
    hide RunFrom, Explained, Kept, PendingBeyond, RoundTrips, EncodeAll, DecodeAll;
    RunExplains(e, red, answers, r, k, true);
    var f := RunFrom(e, red, r, k, true);
    if f.Suspended? && Snapshot(e, c, runId, f.run, f.layer, f.node, f.request, inputs).Some? {
      var cp := Snapshot(e, c, runId, f.run, f.layer, f.node, f.request, inputs).value;
      DecodeEncoded(c, f.run.net.ports);
      assert Restores(c, cp, f.run.net) && Waiting(e, answers, cp, f.run.net);
    }
  }

  lemma FirstExplained(e: Engine, c: Codec, red: Option<Reducer>, seed: Option<Value>, runId: string,
                       inputs: map<string, Value>)
    requires Compiled(e) && RoundTrips(c)
    ensures LegExplained(e, c, map[], FirstLeg(e, c, red, seed, runId, inputs))
  {
    hide RunFrom, Explained, Kept, PendingBeyond, RoundTrips;
    StartExplained(e, inputs);
    match StartNet(e.flow, inputs)
    case Err(_) =>
    case Ok(n) => ConcludeExplained(e, c, red, runId, map[], Run(n, seed, []), 0, inputs);
  }

  lemma ResumeLegExplained(e: Engine, c: Codec, runId: string, answers: Answers, leg: Leg, call: Call)
    requires Compiled(e) && RoundTrips(c) && leg.LegSuspended? && LegExplained(e, c, answers, leg)
    ensures LegExplained(e, c, answers[leg.cp.node := call.human], ResumeCall(e, c, runId, leg, call))
  {
    hide RunFrom, ResumeNet, Conclude, RestoreCell, Admits, Explained, Kept, PendingBeyond, RoundTrips, DecodeAll;
    hide Compiled;
    var cp, cell := leg.cp, RestoreCell(c, leg.cp, call.seed);
    var net :| Restores(c, cp, net) && Waiting(e, answers, cp, net);
    if cell.Ok? && |cp.edges| == |e.flow.edges| {
      var late := ResumeNet(WiresOf(e), net, cp.node, call.human);
      if late.Ok? {
        ResumeExplains(e, answers, net, cp.suspendLayer, cp.node, call.human);
        ConcludeExplained(e, c, call.red, runId, answers[cp.node := call.human], Run(late.value, cell.value, leg.log),
                          cp.suspendLayer + 1, map[]);
        assert Net(cp.active, net.ports, cp.edges) == net;
      }
    }
  }

  lemma {:induction false} ChainExplained(e: Engine, c: Codec, runId: string, leg: Leg, calls: seq<Call>,
                                          answers: Answers)
    requires Compiled(e) && RoundTrips(c) && LegExplained(e, c, answers, leg)
    ensures LegExplained(e, c, AnswersOf(e, c, runId, leg, calls, answers), LegAfter(e, c, runId, leg, calls))
    decreases |calls|
  {
    hide LegExplained, ResumeCall, Compiled, RoundTrips;
    if calls != [] && leg.LegSuspended? {
      ResumeLegExplained(e, c, runId, answers, leg, calls[0]);
      ChainExplained(e, c, runId, ResumeCall(e, c, runId, leg, calls[0]), calls[1..],
                     answers[leg.cp.node := calls[0].human]);
    }
  }

  /** Why each edge ended as it did, over any number of legs: no edge is pending; an edge is still deferred
      exactly when its source was suspended and its port never got a value, in which case the human left it
      out; every other edge fired or died for the reason its source's activation and ports give; and what a
      human answered is what the node still holds. */
  lemma LegsExplainEdges(e: Engine, c: Codec, red: Option<Reducer>, seed: Option<Value>, runId: string,
                         inputs: map<string, Value>,
                         calls: seq<Call>)
    requires Compiled(e) && RoundTrips(c)
    ensures var first := FirstLeg(e, c, red, seed, runId, inputs);
            var last, answers := LegAfter(e, c, runId, first, calls), AnswersOf(e, c, runId, first, calls, map[]);
            last.LegDone? ==>
              var net := last.run.net;
              && |net.edges| == |e.flow.edges|
              && (forall i :: 0 <= i < |net.edges| ==>
                    var src, port := e.flow.edges[i].source.node, e.flow.edges[i].source.port;
                    && net.edges[i] != Pending
                    && (net.edges[i] == Deferred <==> src in answers && PortKey(src, port) !in net.ports)
                    && (net.edges[i] == Deferred ==> port !in answers[src])
                    && (net.edges[i] != Deferred ==> Some(net.edges[i]) == Reason(e, net.active, net.ports, i)))
              && (forall n, p :: n in answers && p in answers[n] ==> Lookup(net.ports, PortKey(n, p)) == Some(answers[n][p]))
  {
    hide FirstLeg, LegAfter, AnswersOf, Compiled, RoundTrips;
    var first := FirstLeg(e, c, red, seed, runId, inputs);
    FirstExplained(e, c, red, seed, runId, inputs);
    ChainExplained(e, c, runId, first, calls, map[]);
    var last, answers := LegAfter(e, c, runId, first, calls), AnswersOf(e, c, runId, first, calls, map[]);
    if last.LegDone? {
      forall i | 0 <= i < |e.flow.edges|
        ensures Some(last.run.net.edges[i]) == Ending(e, answers, last.run.net.active, last.run.net.ports, i)
      {
        AllBefore(e, i);
      }
    }
  }
}
