/** The roundRobinMerge reader as the code has it: fields, the loop of Next, and Close. The goroutines behind
    the channels run while Next waits. */
module RoundRobinReading {
  import opened Prelude
  import opened RoundRobin
  import opened Transitions

  /** A puller that can take its next step without the reader's help. */
  predicate Able<T>(l: Lane<T>) { !l.closed && (l.hold.None? || l.chan == []) }

  function NextMove<T>(l: Lane<T>, i: nat): Move {
    if l.hold.Some? then Send(i) else if l.rest != [] then Pull(i) else Finish(i)
  }

  lemma AbleCan<T>(s: System<T>, i: nat)
    requires i < |s.lanes| && Able(s.lanes[i])
    ensures Can(s, NextMove(s.lanes[i], i))
  {
  }

  class RoundRobinReader<T(==)> {
    var lanes: seq<Lane<T>>
    var cur: nat
    var exhausted: seq<bool>
    var closed: bool
    ghost const srcs: seq<seq<T>>
    ghost var out: seq<T>
    ghost var eof: bool

    ghost function Sys(): System<T>
      reads this
    {
      System(lanes, cur, exhausted, out, eof, closed)
    }

    ghost predicate Valid()
      reads this
    {
      Inv(srcs, Sys())
    }

    constructor (srcs: seq<seq<T>>)
      ensures this.srcs == srcs && Sys() == Init(srcs) && Valid()
    {
      lanes := seq(|srcs|, i requires 0 <= i < |srcs| => Lane(srcs[i], None, [], false, 0));
      cur, exhausted, closed := 0, seq(|srcs|, _ => false), false;
      this.srcs, out, eof := srcs, [], false;
      new;
      InitHolds(srcs);
    }

    /** Waiting on a channel: pullers move, in any order, until it holds a frame or is closed. */
    method Await(want: nat) returns (ghost moves: seq<Move>)
      requires Valid() && !closed && want < |lanes|
      modifies this`lanes
      ensures Valid() && Runs(Step, old(Sys()), moves, Sys()) && |lanes| == old(|lanes|)
      ensures lanes[want].chan != [] || lanes[want].closed
    {
      hide Inv, Can;
      moves := [];
      while lanes[want].chan == [] && !lanes[want].closed
        invariant Valid() && |lanes| == old(|lanes|) && Runs(Step, old(Sys()), moves, Sys())
        decreases LanesWork(lanes)
      {
        var i: int := *;
        if !(0 <= i < |lanes| && Able(lanes[i])) { i := want; }
        ghost var before, m := Sys(), NextMove(lanes[i], i);
        AbleCan(before, i);
        InvKept(srcs, before, m);
        RunsThen(Step, old(Sys()), moves, before, m);
        LanesWorkAt(lanes, i, LaneAfter(lanes[i], m));
        lanes := lanes[i := LaneAfter(lanes[i], NextMove(lanes[i], i))];
        moves := moves + [m];
        assert Sys() == Do(before, m);
      }
    }

    /** The inner loop of Next. */
    method PickNext() returns (picked: Option<nat>)
      requires |exhausted| == |lanes| && !closed
      ensures picked == Picked(Sys())
    {
      var n := |lanes|;
      picked := None;
      var off := 0;
      while off < n && picked.None?
        invariant off <= n && (picked.Some? ==> n > 0)
        invariant n > 0 ==> Picked(Sys()) == if picked.Some? then picked else Pick(cur, exhausted, off)
        decreases n - off, if picked.None? then 1 else 0
      {
        var i := (cur + off) % n;
        if !exhausted[i] { picked := Some(i); } else { off := off + 1; }
      }
    }

    /** Next: the frame at the reader's position in the promised order, or io.EOF (None) at its end, whatever
        the pullers do meanwhile. */
    method Next() returns (r: Option<T>, ghost moves: seq<Move>)
      requires Valid()
      modifies this
      ensures Valid() && closed == old(closed) && Runs(Step, old(Sys()), moves, Sys())
      ensures closed ==> r.None? && Sys() == old(Sys())
      ensures !closed ==> out == old(out) + if r.Some? then [r.value] else []
      ensures !closed ==> (r.None? <==> old(out) == Interleaved(srcs))
    {
      hide Inv, Runs, Pick, Interleaved, Left;
      moves := [];
      RunsNothing(Step, Sys());
      InvMeans(srcs, Sys());
      if closed { return None, moves; }
      while true
        invariant Valid() && !closed && out == old(out) && Runs(Step, old(Sys()), moves, Sys())
        invariant |lanes| == |exhausted|
        decreases Live(exhausted)
      {
        var picked := PickNext();
        InvMeans(srcs, Sys());
        if picked.None? {
          if !eof {
            moves := Take(old(Sys()), moves, End);
            eof := true;
          }
          InvMeans(srcs, Sys());
          return None, moves;
        }
        ghost var mid := Sys();
        ghost var waited := Await(picked.value);
        RunsConcat(Step, old(Sys()), moves, mid, waited, Sys());
        moves := moves + waited;
        InvMeans(srcs, Sys());
        if lanes[picked.value].chan == [] {
          LiveAt(exhausted, picked.value);
          moves := Take(old(Sys()), moves, Skip);
          exhausted := exhausted[picked.value := true];
          cur := picked.value;
        } else {
          var l := lanes[picked.value];
          moves := Take(old(Sys()), moves, Receive);
          cur := (picked.value + 1) % |lanes|;
          lanes := lanes[picked.value := LaneAfter(l, Receive)];
          out := out + [l.chan[0]];
          InvMeans(srcs, Sys());
          return Some(l.chan[0]), moves;
        }
      }
    }

    /** Adds a move of the current state to the run so far. */
    ghost method Take(start: System<T>, moves: seq<Move>, m: Move) returns (all: seq<Move>)
      requires Inv(srcs, Sys()) && Runs(Step, start, moves, Sys()) && Can(Sys(), m)
      ensures all == moves + [m] && Runs(Step, start, all, Do(Sys(), m)) && Inv(srcs, Do(Sys(), m))
    {
      all := moves + [m];
      RunsThen(Step, start, moves, Sys(), m);
      InvKept(srcs, Sys(), m);
    }

    /** Close is idempotent, and no frame is returned after it. */
    method Close()
      requires Valid()
      modifies this`closed
      ensures Valid() && closed && (old(closed) || Sys() == Do(old(Sys()), RoundRobin.Close))
    {
      hide Inv;
      if closed { return; }
      InvKept(srcs, Sys(), RoundRobin.Close);
      closed := true;
    }
  }

  lemma InvMeans<T>(srcs: seq<seq<T>>, s: System<T>)
    requires Inv(srcs, s)
    ensures |s.lanes| == |srcs| && s.out <= Interleaved(srcs)
    ensures !s.closed ==> |s.exhausted| == |s.lanes|
    ensures s.eof ==> s.out == Interleaved(srcs)
  {
  }
}
