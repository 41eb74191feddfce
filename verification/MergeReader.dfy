/** The Merge reader as the code has it: one blocking receive per Next, and Close. The pullers and the closer
    run while Next waits. */
module MergeReading {
  import opened Prelude
  import opened Transitions
  import opened Merging

  predicate Able<T>(s: System<T>, i: int) {
    0 <= i < |s.pullers| && !s.pullers[i].done && (s.pullers[i].hold.None? || s.chan == [])
  }

  function NextMove<T>(p: Puller<T>, i: nat): Move {
    if p.hold.Some? then Send(i) else if p.rest != [] then Pull(i) else Finish(i)
  }

  /** While the channel is empty and open, some puller or the closer can move. */
  function Choose<T>(s: System<T>, i: int): (m: Move)
    requires s.chan == [] && !s.shut
    ensures !m.Receive? && !m.End? && !m.Close? && !m.Drain? && !m.Quit?
    ensures Can(s, m)
  {
    if Able(s, i) then NextMove(s.pullers[i], i)
    else if AllDone(s) then Shut
    else var k := FirstLive(s, 0); NextMove(s.pullers[k], k)
  }

  function FirstLive<T>(s: System<T>, k: nat): (r: nat)
    requires exists i :: k <= i < |s.pullers| && !s.pullers[i].done
    ensures r < |s.pullers| && !s.pullers[r].done
    decreases |s.pullers| - k
  {
    if k < |s.pullers| && !s.pullers[k].done then k else FirstLive(s, k + 1)
  }

  class MergeReader<T(==)> {
    var sys: System<T>
    ghost const srcs: seq<seq<T>>

    ghost predicate Valid()
      reads this
    {
      Inv(srcs, sys)
    }

    constructor (srcs: seq<seq<T>>)
      ensures this.srcs == srcs && sys == Init(srcs) && Valid()
    {
      this.srcs, sys := srcs, Init(srcs);
      new;
      InitHolds(srcs);
    }

    method Move(m: Merging.Move, ghost start: System<T>,
                ghost moves: seq<Merging.Move>) returns (ghost all: seq<Merging.Move>)
      requires Valid() && Can(sys, m) && Runs(Step, start, moves, sys)
      modifies this
      ensures Valid() && sys == Do(old(sys), m) && all == moves + [m] && Runs(Step, start, all, sys)
      ensures Work(sys) < Work(old(sys))
    {
      hide Inv, Runs, Can, Do, Work;
      InvKept(srcs, sys, m);
      RunsThen(Step, start, moves, sys, m);
      MoveWorks(sys, m);
      all := moves + [m];
      sys := Do(sys, m);
    }

    /** Next waits for a frame or for the channel to close. A frame joins what has been returned; io.EOF (None)
        from an open reader means that every source has been returned in full, in its own order. */
    method Next() returns (r: Option<T>, ghost moves: seq<Merging.Move>)
      requires Valid()
      modifies this
      ensures Valid() && sys.closed == old(sys.closed) && Runs(Step, old(sys), moves, sys)
      ensures sys.closed ==> r.None? && sys == old(sys)
      ensures r.Some? ==> |sys.out| == |old(sys.out)| + 1 && sys.out[..|old(sys.out)|] == old(sys.out)
                          && sys.out[|old(sys.out)|].frame == r.value && Work(sys) < Work(old(sys))
      ensures !sys.closed && r.None? ==>
              sys.out == old(sys.out) && forall i :: 0 <= i < |srcs| ==> From(sys.out, i) == srcs[i]
    {
      hide Inv, Runs, Work, From;
      moves := [];
      RunsNothing(Step, sys);
      if sys.closed { return None, moves; }
      while sys.chan == [] && !sys.shut
        invariant Valid() && !sys.closed && sys.out == old(sys.out) && Runs(Step, old(sys), moves, sys)
        invariant Work(sys) <= Work(old(sys))
        decreases Work(sys)
      {
        var i: int := *;
        moves := Move(Choose(sys, i), old(sys), moves);
      }
      if sys.chan == [] {
        if !sys.eof { moves := Move(End, old(sys), moves); }
        EofIs(srcs, sys);
        return None, moves;
      }
      r := Some(sys.chan[0].frame);
      moves := Move(Receive, old(sys), moves);
    }

    method Close()
      requires Valid()
      modifies this
      ensures Valid() && sys.closed && (old(sys.closed) || sys == Do(old(sys), Merging.Close))
    {
      hide Inv;
      if sys.closed { return; }
      InvKept(srcs, sys, Merging.Close);
      sys := Do(sys, Merging.Close);
    }
  }

  lemma EofIs<T>(srcs: seq<seq<T>>, s: System<T>)
    requires Inv(srcs, s) && s.eof
    ensures forall i :: 0 <= i < |srcs| ==> From(s.out, i) == srcs[i]
  {
  }
}
