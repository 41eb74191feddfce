/** Merge (v2/flow/graph/combinators.go): one puller per source, all sending into one shared channel, and a
    closer that closes it once every puller has exited. The model keeps the source index beside each frame;
    the code does not look at it. */
module Merging {
  import opened Prelude
  import opened Transitions

  /** `hold` is the frame the puller is about to send; `released` counts src.Close calls. */
  datatype Puller<T> = Puller(rest: seq<T>, hold: Option<T>, done: bool, released: nat)

  datatype Tagged<T> = Tagged(source: nat, frame: T)

  /** `shut`: the closer has closed the channel. `eof`: Next has returned io.EOF. `closed`: Close was called. */
  datatype System<T> = System(pullers: seq<Puller<T>>, chan: seq<Tagged<T>>, shut: bool, out: seq<Tagged<T>>, eof: bool,
                              closed: bool)

  function Init<T>(srcs: seq<seq<T>>): System<T> {
    System(seq(|srcs|, i requires 0 <= i < |srcs| => Puller(srcs[i], None, false, 0)), [], false, [], false, false)
  }

  datatype Move = Pull(i: nat) | Send(i: nat) | Finish(i: nat) | Quit(i: nat) | Shut | Receive | End | Close | Drain

  predicate AllDone<T>(s: System<T>) { forall i :: 0 <= i < |s.pullers| ==> s.pullers[i].done }

  predicate Can<T(==)>(s: System<T>, m: Move) {
    match m
    case Pull(i) => i < |s.pullers| && !s.pullers[i].done && s.pullers[i].hold.None? && s.pullers[i].rest != []
    case Send(i) => i < |s.pullers| && !s.pullers[i].done && s.pullers[i].hold.Some? && s.chan == []
    case Finish(i) => i < |s.pullers| && !s.pullers[i].done && s.pullers[i].hold.None? && s.pullers[i].rest == []
    case Quit(i) => i < |s.pullers| && !s.pullers[i].done && s.pullers[i].hold.Some? && s.closed
    case Shut => !s.shut && AllDone(s)
    case Receive => !s.closed && s.chan != []
    case End => !s.closed && s.chan == [] && s.shut && !s.eof
    case Close => !s.closed
    case Drain => s.closed && s.chan != []
  }

  function PullerAfter<T(==)>(p: Puller<T>, m: Move): Puller<T>
    requires m.Pull? ==> p.rest != []
  {
    match m
    case Pull(_) => p.(hold := Some(p.rest[0]), rest := p.rest[1..])
    case Send(_) => p.(hold := None)
    case Finish(_) => p.(done := true, released := p.released + 1)
    case Quit(_) => p.(hold := None, done := true, released := p.released + 1)
    case _ => p
  }

  function Do<T(==)>(s: System<T>, m: Move): System<T>
    requires Can(s, m)
  {
    match m
    case Send(i) => s.(pullers := s.pullers[i := PullerAfter(s.pullers[i], m)], chan := s.chan + [Tagged(i, s.pullers[i].hold.value)])
    case Shut => s.(shut := true)
    case Receive => s.(chan := s.chan[1..], out := s.out + [s.chan[0]])
    case End => s.(eof := true)
    case Close => s.(closed := true)
    case Drain => s.(chan := s.chan[1..])
    case _ => s.(pullers := s.pullers[m.i := PullerAfter(s.pullers[m.i], m)])
  }

  function Step<T(==)>(s: System<T>, m: Move): Option<System<T>> { if Can(s, m) then Some(Do(s, m)) else None }

  // ---------------------------------------------------------------- the invariant

  /** The frames of source i, in the order they appear. */
  function From<T>(frames: seq<Tagged<T>>, i: nat): seq<T> {
    if frames == [] then [] else (if frames[0].source == i then [frames[0].frame] else []) + From(frames[1..], i)
  }

  lemma {:induction false} FromConcat<T>(a: seq<Tagged<T>>, b: seq<Tagged<T>>, i: nat)
    ensures From(a + b, i) == From(a, i) + From(b, i)
  {
    if a == [] {
      assert a + b == b;
    } else {
      FromConcat(a[1..], b, i);
      assert (a + b)[1..] == a[1..] + b;
      var head := if a[0].source == i then [a[0].frame] else [];
      assert From(a + b, i) == head + From(a[1..] + b, i) && From(a, i) == head + From(a[1..], i);
    }
  }

  function Left<T>(p: Puller<T>): seq<T> { (if p.hold.Some? then [p.hold.value] else []) + p.rest }

  /** Read, buffered, held and still unread frames are together source i, each frame once and in order. */
  ghost predicate Conserved<T>(src: seq<T>, s: System<T>, i: nat)
    requires i < |s.pullers|
  {
    From(s.out, i) + From(s.chan, i) + Left(s.pullers[i]) == src
  }

  ghost predicate PullerOk<T>(p: Puller<T>, closed: bool) {
    p.released == (if p.done then 1 else 0) && (p.done && !closed ==> Left(p) == [])
  }

  ghost predicate TagsBelow<T>(frames: seq<Tagged<T>>,
                               n: nat) { forall k :: 0 <= k < |frames| ==> frames[k].source < n }

  ghost predicate Inv<T>(srcs: seq<seq<T>>, s: System<T>) {
    && |s.pullers| == |srcs| && |s.chan| <= 1 && TagsBelow(s.out, |srcs|) && TagsBelow(s.chan, |srcs|)
    && (s.shut ==> AllDone(s))
    && (forall i :: 0 <= i < |srcs| ==> PullerOk(s.pullers[i], s.closed) && From(s.out, i) <= srcs[i])
    && (!s.closed ==> forall i :: 0 <= i < |srcs| ==> Conserved(srcs[i], s, i))
    && (s.eof ==> s.shut && forall i :: 0 <= i < |srcs| ==> From(s.out, i) == srcs[i])
    && (s.eof && !s.closed ==> s.chan == [])
  }

  lemma OneFrom<T>(t: Tagged<T>, i: nat)
    ensures From([t], i) == if t.source == i then [t.frame] else []
  {
    assert [t][1..] == [];
  }

  lemma SendMoves<T>(p: Puller<T>, k: nat, i: nat)
    requires p.hold.Some?
    ensures From([Tagged(k, p.hold.value)], i) + Left(if k == i then PullerAfter(p, Send(k)) else p) == Left(p)
    ensures k != i ==> From([Tagged(k, p.hold.value)], i) == []
  {
    OneFrom(Tagged(k, p.hold.value), i);
  }

  lemma PullMoves<T>(p: Puller<T>, i: nat)
    requires p.hold.None? && p.rest != []
    ensures Left(PullerAfter(p, Pull(i))) == Left(p)
  {
    assert [p.rest[0]] + p.rest[1..] == p.rest;
  }

  lemma ReceiveMoves<T>(out: seq<Tagged<T>>, chan: seq<Tagged<T>>, i: nat)
    requires |chan| == 1
    ensures From(out + [chan[0]], i) + From(chan[1..], i) == From(out, i) + From(chan, i)
  {
    FromConcat(out, [chan[0]], i);
    assert chan == [chan[0]] && chan[1..] == [];
  }

  lemma ConservedKept<T>(src: seq<T>, s: System<T>, m: Move, i: nat)
    requires Can(s, m) && !s.closed && |s.chan| <= 1 && i < |s.pullers| && Conserved(src, s, i)
    ensures |Do(s, m).pullers| == |s.pullers| && Conserved(src, Do(s, m), i)
  {
    hide From, Left;
    match m
    case Pull(k) =>
      PullMoves(s.pullers[k], k);
    case Send(k) =>
      NoneFrom<T>(i);
      SendMoves(s.pullers[k], k, i);
      assert s.chan == [] && Do(s, m).chan == [Tagged(k, s.pullers[k].hold.value)];
    case Receive =>
      ReceiveMoves(s.out, s.chan, i);
    case Finish(k) =>
      assert Left(Do(s, m).pullers[k]) == Left(s.pullers[k]) by { LeftIs(s.pullers[k], Do(s, m).pullers[k]); }
    case _ =>
  }

  lemma NoneFrom<T>(i: nat)
    ensures From<T>([], i) == []
  {
  }

  lemma LeftIs<T>(p: Puller<T>, q: Puller<T>)
    requires p.hold == q.hold && p.rest == q.rest
    ensures Left(p) == Left(q)
  {
  }

  lemma PullerKept<T>(s: System<T>, m: Move, i: nat)
    requires Can(s, m) && !s.closed && i < |s.pullers| && PullerOk(s.pullers[i], false)
    ensures |Do(s, m).pullers| == |s.pullers| && PullerOk(Do(s, m).pullers[i], Do(s, m).closed)
  {
  }

  lemma ConservedIsPrefix<T>(src: seq<T>, s: System<T>, i: nat)
    requires i < |s.pullers| && Conserved(src, s, i)
    ensures From(s.out, i) <= src
  {
    hide From, Left;
  }

  /** Once closed, the reader returns nothing more, and pullers keep their books. */
  lemma ClosedKept<T>(s: System<T>, m: Move, i: nat)
    requires Can(s, m) && s.closed && i < |s.pullers| && PullerOk(s.pullers[i], true)
    ensures Do(s, m).closed && Do(s, m).out == s.out && |Do(s, m).pullers| == |s.pullers|
    ensures PullerOk(Do(s, m).pullers[i], true)
  {
  }

  lemma ShapeKept<T>(s: System<T>, m: Move, n: nat)
    requires Can(s, m) && |s.pullers| == n && |s.chan| <= 1 && TagsBelow(s.out, n) && TagsBelow(s.chan, n)
    requires (s.shut ==> AllDone(s))
    requires s.eof ==> s.shut && (!s.closed ==> s.chan == [])
    ensures var t := Do(s, m);
            && |t.pullers| == n && |t.chan| <= 1 && TagsBelow(t.out, n) && TagsBelow(t.chan, n)
            && (t.shut ==> AllDone(t))
            && (t.eof ==> t.shut && (!t.closed ==> t.chan == []))
            && (s.eof ==> t.out == s.out) && (t.closed && !s.closed ==> t.out == s.out)
  {
  }

  /** io.EOF is only reported once every frame of every source has been returned. */
  lemma EofMeansAll<T>(srcs: seq<seq<T>>, s: System<T>, i: nat)
    requires Inv(srcs, s) && Can(s, End) && i < |srcs|
    ensures From(s.out, i) == srcs[i]
  {
    assert PullerOk(s.pullers[i], false) && s.pullers[i].done;
    assert Conserved(srcs[i], s, i);
  }

  lemma EofKept<T>(srcs: seq<seq<T>>, s: System<T>, m: Move, i: nat)
    requires Inv(srcs, s) && Can(s, m) && i < |srcs| && Do(s, m).eof
    ensures From(Do(s, m).out, i) == srcs[i]
  {
    hide From, Left, Conserved, TagsBelow, PullerOk;
    if s.eof {
      assert Do(s, m).out == s.out;
    } else {
      EofMeansAll(srcs, s, i);
    }
  }

  lemma InvKept<T>(srcs: seq<seq<T>>, s: System<T>, m: Move)
    requires Inv(srcs, s) && Can(s, m)
    ensures Inv(srcs, Do(s, m))
  {
    hide TagsBelow, Conserved, PullerOk, From, AllDone, Can, Do, Left;
    ShapeKept(s, m, |srcs|);
    forall i | 0 <= i < |srcs|
      ensures PullerOk(Do(s, m).pullers[i], Do(s, m).closed) && From(Do(s, m).out, i) <= srcs[i]
      ensures !Do(s, m).closed ==> Conserved(srcs[i], Do(s, m), i)
      ensures Do(s, m).eof ==> From(Do(s, m).out, i) == srcs[i]
    {
      ClosedIs(s, m);
      if s.closed {
        ClosedKept(s, m, i);
      } else {
        ConservedKept(srcs[i], s, m, i);
        ConservedIsPrefix(srcs[i], Do(s, m), i);
        PullerKept(s, m, i);
      }
      if Do(s, m).eof { EofKept(srcs, s, m, i); }
    }
  }

  lemma ClosedIs<T>(s: System<T>, m: Move)
    requires Can(s, m)
    ensures Do(s, m).closed == (s.closed || m.Close?) && Do(s, m).eof == (s.eof || m.End?)
    ensures m.End? ==> Do(s, m).out == s.out
  {
  }

  lemma InitHolds<T>(srcs: seq<seq<T>>)
    ensures Inv(srcs, Init(srcs))
  {
  }

  lemma ReachableInv<T(!new)>(srcs: seq<seq<T>>, moves: seq<Move>, t: System<T>)
    requires Runs(Step, Init(srcs), moves, t)
    ensures Inv(srcs, t)
  {
    hide Inv, Can, Do;
    InitHolds(srcs);
    forall s: System<T>, m | Inv(srcs, s) && Step(s, m).Some?
      ensures Inv(srcs, Step(s, m).value)
    {
      InvKept(srcs, s, m);
    }
    RunKeeps(Step, s => Inv(srcs, s), Init(srcs), moves, t);
  }

  // ---------------------------------------------------------------- every run ends, and ends complete

  function PullerWork<T>(p: Puller<T>): nat { 3 * |p.rest| + (if p.hold.Some? then 2 else 0) + if p.done then 0 else 1 }

  function PullersWork<T>(ps: seq<Puller<T>>): nat { if ps == [] then 0 else PullerWork(ps[0]) + PullersWork(ps[1..]) }

  function Work<T>(s: System<T>): nat {
    PullersWork(s.pullers) + |s.chan| + (if s.shut then 0 else 1) + (if s.eof then 0 else 1) + if s.closed then 0 else 1
  }

  lemma {:induction false} PullersWorkAt<T>(ps: seq<Puller<T>>, i: nat, p: Puller<T>)
    requires i < |ps|
    ensures PullersWork(ps[i := p]) == PullersWork(ps) - PullerWork(ps[i]) + PullerWork(p)
  {
    if i == 0 {
      assert ps[0 := p][1..] == ps[1..];
    } else {
      assert ps[i := p][1..] == ps[1..][i - 1 := p];
      PullersWorkAt(ps[1..], i - 1, p);
    }
  }

  lemma MoveWorks<T>(s: System<T>, m: Move)
    requires Can(s, m)
    ensures Work(Do(s, m)) < Work(s)
  {
    if m.Pull? || m.Send? || m.Finish? || m.Quit? { PullersWorkAt(s.pullers, m.i, PullerAfter(s.pullers[m.i], m)); }
  }

  lemma RunsEnd<T(!new)>(s: System<T>, moves: seq<Move>, t: System<T>)
    requires Runs(Step, s, moves, t)
    ensures Work(t) + |moves| <= Work(s)
  {
    hide Work, Can, Do;
    forall s: System<T>, m | Step(s, m).Some? ensures Work(Step(s, m).value) < Work(s) { MoveWorks(s, m); }
    RunIsBounded(Step, Work, s, moves, t);
  }

  ghost predicate Stuck<T(!new)>(s: System<T>) { forall m :: Can(s, m) ==> m.Close? }

  lemma StuckMeans<T(!new)>(s: System<T>, m: Move)
    requires Stuck(s) && !m.Close?
    ensures !Can(s, m)
  {
  }

  lemma StuckIsDone<T(!new)>(s: System<T>)
    requires Stuck(s)
    ensures AllDone(s) && s.shut && s.chan == [] && (s.closed || s.eof)
  {
    hide Stuck;
    StuckMeans(s, Receive);
    StuckMeans(s, Drain);
    forall i | 0 <= i < |s.pullers| ensures s.pullers[i].done {
      StuckMeans(s, Pull(i));
      StuckMeans(s, Send(i));
      StuckMeans(s, Finish(i));
    }
    StuckMeans(s, Shut);
    StuckMeans(s, End);
  }

  /** In every run: each source's frames come out once and in order; io.EOF means all of them came out; the
      run takes boundedly many moves; and when nobody can move any more an open reader is at io.EOF and every
      source, read to the end or abandoned, has been closed exactly once. */
  lemma MergeConserves<T(!new)>(srcs: seq<seq<T>>, moves: seq<Move>, t: System<T>)
    requires Runs(Step, Init(srcs), moves, t)
    ensures |moves| <= Work(Init(srcs)) && |t.pullers| == |srcs| && TagsBelow(t.out, |srcs|)
    ensures forall i :: 0 <= i < |srcs| ==> From(t.out, i) <= srcs[i]
    ensures !t.closed ==> forall i :: 0 <= i < |srcs| ==> From(t.out, i) + From(t.chan, i) + Left(t.pullers[i]) == srcs[i]
    ensures t.eof ==> forall i :: 0 <= i < |srcs| ==> From(t.out, i) == srcs[i]
    ensures Stuck(t) ==> (t.closed || t.eof) && forall i :: 0 <= i < |srcs| ==> t.pullers[i].released == 1
  {
    hide Can, Do, Work, From, Left, TagsBelow, Stuck;
    ReachableInv(srcs, moves, t);
    RunsEnd(Init(srcs), moves, t);
    if Stuck(t) { StuckIsDone(t); }
    if !t.closed {
      forall i | 0 <= i < |srcs| ensures From(t.out, i) + From(t.chan, i) + Left(t.pullers[i]) == srcs[i] {
        assert Conserved(srcs[i], t, i);
      }
    }
    forall i | 0 <= i < |srcs| ensures PullerOk(t.pullers[i], t.closed) {}
  }

  /** After Close a puller is let go by its own moves alone, at most two of them: it never waits for the channel to be
      read, and its source is closed. */
  lemma CloseFrees<T(!new)>(srcs: seq<seq<T>>, moves: seq<Move>, t: System<T>, i: nat) returns (own: seq<Move>, u: System<T>)
    requires Runs(Step, Init(srcs), moves, t) && t.closed && i < |srcs|
    ensures |own| <= 2 && forall m :: m in own ==> m == Pull(i) || m == Quit(i) || m == Finish(i)
    ensures Runs(Step, t, own, u) && |u.pullers| == |srcs| && u.pullers[i].done && u.pullers[i].released == 1
  {
    hide Work;
    ReachableInv(srcs, moves, t);
    assert PullerOk(t.pullers[i], t.closed);
    own, u := [], t;
    var p := t.pullers[i];
    if !p.done && p.hold.None? && p.rest != [] {
      u := Do(u, Pull(i));
      own := [Pull(i)];
      assert own[1..] == [] && Step(t, Pull(i)) == Some(u);
    }
    if !p.done {
      var last := if u.pullers[i].hold.Some? then Quit(i) else Finish(i);
      RunsThen(Step, t, own, u, last);
      own, u := own + [last], Do(u, last);
    }
  }
}
