/** roundRobinMerge (v2/flow/graph/combinators.go): one puller per source with a one-place channel of its
    own, and a reader that takes the channels in turn. Every interleaving of the goroutines is a list of
    moves of the system below; a source is the list of frames its puller gets before io.EOF. */
module RoundRobin {
  import opened Prelude
  import opened Transitions

  // ---------------------------------------------------------------- the promised order

  /** Frame r of the first p sources. */
  function Row<T>(srcs: seq<seq<T>>, r: nat, p: nat): seq<T>
    requires p <= |srcs|
  {
    if p == 0 then [] else Row(srcs, r, p - 1) + if r < |srcs[p - 1]| then [srcs[p - 1][r]] else []
  }

  function Rows<T>(srcs: seq<seq<T>>, r: nat): seq<T> {
    if r == 0 then [] else Rows(srcs, r - 1) + Row(srcs, r - 1, |srcs|)
  }

  /** All frames before frame r of source p, ordered by (frame index, source index). */
  function Before<T>(srcs: seq<seq<T>>, r: nat, p: nat): seq<T>
    requires p <= |srcs|
  {
    Rows(srcs, r) + Row(srcs, r, p)
  }

  function Longest<T>(srcs: seq<seq<T>>): (r: nat)
    ensures forall i :: 0 <= i < |srcs| ==> |srcs[i]| <= r
  {
    if srcs == [] then 0
    else
      var rest := Longest(srcs[1..]);
      assert forall i :: 0 < i < |srcs| ==> srcs[i] == srcs[1..][i - 1];
      if |srcs[0]| > rest then |srcs[0]| else rest
  }

  /** All frames of all sources in the order the reader promises. */
  function Interleaved<T>(srcs: seq<seq<T>>): seq<T> { Rows(srcs, Longest(srcs)) }

  // ---------------------------------------------------------------- the system

  /** A puller and its channel: `hold` is the frame it is about to send; `released` counts src.Close calls. */
  datatype Lane<T> = Lane(rest: seq<T>, hold: Option<T>, chan: seq<T>, closed: bool, released: nat)

  datatype System<T> = System(lanes: seq<Lane<T>>, cur: nat, exhausted: seq<bool>, out: seq<T>, eof: bool, closed: bool)

  function Init<T>(srcs: seq<seq<T>>): System<T> {
    System(seq(|srcs|, i requires 0 <= i < |srcs| => Lane(srcs[i], None, [], false, 0)), 0,
           seq(|srcs|, _ => false), [], false, false)
  }

  /** What the goroutines can do. Receive, Skip and End are the three outcomes of one turn of Next's loop. */
  datatype Move = Pull(i: nat) | Send(i: nat) | Finish(i: nat) | Quit(i: nat) | Drain(i: nat) | Receive | Skip | End | Close

  /** The first source from offset `off` past the cursor that is not exhausted. */
  function Pick(cur: nat, exhausted: seq<bool>, off: nat): (r: Option<nat>)
    requires |exhausted| > 0
    ensures r.Some? ==> r.value < |exhausted| && !exhausted[r.value]
    decreases |exhausted| - off
  {
    if off >= |exhausted| then None
    else if !exhausted[(cur + off) % |exhausted|] then Some((cur + off) % |exhausted|)
    else Pick(cur, exhausted, off + 1)
  }

  function Picked<T>(s: System<T>): (r: Option<nat>)
    ensures r.Some? ==> r.value < |s.exhausted| && !s.exhausted[r.value]
  {
    if |s.exhausted| == 0 then None else Pick(s.cur, s.exhausted, 0)
  }

  predicate Can<T(==)>(s: System<T>, m: Move) {
    match m
    case Pull(i) => i < |s.lanes| && !s.lanes[i].closed && s.lanes[i].hold.None? && s.lanes[i].rest != []
    case Send(i) => i < |s.lanes| && !s.lanes[i].closed && s.lanes[i].hold.Some? && s.lanes[i].chan == []
    case Finish(i) => i < |s.lanes| && !s.lanes[i].closed && s.lanes[i].hold.None? && s.lanes[i].rest == []
    case Quit(i) => i < |s.lanes| && !s.lanes[i].closed && s.lanes[i].hold.Some? && s.closed
    case Drain(i) => i < |s.lanes| && s.closed && s.lanes[i].chan != []
    case Receive => !s.closed && Picked(s).Some? && Picked(s).value < |s.lanes| && s.lanes[Picked(s).value].chan != []
    case Skip => !s.closed && Picked(s).Some? && Picked(s).value < |s.lanes| && s.lanes[Picked(s).value].chan == []
                 && s.lanes[Picked(s).value].closed
    case End => !s.closed && Picked(s).None? && !s.eof
    case Close => !s.closed
  }

  function LaneAfter<T(==)>(l: Lane<T>, m: Move): Lane<T>
    requires (m.Pull? ==> l.rest != []) && (m.Send? ==> l.hold.Some?) && (m.Receive? || m.Drain? ==> l.chan != [])
  {
    match m
    case Pull(_) => l.(hold := Some(l.rest[0]), rest := l.rest[1..])
    case Send(_) => l.(chan := l.chan + [l.hold.value], hold := None)
    case Finish(_) => l.(closed := true, released := l.released + 1)
    case Quit(_) => l.(hold := None, closed := true, released := l.released + 1)
    case Drain(_) => l.(chan := l.chan[1..])
    case Receive => l.(chan := l.chan[1..])
    case _ => l
  }

  function Do<T(==)>(s: System<T>, m: Move): System<T>
    requires Can(s, m)
  {
    match m
    case Receive =>
      var i := Picked(s).value;
      s.(lanes := s.lanes[i := LaneAfter(s.lanes[i], m)], cur := (i + 1) % |s.exhausted|,
         out := s.out + [s.lanes[i].chan[0]])
    case Skip => s.(exhausted := s.exhausted[Picked(s).value := true], cur := Picked(s).value)
    case End => s.(eof := true)
    case Close => s.(closed := true)
    case _ => s.(lanes := s.lanes[m.i := LaneAfter(s.lanes[m.i], m)])
  }

  function Step<T(==)>(s: System<T>, m: Move): Option<System<T>> { if Can(s, m) then Some(Do(s, m)) else None }

  // ---------------------------------------------------------------- the invariant

  function Left<T>(l: Lane<T>): seq<T> { l.chan + (if l.hold.Some? then [l.hold.value] else []) + l.rest }

  /** The lane holds, in order, exactly the frames of its source after the first `taken`. */
  ghost predicate Holds<T>(src: seq<T>, l: Lane<T>, taken: nat) {
    && taken <= |src| && Left(l) == src[taken..]
    && (l.closed ==> l.hold.None? && l.rest == [])
  }

  function Least(a: nat, b: nat): nat { if a < b then a else b }

  /** How many frames of a source of length n have been taken at frame r of source cur. */
  function Taken(n: nat, i: nat, r: nat, cur: nat): nat { Least(n, if i < cur then r + 1 else r) }

  /** The reader has taken everything before frame r of source cur, and nothing else. */
  ghost predicate At<T>(srcs: seq<seq<T>>, s: System<T>, r: nat) {
    && |s.lanes| == |srcs| == |s.exhausted| && (s.cur < |srcs| || (srcs == [] && s.cur == 0))
    && (forall i :: 0 <= i < |srcs| ==> Holds(srcs[i], s.lanes[i], Taken(|srcs[i]|, i, r, s.cur)))
    && (forall i :: 0 <= i < |srcs| && s.exhausted[i] ==> Left(s.lanes[i]) == [] && s.lanes[i].closed)
    && s.out == Before(srcs, r, s.cur)
  }

  ghost predicate Released<T>(s: System<T>) {
    forall i :: 0 <= i < |s.lanes| ==> s.lanes[i].released == if s.lanes[i].closed then 1 else 0
  }

  ghost predicate Inv<T>(srcs: seq<seq<T>>, s: System<T>) {
    && |s.lanes| == |srcs| && Released(s)
    && s.out <= Interleaved(srcs)
    && (!s.closed ==> exists r :: At(srcs, s, r))
    && (s.eof ==> s.out == Interleaved(srcs) && Picked(s).None?)
  }

  // ---------------------------------------------------------------- facts about the order

  lemma {:induction false} RowStops<T>(srcs: seq<seq<T>>, r: nat, p: nat, q: nat)
    requires p <= q <= |srcs| && forall i :: p <= i < q ==> |srcs[i]| <= r
    ensures Row(srcs, r, q) == Row(srcs, r, p)
    decreases q
  {
    if p < q { RowStops(srcs, r, p, q - 1); }
  }

  lemma {:induction false} RowsStop<T>(srcs: seq<seq<T>>, r: nat, k: nat)
    requires r <= k && forall i :: 0 <= i < |srcs| ==> |srcs[i]| <= r
    ensures Rows(srcs, k) == Rows(srcs, r)
    decreases k
  {
    if r < k {
      RowsStop(srcs, r, k - 1);
      RowStops(srcs, k - 1, 0, |srcs|);
    }
  }

  lemma {:induction false} RowPrefix<T>(srcs: seq<seq<T>>, r: nat, p: nat, q: nat)
    requires p <= q <= |srcs|
    ensures Row(srcs, r, p) <= Row(srcs, r, q)
    decreases q
  {
    if p < q { RowPrefix(srcs, r, p, q - 1); }
  }

  lemma {:induction false} RowsPrefix<T>(srcs: seq<seq<T>>, r: nat, k: nat)
    requires r <= k
    ensures Rows(srcs, r) <= Rows(srcs, k)
    decreases k
  {
    if r < k { RowsPrefix(srcs, r, k - 1); }
  }

  /** Every position is a prefix of the whole interleaving. */
  lemma BeforeIsPrefix<T>(srcs: seq<seq<T>>, r: nat, p: nat)
    requires p <= |srcs|
    ensures Before(srcs, r, p) <= Interleaved(srcs)
  {
    var long := Longest(srcs);
    RowPrefix(srcs, r, p, |srcs|);
    assert Before(srcs, r, p) <= Rows(srcs, r + 1);
    if r + 1 <= long { RowsPrefix(srcs, r + 1, long); } else { RowsStop(srcs, long, r + 1); }
  }

  /** Past the end of every source nothing is left to come. */
  lemma BeforeIsAll<T>(srcs: seq<seq<T>>, r: nat, p: nat)
    requires p <= |srcs| && forall i :: 0 <= i < |srcs| ==> |srcs[i]| <= if i < p then r + 1 else r
    ensures Before(srcs, r, p) == Interleaved(srcs)
  {
    RowStops(srcs, r, p, |srcs|);
    assert Before(srcs, r, p) == Rows(srcs, r + 1);
    var long := Longest(srcs);
    if r + 1 <= long { RowsStop(srcs, r + 1, long); } else { RowsStop(srcs, long, r + 1); }
  }

  /** How many frames of the first n sources come before frame r of source p: from each source the frames with a
      smaller index, and those with the same index if the source is listed earlier. */
  function Sooner<T>(srcs: seq<seq<T>>, r: nat, p: nat, n: nat): nat
    requires n <= |srcs|
  {
    if n == 0 then 0 else Sooner(srcs, r, p, n - 1) + Least(|srcs[n - 1]|, if n - 1 < p then r + 1 else r)
  }

  lemma {:induction false} SoonerAtStart<T>(srcs: seq<seq<T>>, n: nat)
    requires n <= |srcs|
    ensures Sooner(srcs, 0, 0, n) == 0
  {
    if n > 0 { SoonerAtStart(srcs, n - 1); }
  }

  lemma {:induction false} SoonerNextRow<T>(srcs: seq<seq<T>>, r: nat, n: nat)
    requires n <= |srcs|
    ensures Sooner(srcs, r, |srcs|, n) == Sooner(srcs, r + 1, 0, n)
  {
    if n > 0 { SoonerNextRow(srcs, r, n - 1); }
  }

  lemma {:induction false} SoonerNextSource<T>(srcs: seq<seq<T>>, r: nat, p: nat, n: nat)
    requires p < |srcs| && n <= |srcs|
    ensures Sooner(srcs, r, p + 1, n) == Sooner(srcs, r, p, n) + if p < n && r < |srcs[p]| then 1 else 0
  {
    if n > 0 { SoonerNextSource(srcs, r, p, n - 1); }
  }

  lemma {:induction false} BeforeCounts<T>(srcs: seq<seq<T>>, r: nat, p: nat)
    requires p <= |srcs|
    ensures |Before(srcs, r, p)| == Sooner(srcs, r, p, |srcs|)
    decreases r, p
  {
    if p > 0 {
      BeforeCounts(srcs, r, p - 1);
      SoonerNextSource(srcs, r, p - 1, |srcs|);
    } else if r > 0 {
      BeforeCounts(srcs, r - 1, |srcs|);
      SoonerNextRow(srcs, r - 1, |srcs|);
    } else {
      SoonerAtStart(srcs, |srcs|);
    }
  }

  /** The promised order, place by place: frame r of source p stands after exactly the frames that come sooner. */
  lemma PlaceInTurn<T>(srcs: seq<seq<T>>, r: nat, p: nat)
    requires p < |srcs| && r < |srcs[p]|
    ensures Sooner(srcs, r, p, |srcs|) < |Interleaved(srcs)|
    ensures Interleaved(srcs)[Sooner(srcs, r, p, |srcs|)] == srcs[p][r]
  {
    hide Interleaved, Sooner;
    BeforeIsPrefix(srcs, r, p + 1);
    BeforeCounts(srcs, r, p);
    assert Before(srcs, r, p + 1) == Before(srcs, r, p) + [srcs[p][r]];
  }

  // ---------------------------------------------------------------- the cursor

  /** Pick scans from the cursor round to the cursor and passes over exhausted sources only. */
  lemma {:induction false} PickScans(cur: nat, exhausted: seq<bool>, off: nat)
    requires cur < |exhausted| && off <= |exhausted|
    requires forall i :: 0 <= i < |exhausted| && Distance(cur, i, |exhausted|) < off ==> exhausted[i]
    ensures var p := Pick(cur, exhausted, off);
            && (p.None? ==> forall i :: 0 <= i < |exhausted| ==> exhausted[i])
            && (p.Some? ==> forall i :: 0 <= i < |exhausted| && Distance(cur, i, |exhausted|) < Distance(cur, p.value, |exhausted|) ==> exhausted[i])
    decreases |exhausted| - off
  {
    if off < |exhausted| {
      DistanceOf(cur, off, |exhausted|);
      if exhausted[(cur + off) % |exhausted|] { PickScans(cur, exhausted, off + 1); }
    }
  }

  function Distance(cur: nat, i: nat, n: nat): int { if i >= cur then i - cur else i + n - cur }

  lemma DistanceOf(cur: nat, off: nat, n: nat)
    requires cur < n && off < n
    ensures Distance(cur, (cur + off) % n, n) == off
    ensures forall i :: 0 <= i < n && Distance(cur, i, n) == off ==> i == (cur + off) % n
  {
    if cur + off < n { assert (cur + off) % n == cur + off; } else { assert (cur + off) % n == cur + off - n; }
  }

  /** Moving the position over sources that have ended skips no frame. */
  lemma SkippedNothing<T>(srcs: seq<seq<T>>, r: nat, cur: nat, p: nat) returns (q: nat)
    requires cur < |srcs| && p < |srcs|
    requires forall i :: 0 <= i < |srcs| && Distance(cur, i, |srcs|) < Distance(cur, p, |srcs|) ==>
               |srcs[i]| <= if i < cur then r + 1 else r
    ensures Before(srcs, q, p) == Before(srcs, r, cur)
    ensures forall i :: 0 <= i < |srcs| ==> Taken(|srcs[i]|, i, q, p) == Taken(|srcs[i]|, i, r, cur)
  {
    if p >= cur {
      q := r;
      RowStops(srcs, r, cur, p);
    } else {
      q := r + 1;
      RowStops(srcs, r, cur, |srcs|);
      RowStops(srcs, r + 1, 0, p);
      assert Before(srcs, r, cur) == Rows(srcs, r + 1);
    }
  }

  /** Passing over exhausted sources changes neither what has been taken nor the position's meaning. */
  lemma Advance<T>(srcs: seq<seq<T>>, s: System<T>, r: nat, p: nat) returns (q: nat)
    requires At(srcs, s, r) && Picked(s) == Some(p)
    ensures At(srcs, s.(cur := p), q)
  {
    hide Before, Pick;
    PickScans(s.cur, s.exhausted, 0);
    forall i | 0 <= i < |srcs| && s.exhausted[i] ensures |srcs[i]| <= if i < s.cur then r + 1 else r {
      assert Holds(srcs[i], s.lanes[i], Taken(|srcs[i]|, i, r, s.cur));
    }
    q := SkippedNothing(srcs, r, s.cur, p);
  }

  // ---------------------------------------------------------------- every move keeps the invariant

  lemma PullerKeeps<T>(src: seq<T>, l: Lane<T>, m: Move, taken: nat)
    requires Holds(src, l, taken) && (m.Pull? || m.Send? || m.Finish?)
    requires !l.closed && (m.Pull? ==> l.hold.None? && l.rest != []) && (m.Send? ==> l.hold.Some? && l.chan == [])
    requires m.Finish? ==> l.hold.None? && l.rest == []
    ensures Holds(src, LaneAfter(l, m), taken)
  {
    if m.Pull? { assert [l.rest[0]] + l.rest[1..] == l.rest; }
    assert Left(LaneAfter(l, m)) == Left(l);
  }

  lemma PullerMove<T>(srcs: seq<seq<T>>, s: System<T>, m: Move, r: nat)
    requires At(srcs, s, r) && !s.closed && Can(s, m) && (m.Pull? || m.Send? || m.Finish?)
    ensures At(srcs, Do(s, m), r)
  {
    hide Before;
    PullerKeeps(srcs[m.i], s.lanes[m.i], m, Taken(|srcs[m.i]|, m.i, r, s.cur));
    assert !s.exhausted[m.i];
  }

  lemma HeadIsNext<T>(src: seq<T>, l: Lane<T>, taken: nat)
    requires Holds(src, l, taken) && l.chan != []
    ensures taken < |src| && l.chan[0] == src[taken] && Holds(src, l.(chan := l.chan[1..]), taken + 1)
  {
    assert Left(l)[0] == l.chan[0];
    assert Left(l.(chan := l.chan[1..])) == Left(l)[1..] == src[taken + 1..];
  }

  lemma FrameNext<T>(srcs: seq<seq<T>>, r: nat, p: nat)
    requires p < |srcs| && r < |srcs[p]|
    ensures Before(srcs, r, p + 1) == Before(srcs, r, p) + [srcs[p][r]]
  {
    assert Row(srcs, r, p + 1) == Row(srcs, r, p) + [srcs[p][r]];
  }

  lemma RoundNext<T>(srcs: seq<seq<T>>, r: nat)
    ensures Before(srcs, r, |srcs|) == Before(srcs, r + 1, 0)
  {
  }

  lemma PositionNext<T>(srcs: seq<seq<T>>, r: nat, p: nat) returns (q: nat)
    requires p < |srcs| && r < |srcs[p]|
    ensures q == if p + 1 < |srcs| then r else r + 1
    ensures Before(srcs, q, (p + 1) % |srcs|) == Before(srcs, r, p) + [srcs[p][r]]
  {
    hide Before;
    q := if p + 1 < |srcs| then r else r + 1;
    FrameNext(srcs, r, p);
    RoundNext(srcs, r);
    assert (p + 1) % |srcs| == if p + 1 < |srcs| then p + 1 else 0;
  }

  /** The frame received at frame r of source cur is that frame. */
  lemma TakeOne<T>(srcs: seq<seq<T>>, s: System<T>, r: nat) returns (q: nat)
    requires At(srcs, s, r) && s.cur < |srcs| && !s.exhausted[s.cur] && s.lanes[s.cur].chan != []
    ensures var l := s.lanes[s.cur];
            At(srcs, s.(lanes := s.lanes[s.cur := l.(chan := l.chan[1..])], cur := (s.cur + 1) % |srcs|, out := s.out + [l.chan[0]]), q)
  {
    hide Before, Holds, Left;
    HeadIsNext(srcs[s.cur], s.lanes[s.cur], Taken(|srcs[s.cur]|, s.cur, r, s.cur));
    q := PositionNext(srcs, r, s.cur);
    TakenNext(srcs, r, s.cur);
  }

  lemma TakenNext<T>(srcs: seq<seq<T>>, r: nat, p: nat)
    requires p < |srcs| && r < |srcs[p]|
    ensures var q := if p + 1 < |srcs| then r else r + 1;
            forall i :: 0 <= i < |srcs| ==>
              Taken(|srcs[i]|, i, q, (p + 1) % |srcs|) == if i == p then r + 1 else Taken(|srcs[i]|, i, r, p)
  {
  }

  lemma ReaderMove<T>(srcs: seq<seq<T>>, s: System<T>, m: Move, r: nat) returns (q: nat)
    requires At(srcs, s, r) && Can(s, m) && (m.Receive? || m.Skip?)
    ensures At(srcs, Do(s, m), q)
  {
    hide Before;
    var p := Picked(s).value;
    q := Advance(srcs, s, r, p);
    if m.Receive? {
      q := TakeOne(srcs, s.(cur := p), q);
    } else {
      assert Holds(srcs[p], s.lanes[p], Taken(|srcs[p]|, p, q, p));
    }
  }

  /** io.EOF is only reported once every frame of every source has been returned. */
  lemma EofMeansAll<T>(srcs: seq<seq<T>>, s: System<T>, r: nat)
    requires At(srcs, s, r) && Picked(s).None?
    ensures s.out == Interleaved(srcs)
  {
    hide Before;
    if srcs != [] { PickScans(s.cur, s.exhausted, 0); }
    forall i | 0 <= i < |srcs| ensures |srcs[i]| <= if i < s.cur then r + 1 else r {
      assert Holds(srcs[i], s.lanes[i], Taken(|srcs[i]|, i, r, s.cur));
    }
    BeforeIsAll(srcs, r, s.cur);
  }

  lemma ReleasedKept<T>(s: System<T>, m: Move)
    requires Released(s) && Can(s, m)
    ensures Released(Do(s, m)) && |Do(s, m).lanes| == |s.lanes|
  {
  }

  lemma InvKept<T>(srcs: seq<seq<T>>, s: System<T>, m: Move)
    requires Inv(srcs, s) && Can(s, m)
    ensures Inv(srcs, Do(s, m))
  {
    hide At, Released, Interleaved, Before;
    ReleasedKept(s, m);
    var t := Do(s, m);
    if !s.closed {
      var r: nat :| At(srcs, s, r);
      var q := r;
      if m.Receive? || m.Skip? {
        q := ReaderMove(srcs, s, m, r);
      } else if m.End? {
        EofMeansAll(srcs, s, r);
        EofAt(srcs, s, r);
      } else if !m.Close? {
        PullerMove(srcs, s, m, r);
      }
      if !m.Close? {
        AtOut(srcs, t, q);
        assert At(srcs, t, q);
      }
    }
  }

  lemma EofAt<T>(srcs: seq<seq<T>>, s: System<T>, r: nat)
    requires At(srcs, s, r)
    ensures At(srcs, s.(eof := true), r)
  {
  }

  lemma AtOut<T>(srcs: seq<seq<T>>, s: System<T>, r: nat)
    requires At(srcs, s, r)
    ensures s.out <= Interleaved(srcs)
  {
    BeforeIsPrefix(srcs, r, s.cur);
  }

  lemma InitHolds<T>(srcs: seq<seq<T>>)
    ensures Inv(srcs, Init(srcs))
  {
    forall i | 0 <= i < |srcs| ensures Holds(srcs[i], Init(srcs).lanes[i], Taken(|srcs[i]|, i, 0, 0)) {
      assert Left(Init(srcs).lanes[i]) == srcs[i];
    }
    assert At(srcs, Init(srcs), 0);
  }

  /** In every reachable state the reader has returned a prefix of the promised order, the whole of it
      before io.EOF, and each source has been closed exactly when its puller has exited. */
  lemma ReachableInv<T(!new)>(srcs: seq<seq<T>>, moves: seq<Move>, t: System<T>)
    requires Runs(Step, Init(srcs), moves, t)
    ensures Inv(srcs, t)
  {
    hide Inv, Can, Do;
    InitHolds(srcs);
    forall s: System<T>, m | Inv(srcs, s) && Step(s, m).Some?
      ensures Inv(srcs, Step(s, m).value)
    {
      InvKept(srcs, s, m);
    }
    RunKeeps(Step, s => Inv(srcs, s), Init(srcs), moves, t);
  }

  // ---------------------------------------------------------------- every run ends, and ends complete

  function LaneWork<T>(l: Lane<T>): nat { 3 * |l.rest| + (if l.hold.Some? then 2 else 0) + |l.chan| + if l.closed then 0 else 1 }

  function LanesWork<T>(lanes: seq<Lane<T>>): nat { if lanes == [] then 0 else LaneWork(lanes[0]) + LanesWork(lanes[1..]) }

  function Live(exhausted: seq<bool>): nat { if exhausted == [] then 0 else (if exhausted[0] then 0 else 1) + Live(exhausted[1..]) }

  function Work<T>(s: System<T>): nat {
    LanesWork(s.lanes) + Live(s.exhausted) + (if s.eof then 0 else 1) + if s.closed then 0 else 1
  }

  lemma {:induction false} LanesWorkAt<T>(lanes: seq<Lane<T>>, i: nat, l: Lane<T>)
    requires i < |lanes|
    ensures LanesWork(lanes[i := l]) == LanesWork(lanes) - LaneWork(lanes[i]) + LaneWork(l)
  {
    if i == 0 {
      assert lanes[0 := l][1..] == lanes[1..];
    } else {
      assert lanes[i := l][1..] == lanes[1..][i - 1 := l];
      LanesWorkAt(lanes[1..], i - 1, l);
    }
  }

  lemma {:induction false} LiveAt(exhausted: seq<bool>, i: nat)
    requires i < |exhausted| && !exhausted[i]
    ensures Live(exhausted[i := true]) == Live(exhausted) - 1
  {
    if i == 0 {
      assert exhausted[0 := true][1..] == exhausted[1..];
    } else {
      assert exhausted[i := true][1..] == exhausted[1..][i - 1 := true];
      LiveAt(exhausted[1..], i - 1);
    }
  }

  /** Every move of every goroutine uses up some of a finite amount of work. */
  lemma MoveWorks<T>(s: System<T>, m: Move)
    requires Can(s, m)
    ensures Work(Do(s, m)) < Work(s)
  {
    match m
    case Receive => LanesWorkAt(s.lanes, Picked(s).value, LaneAfter(s.lanes[Picked(s).value], m));
    case Skip => LiveAt(s.exhausted, Picked(s).value);
    case End =>
    case Close =>
    case _ => LanesWorkAt(s.lanes, m.i, LaneAfter(s.lanes[m.i], m));
  }

  lemma RunsEnd<T(!new)>(s: System<T>, moves: seq<Move>, t: System<T>)
    requires Runs(Step, s, moves, t)
    ensures Work(t) + |moves| <= Work(s)
  {
    hide Work, Can, Do;
    forall s: System<T>, m | Step(s, m).Some? ensures Work(Step(s, m).value) < Work(s) { MoveWorks(s, m); }
    RunIsBounded(Step, Work, s, moves, t);
  }

  ghost predicate Stuck<T(!new)>(s: System<T>) { forall m :: Can(s, m) ==> m.Close? }

  /** A reader that is neither closed nor at io.EOF always has a goroutine that can move. */
  lemma NeverWaitsForever<T(!new)>(s: System<T>)
    requires !s.closed && !s.eof && |s.lanes| == |s.exhausted|
    ensures !Stuck(s)
  {
    match Picked(s)
    case None => assert Can(s, End);
    case Some(i) =>
      var l := s.lanes[i];
      if l.chan != [] { assert Can(s, Receive); }
      else if l.closed { assert Can(s, Skip); }
      else if l.hold.Some? { assert Can(s, Send(i)); }
      else if l.rest != [] { assert Can(s, Pull(i)); }
      else { assert Can(s, Finish(i)); }
  }

  lemma StuckMeans<T(!new)>(s: System<T>, m: Move)
    requires Stuck(s) && !m.Close?
    ensures !Can(s, m)
  {
  }

  lemma StuckIsReleased<T(!new)>(srcs: seq<seq<T>>, s: System<T>, i: nat)
    requires Stuck(s) && Inv(srcs, s) && i < |s.lanes|
    ensures s.lanes[i].closed && s.lanes[i].released == 1
  {
    hide Picked, Interleaved, At, Stuck;
    StuckMeans(s, Pull(i));
    StuckMeans(s, Finish(i));
    StuckMeans(s, Drain(i));
    StuckMeans(s, Quit(i));
    if !s.closed {
      var r: nat :| At(srcs, s, r);
      AllExhausted(srcs, s, r, i);
    }
  }

  lemma AllExhausted<T(!new)>(srcs: seq<seq<T>>, s: System<T>, r: nat, i: nat)
    requires Stuck(s) && !s.closed && At(srcs, s, r) && i < |srcs| && (s.eof ==> Picked(s).None?)
    ensures s.lanes[i].closed
  {
    hide Before, Stuck;
    if !s.eof { NeverWaitsForever(s); }
    PickScans(s.cur, s.exhausted, 0);
    assert s.exhausted[i];
  }

  /** The order is free of the schedule: however the goroutines interleave, a run takes boundedly many
      moves, and when nobody can move any more an open reader has returned exactly the promised order, and
      every source has been closed exactly once. */
  lemma ScheduleFree<T(!new)>(srcs: seq<seq<T>>, moves: seq<Move>, t: System<T>)
    requires Runs(Step, Init(srcs), moves, t)
    ensures |moves| <= Work(Init(srcs)) && |t.lanes| == |srcs| && t.out <= Interleaved(srcs)
    ensures t.eof ==> t.out == Interleaved(srcs)
    ensures Stuck(t) && !t.closed ==> t.eof && t.out == Interleaved(srcs)
    ensures Stuck(t) ==> forall i :: 0 <= i < |srcs| ==> t.lanes[i].closed && t.lanes[i].released == 1
  {
    hide Can, Do, Work, Interleaved, Picked;
    ReachableInv(srcs, moves, t);
    RunsEnd(Init(srcs), moves, t);
    if Stuck(t) {
      if !t.closed && !t.eof {
        var r: nat :| At(srcs, t, r);
        NeverWaitsForever(t);
      }
      forall i | 0 <= i < |srcs| ensures t.lanes[i].closed && t.lanes[i].released == 1 { StuckIsReleased(srcs, t, i); }
    }
  }

  /** After Close a puller is let go by its own moves alone, at most two of them: it never waits for its channel to be
      read, and its source is closed. */
  lemma CloseFrees<T(!new)>(srcs: seq<seq<T>>, moves: seq<Move>, t: System<T>, i: nat) returns (own: seq<Move>, u: System<T>)
    requires Runs(Step, Init(srcs), moves, t) && t.closed && i < |srcs|
    ensures |own| <= 2 && forall m :: m in own ==> m == Pull(i) || m == Quit(i) || m == Finish(i)
    ensures Runs(Step, t, own, u) && |u.lanes| == |srcs| && u.lanes[i].closed && u.lanes[i].released == 1
  {
    hide Work, Picked;
    ReachableInv(srcs, moves, t);
    own, u := [], t;
    var l := t.lanes[i];
    if !l.closed && l.hold.None? && l.rest != [] {
      u := Do(u, Pull(i));
      own := [Pull(i)];
      assert own[1..] == [] && Step(t, Pull(i)) == Some(u);
    }
    if !l.closed {
      var last := if u.lanes[i].hold.Some? then Quit(i) else Finish(i);
      RunsThen(Step, t, own, u, last);
      own, u := own + [last], Do(u, last);
    }
  }
}
