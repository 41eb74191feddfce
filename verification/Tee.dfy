/** Copy (v2/flow/graph/combinators.go): one broadcaster pulls the source and hands every frame to n consumers
    through channels of capacity one. A source is the list of its frames, the last one terminal. */
module Tee {
  import opened Prelude
  import opened Transitions

  /** A copyItem: a value, or the terminal error (io.EOF among them). */
  datatype Item<T> = Value(v: T) | Terminal(error: string)

  ghost predicate IsSource<T>(src: seq<Item<T>>) {
    src != [] && src[|src| - 1].Terminal? && forall k :: 0 <= k < |src| - 1 ==> src[k].Value?
  }

  /** `got` is what Next has returned so far; `done` and `closed` are the reader's flags. */
  datatype Consumer<T> = Consumer(chan: seq<Item<T>>, got: seq<Item<T>>, done: bool, closed: bool)

  /** Where the broadcaster is: about to pull, sending a frame to consumer `next`, or on its way out, which
      first releases the source and then closes the channels. */
  datatype Phase<T> = Idle | Sending(item: Item<T>, next: nat) | Leaving | SourceClosed | Gone

  datatype System<T> = System(rest: seq<Item<T>>, phase: Phase<T>, consumers: seq<Consumer<T>>, remaining: nat,
                              cancelled: bool, released: nat)

  function Init<T>(src: seq<Item<T>>, n: nat): System<T> {
    System(src, Idle, seq(n, _ => Consumer([], [], false, false)), n, false, 0)
  }

  datatype Move = Pull | Send | Abort | Release | Shut | Receive(i: nat) | EndOfChannel(i: nat) | Close(i: nat) | Drain(i: nat)

  predicate Can<T(==)>(s: System<T>, m: Move) {
    match m
    case Pull => s.phase.Idle? && s.rest != []
    case Send => s.phase.Sending? && s.phase.next < |s.consumers| && s.consumers[s.phase.next].chan == []
    case Abort => s.phase.Sending? && s.cancelled
    case Release => s.phase.Leaving?
    case Shut => s.phase.SourceClosed?
    case Receive(i) => i < |s.consumers| && !s.consumers[i].closed && !s.consumers[i].done && s.consumers[i].chan != []
    case EndOfChannel(i) => i < |s.consumers| && !s.consumers[i].closed && !s.consumers[i].done && s.consumers[i].chan == [] && s.phase.Gone?
    case Close(i) => i < |s.consumers| && !s.consumers[i].closed
    case Drain(i) => i < |s.consumers| && s.consumers[i].closed && s.consumers[i].chan != []
  }

  function ConsumerAfter<T(==)>(c: Consumer<T>, m: Move, phase: Phase<T>): Consumer<T>
    requires (m.Receive? || m.Drain? ==> c.chan != []) && (m.Send? ==> phase.Sending?)
  {
    match m
    case Send => c.(chan := c.chan + [phase.item])
    case Receive(_) => c.(chan := c.chan[1..], got := c.got + [c.chan[0]], done := c.chan[0].Terminal?)
    case EndOfChannel(_) => c.(done := true)
    case Close(_) => c.(closed := true)
    case Drain(_) => c.(chan := c.chan[1..])
    case _ => c
  }

  function Do<T(==)>(s: System<T>, m: Move): System<T>
    requires Can(s, m)
  {
    match m
    case Pull => s.(phase := Sending(s.rest[0], 0), rest := s.rest[1..])
    case Send =>
      var j, item := s.phase.next, s.phase.item;
      s.(consumers := s.consumers[j := ConsumerAfter(s.consumers[j], m, s.phase)],
         phase := if j + 1 < |s.consumers| then Sending(item, j + 1) else if item.Terminal? then Leaving else Idle)
    case Abort => s.(phase := Leaving)
    case Release => s.(phase := SourceClosed, released := s.released + 1)
    case Shut => s.(phase := Gone)
    case Close(i) =>
      var left := if s.remaining > 0 then s.remaining - 1 else 0;
      s.(consumers := s.consumers[i := ConsumerAfter(s.consumers[i], m, s.phase)], remaining := left,
         cancelled := s.cancelled || left == 0)
    case _ => s.(consumers := s.consumers[m.i := ConsumerAfter(s.consumers[m.i], m, s.phase)])
  }

  function Step<T(==)>(s: System<T>, m: Move): Option<System<T>> { if Can(s, m) then Some(Do(s, m)) else None }

  // ---------------------------------------------------------------- the invariant

  function Open<T>(cs: seq<Consumer<T>>): nat { if cs == [] then 0 else (if cs[0].closed then 0 else 1) + Open(cs[1..]) }

  lemma {:induction false} OpenAt<T>(cs: seq<Consumer<T>>, i: nat, c: Consumer<T>)
    requires i < |cs|
    ensures Open(cs[i := c]) == Open(cs) - (if cs[i].closed then 0 else 1) + if c.closed then 0 else 1
  {
    if i == 0 {
      assert cs[0 := c][1..] == cs[1..];
    } else {
      assert cs[i := c][1..] == cs[1..][i - 1 := c];
      OpenAt(cs[1..], i - 1, c);
    }
  }

  function Pulled<T>(src: seq<Item<T>>, s: System<T>): int { |src| - |s.rest| }

  /** How many frames the broadcaster has put into consumer i's channel. */
  function Sent<T>(src: seq<Item<T>>, s: System<T>, i: nat): int {
    match s.phase
    case Sending(_, next) => if i < next then Pulled(src, s) else Pulled(src, s) - 1
    case _ => Pulled(src, s)
  }

  ghost predicate BroadcasterOk<T>(src: seq<Item<T>>, s: System<T>) {
    && |s.rest| <= |src| && s.rest == src[Pulled(src, s)..]
    && (s.phase.Idle? ==> s.rest != [])
    && (s.phase.Sending? ==> Pulled(src, s) > 0 && s.phase.item == src[Pulled(src, s) - 1] && s.phase.next < |s.consumers|)
    && (s.phase.Leaving? || s.phase.SourceClosed? || s.phase.Gone? ==> s.cancelled || s.rest == [])
    && s.released == if s.phase.SourceClosed? || s.phase.Gone? then 1 else 0
  }

  /** An open consumer has received, or has waiting, exactly the frames sent to it; a closed one keeps what
      it had received. */
  ghost predicate ConsumerOk<T>(src: seq<Item<T>>, s: System<T>, i: nat)
    requires i < |s.consumers|
  {
    var c := s.consumers[i];
    && |c.chan| <= 1 && c.got <= src
    && (!c.closed ==> && 0 <= Sent(src, s, i) <= |src| && c.got + c.chan == src[..Sent(src, s, i)]
                      && (c.done <==> c.got == src))
  }

  ghost predicate Inv<T>(src: seq<Item<T>>, s: System<T>) {
    && BroadcasterOk(src, s)
    && s.remaining == Open(s.consumers) && (s.cancelled <==> s.remaining == 0)
    && forall i :: 0 <= i < |s.consumers| ==> ConsumerOk(src, s, i)
  }

  lemma {:induction false} NoneOpen<T>(cs: seq<Consumer<T>>, i: nat)
    requires Open(cs) == 0 && i < |cs|
    ensures cs[i].closed
  {
    if i > 0 { NoneOpen(cs[1..], i - 1); }
  }

  lemma BroadcasterKept<T>(src: seq<Item<T>>, s: System<T>, m: Move)
    requires IsSource(src) && BroadcasterOk(src, s) && Can(s, m) && |s.consumers| > 0
    ensures BroadcasterOk(src, Do(s, m)) && |Do(s, m).consumers| == |s.consumers|
  {
    if m.Pull? { assert src[Pulled(src, s)..][1..] == src[Pulled(src, s) + 1..]; }
  }

  lemma CountKept<T>(s: System<T>, m: Move)
    requires Can(s, m) && s.remaining == Open(s.consumers) && (s.cancelled <==> s.remaining == 0)
    ensures Do(s, m).remaining == Open(Do(s, m).consumers) && (Do(s, m).cancelled <==> Do(s, m).remaining == 0)
  {
    match m
    case Pull =>
    case Abort =>
    case Release =>
    case Shut =>
    case Send => OpenAt(s.consumers, s.phase.next, ConsumerAfter(s.consumers[s.phase.next], m, s.phase));
    case _ =>
      OpenAt(s.consumers, m.i, ConsumerAfter(s.consumers[m.i], m, s.phase));
  }

  /** Moves that leave a consumer and the number of frames sent to it alone. */
  lemma Unaffected<T>(src: seq<Item<T>>, s: System<T>, t: System<T>, i: nat)
    requires i < |s.consumers| == |t.consumers| && ConsumerOk(src, s, i) && t.consumers[i] == s.consumers[i]
    requires !s.consumers[i].closed ==> Sent(src, t, i) == Sent(src, s, i)
    ensures ConsumerOk(src, t, i)
  {
  }

  lemma ReceiveKept<T>(src: seq<Item<T>>, s: System<T>, i: nat)
    requires IsSource(src) && i < |s.consumers| && ConsumerOk(src, s, i) && Can(s, Receive(i))
    ensures ConsumerOk(src, Do(s, Receive(i)), i)
  {
    var c, t := s.consumers[i], Do(s, Receive(i));
    var d := t.consumers[i];
    assert c.chan == [c.chan[0]] && d.chan == [];
    assert d.got == c.got + c.chan == src[..Sent(src, s, i)];
    assert c.chan[0] == src[Sent(src, s, i) - 1];
    assert Sent(src, t, i) == Sent(src, s, i);
  }

  lemma SendKept<T>(src: seq<Item<T>>, s: System<T>, i: nat)
    requires IsSource(src) && BroadcasterOk(src, s) && i < |s.consumers| && ConsumerOk(src, s, i) && Can(s, Send)
    ensures ConsumerOk(src, Do(s, Send), i)
  {
    var t, p := Do(s, Send), Pulled(src, s);
    if i == s.phase.next {
      assert Sent(src, s, i) == p - 1 && Sent(src, t, i) == p;
      if !s.consumers[i].closed {
        assert src[..p] == src[..p - 1] + [src[p - 1]];
      }
    } else {
      assert Sent(src, t, i) == Sent(src, s, i);
    }
  }

  /** Once the broadcaster has gone, an open consumer with nothing waiting has had every frame. */
  lemma GoneIsComplete<T>(src: seq<Item<T>>, s: System<T>, i: nat)
    requires Inv(src, s) && i < |s.consumers| && !s.consumers[i].closed && s.phase.Gone? && s.consumers[i].chan == []
    ensures s.consumers[i].got == src && s.consumers[i].done
  {
    assert ConsumerOk(src, s, i);
    assert !s.cancelled by { if s.cancelled { NoneOpen(s.consumers, i); } }
    assert s.consumers[i].got + [] == s.consumers[i].got && src[..|src|] == src;
  }

  /** The channel never ends on an open consumer that has not had the terminal frame. */
  lemma NoEarlyEof<T>(src: seq<Item<T>>, s: System<T>, i: nat)
    requires Inv(src, s)
    ensures !Can(s, EndOfChannel(i))
  {
    if i < |s.consumers| && !s.consumers[i].closed && s.phase.Gone? && s.consumers[i].chan == [] { GoneIsComplete(src, s, i); }
  }

  lemma ConsumerKept<T>(src: seq<Item<T>>, s: System<T>, m: Move, i: nat)
    requires IsSource(src) && Inv(src, s) && Can(s, m) && i < |s.consumers|
    ensures |Do(s, m).consumers| == |s.consumers| && ConsumerOk(src, Do(s, m), i)
  {
    hide Open, IsSource;
    assert ConsumerOk(src, s, i);
    match m
    case Send => SendKept(src, s, i);
    case Receive(k) => if k == i { ReceiveKept(src, s, i); } else { Unaffected(src, s, Do(s, m), i); }
    case EndOfChannel(k) => NoEarlyEof(src, s, k);
    case Abort => if !s.consumers[i].closed { NoneOpen(s.consumers, i); } else { Unaffected(src, s, Do(s, m), i); }
    case Close(k) =>
    case Drain(k) =>
    case _ => Unaffected(src, s, Do(s, m), i);
  }

  lemma InvKept<T>(src: seq<Item<T>>, s: System<T>, m: Move)
    requires IsSource(src) && Inv(src, s) && |s.consumers| > 0 && Can(s, m)
    ensures Inv(src, Do(s, m)) && |Do(s, m).consumers| == |s.consumers|
  {
    hide IsSource, BroadcasterOk, ConsumerOk, Can, Do, Open;
    BroadcasterKept(src, s, m);
    CountKept(s, m);
    forall i | 0 <= i < |s.consumers| ensures |Do(s, m).consumers| == |s.consumers| && ConsumerOk(src, Do(s, m), i) {
      ConsumerKept(src, s, m, i);
    }
  }

  lemma {:induction false} AllOpen<T>(cs: seq<Consumer<T>>)
    requires forall i :: 0 <= i < |cs| ==> !cs[i].closed
    ensures Open(cs) == |cs|
  {
    if cs != [] { AllOpen(cs[1..]); }
  }

  lemma InitHolds<T>(src: seq<Item<T>>, n: nat)
    requires IsSource(src) && n > 0
    ensures Inv(src, Init(src, n))
  {
    AllOpen(Init(src, n).consumers);
  }

  lemma ReachableInv<T(!new)>(src: seq<Item<T>>, n: nat, moves: seq<Move>, t: System<T>)
    requires IsSource(src) && n > 0 && Runs(Step, Init(src, n), moves, t)
    ensures Inv(src, t) && |t.consumers| == n
  {
    hide IsSource, Inv, Can, Do;
    InitHolds(src, n);
    forall s: System<T>, m | Inv(src, s) && |s.consumers| == n && Step(s, m).Some?
      ensures Inv(src, Step(s, m).value) && |Step(s, m).value.consumers| == n
    {
      InvKept(src, s, m);
    }
    RunKeeps(Step, s => Inv(src, s) && |s.consumers| == n, Init(src, n), moves, t);
  }

  // ---------------------------------------------------------------- what consumers can rely on

  /** In every reachable state: what an open consumer has received or has waiting is a prefix of the source,
      at most two frames short of what was pulled; two open consumers are at most two frames apart; an open
      consumer is told io.EOF only after the terminal frame; and the source is closed at most once. */
  lemma TeeIsFair<T(!new)>(src: seq<Item<T>>, n: nat, moves: seq<Move>, t: System<T>, i: nat, k: nat)
    requires IsSource(src) && n > 0 && Runs(Step, Init(src, n), moves, t) && i < n && k < n
    ensures |t.consumers| == n && t.released <= 1 && t.consumers[i].got <= src
    ensures var c := t.consumers[i];
            !c.closed ==> c.got + c.chan <= src && Pulled(src, t) - 2 <= |c.got| <= Pulled(src, t) && (c.done ==> c.got == src)
    ensures !t.consumers[i].closed && !t.consumers[k].closed ==> |t.consumers[i].got| - |t.consumers[k].got| <= 2
    ensures !Can(t, EndOfChannel(i))
  {
    hide IsSource, Can, Do, Runs;
    ReachableInv(src, n, moves, t);
    NoEarlyEof(src, t, i);
    Behind(src, t, i);
    Behind(src, t, k);
  }

  lemma Behind<T>(src: seq<Item<T>>, s: System<T>, i: nat)
    requires Inv(src, s) && i < |s.consumers|
    ensures var c := s.consumers[i];
            c.got <= src && (!c.closed ==> && c.got + c.chan <= src && (c.done ==> c.got == src)
                                           && Pulled(src, s) - 2 <= |c.got| <= Pulled(src, s))
  {
    assert ConsumerOk(src, s, i);
    var c := s.consumers[i];
    if !c.closed { assert |c.got + c.chan| == Sent(src, s, i); }
  }

  predicate OfBroadcaster(m: Move) { m.Pull? || m.Send? || m.Abort? || m.Release? || m.Shut? }

  /** A consumer that waits while the broadcaster cannot move waits for an open sibling that has not read the
      frame it was sent, or for a closed one whose drain has yet to take it. */
  lemma WaitsForASibling<T(!new)>(src: seq<Item<T>>, s: System<T>, i: nat)
    requires IsSource(src) && Inv(src, s) && i < |s.consumers|
    requires !s.consumers[i].closed && !s.consumers[i].done && s.consumers[i].chan == []
    requires forall m :: OfBroadcaster(m) ==> !Can(s, m)
    ensures s.phase.Sending? && s.phase.next != i && s.consumers[s.phase.next].chan != []
    ensures Can(s, Receive(s.phase.next)) || Can(s, Drain(s.phase.next))
  {
    assert OfBroadcaster(Pull) && OfBroadcaster(Send) && OfBroadcaster(Release) && OfBroadcaster(Shut);
    if s.phase.Gone? { GoneIsComplete(src, s, i); }
    assert ConsumerOk(src, s, s.phase.next);
    if !s.consumers[s.phase.next].closed { FullIsNotDone(src, s, s.phase.next); }
  }

  lemma FullIsNotDone<T>(src: seq<Item<T>>, s: System<T>, i: nat)
    requires Inv(src, s) && i < |s.consumers| && !s.consumers[i].closed && s.consumers[i].chan != []
    ensures !s.consumers[i].done
  {
    assert ConsumerOk(src, s, i);
    assert |s.consumers[i].got + s.consumers[i].chan| <= |src|;
  }

  // ---------------------------------------------------------------- every run ends, and ends complete

  function ConsumerWork<T>(c: Consumer<T>): nat { |c.chan| + (if c.done then 0 else 1) + if c.closed then 0 else 1 }

  function ConsumersWork<T>(cs: seq<Consumer<T>>): nat { if cs == [] then 0 else ConsumerWork(cs[0]) + ConsumersWork(cs[1..]) }

  function PhaseWork<T>(phase: Phase<T>, n: nat): nat {
    match phase
    case Idle => 3
    case Sending(_, next) => if next <= n then 3 + 2 * (n - next) else 3
    case Leaving => 2
    case SourceClosed => 1
    case Gone => 0
  }

  function Work<T>(s: System<T>): nat {
    (2 * |s.consumers| + 1) * |s.rest| + PhaseWork(s.phase, |s.consumers|) + ConsumersWork(s.consumers)
  }

  lemma {:induction false} ConsumersWorkAt<T>(cs: seq<Consumer<T>>, i: nat, c: Consumer<T>)
    requires i < |cs|
    ensures ConsumersWork(cs[i := c]) == ConsumersWork(cs) - ConsumerWork(cs[i]) + ConsumerWork(c)
  {
    if i == 0 {
      assert cs[0 := c][1..] == cs[1..];
    } else {
      assert cs[i := c][1..] == cs[1..][i - 1 := c];
      ConsumersWorkAt(cs[1..], i - 1, c);
    }
  }

  lemma PullWorks<T>(s: System<T>)
    requires Can(s, Pull)
    ensures Work(Do(s, Pull)) < Work(s)
  {
    hide ConsumersWork;
    var n, r := 2 * |s.consumers| + 1, |s.rest|;
    assert n * (r - 1) == n * r - n;
  }

  /** A move at consumer i takes a frame out of its channel, ends it or closes it. */
  lemma ConsumerMoveWorks<T>(s: System<T>, m: Move)
    requires Can(s, m) && (m.Receive? || m.EndOfChannel? || m.Close? || m.Drain?)
    ensures Work(Do(s, m)) < Work(s)
  {
    hide ConsumersWork, PhaseWork;
    ConsumersWorkAt(s.consumers, m.i, ConsumerAfter(s.consumers[m.i], m, s.phase));
  }

  lemma SendWorks<T>(s: System<T>)
    requires Can(s, Send)
    ensures Work(Do(s, Send)) < Work(s)
  {
    hide ConsumersWork;
    ConsumersWorkAt(s.consumers, s.phase.next, ConsumerAfter(s.consumers[s.phase.next], Send, s.phase));
  }

  lemma MoveWorks<T>(s: System<T>, m: Move)
    requires Can(s, m)
    ensures Work(Do(s, m)) < Work(s)
  {
    match m
    case Pull => PullWorks(s);
    case Send => SendWorks(s);
    case Abort =>
    case Release =>
    case Shut =>
    case _ => ConsumerMoveWorks(s, m);
  }

  lemma RunsEnd<T(!new)>(s: System<T>, moves: seq<Move>, t: System<T>)
    requires Runs(Step, s, moves, t)
    ensures Work(t) + |moves| <= Work(s)
  {
    hide Work, Can, Do;
    forall s: System<T>, m | Step(s, m).Some? ensures Work(Step(s, m).value) < Work(s) { MoveWorks(s, m); }
    RunIsBounded(Step, Work, s, moves, t);
  }

  ghost predicate Stuck<T(!new)>(s: System<T>) { forall m :: Can(s, m) ==> m.Close? }

  lemma StuckMeans<T(!new)>(s: System<T>, m: Move)
    requires Stuck(s) && !m.Close?
    ensures !Can(s, m)
  {
  }

  lemma StuckIsGone<T(!new)>(src: seq<Item<T>>, s: System<T>)
    requires IsSource(src) && Inv(src, s) && Stuck(s)
    ensures s.phase.Gone? && s.released == 1
  {
    hide Stuck, IsSource;
    StuckMeans(s, Pull);
    StuckMeans(s, Send);
    StuckMeans(s, Release);
    StuckMeans(s, Shut);
    if s.phase.Sending? {
      var j := s.phase.next;
      StuckMeans(s, Receive(j));
      StuckMeans(s, Drain(j));
      if !s.consumers[j].closed && s.consumers[j].chan != [] { FullIsNotDone(src, s, j); }
    }
  }

  /** Every run takes boundedly many moves; when nobody can move any more (consumers keep reading or close)
      every open consumer has had the whole source, terminal frame last, and the source has been closed
      exactly once. */
  lemma TeeDelivers<T(!new)>(src: seq<Item<T>>, n: nat, moves: seq<Move>, t: System<T>)
    requires IsSource(src) && n > 0 && Runs(Step, Init(src, n), moves, t)
    ensures |moves| <= Work(Init(src, n)) && |t.consumers| == n
    ensures Stuck(t) ==> t.released == 1 && forall i :: 0 <= i < n && !t.consumers[i].closed ==> t.consumers[i].got == src
  {
    hide IsSource, Inv, Can, Do, Work, Stuck;
    ReachableInv(src, n, moves, t);
    RunsEnd(Init(src, n), moves, t);
    if Stuck(t) {
      StuckIsGone(src, t);
      forall i | 0 <= i < n && !t.consumers[i].closed ensures t.consumers[i].got == src {
        StuckMeans(t, Receive(i));
        EmptyOrDone(src, t, i);
      }
    }
  }

  lemma EmptyOrDone<T>(src: seq<Item<T>>, s: System<T>, i: nat)
    requires Inv(src, s) && i < |s.consumers| && !s.consumers[i].closed && s.phase.Gone? && !Can(s, Receive(i))
    ensures s.consumers[i].got == src
  {
    if s.consumers[i].chan == [] { GoneIsComplete(src, s, i); } else { assert ConsumerOk(src, s, i); }
  }

  lemma {:induction false} AllClosed<T>(cs: seq<Consumer<T>>)
    requires forall i :: 0 <= i < |cs| ==> cs[i].closed
    ensures Open(cs) == 0
  {
    if cs != [] { AllClosed(cs[1..]); }
  }

  predicate Exits(m: Move) { m.Pull? || m.Abort? || m.Release? || m.Shut? }

  /** Once every consumer has closed, the broadcaster leaves by its own moves alone, at most four of them: it waits for
      no channel to be drained, and the source is closed. */
  lemma CloseFrees<T(!new)>(src: seq<Item<T>>, n: nat, moves: seq<Move>, t: System<T>) returns (own: seq<Move>, u: System<T>)
    requires IsSource(src) && n > 0 && Runs(Step, Init(src, n), moves, t)
    requires forall i :: 0 <= i < |t.consumers| ==> t.consumers[i].closed
    ensures |own| <= 4 && (forall m :: m in own ==> Exits(m)) && Runs(Step, t, own, u) && u.phase.Gone? && u.released == 1
  {
    ReachableInv(src, n, moves, t);
    AllClosed(t.consumers);
    own, u := [], t;
    if u.phase.Idle? { own, u := Then(t, own, u, Pull); }
    if u.phase.Sending? { own, u := Then(t, own, u, Abort); }
    if u.phase.Leaving? { own, u := Then(t, own, u, Release); }
    if u.phase.SourceClosed? { own, u := Then(t, own, u, Shut); }
  }

  lemma Then<T(!new)>(t: System<T>, own: seq<Move>, u: System<T>, m: Move) returns (own': seq<Move>, u': System<T>)
    requires Runs(Step, t, own, u) && Can(u, m)
    ensures own' == own + [m] && u' == Do(u, m) && Runs(Step, t, own', u')
  {
    RunsThen(Step, t, own, u, m);
    own', u' := own + [m], Do(u, m);
  }
}
