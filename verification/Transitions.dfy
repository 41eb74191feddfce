/** Runs of a system whose goroutines move one at a time: `step` gives the state after a move that can be made. */
module Transitions {
  import opened Prelude

  ghost predicate Runs<S, M>(step: (S, M) -> Option<S>, s: S, moves: seq<M>, t: S)
    decreases |moves|
  {
    if moves == [] then s == t else step(s, moves[0]).Some? && Runs(step, step(s, moves[0]).value, moves[1..], t)
  }

  lemma RunsNothing<S, M>(step: (S, M) -> Option<S>, s: S)
    ensures Runs(step, s, [], s)
  {
  }

  lemma {:induction false} RunsThen<S, M>(step: (S, M) -> Option<S>, s: S, moves: seq<M>, t: S, m: M)
    requires Runs(step, s, moves, t) && step(t, m).Some?
    ensures Runs(step, s, moves + [m], step(t, m).value)
    decreases |moves|
  {
    if moves != [] {
      RunsThen(step, step(s, moves[0]).value, moves[1..], t, m);
      assert (moves + [m])[1..] == moves[1..] + [m];
    }
  }

  lemma {:induction false} RunsConcat<S, M>(step: (S, M) -> Option<S>, s: S, a: seq<M>, t: S, b: seq<M>, u: S)
    requires Runs(step, s, a, t) && Runs(step, t, b, u)
    ensures Runs(step, s, a + b, u)
    decreases |a|
  {
    if a == [] {
      assert a + b == b;
    } else {
      RunsConcat(step, step(s, a[0]).value, a[1..], t, b, u);
      assert (a + b)[1..] == a[1..] + b;
    }
  }

  ghost predicate Keeps<S(!new), M(!new)>(step: (S, M) -> Option<S>, inv: S -> bool) {
    forall s, m :: inv(s) && step(s, m).Some? ==> inv(step(s, m).value)
  }

  /** What every move keeps, every run keeps. */
  lemma {:induction false} RunKeeps<S(!new), M(!new)>(step: (S, M) -> Option<S>, inv: S -> bool, s: S, moves: seq<M>,
                                                      t: S)
    requires Runs(step, s, moves, t) && Keeps(step, inv) && inv(s)
    ensures inv(t)
    decreases |moves|
  {
    if moves != [] { RunKeeps(step, inv, step(s, moves[0]).value, moves[1..], t); }
  }

  ghost predicate Uses<S(!new), M(!new)>(step: (S, M) -> Option<S>, work: S -> nat) {
    forall s, m :: step(s, m).Some? ==> work(step(s, m).value) < work(s)
  }

  /** A system whose every move uses up work makes boundedly many. */
  lemma {:induction false} RunIsBounded<S(!new), M(!new)>(step: (S, M) -> Option<S>, work: S -> nat, s: S,
                                                          moves: seq<M>, t: S)
    requires Runs(step, s, moves, t) && Uses(step, work)
    ensures work(t) + |moves| <= work(s)
    decreases |moves|
  {
    if moves != [] { RunIsBounded(step, work, step(s, moves[0]).value, moves[1..], t); }
  }
}
