/** findCycle (v2/flow/validate.go): depth-first search with three colours and a parent chain. */
module Cycles {
  import opened Prelude
  import opened FlowIr
  import opened Topology

  datatype Color = White | Gray | Black

  function Reversed<T>(s: seq<T>): (r: seq<T>)
    ensures |r| == |s|
    ensures forall i :: 0 <= i < |s| ==> r[i] == s[|s| - 1 - i]
  {
    if s == [] then [] else Reversed(s[1..]) + [s[0]]
  }

  /** Go's color[u]: an absent name is white. */
  function Shade(color: map<string, Color>, u: string): Color {
    if u in color then color[u] else White
  }

  /** Gray nodes are the ones on the current path, black nodes the finished ones. */
  ghost predicate Colored(color: map<string, Color>, path: seq<string>, finished: seq<string>, names: set<string>) {
    && Distinct(path)
    && (forall u :: Shade(color, u) == Gray <==> u in path)
    && (forall u :: Shade(color, u) == Black <==> u in finished)
    && (forall u :: Shade(color, u) != White ==> u in names)
  }

  /** Neighbours on the path are joined by arcs, and the parent map runs back along it. */
  ghost predicate Chained(arcs: seq<Arc>, path: seq<string>, parent: map<string, string>) {
    && (forall i :: 0 <= i < |path| - 1 ==> Arc(path[i], path[i + 1]) in arcs)
    && (forall i :: 0 <= i < |path| ==> path[i] in parent && parent[path[i]] == Before(path, i))
  }

  function Before(path: seq<string>, i: nat): string
    requires i < |path|
  {
    if i == 0 then "" else path[i - 1]
  }

  lemma ColoredEnter(color: map<string, Color>, path: seq<string>, finished: seq<string>, names: set<string>, u: string)
    requires Colored(color, path, finished, names) && Shade(color, u) == White && u in names
    ensures Colored(color[u := Gray], path + [u], finished, names)
  {
    forall x ensures Shade(color[u := Gray], x) == if x == u then Gray else Shade(color, x) {}
  }

  lemma ColoredLeave(color: map<string, Color>, path: seq<string>, finished: seq<string>, names: set<string>, u: string)
    requires Colored(color, path + [u], finished, names)
    ensures Colored(color[u := Black], path, finished + [u], names)
  {
    assert (path + [u])[|path|] == u;
    forall i | 0 <= i < |path| ensures path[i] != u { assert (path + [u])[i] != (path + [u])[|path|]; }
    forall x ensures Shade(color[u := Black], x) == if x == u then Black else Shade(color, x) {}
    assert forall x :: x in path + [u] <==> x in path || x == u;
    forall i, j | 0 <= i < j < |path| ensures path[i] != path[j] { assert (path + [u])[i] != (path + [u])[j]; }
  }

  lemma ChainedLeave(arcs: seq<Arc>, path: seq<string>, parent: map<string, string>, u: string)
    requires Chained(arcs, path + [u], parent)
    ensures Chained(arcs, path, parent)
  {
    var p := path + [u];
    forall i | 0 <= i < |path| - 1 ensures Arc(path[i], path[i + 1]) in arcs { assert Arc(p[i], p[i + 1]) in arcs; }
    forall i | 0 <= i < |path|
      ensures path[i] in parent && parent[path[i]] == Before(path, i)
    {
      assert p[i] in parent && p[i] == path[i];
      if i > 0 { assert p[i - 1] == path[i - 1]; }
    }
  }

  lemma ChainedEnter(arcs: seq<Arc>, path: seq<string>, parent: map<string, string>, u: string, from: string)
    requires Chained(arcs, path, parent) && u !in path
    requires if path == [] then from == "" else from == path[|path| - 1] && Arc(from, u) in arcs
    ensures Chained(arcs, path + [u], parent[u := from])
  {
    var p := path + [u];
    forall i | 0 <= i < |p| - 1 ensures Arc(p[i], p[i + 1]) in arcs {
      if i < |path| - 1 { assert Arc(path[i], path[i + 1]) in arcs; }
    }
    forall i | 0 <= i < |p|
      ensures p[i] in parent[u := from] && parent[u := from][p[i]] == Before(p, i)
    {
      if i < |path| {
        assert p[i] == path[i] && path[i] in path;
        assert path[i] in parent && parent[path[i]] == Before(path, i);
      } else {
        assert p[i] == u;
      }
    }
  }

  lemma PrefixKeeps(a: seq<string>, b: seq<string>)
    requires a <= b
    ensures forall x :: x in a ==> x in b
  {
    assert b == a + b[|a|..];
  }

  /** The variables findCycle's recursive closure shares. */
  class CycleSearch {
    const out: map<string, seq<string>>
    var color: map<string, Color>
    var parent: map<string, string>
    var cycle: seq<string>
    ghost const arcs: seq<Arc>
    ghost const names: set<string>
    ghost var path: seq<string>      // the gray nodes, outermost call first
    ghost var finished: seq<string>  // the black nodes, in the order they finished

    constructor (out: map<string, seq<string>>, ghost arcs: seq<Arc>, ghost names: set<string>)
      requires IsSuccessorMap(out, arcs)
      requires forall a :: a in arcs ==> a.to in names
      ensures Inv() && path == [] && finished == []
      ensures this.arcs == arcs && this.names == names && fresh(this)
    {
      this.out, this.arcs, this.names := out, arcs, names;
      color, parent, cycle := map[], map[], [];
      path, finished := [], [];
    }

    function ColorOf(u: string): Color
      reads this
    {
      Shade(color, u)
    }

    ghost predicate Inv()
      reads this
    {
      && IsSuccessorMap(out, arcs)
      && (forall a :: a in arcs ==> a.to in names)
      && Colored(color, path, finished, names)
      && Chained(arcs, path, parent)
      && ClosedOrder(arcs, finished)
    }

    ghost function Whites(): set<string>
      reads this
    {
      set u | u in names && ColorOf(u) == White
    }

    /** The closure `visit`. It returns true exactly with a cycle in hand; otherwise u and everything
        reachable from it have turned black. */
    method Visit(u: string, from: string) returns (found: bool)
      requires Inv() && ColorOf(u) == White && u in names
      requires if path == [] then from == "" else from == path[|path| - 1] && Arc(from, u) in arcs
      modifies this
      ensures found ==> !Acyclic(arcs) && cycle != []
      ensures found && "" !in names ==> ClosedWalk(arcs, cycle)
      ensures !found ==> Inv() && path == old(path) && old(finished) <= finished && u in finished
      ensures !found ==> Whites() < old(Whites())
      decreases Whites()
    {
      hide Inv;
      Enter(u, from);
      var targets := At(out, u);
      SeesGraph(u);
      for i := 0 to |targets|
        invariant Inv() && path == old(path) + [u] && old(finished) <= finished
        invariant Whites() < old(Whites())
        invariant forall j :: 0 <= j < i ==> targets[j] in finished
      {
        var v := targets[i];
        TargetsMember(arcs, u, v);
        assert v in targets;
        SeesGraph(v);
        match ColorOf(v) {
          case White =>
            ghost var before := finished;
            var deeper := Visit(v, u);
            if deeper { return true; }
            PrefixKeeps(before, finished);
          case Gray =>
            CloseCycle(u, v);
            return true;
          case Black =>
        }
      }
      Leave(u, path[..|path| - 1]);
      return false;
    }

    lemma SeesGraph(u: string)
      requires Inv()
      ensures At(out, u) == Targets(arcs, u)
      ensures forall v :: Arc(u, v) in arcs ==> v in names
      ensures ColorOf(u) == Gray <==> u in path
      ensures ColorOf(u) == Black <==> u in finished
    {
    }

    method Enter(u: string, from: string)
      requires Inv() && ColorOf(u) == White && u in names
      requires if path == [] then from == "" else from == path[|path| - 1] && Arc(from, u) in arcs
      modifies this`color, this`parent, this`path
      ensures Inv() && path == old(path) + [u] && Whites() < old(Whites())
    {
      hide Chained, ClosedOrder, IsSuccessorMap, Colored;
      SeesGraph(u);
      ColoredEnter(color, path, finished, names, u);
      ChainedEnter(arcs, path, parent, u, from);
      color := color[u := Gray];
      parent := parent[u := from];
      path := path + [u];
      assert u in old(Whites()) && u !in Whites();
    }

    method Leave(u: string, ghost outer: seq<string>)
      requires Inv() && path == outer + [u]
      requires forall v :: v in Targets(arcs, u) ==> v in finished
      modifies this`color, this`path, this`finished
      ensures Inv() && path == outer && finished == old(finished) + [u]
      ensures Whites() == old(Whites())
    {
      hide Chained, ClosedOrder, IsSuccessorMap;
      ColoredLeave(color, outer, finished, names, u);
      ChainedLeave(arcs, outer, parent, u);
      FinishLast(arcs, finished, u);
      assert u in path;
      color := color[u := Black];
      path := path[..|path| - 1];
      finished := finished + [u];
      assert path == outer;
    }

    /** The gray branch: walk the parent chain from u back to v, then reverse. */
    method CloseCycle(u: string, v: string)
      requires Inv() && path != [] && u == path[|path| - 1]
      requires v in path && Arc(u, v) in arcs
      modifies this`cycle
      ensures !Acyclic(arcs) && cycle != []
      ensures "" !in names ==> ClosedWalk(arcs, cycle)
    {
      hide *;
      ghost var p := FirstIndex(path, v);
      LoopIsClosed(p);
      var cur := u;
      var back := [v];
      ghost var j := |path| - 1;
      while cur != v && cur != ""
        invariant p <= j < |path| && cur == path[j]
        invariant |back| == |path| - j && back[0] == v
        invariant forall i :: 1 <= i < |back| ==> back[i] == path[|path| - i]
        modifies {}
        decreases j
      {
        ParentAt(j);
        back := back + [cur];
        cur := if cur in parent then parent[cur] else "";
        j := j - 1;
      }
      back := back + [v];
      var found := Reversed(back);
      if "" !in names {
        ParentAt(j);
        IndexesAgree(p, j);
        var loop := path[p..] + [v];
        assert |found| == |loop|;
        forall i | 0 <= i < |loop| ensures found[i] == loop[i] {
          assert found[i] == back[|back| - 1 - i];
        }
        assert found == loop;
      }
      cycle := found;
    }

    lemma ParentAt(j: nat)
      requires Inv() && j < |path|
      ensures path[j] in parent && parent[path[j]] == (if j == 0 then "" else path[j - 1])
      ensures path[j] in names
    {
      assert path[j] in path && ColorOf(path[j]) == Gray;
    }

    lemma IndexesAgree(i: nat, j: nat)
      requires Inv() && i < |path| && j < |path| && path[i] == path[j]
      ensures i == j
    {
    }

    lemma LoopIsClosed(p: nat)
      requires Inv() && p < |path| && Arc(path[|path| - 1], path[p]) in arcs
      ensures ClosedWalk(arcs, path[p..] + [path[p]]) && !Acyclic(arcs)
    {
      PathLoop(arcs, path, p);
    }
  }

  lemma PathLoop(arcs: seq<Arc>, path: seq<string>, p: nat)
    requires forall i :: 0 <= i < |path| - 1 ==> Arc(path[i], path[i + 1]) in arcs
    requires p < |path| && Arc(path[|path| - 1], path[p]) in arcs
    ensures ClosedWalk(arcs, path[p..] + [path[p]]) && !Acyclic(arcs)
  {
    var loop := path[p..] + [path[p]];
    forall i | 0 <= i < |loop| - 1 ensures Arc(loop[i], loop[i + 1]) in arcs {
      if i < |loop| - 2 {
        assert loop[i] == path[p + i] && loop[i + 1] == path[p + i + 1];
        assert Arc(path[p + i], path[p + i + 1]) in arcs;
      }
    }
    assert ClosedWalk(arcs, loop);
  }

  lemma FinishLast(arcs: seq<Arc>, order: seq<string>, u: string)
    requires ClosedOrder(arcs, order) && forall v :: v in Targets(arcs, u) ==> v in order
    ensures ClosedOrder(arcs, order + [u])
  {
    var longer := order + [u];
    forall k, v | 0 <= k < |longer| && v in Targets(arcs, longer[k]) ensures v in longer[..k] {
      assert longer[..k] == order[..k];
    }
  }

  /** Every arc leaves a declared node. */
  ghost predicate SourcesDeclared(f: Flow) {
    forall a :: a in Arcs(f) ==> a.from in Ids(f)
  }

  /** Sound: a nonempty answer means a cycle exists, and without empty names it is one, each node
      joined to the next by an edge or mapping. Complete: nil from a flow whose arcs leave declared
      nodes means no cycle exists. */
  method FindCycle(f: Flow) returns (cycle: seq<string>)
    ensures cycle != [] ==> !Acyclic(Arcs(f))
    ensures cycle != [] && "" !in Ids(f) && (forall a :: a in Arcs(f) ==> a.to != "") ==> ClosedWalk(Arcs(f), cycle)
    ensures cycle == [] && SourcesDeclared(f) ==> Acyclic(Arcs(f))
  {
    var out := Successors(f);
    ghost var arcs := Arcs(f);
    ghost var names := (set x | x in Ids(f)) + (set a | a in arcs :: a.to);
    var search := new CycleSearch(out, arcs, names);
    for i := 0 to |f.nodes|
      invariant search.Inv() && search.path == []
      invariant search.arcs == arcs && search.names == names
      invariant forall j :: 0 <= j < i ==> f.nodes[j].id in search.finished
    {
      assert Ids(f)[i] in Ids(f);
      if search.ColorOf(f.nodes[i].id) == White {
        var found := search.Visit(f.nodes[i].id, "");
        if found { return search.cycle; }
      }
    }
    if SourcesDeclared(f) {
      forall a | a in arcs ensures a.from in search.finished {
        assert a.from in Ids(f);
      }
      OrderRulesOutCycles(arcs, search.finished);
    }
    return [];
  }
}
