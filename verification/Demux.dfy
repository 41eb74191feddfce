/** Tagging a merge node's sources, interleaving them and draining the result (v2/flow/graph/merge.go):
    the zip fold gets every source's exact frame list back, the unordered fold every frame once. */
module Demux {
  import opened Prelude
  import RoundRobin
  import RoundRobinReading
  import Merging
  import MergeReading

  /** What a reader's Next can return besides io.EOF. A tagged source forwards an error without a tag. */
  datatype Frame<V> = Value(srcIdx: int, v: V) | Fault(error: string)

  /** Values, then possibly an error, then io.EOF. */
  datatype Source<V> = Source(values: seq<V>, fault: Option<string>)

  datatype DrainError = SourceFailed(error: string) | IndexOutOfRange

  /** taggedSourceReader: what Next returns until io.EOF. */
  function Tag<V>(s: Source<V>, i: nat): (r: seq<Frame<V>>)
    ensures |r| == |s.values| + if s.fault.Some? then 1 else 0
    ensures forall k :: 0 <= k < |s.values| ==> r[k] == Value(i, s.values[k])
    ensures s.fault.Some? ==> r[|s.values|] == Fault(s.fault.value)
  {
    seq(|s.values|, k requires 0 <= k < |s.values| => Value(i, s.values[k]))
    + if s.fault.Some? then [Fault(s.fault.value)] else []
  }

  function TagAll<V>(ss: seq<Source<V>>): (r: seq<seq<Frame<V>>>)
    ensures |r| == |ss| && forall i :: 0 <= i < |ss| ==> r[i] == Tag(ss[i], i)
  {
    seq(|ss|, i requires 0 <= i < |ss| => Tag(ss[i], i))
  }

  ghost predicate FaultFree<V>(ss: seq<Source<V>>) { forall i :: 0 <= i < |ss| ==> ss[i].fault.None? }

  // ---------------------------------------------------------------- what a list of frames carries

  /** The values tagged i, in order. */
  function ValuesOf<V>(frames: seq<Frame<V>>, i: int): seq<V> {
    if frames == [] then []
    else (if frames[0].Value? && frames[0].srcIdx == i then [frames[0].v] else []) + ValuesOf(frames[1..], i)
  }

  lemma ValuesStep<V>(s: seq<Frame<V>>, i: int)
    requires s != []
    ensures ValuesOf(s, i) == (if s[0].Value? && s[0].srcIdx == i then [s[0].v] else []) + ValuesOf(s[1..], i)
  {
  }

  lemma {:induction false} ValuesConcat<V>(a: seq<Frame<V>>, b: seq<Frame<V>>, i: int)
    ensures ValuesOf(a + b, i) == ValuesOf(a, i) + ValuesOf(b, i)
  {
    if a == [] {
      assert a + b == b;
    } else {
      hide ValuesOf;
      ValuesStep(a, i);
      ValuesStep(a + b, i);
      assert (a + b)[1..] == a[1..] + b;
      ValuesConcat(a[1..], b, i);
    }
  }

  lemma ValuesOne<V>(f: Frame<V>, i: int)
    ensures ValuesOf([f], i) == if f.Value? && f.srcIdx == i then [f.v] else []
  {
    assert [f][1..] == [];
  }

  /** Frame r of a tagged source, if it has one. */
  function Cell<T>(src: seq<T>, r: nat): seq<T> { if r < |src| then [src[r]] else [] }

  lemma CellValues<V>(ss: seq<Source<V>>, r: nat, p: nat, i: nat)
    requires p < |ss| && i < |ss|
    ensures ValuesOf(Cell(TagAll(ss)[p], r), i) == if i == p then Cell(ss[i].values, r) else []
  {
    var t := TagAll(ss)[p];
    if r < |t| { ValuesOne(t[r], i); }
  }

  lemma RowStep<T>(srcs: seq<seq<T>>, r: nat, p: nat)
    requires p < |srcs|
    ensures RoundRobin.Row(srcs, r, p + 1) == RoundRobin.Row(srcs, r, p) + Cell(srcs[p], r)
  {
  }

  lemma NoRow<V>(srcs: seq<seq<Frame<V>>>, r: nat, i: int)
    ensures ValuesOf(RoundRobin.Row(srcs, r, 0), i) == []
  {
  }

  /** Source i's share of one round of the interleaving is its r-th value. */
  lemma {:induction false} RowValues<V>(ss: seq<Source<V>>, r: nat, p: nat, i: nat)
    requires p <= |ss| && i < |ss|
    ensures ValuesOf(RoundRobin.Row(TagAll(ss), r, p), i) == if i < p then Cell(ss[i].values, r) else []
    decreases p
  {
    hide Cell, TagAll, ValuesOf, RoundRobin.Row;
    var t := TagAll(ss);
    if p == 0 {
      NoRow(t, r, i);
    } else {
      RowValues(ss, r, p - 1, i);
      RowStep(t, r, p - 1);
      CellValues(ss, r, p - 1, i);
      ValuesConcat(RoundRobin.Row(t, r, p - 1), Cell(t[p - 1], r), i);
    }
  }

  lemma NoRows<V>(srcs: seq<seq<Frame<V>>>, i: int)
    ensures ValuesOf(RoundRobin.Rows(srcs, 0), i) == []
  {
  }

  lemma RowsStep<T>(srcs: seq<seq<T>>, r: nat)
    ensures RoundRobin.Rows(srcs, r + 1) == RoundRobin.Rows(srcs, r) + RoundRobin.Row(srcs, r, |srcs|)
  {
  }

  lemma TakeNext<T>(s: seq<T>, r: nat)
    ensures s[..RoundRobin.Least(|s|, r + 1)] == s[..RoundRobin.Least(|s|, r)] + Cell(s, r)
  {
  }

  lemma {:induction false} RowsValues<V>(ss: seq<Source<V>>, r: nat, i: nat)
    requires i < |ss|
    ensures ValuesOf(RoundRobin.Rows(TagAll(ss), r), i) == ss[i].values[..RoundRobin.Least(|ss[i].values|, r)]
  {
    hide RoundRobin.Row, RoundRobin.Rows, TagAll, ValuesOf, Cell;
    var t := TagAll(ss);
    if r == 0 {
      NoRows(t, i);
    } else {
      RowsValues(ss, r - 1, i);
      RowValues(ss, r - 1, |ss|, i);
      RowsStep(t, r - 1);
      ValuesConcat(RoundRobin.Rows(t, r - 1), RoundRobin.Row(t, r - 1, |ss|), i);
      TakeNext(ss[i].values, r - 1);
    }
  }

  /** The tags undo the interleaving: picking source i's frames out of it gives source i. */
  lemma DemuxInverts<V>(ss: seq<Source<V>>, i: nat)
    requires i < |ss|
    ensures ValuesOf(RoundRobin.Interleaved(TagAll(ss)), i) == ss[i].values
  {
    var long := RoundRobin.Longest(TagAll(ss));
    RowsValues(ss, long, i);
    assert |TagAll(ss)[i]| <= long;
  }

  // ---------------------------------------------------------------- errors

  function FirstFault<V>(frames: seq<Frame<V>>): (r: Option<string>)
    ensures r.None? <==> forall k :: 0 <= k < |frames| ==> frames[k].Value?
  {
    if frames == [] then None else if frames[0].Fault? then Some(frames[0].error) else FirstFault(frames[1..])
  }

  lemma {:induction false} FirstFaultIs<V>(before: seq<Frame<V>>, f: Frame<V>, after: seq<Frame<V>>)
    requires FirstFault(before).None? && f.Fault?
    ensures FirstFault(before + [f] + after) == Some(f.error)
    decreases |before|
  {
    var all := before + [f] + after;
    if before == [] {
      assert all[0] == f;
    } else {
      assert all[0] == before[0] && all[1..] == before[1..] + [f] + after;
      FirstFaultIs(before[1..], f, after);
    }
  }

  /** x is frame r of one of the first p sources. */
  ghost predicate OccursAt<T>(srcs: seq<seq<T>>, r: nat, p: nat, x: T)
    requires p <= |srcs|
  {
    exists i :: 0 <= i < p && r < |srcs[i]| && srcs[i][r] == x
  }

  lemma {:induction false} RowMembers<T>(srcs: seq<seq<T>>, r: nat, p: nat, x: T)
    requires p <= |srcs|
    ensures x in RoundRobin.Row(srcs, r, p) <==> OccursAt(srcs, r, p, x)
    decreases p
  {
    if p > 0 { RowMembers(srcs, r, p - 1, x); }
  }

  /** x is one of the first r frames of some source. */
  ghost predicate Occurs<T>(srcs: seq<seq<T>>, r: nat, x: T) {
    exists k, i :: 0 <= k < r && 0 <= i < |srcs| && k < |srcs[i]| && srcs[i][k] == x
  }

  lemma OccursStep<T>(srcs: seq<seq<T>>, r: nat, x: T)
    ensures Occurs(srcs, r + 1, x) <==> Occurs(srcs, r, x) || OccursAt(srcs, r, |srcs|, x)
  {
  }

  lemma RowsNone<T>(srcs: seq<seq<T>>, x: T)
    ensures x !in RoundRobin.Rows(srcs, 0) && !Occurs(srcs, 0, x)
  {
  }

  lemma InConcat<T>(a: seq<T>, b: seq<T>, x: T)
    ensures x in a + b <==> x in a || x in b
  {
  }

  lemma {:induction false} RowsMembers<T>(srcs: seq<seq<T>>, r: nat, x: T)
    ensures x in RoundRobin.Rows(srcs, r) <==> Occurs(srcs, r, x)
  {
    hide RoundRobin.Rows, RoundRobin.Row, Occurs, OccursAt;
    if r == 0 {
      RowsNone(srcs, x);
    } else {
      RowsStep(srcs, r - 1);
      InConcat(RoundRobin.Rows(srcs, r - 1), RoundRobin.Row(srcs, r - 1, |srcs|), x);
      RowsMembers(srcs, r - 1, x);
      RowMembers(srcs, r - 1, |srcs|, x);
      OccursStep(srcs, r - 1, x);
    }
  }

  /** The interleaving carries an error exactly when some source ends with one. */
  lemma FaultsArrive<V>(ss: seq<Source<V>>)
    ensures FirstFault(RoundRobin.Interleaved(TagAll(ss))).None? <==> FaultFree(ss)
  {
    var all, long := RoundRobin.Interleaved(TagAll(ss)), RoundRobin.Longest(TagAll(ss));
    if FaultFree(ss) {
      forall k | 0 <= k < |all| ensures all[k].Value? {
        RowsMembers(TagAll(ss), long, all[k]);
      }
    } else {
      var i :| 0 <= i < |ss| && ss[i].fault.Some?;
      var n := |ss[i].values|;
      RowsMembers(TagAll(ss), long, Fault(ss[i].fault.value));
      assert n < |TagAll(ss)[i]| <= long && TagAll(ss)[i][n] == Fault(ss[i].fault.value);
    }
  }

  lemma TagsInRange<V>(ss: seq<Source<V>>, f: Frame<V>)
    requires f in RoundRobin.Interleaved(TagAll(ss))
    ensures f.Value? ==> 0 <= f.srcIdx < |ss|
  {
    RowsMembers(TagAll(ss), RoundRobin.Longest(TagAll(ss)), f);
  }

  // ---------------------------------------------------------------- the drains

  /** drainMergedPerSource on the ordered merge of the tagged sources: every source's own list, or the first
      error in the promised order. The out-of-range error cannot happen. */
  method DrainPerSource<V(==)>(merged: RoundRobinReading.RoundRobinReader<Frame<V>>, n: nat, ghost ss: seq<Source<V>>)
      returns (res: Result<seq<seq<V>>, DrainError>)
    requires merged.Valid() && !merged.closed && merged.out == [] && merged.srcs == TagAll(ss) && |ss| == n
    modifies merged
    ensures merged.closed
    ensures FaultFree(ss) ==> res.Ok? && |res.value| == n && forall i :: 0 <= i < n ==> res.value[i] == ss[i].values
    ensures !FaultFree(ss) ==> var e := FirstFault(RoundRobin.Interleaved(TagAll(ss)));
                               e.Some? && res == Err(SourceFailed(e.value))
  {
    hide RoundRobin.Inv, RoundRobin.Interleaved, ValuesOf, FirstFault;
    ghost var all := RoundRobin.Interleaved(TagAll(ss));
    FaultsArrive(ss);
    var perSource: seq<seq<V>> := seq(n, _ => []);
    NothingYet<V>();
    while true
      invariant merged.Valid() && !merged.closed && merged.srcs == TagAll(ss) && merged.out <= all
      invariant |perSource| == n && forall i :: 0 <= i < n ==> perSource[i] == ValuesOf(merged.out, i)
      invariant FirstFault(merged.out).None?
      decreases |all| - |merged.out|
    {
      ghost var before := merged.out;
      var frame, moves := merged.Next();
      RoundRobinReading.InvMeans(merged.srcs, merged.Sys());
      match frame {
        case None =>
          forall i | 0 <= i < n ensures perSource[i] == ss[i].values { DemuxInverts(ss, i); }
          merged.Close();
          return Ok(perSource);
        case Some(f) =>
          assert f == merged.out[|before|] == all[|before|];
          assert f in all;
          TagsInRange(ss, f);
          if f.Fault? || f.srcIdx < 0 || f.srcIdx >= n {
            assert all == before + [f] + all[|before| + 1..];
            FirstFaultIs(before, f, all[|before| + 1..]);
            merged.Close();
            return Err(if f.Fault? then SourceFailed(f.error) else IndexOutOfRange);
          }
          Appended(before, f);
          perSource := perSource[f.srcIdx := perSource[f.srcIdx] + [f.v]];
      }
    }
  }

  lemma NothingYet<V>()
    ensures forall i :: ValuesOf<V>([], i) == []
    ensures FirstFault<V>([]).None?
  {
  }

  lemma Appended<V>(before: seq<Frame<V>>, f: Frame<V>)
    requires FirstFault(before).None? && f.Value?
    ensures FirstFault(before + [f]).None?
    ensures forall i :: ValuesOf(before + [f], i) == ValuesOf(before, i) + if f.srcIdx == i then [f.v] else []
  {
    forall i ensures ValuesOf(before + [f], i) == ValuesOf(before, i) + if f.srcIdx == i then [f.v] else [] {
      ValuesConcat(before, [f], i);
      ValuesOne(f, i);
    }
  }

  // ---------------------------------------------------------------- the unordered fold

  function Frames<T>(out: seq<Merging.Tagged<T>>): (r: seq<T>)
    ensures |r| == |out| && forall k :: 0 <= k < |out| ==> r[k] == out[k].frame
  {
    seq(|out|, k requires 0 <= k < |out| => out[k].frame)
  }

  /** Every frame read so far is a frame of the source it came from. */
  ghost predicate FromSources<V>(ss: seq<Source<V>>, out: seq<Merging.Tagged<Frame<V>>>) {
    forall k :: 0 <= k < |out| ==> out[k].source < |ss| && out[k].frame in Tag(ss[out[k].source], out[k].source)
  }

  lemma {:induction false} FromHas<T>(out: seq<Merging.Tagged<T>>, k: nat)
    requires k < |out|
    ensures out[k].frame in Merging.From(out, out[k].source)
  {
    if k > 0 {
      FromHas(out[1..], k - 1);
      assert out[1..][k - 1] == out[k];
    }
  }

  lemma ReadFromSources<V>(ss: seq<Source<V>>, s: Merging.System<Frame<V>>)
    requires Merging.Inv(TagAll(ss), s)
    ensures FromSources(ss, s.out)
  {
    hide Tag;
    forall k | 0 <= k < |s.out|
      ensures s.out[k].source < |ss| && s.out[k].frame in Tag(ss[s.out[k].source], s.out[k].source)
    {
      var i := s.out[k].source;
      FromHas(s.out, k);
      assert Merging.From(s.out, i) <= TagAll(ss)[i];
    }
  }

  /** Picking by tag is picking by origin. */
  lemma {:induction false} TagIsOrigin<V>(ss: seq<Source<V>>, out: seq<Merging.Tagged<Frame<V>>>, i: nat)
    requires FromSources(ss, out)
    ensures ValuesOf(Frames(out), i) == ValuesOf(Merging.From(out, i), i)
  {
    if out != [] {
      assert FromSources(ss, out[1..]) by { assert forall k :: 0 <= k < |out[1..]| ==> out[1..][k] == out[k + 1]; }
      TagIsOrigin(ss, out[1..], i);
      assert Frames(out)[1..] == Frames(out[1..]);
      var head := if out[0].source == i then [out[0].frame] else [];
      ValuesConcat(head, Merging.From(out[1..], i), i);
      ValuesOne(out[0].frame, i);
      OriginOf(ss, out[0]);
    }
  }

  lemma OriginOf<V>(ss: seq<Source<V>>, t: Merging.Tagged<Frame<V>>)
    requires t.source < |ss| && t.frame in Tag(ss[t.source], t.source)
    ensures t.frame.Value? ==> t.frame.srcIdx == t.source
    ensures t.frame.Fault? ==> ss[t.source].fault == Some(t.frame.error)
  {
  }

  lemma {:induction false} ValuesOfTag<V>(s: Source<V>, i: nat)
    ensures ValuesOf(Tag(s, i), i) == s.values
    decreases |s.values|
  {
    if s.values == [] {
      if s.fault.Some? { ValuesOne<V>(Fault(s.fault.value), i); }
    } else {
      var tail := Source(s.values[1..], s.fault);
      ValuesOfTag(tail, i);
      assert Tag(s, i)[1..] == Tag(tail, i);
    }
  }

  /** What a drained merge has read: every value of every source once, each source in its own order, and
      any error some source ended with. */
  lemma DrainedAll<V>(ss: seq<Source<V>>, s: Merging.System<Frame<V>>)
    requires Merging.Inv(TagAll(ss), s) && forall i :: 0 <= i < |ss| ==> Merging.From(s.out, i) == Tag(ss[i], i)
    ensures forall i :: 0 <= i < |ss| ==> ValuesOf(Frames(s.out), i) == ss[i].values
    ensures FirstFault(Frames(s.out)).None? ==> FaultFree(ss)
  {
    hide ValuesOf, FirstFault, Merging.Inv, Frames, FaultFree, FromSources;
    ReadFromSources(ss, s);
    forall i | 0 <= i < |ss| ensures ValuesOf(Frames(s.out), i) == ss[i].values {
      TagIsOrigin(ss, s.out, i);
      ValuesOfTag(ss[i], i);
    }
    if FirstFault(Frames(s.out)).None? { NoFaultRead(ss, s.out); }
  }

  lemma NoFaultRead<V>(ss: seq<Source<V>>, out: seq<Merging.Tagged<Frame<V>>>)
    requires FirstFault(Frames(out)).None? && forall i :: 0 <= i < |ss| ==> Merging.From(out, i) == Tag(ss[i], i)
    ensures FaultFree(ss)
  {
    forall i | 0 <= i < |ss| ensures ss[i].fault.None? {
      if ss[i].fault.Some? {
        assert Fault(ss[i].fault.value) in Merging.From(out, i) by { assert Tag(ss[i], i)[|ss[i].values|].Fault?; }
        FromIn(out, i, Fault(ss[i].fault.value));
      }
    }
  }

  lemma {:induction false} FromIn<T>(out: seq<Merging.Tagged<T>>, i: nat, x: T)
    requires x in Merging.From(out, i)
    ensures x in Frames(out)
  {
    if x in Merging.From(out[1..], i) {
      FromIn(out[1..], i, x);
      assert Frames(out)[1..] == Frames(out[1..]);
    } else {
      assert Frames(out)[0] == x;
    }
  }

  /** drainMergedFlat on the unordered merge. `order` shows, beside the values returned, where each came from:
      the result is an interleaving of the sources, complete exactly when none of them ends with an error. */
  method DrainFlat<V(==)>(merged: MergeReading.MergeReader<Frame<V>>, ghost ss: seq<Source<V>>)
      returns (res: Result<seq<V>, DrainError>, ghost order: seq<Frame<V>>)
    requires merged.Valid() && !merged.sys.closed && merged.sys.out == [] && merged.srcs == TagAll(ss)
    modifies merged
    ensures merged.sys.closed
    ensures res.Ok? <==> FaultFree(ss)
    ensures res.Ok? ==> |order| == |res.value| && forall k :: 0 <= k < |order| ==> order[k].Value? && order[k].v == res.value[k]
    ensures res.Ok? ==> forall i :: 0 <= i < |ss| ==> ValuesOf(order, i) == ss[i].values
    ensures res.Err? ==> exists i :: 0 <= i < |ss| && ss[i].fault.Some? && res.error == SourceFailed(ss[i].fault.value)
  {
    hide Merging.Inv, Merging.Work, Merging.From, ValuesOf, FirstFault, Tag, FromSources;
    var items: seq<V> := [];
    NothingYet<V>();
    assert Frames(merged.sys.out) == [];
    while true
      invariant merged.Valid() && !merged.sys.closed && merged.srcs == TagAll(ss) && |items| == |merged.sys.out|
      invariant forall k :: 0 <= k < |items| ==> Frames(merged.sys.out)[k].Value? && Frames(merged.sys.out)[k].v == items[k]
      invariant FirstFault(Frames(merged.sys.out)).None?
      decreases Merging.Work(merged.sys)
    {
      ghost var before := merged.sys.out;
      var frame, moves := merged.Next();
      ReadFromSources(ss, merged.sys);
      match frame {
        case None =>
          order := Frames(merged.sys.out);
          DrainedAll(ss, merged.sys);
          merged.Close();
          return Ok(items), order;
        case Some(f) =>
          ghost var last := merged.sys.out[|before|];
          ReadOne(ss, merged.sys.out, |before|);
          assert Frames(merged.sys.out) == Frames(before) + [f];
          if f.Fault? {
            merged.Close();
            return Err(SourceFailed(f.error)), [];
          }
          Appended(Frames(before), f);
          items := items + [f.v];
      }
    }
  }

  lemma ReadOne<V>(ss: seq<Source<V>>, out: seq<Merging.Tagged<Frame<V>>>, k: nat)
    requires FromSources(ss, out) && k < |out|
    ensures out[k].frame.Fault? ==>
            exists i :: 0 <= i < |ss| && ss[i].fault.Some? && out[k].frame.error == ss[i].fault.value
  {
    OriginOf(ss, out[k]);
  }
}
