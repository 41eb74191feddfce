/** Whole-graph State: per-node staged writes folded into the committed value at each layer barrier
    (v2/flow/state.go). */
module State {
  import opened Prelude
  import opened FlowIr

  /** A type-erased WithReducer function; None is its error return. */
  type Reducer = (Value, seq<Value>) -> Option<Value>

  datatype ReduceError = WriteConflict | ReducerFailed

  /** The staged writes in node-id order. */
  ghost function Writes(staged: map<string, Value>): (r: seq<Value>)
    ensures |r| == |Listing(staged.Keys)|
  {
    var ids := Listing(staged.Keys);
    seq(|ids|, i requires 0 <= i < |ids| => assert ids[i] in ids; staged[ids[i]])
  }

  /** The committed value after a barrier. */
  ghost function Reduced(committed: Value, staged: map<string, Value>,
                         reducer: Option<Reducer>): Result<Value, ReduceError> {
    var writes := Writes(staged);
    if writes == [] then Ok(committed)
    else if reducer.None? then (if |writes| > 1 then Err(WriteConflict) else Ok(writes[0]))
    else match reducer.value(committed, writes)
      case None => Err(ReducerFailed)
      case Some(v) => Ok(v)
  }

  /** ids is the staged nodes in ascending order and ws what each of them staged. */
  ghost predicate InIdOrder(staged: map<string, Value>, ids: seq<string>, ws: seq<Value>) {
    && (forall i, j :: 0 <= i < j < |ids| ==> Less(ids[i], ids[j])) && (forall x :: x in ids <==> x in staged)
    && |ws| == |ids| && forall i :: 0 <= i < |ids| ==> ids[i] in staged && ws[i] == staged[ids[i]]
  }

  lemma WritesInIdOrder(staged: map<string, Value>)
    ensures InIdOrder(staged, Listing(staged.Keys), Writes(staged))
  {
  }

  /** A barrier leaves State alone when nobody wrote, keeps a lone write, fails on more without a reducer, and hands
      a reducer the writes in ascending order of the nodes' ids. */
  lemma ReducedCases(committed: Value, staged: map<string, Value>, reducer: Option<Reducer>, ids: seq<string>,
                     ws: seq<Value>)
    requires InIdOrder(staged, ids, ws)
    ensures var r := Reduced(committed, staged, reducer);
            && (ids == [] ==> r == Ok(committed))
            && (|ids| == 1 && reducer.None? ==> r == Ok(ws[0]))
            && (|ids| > 1 && reducer.None? ==> r == Err(WriteConflict))
            && (ids != [] && reducer.Some? ==>
                  r == match reducer.value(committed, ws) case Some(v) => Ok(v) case None => Err(ReducerFailed))
  {
    WritesInIdOrder(staged);
    SortedIsUnique(ids, Listing(staged.Keys));
    assert ws == Writes(staged);
  }

  lemma WritesCount(staged: map<string, Value>)
    ensures |Writes(staged)| == |staged|
  {
    SortedDistinct(Listing(staged.Keys));
    DistinctCardinality(Listing(staged.Keys), staged.Keys);
    assert |staged| == |staged.Keys|;
  }

  lemma SortedDistinct(s: seq<string>)
    requires StrictlySorted(s)
    ensures Distinct(s)
  {
    forall i, j | 0 <= i < j < |s| ensures s[i] != s[j] { LessIrreflexive(s[i]); }
  }

  /** Without a reducer, a barrier fails exactly when two or more nodes wrote State in the layer. */
  lemma ConflictExactlyWhenTwoWrote(committed: Value, staged: map<string, Value>)
    ensures Reduced(committed, staged, None).Err? <==> |staged| > 1
  {
    WritesCount(staged);
  }

  class StateCell {
    var committed: Value
    var staged: map<string, Value>
    const reducer: Option<Reducer>

    constructor (initial: Value, reducer: Option<Reducer>)
      ensures committed == initial && staged == map[] && this.reducer == reducer
    {
      committed, staged, this.reducer := initial, map[], reducer;
    }

    /** setCommitted: a resumed run restores the checkpointed State. */
    method SetCommitted(s: Value)
      modifies this`committed
      ensures committed == s
    {
      committed := s;
    }

    /** stage: the last write of a node wins. */
    method Stage(node: string, s: Value)
      modifies this`staged
      ensures staged == old(staged)[node := s]
    {
      staged := staged[node := s];
    }

    method Snapshot() returns (s: Value)
      ensures s == committed
    {
      s := committed;
    }

    /** reduce: on success the staged writes are cleared; on error nothing changes. */
    method Reduce() returns (failure: Option<ReduceError>)
      modifies this`committed, this`staged
      ensures match Reduced(old(committed), old(staged), reducer)
              case Ok(v) => failure == None && committed == v && staged == map[]
              case Err(e) => failure == Some(e) && committed == old(committed) && staged == old(staged)
      ensures old(staged) == map[] ==> failure == None && committed == old(committed)
      ensures old(staged) != map[] && reducer.Some? ==>
                exists ids, ws :: InIdOrder(old(staged), ids, ws) &&
                  reducer.value(old(committed), ws) == if failure == None then Some(committed) else None
    {
      WritesCount(staged);
      WritesInIdOrder(staged);
      if staged == map[] { return None; }
      var ids := SortedIds(staged);
      if reducer.None? {
        if |ids| > 1 { return Some(WriteConflict); }
        assert ids[0] in ids;
        committed := staged[ids[0]];
        staged := map[];
        return None;
      }
      var writes := Gather(staged, ids);
      match reducer.value(committed, writes) {
        case None => return Some(ReducerFailed);
        case Some(v) =>
          committed := v;
          staged := map[];
          return None;
      }
    }
  }

  /** The map's keys, met in any order, then sorted. */
  method SortedIds(staged: map<string, Value>) returns (ids: seq<string>)
    ensures ids == Listing(staged.Keys)
  {
    ids := [];
    var rest := staged.Keys;
    while rest != {}
      invariant Distinct(ids)
      invariant forall x :: x in ids <==> x in staged.Keys - rest
      invariant rest <= staged.Keys
      decreases rest
    {
      var x :| x in rest;
      assert x !in ids;
      ids := ids + [x];
      rest := rest - {x};
    }
    ListingOfSorted(ids, staged.Keys);
    ids := SortStrings(ids);
  }

  method Gather(staged: map<string, Value>, ids: seq<string>) returns (writes: seq<Value>)
    requires ids == Listing(staged.Keys)
    ensures writes == Writes(staged)
  {
    writes := [];
    for i := 0 to |ids|
      invariant |writes| == i
      invariant forall j :: 0 <= j < i ==> ids[j] in staged && writes[j] == staged[ids[j]]
    {
      assert ids[i] in ids;
      writes := writes + [staged[ids[i]]];
    }
  }
}
