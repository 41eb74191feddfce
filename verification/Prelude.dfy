/** Small shared vocabulary: options, results, and the byte-wise string order behind sort.Strings. */
module Prelude {

  datatype Option<+T> = None | Some(value: T)

  datatype Result<+T, +E> = Ok(value: T) | Err(error: E)

  /** The order sort.Strings uses. */
  predicate Less(a: string, b: string) {
    b != [] && (a == [] || a[0] < b[0] || (a[0] == b[0] && Less(a[1..], b[1..])))
  }

  lemma {:induction false} LessIrreflexive(a: string)
    ensures !Less(a, a)
  {
    if a != [] { LessIrreflexive(a[1..]); }
  }

  lemma {:induction false} LessTransitive(a: string, b: string, c: string)
    requires Less(a, b) && Less(b, c)
    ensures Less(a, c)
  {
    if a != [] && a[0] == b[0] == c[0] { LessTransitive(a[1..], b[1..], c[1..]); }
  }

  lemma {:induction false} LessTotal(a: string, b: string)
    ensures a == b || Less(a, b) || Less(b, a)
  {
    if a != [] && b != [] && a[0] == b[0] {
      LessTotal(a[1..], b[1..]);
      assert a == [a[0]] + a[1..] && b == [b[0]] + b[1..];
    }
  }

  /** a comes first exactly when it is a proper prefix of b, or has the smaller character where they first differ. */
  lemma {:induction false} LessMeans(a: string, b: string)
    ensures Less(a, b) <==> a < b || exists k :: Differ(a, b, k) && a[k] < b[k]
    decreases |a|
  {
    if a != [] && b != [] {
      var s, t := a[1..], b[1..];
      assert a == [a[0]] + s && b == [b[0]] + t;
      if a[0] == b[0] {
        LessMeans(s, t);
        assert a < b <==> s < t;
        if k :| Differ(s, t, k) && s[k] < t[k] { assert Differ(a, b, k + 1) && a[k + 1] == s[k] && b[k + 1] == t[k]; }
        if k :| Differ(a, b, k) && a[k] < b[k] { assert k > 0 && Differ(s, t, k - 1) && a[k] == s[k - 1] && b[k] == t[k - 1]; }
      } else {
        assert Differ(a, b, 0);
        forall k | Differ(a, b, k) ensures k == 0 {}
      }
    }
  }

  /** The first place where a and b differ. */
  ghost predicate Differ(a: string, b: string, k: int) {
    0 <= k < |a| && k < |b| && a[k] != b[k] && forall i :: 0 <= i < k ==> a[i] == b[i]
  }

  ghost predicate StrictlySorted(s: seq<string>) {
    forall i, j :: 0 <= i < j < |s| ==> Less(s[i], s[j])
  }

  function Insert(x: string, s: seq<string>): (r: seq<string>)
    ensures forall y :: y in r <==> y == x || y in s
    ensures |r| == |s| + 1
  {
    if s == [] || Less(x, s[0]) then [x] + s else
      var rest := Insert(x, s[1..]);
      assert forall y :: y in s <==> y == s[0] || y in s[1..];
      [s[0]] + rest
  }

  /** sort.Strings on a slice. */
  function SortStrings(s: seq<string>): (r: seq<string>)
    ensures forall y :: y in r <==> y in s
    ensures |r| == |s|
  {
    if s == [] then [] else
      assert forall y :: y in s <==> y == s[0] || y in s[1..];
      Insert(s[0], SortStrings(s[1..]))
  }

  ghost predicate Distinct<T>(s: seq<T>) {
    forall i, j :: 0 <= i < j < |s| ==> s[i] != s[j]
  }

  lemma {:induction false} InsertKeepsSorted(x: string, s: seq<string>)
    requires StrictlySorted(s) && x !in s
    ensures StrictlySorted(Insert(x, s))
  {
    if s == [] {
    } else if Less(x, s[0]) {
      forall i | 0 <= i < |s| ensures Less(x, s[i]) {
        if i > 0 { LessTransitive(x, s[0], s[i]); }
      }
    } else {
      InsertKeepsSorted(x, s[1..]);
      LessTotal(x, s[0]);
      var rest := Insert(x, s[1..]);
      forall i | 0 <= i < |rest| ensures Less(s[0], rest[i]) {
        assert rest[i] in rest;
        if rest[i] != x {
          var j :| 0 <= j < |s[1..]| && s[1..][j] == rest[i];
          assert s[j + 1] == rest[i];
        }
      }
    }
  }

  lemma {:induction false} SortStringsSorts(s: seq<string>)
    requires Distinct(s)
    ensures StrictlySorted(SortStrings(s))
  {
    if s != [] {
      SortStringsSorts(s[1..]);
      InsertKeepsSorted(s[0], SortStrings(s[1..]));
    }
  }

  // ---------------------------------------------------------------- lists with repetitions

  ghost predicate Sorted(s: seq<string>) {
    forall i, j :: 0 <= i < j < |s| ==> !Less(s[j], s[i])
  }

  lemma NotLessTransitive(a: string, b: string, c: string)
    requires !Less(b, a) && !Less(c, b)
    ensures !Less(c, a)
  {
    LessTotal(a, b);
    LessTotal(b, c);
    LessIrreflexive(a);
    if Less(c, a) && a != b && b != c {
      LessTransitive(a, b, c);
      LessTransitive(a, c, a);
    }
  }

  lemma {:induction false} InsertCounts(x: string, s: seq<string>)
    ensures multiset(Insert(x, s)) == multiset(s) + multiset{x}
  {
    hide Less;
    if s != [] && !Less(x, s[0]) {
      InsertCounts(x, s[1..]);
      assert s == [s[0]] + s[1..];
    }
  }

  lemma {:induction false} InsertSorts(x: string, s: seq<string>)
    requires Sorted(s)
    ensures Sorted(Insert(x, s))
  {
    hide Less;
    if s == [] {
    } else if Less(x, s[0]) {
      LessNotBack(x, s[0]);
      forall i | 0 <= i < |s| ensures !Less(s[i], x) {
        if i > 0 { NotLessTransitive(x, s[0], s[i]); }
      }
    } else {
      InsertSorts(x, s[1..]);
      var rest := Insert(x, s[1..]);
      forall i | 0 <= i < |rest| ensures !Less(rest[i], s[0]) {
        assert rest[i] in rest;
        if rest[i] != x {
          var j :| 0 <= j < |s[1..]| && s[1..][j] == rest[i];
          assert s[j + 1] == rest[i];
        }
      }
    }
  }

  lemma LessNotBack(a: string, b: string)
    requires Less(a, b)
    ensures !Less(b, a)
  {
    LessIrreflexive(a);
    if Less(b, a) { LessTransitive(a, b, a); }
  }

  /** Sorting gives a sorted list of the same elements, repetitions included. */
  lemma {:induction false} SortsAndKeeps(s: seq<string>)
    ensures Sorted(SortStrings(s)) && multiset(SortStrings(s)) == multiset(s)
  {
    if s != [] {
      assert s == [s[0]] + s[1..];
      SortsAndKeeps(s[1..]);
      InsertSorts(s[0], SortStrings(s[1..]));
      InsertCounts(s[0], SortStrings(s[1..]));
    }
  }

  lemma LeastFirst(a: seq<string>, x: string)
    requires Sorted(a) && x in a
    ensures !Less(x, a[0])
  {
    var i :| 0 <= i < |a| && a[i] == x;
    LessIrreflexive(x);
  }

  lemma {:induction false} SortedIsOne(a: seq<string>, b: seq<string>)
    requires Sorted(a) && Sorted(b) && multiset(a) == multiset(b)
    ensures a == b
  {
    if a == [] {
      assert |multiset(b)| == |b|;
    } else {
      SameFirst(a, b);
      SameRest(a, b);
      SortedIsOne(a[1..], b[1..]);
    }
  }

  lemma SameFirst(a: seq<string>, b: seq<string>)
    requires Sorted(a) && Sorted(b) && multiset(a) == multiset(b) && a != []
    ensures b != [] && a[0] == b[0]
  {
    hide Less, Sorted;
    assert a[0] in multiset(b);
    assert b[0] in multiset(a);
    LeastFirst(a, b[0]);
    LeastFirst(b, a[0]);
    LessTotal(a[0], b[0]);
  }

  lemma SameRest(a: seq<string>, b: seq<string>)
    requires a != [] && b != [] && a[0] == b[0] && multiset(a) == multiset(b)
    ensures multiset(a[1..]) == multiset(b[1..])
  {
    assert a == [a[0]] + a[1..] && b == [b[0]] + b[1..];
    assert multiset(a[1..]) == multiset(a) - multiset{a[0]};
    assert multiset(b[1..]) == multiset(b) - multiset{b[0]};
  }

  /** Sorting forgets the order, and nothing else. */
  lemma SortsAlike(a: seq<string>, b: seq<string>)
    ensures SortStrings(a) == SortStrings(b) <==> multiset(a) == multiset(b)
  {
    SortsAndKeeps(a);
    SortsAndKeeps(b);
    if multiset(a) == multiset(b) { SortedIsOne(SortStrings(a), SortStrings(b)); }
  }

  /** A set of strings has one sorted listing, so sorting forgets the order the elements were met in. */
  lemma {:induction false} SortedIsUnique(a: seq<string>, b: seq<string>)
    requires StrictlySorted(a) && StrictlySorted(b)
    requires forall x :: x in a <==> x in b
    ensures a == b
  {
    assert (a == [] || a[0] in a) && (b == [] || b[0] in b);
    if a != [] && b != [] {
      assert a[0] in b && b[0] in a;
      if a[0] != b[0] {
        var i :| 0 <= i < |b| && b[i] == a[0];
        var j :| 0 <= j < |a| && a[j] == b[0];
        LessTransitive(a[0], b[0], a[0]);
        LessIrreflexive(a[0]);
      }
      forall x ensures x in a[1..] <==> x in b[1..] {
        LessIrreflexive(x);
        assert x in a <==> x == a[0] || x in a[1..];
        assert x in b <==> x == b[0] || x in b[1..];
      }
      SortedIsUnique(a[1..], b[1..]);
      assert a == [a[0]] + a[1..] && b == [b[0]] + b[1..];
    }
  }

  /** The sorted listing of a finite set. */
  ghost function Listing(s: set<string>): (r: seq<string>)
    ensures StrictlySorted(r)
    ensures forall x :: x in r <==> x in s
  {
    if s == {} then [] else
      var x :| x in s;
      var rest := Listing(s - {x});
      InsertKeepsSorted(x, rest);
      Insert(x, rest)
  }

  lemma ListingOfSorted(ids: seq<string>, s: set<string>)
    requires Distinct(ids)
    requires forall x :: x in ids <==> x in s
    ensures SortStrings(ids) == Listing(s)
  {
    SortStringsSorts(ids);
    SortedIsUnique(SortStrings(ids), Listing(s));
  }

  /** The elements of a list. */
  function Elems(s: seq<string>): (r: set<string>)
    ensures forall x :: x in r <==> x in s
  {
    set x | x in s
  }

  lemma ElemsSnoc(s: seq<string>, i: nat)
    requires i < |s|
    ensures Elems(s[..i + 1]) == Elems(s[..i]) + {s[i]}
  {
    assert s[..i + 1] == s[..i] + [s[i]];
  }

  lemma {:induction false} DistinctCardinality(s: seq<string>, all: set<string>)
    requires Distinct(s) && forall x :: x in s <==> x in all
    ensures |all| == |s|
  {
    if s == [] {
      assert all == {};
    } else {
      forall x ensures x in s[1..] <==> x in all - {s[0]} {}
      DistinctCardinality(s[1..], all - {s[0]});
    }
  }

  lemma SubsetCardinality(a: set<string>, b: set<string>)
    requires a <= b
    ensures |a| <= |b| && (|a| == |b| ==> a == b)
  {
    assert b == a + (b - a);
  }
}
