/** The capacity-bounded cache of compiled engines (cmd/flowd/server/lru.go). */
module EngineCaching {
  import opened Prelude

  /** A list element; its value is replaced in place. */
  class Entry<V> {
    const key: string
    var value: V

    constructor (key: string, value: V)
      ensures this.key == key && this.value == value
    {
      this.key, this.value := key, value;
    }
  }

  // ---------------------------------------------------------------- the list and the index

  function Keys<V>(order: seq<Entry<V>>): (r: seq<string>)
    ensures |r| == |order| && forall i :: 0 <= i < |order| ==> r[i] == order[i].key
  {
    seq(|order|, i requires 0 <= i < |order| => order[i].key)
  }

  /** The index points at exactly the elements of the list, by their keys. */
  ghost predicate Indexed<V>(order: seq<Entry<V>>, items: map<string, Entry<V>>) {
    && Distinct(Keys(order))
    && (forall e :: e in order ==> e.key in items && items[e.key] == e)
    && (forall k :: k in items ==> items[k] in order && items[k].key == k)
  }

  /** The list runs from the most to the least recently used key. */
  ghost predicate ByUse(keys: seq<string>, used: map<string, nat>, now: nat) {
    && (forall i :: 0 <= i < |keys| ==> keys[i] in used && used[keys[i]] < now)
    && (forall i, j :: 0 <= i < j < |keys| ==> keys[i] in used && keys[j] in used && used[keys[j]] < used[keys[i]])
  }

  function Without<T>(s: seq<T>, i: nat): (r: seq<T>)
    requires i < |s|
    ensures |r| == |s| - 1 && forall j :: 0 <= j < |r| ==> r[j] == s[if j < i then j else j + 1]
    ensures forall x :: x in s ==> x == s[i] || x in r
    ensures forall x :: x in r ==> x in s
  {
    var r := s[..i] + s[i + 1..];
    assert forall j :: 0 <= j < |s| && j != i ==> s[j] == r[if j < i then j else j - 1];
    r
  }

  lemma KeysWithout<V>(order: seq<Entry<V>>, i: nat)
    requires i < |order|
    ensures Keys(Without(order, i)) == Without(Keys(order), i)
  {
  }

  lemma IndexedWithout<V>(order: seq<Entry<V>>, items: map<string, Entry<V>>, i: nat)
    requires Indexed(order, items) && i < |order|
    ensures Indexed(Without(order, i), items - {order[i].key})
  {
    var rest := Without(order, i);
    forall e | e in rest ensures e.key != order[i].key {
      var j :| 0 <= j < |rest| && rest[j] == e;
      var m := if j < i then j else j + 1;
      assert Keys(order)[m] == e.key && Keys(order)[i] == order[i].key;
    }
    DistinctWithout(Keys(order), i);
    KeysWithout(order, i);
  }

  lemma DistinctWithout<T>(s: seq<T>, i: nat)
    requires Distinct(s) && i < |s|
    ensures Distinct(Without(s, i)) && s[i] !in Without(s, i)
  {
  }

  lemma IndexedFront<V>(order: seq<Entry<V>>, items: map<string, Entry<V>>, e: Entry<V>)
    requires Indexed(order, items) && e.key !in items
    ensures Indexed([e] + order, items[e.key := e])
  {
    var all := [e] + order;
    forall k | k in Keys(order) ensures k in items {
      var j :| 0 <= j < |order| && Keys(order)[j] == k;
      assert order[j] in order;
    }
    assert Keys(all) == [e.key] + Keys(order);
    DistinctFront(Keys(order), e.key);
  }

  lemma DistinctFront<T>(s: seq<T>, x: T)
    requires Distinct(s) && x !in s
    ensures Distinct([x] + s)
  {
    forall i, j | 0 <= i < j < |[x] + s| ensures ([x] + s)[i] != ([x] + s)[j] {
      if i > 0 { assert ([x] + s)[i] == s[i - 1] && ([x] + s)[j] == s[j - 1]; }
    }
  }

  lemma ByUseWithout(keys: seq<string>, used: map<string, nat>, now: nat, i: nat)
    requires ByUse(keys, used, now) && i < |keys|
    ensures ByUse(Without(keys, i), used, now)
  {
  }

  lemma ByUseFront(keys: seq<string>, used: map<string, nat>, now: nat, key: string)
    requires ByUse(keys, used, now) && key !in keys
    ensures ByUse([key] + keys, used[key := now], now + 1)
  {
    var all := [key] + keys;
    assert forall j :: 0 < j < |all| ==> all[j] == keys[j - 1] && keys[j - 1] in keys;
  }

  /** The last key of the list is the one not used for longest. */
  ghost predicate IsOldest(key: string, keys: set<string>, used: map<string, nat>) {
    key in used && forall k :: k in keys && k != key ==> k in used && used[key] < used[k]
  }

  lemma BackIsOldest<V>(order: seq<Entry<V>>, items: map<string, Entry<V>>, used: map<string, nat>, now: nat)
    requires order != [] && Indexed(order, items) && ByUse(Keys(order), used, now)
    ensures order[|order| - 1].key in items && IsOldest(order[|order| - 1].key, items.Keys, used)
  {
    var back := order[|order| - 1];
    assert back in order && Keys(order)[|order| - 1] == back.key;
    forall k | k in items && k != back.key ensures k in used && used[back.key] < used[k] {
      var i :| 0 <= i < |order| && order[i] == items[k];
      assert Keys(order)[i] == k;
    }
  }

  // ---------------------------------------------------------------- the cache

  class EngineCache<V> {
    const cap: int
    var items: map<string, Entry<V>>
    /** The list: most recently used first. */
    var order: seq<Entry<V>>
    /** What the cache holds, and when each key was last used by a clock that ticks on every use. */
    ghost var contents: map<string, V>
    ghost var used: map<string, nat>
    ghost var now: nat
    ghost var Repr: set<object>

    ghost predicate Ordered()
      reads this
    {
      Indexed(order, items) && ByUse(Keys(order), used, now)
    }

    ghost predicate Holds()
      reads this, Repr
    {
      && this in Repr && (forall k :: k in items ==> items[k] in Repr)
      && contents.Keys == items.Keys && forall k :: k in items ==> items[k].value == contents[k]
    }

    ghost predicate Valid()
      reads this, Repr
    {
      Holds() && Ordered() && (cap > 0 ==> |order| <= cap)
    }

    constructor (cap: int)
      ensures Valid() && this.cap == cap && contents == map[] && fresh(Repr)
    {
      this.cap, items, order, contents, used, now, Repr := cap, map[], [], map[], map[], 0, {this};
    }

    /** The position of an indexed element. */
    method Position(e: Entry<V>) returns (i: nat)
      requires e in order
      ensures i < |order| && order[i] == e
    {
      i := 0;
      while order[i] != e
        invariant i < |order| && e in order[i..]
        decreases |order| - i
      {
        i := i + 1;
      }
    }

    /** PushFront of a new element, which may take the list over capacity. */
    method PushFront(e: Entry<V>)
      requires Ordered() && e.key !in items
      modifies this`items, this`order, this`used, this`now
      ensures Ordered() && order == [e] + old(order) && items == old(items)[e.key := e]
      ensures used == old(used)[e.key := old(now)] && now == old(now) + 1
    {
      hide Indexed, ByUse, Distinct;
      IndexedFront(order, items, e);
      NotListed(order, items, e.key);
      ByUseFront(Keys(order), used, now, e.key);
      assert Keys([e] + order) == [e.key] + Keys(order);
      order := [e] + order;
      items := items[e.key := e];
      used, now := used[e.key := now], now + 1;
    }

    /** Removes the element at position i from the list and the index. */
    method Remove(i: nat)
      requires Ordered() && i < |order|
      modifies this`items, this`order
      ensures Ordered() && order == Without(old(order), i) && items == old(items) - {old(order)[i].key}
    {
      hide Indexed, ByUse, Distinct;
      IndexedWithout(order, items, i);
      ByUseWithout(Keys(order), used, now, i);
      KeysWithout(order, i);
      items := items - {order[i].key};
      order := Without(order, i);
    }

    /** MoveToFront of the element at position i. */
    method MoveToFront(i: nat)
      requires Ordered() && i < |order|
      modifies this`items, this`order, this`used, this`now
      ensures Ordered() && items == old(items) && order == [old(order)[i]] + Without(old(order), i)
      ensures used == old(used)[old(order)[i].key := old(now)] && now == old(now) + 1
    {
      hide Indexed, ByUse, Distinct;
      var e := order[i];
      ElementIndexed(order, items, e);
      Remove(i);
      PushFront(e);
      assert items == old(items);
    }

    /** A hit returns the cached value and makes the key the most recently used; nothing else changes. */
    method Get(key: string) returns (r: Option<V>)
      requires Valid()
      modifies this`items, this`order, this`used, this`now
      ensures Valid() && contents == old(contents) && Repr == old(Repr)
      ensures r == (if key in contents then Some(contents[key]) else None)
      ensures used == (if key in contents then old(used)[key := old(now)] else old(used))
    {
      hide Indexed, ByUse, Distinct;
      if key !in items { return None; }
      KeyListed(order, items, key);
      var i := Position(items[key]);
      MoveToFront(i);
      return Some(items[key].value);
    }

    /** The last element of the list is the least recently used one. */
    method EvictLRU()
      requires Ordered() && order != []
      modifies this`items, this`order
      ensures Ordered() && order == Without(old(order), |old(order)| - 1)
      ensures items == old(items) - {old(order)[|old(order)| - 1].key}
    {
      Remove(|order| - 1);
    }

    method Replace(key: string, value: V)
      requires Valid() && key in items
      modifies Repr
      ensures Valid() && Repr == old(Repr) && contents == old(contents)[key := value]
      ensures used == old(used)[key := old(now)]
    {
      hide Indexed, ByUse, Distinct;
      KeyListed(order, items, key);
      OthersDiffer(order, items, key);
      var e := items[key];
      e.value := value;
      contents := contents[key := value];
      var i := Position(e);
      MoveToFront(i);
    }

    method Add(key: string, value: V)
      requires Valid() && key !in items
      modifies this
      ensures Holds() && Ordered() && fresh(Repr - old(Repr)) && contents == old(contents)[key := value]
      ensures used == old(used)[key := old(now)] && |order| == old(|order|) + 1 && order[1..] == old(order)
    {
      hide Indexed, ByUse, Distinct;
      var entry := new Entry(key, value);
      PushFront(entry);
      contents, Repr := contents[key := value], Repr + {entry};
    }

    /** Set: what is cached afterwards, and which key had to go: none unless a new key finds the cache full,
        and then the least recently used one. */
    method Set(key: string, value: V) returns (ghost victim: Option<string>)
      requires Valid()
      modifies Repr
      ensures Valid() && fresh(Repr - old(Repr))
      ensures contents == old(contents)[key := value] - (if victim.Some? then {victim.value} else {})
      ensures victim.Some? <==> key !in old(contents) && cap > 0 && |old(order)| == cap
      ensures victim.Some? ==> victim.value in old(contents) && victim.value != key && IsOldest(victim.value, old(contents.Keys), old(used))
      ensures key in used && used[key] == old(now)
    {
      hide Indexed, ByUse, Distinct, IsOldest;
      victim := None;
      if key in items {
        Replace(key, value);
        return;
      }
      if cap > 0 && |order| + 1 > cap {
        victim := Some(order[|order| - 1].key);
        BackIsOldest(order, items, used, now);
      }
      Add(key, value);
      if cap > 0 && |order| > cap {
        assert order[|order| - 1] == order[1..][|order| - 2];
        EvictLRU();
        contents := contents - {victim.value};
      }
    }

    /** Delete is idempotent. */
    method Delete(key: string)
      requires Valid()
      modifies this`items, this`order, this`contents
      ensures Valid() && contents == old(contents) - {key} && Repr == old(Repr)
    {
      hide Indexed, ByUse, Distinct;
      if key !in items { return; }
      KeyListed(order, items, key);
      var i := Position(items[key]);
      Remove(i);
      contents := contents - {key};
    }
  }

  lemma NotListed<V>(order: seq<Entry<V>>, items: map<string, Entry<V>>, key: string)
    requires Indexed(order, items) && key !in items
    ensures key !in Keys(order)
  {
    forall k | k in Keys(order) ensures k in items {
      var i :| 0 <= i < |order| && Keys(order)[i] == k;
      assert order[i] in order;
    }
  }

  lemma KeyListed<V>(order: seq<Entry<V>>, items: map<string, Entry<V>>, key: string)
    requires Indexed(order, items) && key in items
    ensures items[key] in order && items[key].key == key
  {
  }

  lemma ElementIndexed<V>(order: seq<Entry<V>>, items: map<string, Entry<V>>, e: Entry<V>)
    requires Indexed(order, items) && e in order
    ensures e.key in items && items[e.key] == e
  {
  }

  lemma OthersDiffer<V>(order: seq<Entry<V>>, items: map<string, Entry<V>>, key: string)
    requires Indexed(order, items) && key in items
    ensures forall k :: k in items && k != key ==> items[k] != items[key]
  {
  }
}
