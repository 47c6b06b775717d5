/** The insertion-ordered, capped map both caches are built on. */
module Fifo {
  import opened Basics

  /** One entry: key, value, and when it was stored. */
  datatype Slot<+V> = Slot(key: string, value: V, at: int)

  predicate Keyed<V>(m: seq<Slot<V>>) {
    forall i, j | 0 <= i < j < |m| :: m[i].key != m[j].key
  }

  function Find<V>(m: seq<Slot<V>>, key: string): (r: Option<Slot<V>>)
    ensures r.Some? ==> r.value in m && r.value.key == key
    ensures r.None? ==> forall x | x in m :: x.key != key
  {
    if m == [] then None else if m[0].key == key then Some(m[0]) else Find(m[1..], key)
  }

  function Remove<V>(m: seq<Slot<V>>, key: string): (r: seq<Slot<V>>)
    ensures |r| <= |m| && forall x | x in r :: x in m && x.key != key
  {
    if m == [] then [] else if m[0].key == key then Remove(m[1..], key) else [m[0]] + Remove(m[1..], key)
  }

  /** Reinserts at the back; when the map is full the oldest entry goes first. */
  function Put<V>(m: seq<Slot<V>>, maxEntries: int, key: string, value: V, at: int): seq<Slot<V>> {
    var rest := Remove(m, key);
    var kept := if |rest| >= maxEntries && rest != [] then rest[1..] else rest;
    kept + [Slot(key, value, at)]
  }

  lemma KeyedCons<V>(x: Slot<V>, m: seq<Slot<V>>)
    requires Keyed(m) && forall y | y in m :: y.key != x.key
    ensures Keyed([x] + m)
  {}

  lemma {:induction false} RemoveKeyed<V>(m: seq<Slot<V>>, key: string)
    requires Keyed(m)
    ensures Keyed(Remove(m, key))
    ensures forall x | x in m && x.key != key :: x in Remove(m, key)
  {
    if m != [] {
      var tail := m[1..];
      RemoveKeyed(tail, key);
      assert forall x | x in tail :: x.key != m[0].key;
      if m[0].key != key {
        KeyedCons(m[0], Remove(tail, key));
      }
      forall x | x in m && x.key != key ensures x in Remove(m, key) {
        assert x == m[0] || x in tail;
      }
    }
  }

  lemma {:induction false} FindKeyed<V>(m: seq<Slot<V>>, x: Slot<V>)
    requires Keyed(m) && x in m
    ensures Find(m, x.key) == Some(x)
  {
    if m[0] != x {
      assert x in m[1..];
      FindKeyed(m[1..], x);
    }
  }

  lemma KeyedSnoc<V>(m: seq<Slot<V>>, x: Slot<V>)
    requires Keyed(m) && forall y | y in m :: y.key != x.key
    ensures Keyed(m + [x])
  {}

  /** What a write does: the new entry is found, keys stay distinct, the cap holds for every cap of at least
      one, and every other entry survives unless it was the oldest one of a full map. */
  lemma PutEffect<V>(m: seq<Slot<V>>, maxEntries: int, key: string, value: V, at: int)
    requires Keyed(m)
    ensures var r := Put(m, maxEntries, key, value, at);
      && Keyed(r) && Find(r, key) == Some(Slot(key, value, at))
      && (|m| <= maxEntries && maxEntries >= 1 ==> |r| <= maxEntries)
      && (forall x | x in r && x.key != key :: x in m)
      && (forall x | x in m && x.key != key && x !in r ::
            Remove(m, key) != [] && |Remove(m, key)| >= maxEntries && Remove(m, key)[0] == x)
  {
    RemoveKeyed(m, key);
    var rest := Remove(m, key);
    var kept := if |rest| >= maxEntries && rest != [] then rest[1..] else rest;
    var r := Put(m, maxEntries, key, value, at);
    hide Put, Find, Remove;
    assert r == kept + [Slot(key, value, at)];
    assert forall x | x in kept :: x in rest;
    KeyedSnoc(kept, Slot(key, value, at));
    FindKeyed(r, Slot(key, value, at));
    forall x | x in m && x.key != key && x !in r ensures rest != [] && |rest| >= maxEntries && rest[0] == x {
      assert x in rest && x !in kept;
    }
  }
}
