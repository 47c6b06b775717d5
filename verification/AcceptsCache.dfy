/** The client's per-endpoint cache of payment requirements, and what a lookup can return over any run. */
module AcceptsCache {
  import opened Basics
  import opened Fifo

  /** The fields of a 402 challenge the client signs or sends. */
  datatype Requirement = Requirement(
    scheme: string, schemeVersion: string, network: string, asset: string, amount: string,
    payTo: string, canonicalDomain: string)

  class AcceptsCache {
    const ttlSec: int
    const maxEntries: int
    var entries: seq<Slot<Requirement>>

    constructor (ttlSec: int, maxEntries: int)
      ensures this.ttlSec == ttlSec && this.maxEntries == maxEntries && entries == []
    {
      this.ttlSec, this.maxEntries, entries := ttlSec, maxEntries, [];
    }

    method Get(key: string, now: int) returns (r: Option<Requirement>)
      modifies this
      ensures entries == After(old(entries), ttlSec, maxEntries, Lookup(key, now))
      ensures r == Answer(old(entries), ttlSec, key, now)
    {
      var entry := Find(entries, key);
      if entry.None? {
        return None;
      }
      if now - entry.value.at >= ttlSec {
        entries := Remove(entries, key);
        return None;
      }
      r := Some(entry.value.value);
    }

    method Set(key: string, requirement: Requirement, now: int)
      modifies this
      ensures entries == After(old(entries), ttlSec, maxEntries, Store(key, requirement, now))
    {
      entries := Remove(entries, key);
      if |entries| >= maxEntries && entries != [] {
        entries := entries[1..];
      }
      entries := entries + [Slot(key, requirement, now)];
    }

    method Delete(key: string)
      modifies this
      ensures entries == After(old(entries), ttlSec, maxEntries, Drop(key))
    {
      entries := Remove(entries, key);
    }
  }

  datatype Access =
    | Lookup(key: string, now: int)
    | Store(key: string, requirement: Requirement, now: int)
    | Drop(key: string)

  function After(m: seq<Slot<Requirement>>, ttl: int, cap: int, a: Access): seq<Slot<Requirement>> {
    match a
    case Lookup(key, now) =>
      var e := Find(m, key);
      if e.Some? && now - e.value.at >= ttl then Remove(m, key) else m
    case Store(key, requirement, now) => Put(m, cap, key, requirement, now)
    case Drop(key) => Remove(m, key)
  }

  function Answer(m: seq<Slot<Requirement>>, ttl: int, key: string, now: int): Option<Requirement> {
    var e := Find(m, key);
    if e.Some? && now - e.value.at < ttl then Some(e.value.value) else None
  }

  /** The entries after a run of accesses by whatever callers share the cache. */
  function Replayed(m: seq<Slot<Requirement>>, log: seq<Access>, ttl: int, cap: int): seq<Slot<Requirement>>
    decreases |log|
  {
    if log == [] then m else After(Replayed(m, log[..|log| - 1], ttl, cap), ttl, cap, log[|log| - 1])
  }

  function Contents(log: seq<Access>, ttl: int, cap: int): seq<Slot<Requirement>> {
    Replayed([], log, ttl, cap)
  }

  lemma {:induction false} ReplayedTwice(m: seq<Slot<Requirement>>, a: seq<Access>, b: seq<Access>, ttl: int, cap: int)
    ensures Replayed(m, a + b, ttl, cap) == Replayed(Replayed(m, a, ttl, cap), b, ttl, cap)
    decreases |b|
  {
    hide After;
    if b == [] {
      assert a + b == a;
    } else {
      assert (a + b)[..|a + b| - 1] == a + b[..|b| - 1];
      ReplayedTwice(m, a, b[..|b| - 1], ttl, cap);
    }
  }

  lemma ReplayedStep(m: seq<Slot<Requirement>>, log: seq<Access>, a: Access, ttl: int, cap: int)
    ensures Replayed(m, log + [a], ttl, cap) == After(Replayed(m, log, ttl, cap), ttl, cap, a)
  {
    assert (log + [a])[..|log|] == log;
  }

  lemma AfterKeyed(m: seq<Slot<Requirement>>, ttl: int, cap: int, a: Access)
    requires Keyed(m)
    ensures Keyed(After(m, ttl, cap, a))
  {
    match a
    case Lookup(key, _) => RemoveKeyed(m, key);
    case Store(key, requirement, now) => PutEffect(m, cap, key, requirement, now);
    case Drop(key) => RemoveKeyed(m, key);
  }

  lemma {:induction false} ReplayedKeyed(m: seq<Slot<Requirement>>, log: seq<Access>, ttl: int, cap: int)
    requires Keyed(m)
    ensures Keyed(Replayed(m, log, ttl, cap))
    decreases |log|
  {
    hide After, Keyed;
    if log != [] {
      ReplayedKeyed(m, log[..|log| - 1], ttl, cap);
      AfterKeyed(Replayed(m, log[..|log| - 1], ttl, cap), ttl, cap, log[|log| - 1]);
    }
  }

  /** The newest write to a key, if no deletion followed it. */
  function LastStored(log: seq<Access>, key: string): Option<(Requirement, int)> {
    if log == [] then None
    else
      match log[|log| - 1]
      case Store(k, requirement, now) =>
        if k == key then Some((requirement, now)) else LastStored(log[..|log| - 1], key)
      case Drop(k) => if k == key then None else LastStored(log[..|log| - 1], key)
      case Lookup(_, _) => LastStored(log[..|log| - 1], key)
  }

  /** Over any run of lookups, writes and deletions: the cache never exceeds its cap (of at least one), and a
      hit is the requirement last stored for that very key, not deleted since and younger than the TTL. */
  lemma {:induction false} HitsAreCurrent(log: seq<Access>, ttl: int, cap: int, key: string, now: int)
    requires cap >= 1
    ensures var m := Contents(log, ttl, cap);
      && Keyed(m) && |m| <= cap
      && (forall x | x in m :: LastStored(log, x.key) == Some((x.value, x.at)))
      && (Answer(m, ttl, key, now).Some? ==>
            && LastStored(log, key).Some?
            && Answer(m, ttl, key, now) == Some(LastStored(log, key).value.0)
            && now - LastStored(log, key).value.1 < ttl)
    decreases |log|
  {
    if log != [] {
      var head := log[..|log| - 1];
      HitsAreCurrent(head, ttl, cap, key, now);
      var m := Contents(head, ttl, cap);
      match log[|log| - 1]
      case Store(k, requirement, t) =>
        PutEffect(m, cap, k, requirement, t);
        FindUnique(Put(m, cap, k, requirement, t), k);
      case Drop(k) => RemoveKeyed(m, k);
      case Lookup(k, _) => RemoveKeyed(m, k);
    }
  }

  lemma FindUnique<V>(m: seq<Slot<V>>, key: string)
    requires Keyed(m)
    ensures forall x | x in m && x.key == key :: Find(m, key) == Some(x)
  {
    forall x | x in m && x.key == key ensures Find(m, key) == Some(x) {
      FindKeyed(m, x);
    }
  }
}
