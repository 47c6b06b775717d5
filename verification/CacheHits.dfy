/** When exactly the client's cache answers: which stored requirements are still there after any run. */
module CacheHits {
  import opened Basics
  import opened Fifo
  import opened AcceptsCache

  // ---------- what stands behind a key ----------

  ghost function Keys<V>(m: seq<Slot<V>>): set<string> {
    set x | x in m :: x.key
  }

  /** The keys that stand behind `key` in the list: those that were written later. */
  ghost function Behind<V>(m: seq<Slot<V>>, key: string): set<string> {
    if m == [] then {} else if m[0].key == key then Keys(m[1..]) else Behind(m[1..], key)
  }

  lemma KeysCons<V>(m: seq<Slot<V>>)
    requires m != []
    ensures Keys(m) == {m[0].key} + Keys(m[1..])
  {
    assert forall x :: x in m <==> x == m[0] || x in m[1..];
  }

  lemma {:induction false} RemoveKeys<V>(m: seq<Slot<V>>, key: string)
    requires Keyed(m)
    ensures Keys(Remove(m, key)) == Keys(m) - {key}
  {
    RemoveKeyed(m, key);
    forall k | k in Keys(m) - {key} ensures k in Keys(Remove(m, key)) {
      var x :| x in m && x.key == k;
      assert x in Remove(m, key);
    }
  }

  lemma KeyedTail<V>(m: seq<Slot<V>>)
    requires Keyed(m) && m != []
    ensures Keyed(m[1..]) && m[0].key !in Keys(m[1..])
  {}

  lemma {:induction false} RemoveBehind<V>(m: seq<Slot<V>>, key: string, other: string)
    requires Keyed(m) && other != key
    ensures Behind(Remove(m, key), other) == Behind(m, other) - {key}
  {
    if m != [] {
      KeyedTail(m);
      RemoveBehind(m[1..], key, other);
      RemoveKeys(m[1..], key);
    }
  }

  lemma KeysSnoc<V>(m: seq<Slot<V>>, x: Slot<V>)
    ensures Keys(m + [x]) == Keys(m) + {x.key}
  {
    assert forall y :: y in m + [x] <==> y in m || y == x;
  }

  lemma {:induction false} SnocBehind<V>(m: seq<Slot<V>>, x: Slot<V>, other: string)
    ensures other in Keys(m) ==> Behind(m + [x], other) == Behind(m, other) + {x.key}
    ensures other !in Keys(m) ==> Behind(m + [x], other) == {}
    ensures Keys(m + [x]) == Keys(m) + {x.key}
  {
    KeysSnoc(m, x);
    if m != [] {
      assert (m + [x])[1..] == m[1..] + [x];
      KeysCons(m);
      KeysSnoc(m[1..], x);
      SnocBehind(m[1..], x, other);
      hide Keys;
    } else {
      assert m + [x] == [x] && [x][1..] == [];
    }
  }

  lemma {:induction false} KeyedSize<V>(m: seq<Slot<V>>)
    requires Keyed(m)
    ensures |Keys(m)| == |m|
  {
    if m != [] {
      KeyedTail(m);
      KeysCons(m);
      KeyedSize(m[1..]);
    }
  }

  /** Behind any key but the first there are at most as many as the list has entries, less two. */
  lemma {:induction false} BehindSize<V>(m: seq<Slot<V>>, key: string)
    requires Keyed(m) && key in Keys(m)
    ensures |Behind(m, key)| <= |m| - 1
    ensures |Behind(m, key)| == |m| - 1 <==> m[0].key == key
  {
    KeyedTail(m);
    KeysCons(m);
    if m[0].key == key {
      KeyedSize(m[1..]);
    } else {
      BehindSize(m[1..], key);
    }
  }

  // ---------- what a run says about a key ----------

  /** The lookup finds the entry of `key` too old. */
  predicate Expires(head: seq<Access>, a: Access, ttl: int) {
    a.Lookup? && LastStored(head, a.key).Some? && a.now - LastStored(head, a.key).value.1 >= ttl
  }

  /** The other keys written since `key` was, and neither deleted nor found too old since. */
  function Crowd(log: seq<Access>, key: string, ttl: int): set<string> {
    if log == [] then {}
    else
      var head, a := log[..|log| - 1], log[|log| - 1];
      if a.Store? then (if a.key == key then {} else Crowd(head, key, ttl) + {a.key})
      else if a.Drop? || Expires(head, a, ttl) then Crowd(head, key, ttl) - {a.key}
      else Crowd(head, key, ttl)
  }

  /** `key` was written, not deleted and not found too old since, and its crowd never reached the cap. */
  predicate Stays(log: seq<Access>, key: string, ttl: int, cap: int) {
    log != [] &&
    var head, a := log[..|log| - 1], log[|log| - 1];
    if a.Store? then a.key == key || (Stays(head, key, ttl, cap) && |Crowd(log, key, ttl)| < cap)
    else Stays(head, key, ttl, cap) && !(a.key == key && (a.Drop? || Expires(head, a, ttl)))
  }

  /** The list and the run agree: who is there, and who stands behind whom. */
  ghost predicate Agrees(m: seq<Slot<Requirement>>, log: seq<Access>, ttl: int, cap: int) {
    && Keyed(m) && |m| <= cap
    && (forall key :: key in Keys(m) <==> Stays(log, key, ttl, cap))
    && (forall key | key in Keys(m) :: Behind(m, key) == Crowd(log, key, ttl))
  }

  lemma StoreAgrees(m: seq<Slot<Requirement>>, log: seq<Access>, ttl: int, cap: int)
    requires cap >= 1 && log != [] && log[|log| - 1].Store? && Agrees(m, log[..|log| - 1], ttl, cap)
    ensures var a := log[|log| - 1]; Agrees(Put(m, cap, a.key, a.requirement, a.now), log, ttl, cap)
  {
    var a := log[|log| - 1];
    PutEffect(m, cap, a.key, a.requirement, a.now);
    PutFront(m, cap, a.key, a.requirement, a.now);
    hide Put, Keys, Behind;
    forall key | key != a.key
      ensures key in Keys(Put(m, cap, a.key, a.requirement, a.now)) <==> Stays(log, key, ttl, cap)
      ensures key in Keys(Put(m, cap, a.key, a.requirement, a.now)) ==>
        Behind(Put(m, cap, a.key, a.requirement, a.now), key) == Crowd(log, key, ttl)
    {
      PutBehind(m, cap, a.key, a.requirement, a.now, key);
    }
  }

  lemma PutParts<V>(m: seq<Slot<V>>, cap: int, key: string, value: V, at: int)
    ensures var rest := Remove(m, key);
      Put(m, cap, key, value, at) == (if |rest| >= cap && rest != [] then rest[1..] else rest) + [Slot(key, value, at)]
  {}

  /** The key just written is there, with nothing behind it. */
  lemma PutFront<V>(m: seq<Slot<V>>, cap: int, key: string, value: V, at: int)
    requires Keyed(m)
    ensures key in Keys(Put(m, cap, key, value, at)) && Behind(Put(m, cap, key, value, at), key) == {}
  {
    var rest := Remove(m, key);
    var kept := if |rest| >= cap && rest != [] then rest[1..] else rest;
    PutParts(m, cap, key, value, at);
    hide Remove, Put, Behind;
    assert forall x | x in kept :: x in rest;
    SnocBehind(kept, Slot(key, value, at), key);
  }

  /** Another key stays unless the crowd behind it, the new key included, reaches the cap. */
  lemma PutBehind<V>(m: seq<Slot<V>>, cap: int, key: string, value: V, at: int, other: string)
    requires Keyed(m) && |m| <= cap && cap >= 1 && other != key
    ensures var r := Put(m, cap, key, value, at);
      && (other in Keys(r) <==> other in Keys(m) && |Behind(m, other) + {key}| < cap)
      && (other in Keys(r) ==> Behind(r, other) == Behind(m, other) + {key})
  {
    var rest := Remove(m, key);
    var kept := if |rest| >= cap && rest != [] then rest[1..] else rest;
    PutParts(m, cap, key, value, at);
    RemoveKeyed(m, key);
    RemoveKeys(m, key);
    RemoveBehind(m, key, other);
    SnocBehind(kept, Slot(key, value, at), other);
    hide Remove, Put;
    if other in Keys(m) {
      BehindSize(rest, other);
      CrowdSize(Behind(rest, other), Behind(m, other), key);
      TailBehind(rest, other);
    } else {
      hide Behind;
      assert other !in Keys(kept) by { TailKeys(rest, kept); }
    }
  }

  lemma TailKeys<V>(rest: seq<Slot<V>>, kept: seq<Slot<V>>)
    requires forall x | x in kept :: x in rest
    ensures Keys(kept) <= Keys(rest)
  {}

  lemma TailBehind<V>(rest: seq<Slot<V>>, other: string)
    requires Keyed(rest) && rest != []
    ensures other in Keys(rest[1..]) <==> other in Keys(rest) && rest[0].key != other
    ensures rest[0].key != other ==> Behind(rest[1..], other) == Behind(rest, other)
  {
    KeyedTail(rest);
    KeysCons(rest);
  }

  lemma CrowdSize(less: set<string>, crowd: set<string>, key: string)
    requires less == crowd - {key}
    ensures |crowd + {key}| == |less| + 1 && crowd + {key} == less + {key}
  {
    assert crowd + {key} == less + {key};
  }

  lemma RemovalAgrees(m: seq<Slot<Requirement>>, log: seq<Access>, ttl: int, cap: int)
    requires log != [] && Agrees(m, log[..|log| - 1], ttl, cap)
    requires var a := log[|log| - 1]; a.Drop? || Expires(log[..|log| - 1], a, ttl)
    ensures Agrees(Remove(m, log[|log| - 1].key), log, ttl, cap)
  {
    var a := log[|log| - 1];
    RemoveKeyed(m, a.key);
    RemoveKeys(m, a.key);
    hide Remove;
    forall key | key in Keys(m) && key != a.key ensures Behind(Remove(m, a.key), key) == Behind(m, key) - {a.key} {
      RemoveBehind(m, a.key, key);
    }
  }

  lemma {:induction false} ContentsAgree(log: seq<Access>, ttl: int, cap: int)
    requires cap >= 1
    ensures Agrees(Contents(log, ttl, cap), log, ttl, cap)
    decreases |log|
  {
    if log != [] {
      var head, a := log[..|log| - 1], log[|log| - 1];
      var m := Contents(head, ttl, cap);
      ContentsAgree(head, ttl, cap);
      if a.Store? {
        StoreAgrees(m, log, ttl, cap);
      } else {
        FoundIsLastStored(head, ttl, cap, a.key);
        if a.Drop? || (Find(m, a.key).Some? && Expires(head, a, ttl)) {
          RemovalAgrees(m, log, ttl, cap);
        } else if Expires(head, a, ttl) {
          AbsentStays(m, log, ttl, cap);
        }
      }
    }
  }

  /** A lookup that finds nothing changes nothing, however old the last write is. */
  lemma AbsentStays(m: seq<Slot<Requirement>>, log: seq<Access>, ttl: int, cap: int)
    requires log != [] && Agrees(m, log[..|log| - 1], ttl, cap) && Find(m, log[|log| - 1].key).None?
    requires Expires(log[..|log| - 1], log[|log| - 1], ttl)
    ensures Agrees(m, log, ttl, cap)
  {
    var a := log[|log| - 1];
    assert a.key !in Keys(m);
    forall key | key in Keys(m) ensures a.key !in Behind(m, key) {
      BehindIsInside(m, key);
    }
  }

  lemma {:induction false} BehindIsInside<V>(m: seq<Slot<V>>, key: string)
    ensures Behind(m, key) <= Keys(m)
  {
    if m != [] {
      KeysCons(m);
      BehindIsInside(m[1..], key);
    }
  }

  lemma FoundIsLastStored(log: seq<Access>, ttl: int, cap: int, key: string)
    requires cap >= 1
    ensures var e := Find(Contents(log, ttl, cap), key);
      e.Some? ==> LastStored(log, key) == Some((e.value.value, e.value.at))
  {
    HitsAreCurrent(log, ttl, cap, key, 0);
  }

  /** The exact condition: a lookup is answered if and only if the key was stored, is younger than the TTL, was
      neither deleted nor found too old since, and never had as many other live keys written after it as the cache
      holds. The answer is then the requirement stored last. */
  lemma HitsExactlyWhen(log: seq<Access>, ttl: int, cap: int, key: string, now: int)
    requires cap >= 1
    ensures var r := Answer(Contents(log, ttl, cap), ttl, key, now);
      var last := LastStored(log, key);
      && (r.Some? <==> last.Some? && Stays(log, key, ttl, cap) && now - last.value.1 < ttl)
      && (r.Some? ==> r == Some(last.value.0))
  {
    ContentsAgree(log, ttl, cap);
    FoundIsLastStored(log, ttl, cap, key);
    var m := Contents(log, ttl, cap);
    assert Find(m, key).Some? <==> key in Keys(m);
  }
}
