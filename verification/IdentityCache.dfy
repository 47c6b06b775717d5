/** The cached identity provider across asynchronous steps: lookups, refreshes, RPC answers and failures, and
    the clean-up that follows each. */
module IdentityCache {
  import opened Basics
  import opened Fifo
  import N = Names
  import NofM

  datatype Resolved = Resolved(state: NofM.IdentityState, systemId: string)

  datatype Config = Config(ttlSec: int, minRefreshAgeSec: int, maxEntries: int)

  /** `rpcs` counts the calls the node has not answered yet, `settled` the answered ones whose clean-up is still
      to run; both are kept by the node and the event loop, not by the provider. */
  datatype Provider = Provider(cache: seq<Slot<Resolved>>, inflight: set<string>, rpcs: multiset<string>,
                               settled: multiset<string>)

  const EMPTY := Provider([], {}, multiset{}, multiset{})

  datatype Event =
    | Lookup(identity: string, now: int)
    | Refresh(identity: string, now: int)
    | Answered(key: string, resolved: Resolved, now: int)
    | Failed(key: string)
    | CleanedUp(key: string)

  datatype Reply = FromCache(resolved: Resolved) | Joins | Calls

  /** A cached entry younger than `age`. */
  function Young(cache: seq<Slot<Resolved>>, key: string, age: int, now: int): Option<Resolved> {
    var entry := Find(cache, key);
    if entry.Some? && now - entry.value.at < age then Some(entry.value.value) else None
  }

  /** Joins the call in flight for the key, or makes one. */
  function Fetch(p: Provider, key: string): (Provider, Reply) {
    if key in p.inflight then (p, Joins)
    else (p.(inflight := p.inflight + {key}, rpcs := p.rpcs + multiset{key}), Calls)
  }

  function Ask(p: Provider, identity: string, age: int, now: int): (Provider, Reply) {
    var key := N.NormalizeIdentityKey(identity);
    match Young(p.cache, key, age, now)
    case Some(resolved) => (p, FromCache(resolved))
    case None => Fetch(p, key)
  }

  function After(p: Provider, e: Event, cfg: Config): Provider {
    match e
    case Lookup(identity, now) => Ask(p, identity, cfg.ttlSec, now).0
    case Refresh(identity, now) => Ask(p, identity, cfg.minRefreshAgeSec, now).0
    case Answered(key, resolved, now) =>
      p.(cache := Put(p.cache, cfg.maxEntries, key, resolved, now),
         rpcs := p.rpcs - multiset{key}, settled := p.settled + multiset{key})
    case Failed(key) => p.(rpcs := p.rpcs - multiset{key}, settled := p.settled + multiset{key})
    case CleanedUp(key) => p.(inflight := p.inflight - {key}, settled := p.settled - multiset{key})
  }

  /** Only open calls are answered or fail, and only settled ones are cleaned up. */
  predicate Possible(p: Provider, e: Event) {
    match e
    case Answered(key, _, _) => key in p.rpcs
    case Failed(key) => key in p.rpcs
    case CleanedUp(key) => key in p.settled
    case _ => true
  }

  function Run(log: seq<Event>, cfg: Config): Provider {
    if log == [] then EMPTY else After(Run(log[..|log| - 1], cfg), log[|log| - 1], cfg)
  }

  predicate Feasible(log: seq<Event>, cfg: Config) {
    log == [] || (Feasible(log[..|log| - 1], cfg) && Possible(Run(log[..|log| - 1], cfg), log[|log| - 1]))
  }

  // ---------- the provider ----------

  class CachedIdentityProvider {
    const cfg: Config
    var cache: seq<Slot<Resolved>>
    var inflight: set<string>
    ghost var rpcs: multiset<string>
    ghost var settled: multiset<string>

    constructor (cfg: Config)
      ensures this.cfg == cfg && Model() == EMPTY
    {
      this.cfg := cfg;
      cache, inflight, rpcs, settled := [], {}, multiset{}, multiset{};
    }

    ghost function Model(): Provider
      reads this
    {
      Provider(cache, inflight, rpcs, settled)
    }

    method FetchState(key: string) returns (reply: Reply)
      modifies this
      ensures (Model(), reply) == Fetch(old(Model()), key)
    {
      if key in inflight {
        return Joins;
      }
      inflight := inflight + {key};
      rpcs := rpcs + multiset{key};
      reply := Calls;
    }

    method GetIdentityState(identity: string, now: int) returns (reply: Reply)
      modifies this
      ensures Model() == After(old(Model()), Lookup(identity, now), cfg)
      ensures reply == Ask(old(Model()), identity, cfg.ttlSec, now).1
    {
      var key := N.NormalizeIdentityKey(identity);
      var entry := Find(cache, key);
      if entry.Some? && now - entry.value.at < cfg.ttlSec {
        return FromCache(entry.value.value);
      }
      reply := FetchState(key);
    }

    method RefreshIdentityState(identity: string, now: int) returns (reply: Reply)
      modifies this
      ensures Model() == After(old(Model()), Refresh(identity, now), cfg)
      ensures reply == Ask(old(Model()), identity, cfg.minRefreshAgeSec, now).1
    {
      var key := N.NormalizeIdentityKey(identity);
      var entry := Find(cache, key);
      if entry.Some? && now - entry.value.at < cfg.minRefreshAgeSec {
        return FromCache(entry.value.value);
      }
      reply := FetchState(key);
    }

    /** The call answered: reinsert at the back, evicting the oldest entry of a full cache. */
    method Store(key: string, resolved: Resolved, now: int)
      modifies this
      ensures Model() == After(old(Model()), Answered(key, resolved, now), cfg)
    {
      hide Remove, Ask, Find, Fetch, Young;
      cache := Remove(cache, key);
      if |cache| >= cfg.maxEntries && cache != [] {
        cache := cache[1..];
      }
      cache := cache + [Slot(key, resolved, now)];
      assert cache == Put(old(cache), cfg.maxEntries, key, resolved, now);
      hide Put;
      rpcs, settled := rpcs - multiset{key}, settled + multiset{key};
    }

    method CleanUp(key: string)
      modifies this
      ensures Model() == After(old(Model()), CleanedUp(key), cfg)
    {
      inflight := inflight - {key};
      settled := settled - multiset{key};
    }
  }

  // ---------- single flight ----------

  ghost predicate SingleFlight(p: Provider) {
    forall k :: p.rpcs[k] + p.settled[k] == if k in p.inflight then 1 else 0
  }

  lemma StepSingleFlight(p: Provider, e: Event, cfg: Config)
    requires SingleFlight(p) && Possible(p, e)
    ensures SingleFlight(After(p, e, cfg))
  {
    hide Put, Young, SingleFlight;
    match e
    case Lookup(identity, now) => AskSingleFlight(p, identity, cfg.ttlSec, now);
    case Refresh(identity, now) => AskSingleFlight(p, identity, cfg.minRefreshAgeSec, now);
    case Answered(key, _, _) => SettleSingleFlight(p, After(p, e, cfg), key);
    case Failed(key) => SettleSingleFlight(p, After(p, e, cfg), key);
    case CleanedUp(key) => CleanUpSingleFlight(p, key);
  }

  lemma AskSingleFlight(p: Provider, identity: string, age: int, now: int)
    requires SingleFlight(p)
    ensures SingleFlight(Ask(p, identity, age, now).0)
  {
    hide Young;
  }

  lemma SettleSingleFlight(p: Provider, q: Provider, key: string)
    requires SingleFlight(p) && key in p.rpcs && q.inflight == p.inflight
    requires q.rpcs == p.rpcs - multiset{key} && q.settled == p.settled + multiset{key}
    ensures SingleFlight(q)
  {
    assert p.rpcs[key] > 0;
  }

  lemma CleanUpSingleFlight(p: Provider, key: string)
    requires SingleFlight(p) && key in p.settled
    ensures SingleFlight(p.(inflight := p.inflight - {key}, settled := p.settled - multiset{key}))
  {
    assert p.settled[key] > 0;
  }

  /** Over every interleaving, no key ever has two calls open at the node, and a key without one is free to be
      fetched again as soon as its clean-up has run. */
  lemma {:induction false} OneCallPerKey(log: seq<Event>, cfg: Config)
    requires Feasible(log, cfg)
    ensures SingleFlight(Run(log, cfg))
    ensures forall k :: Run(log, cfg).rpcs[k] <= 1
    decreases |log|
  {
    if log != [] {
      OneCallPerKey(log[..|log| - 1], cfg);
      StepSingleFlight(Run(log[..|log| - 1], cfg), log[|log| - 1], cfg);
    }
  }

  // ---------- what is in the cache ----------

  /** The answers of a run, one slot per key, in the order of each key's latest answer. */
  function Answers(log: seq<Event>): seq<Slot<Resolved>> {
    if log == [] then []
    else
      var before := Answers(log[..|log| - 1]);
      match log[|log| - 1]
      case Answered(key, resolved, now) => Remove(before, key) + [Slot(key, resolved, now)]
      case _ => before
  }

  /** The latest answer for a key. */
  function LastAnswer(log: seq<Event>, key: string): Option<(Resolved, int)> {
    if log == [] then None
    else
      match log[|log| - 1]
      case Answered(k, resolved, now) => if k == key then Some((resolved, now)) else LastAnswer(log[..|log| - 1], key)
      case _ => LastAnswer(log[..|log| - 1], key)
  }

  function Newest<T>(s: seq<T>, n: nat): seq<T> {
    if |s| <= n then s else s[|s| - n..]
  }

  lemma {:induction false} RemoveConcat<V>(a: seq<Slot<V>>, b: seq<Slot<V>>, key: string)
    ensures Remove(a + b, key) == Remove(a, key) + Remove(b, key)
  {
    if a == [] {
      assert a + b == b;
    } else {
      assert (a + b)[1..] == a[1..] + b;
      RemoveConcat(a[1..], b, key);
    }
  }

  lemma {:induction false} RemoveAbsent<V>(m: seq<Slot<V>>, key: string)
    requires forall x | x in m :: x.key != key
    ensures Remove(m, key) == m
  {
    if m != [] {
      RemoveAbsent(m[1..], key);
    }
  }

  lemma {:induction false} RemoveSize<V>(m: seq<Slot<V>>, key: string)
    requires Keyed(m)
    ensures |Remove(m, key)| == |m| - (if exists x :: x in m && x.key == key then 1 else 0)
  {
    if m != [] {
      assert forall x | x in m[1..] :: x.key != m[0].key by {
        forall x | x in m[1..] ensures x.key != m[0].key {
          var i :| 0 <= i < |m| - 1 && m[1..][i] == x;
          assert m[i + 1] == x;
        }
      }
      RemoveSize(m[1..], key);
      if m[0].key == key {
        RemoveAbsent(m[1..], key);
        assert m[0] in m;
      } else {
        forall x | x in m && x.key == key ensures x in m[1..] {
        }
      }
    }
  }

  lemma NewestSnoc<T>(s: seq<T>, x: T, n: nat)
    requires n >= 1
    ensures Newest(s + [x], n) == Newest(s, n - 1) + [x]
  {}

  lemma NewestOfSuffix<T>(a: seq<T>, b: seq<T>, n: nat)
    requires a == [] || |b| >= n
    ensures Newest(a + b, n) == Newest(b, n)
  {
    if a == [] {
      assert a + b == b;
    }
  }

  lemma NewestSplit<V>(u: seq<Slot<V>>, cap: nat) returns (older: seq<Slot<V>>)
    requires Keyed(u)
    ensures u == older + Newest(u, cap) && (older == [] || |Newest(u, cap)| == cap) && Keyed(Newest(u, cap))
  {
    older := u[..|u| - |Newest(u, cap)|];
  }

  lemma NewestRemoved<V>(u: seq<Slot<V>>, cap: nat, key: string)
    requires Keyed(u)
    ensures |Newest(u, cap)| - 1 <= |Remove(Newest(u, cap), key)| <= |Newest(u, cap)| <= cap
  {
    var older := NewestSplit(u, cap);
    RemoveSize(Newest(u, cap), key);
    hide Remove, Keyed;
  }

  lemma PutKeepsNewest<V>(m: seq<Slot<V>>, cap: nat, key: string, value: V, at: int)
    requires cap >= 1 && |Remove(m, key)| <= cap
    ensures Put(m, cap, key, value, at) == Newest(Remove(m, key), cap - 1) + [Slot(key, value, at)]
  {
    hide Remove;
  }

  /** Writing to the newest entries of a list gives the newest entries of the list written to. */
  lemma PutNewest<V>(u: seq<Slot<V>>, cap: nat, key: string, value: V, at: int)
    requires Keyed(u) && cap >= 1
    ensures Put(Newest(u, cap), cap, key, value, at) == Newest(Remove(u, key) + [Slot(key, value, at)], cap)
  {
    hide Remove, Find, Put, Newest, Keyed;
    var m := Newest(u, cap);
    var older := NewestSplit(u, cap);
    var rest := Remove(m, key);
    RemoveConcat(older, m, key);
    NewestRemoved(u, cap, key);
    RemoveAbsent<V>([], key);
    PutKeepsNewest(m, cap, key, value, at);
    NewestOfSuffix(Remove(older, key), rest, cap - 1);
    NewestSnoc(Remove(u, key), Slot(key, value, at), cap);
  }

  /** `Answers` and `LastAnswer` agree, key by key. */
  ghost predicate Recorded(log: seq<Event>) {
    && Keyed(Answers(log)) && (forall x | x in Answers(log) :: LastAnswer(log, x.key) == Some((x.value, x.at)))
    && forall k | LastAnswer(log, k).Some? :: Find(Answers(log), k).Some?
  }

  /** The cache holds exactly the most recently answered keys, each with its latest answer: as many as fit.
      Failures leave no trace. */
  lemma {:induction false} CacheIsNewest(log: seq<Event>, cfg: Config)
    requires cfg.maxEntries >= 1
    ensures Run(log, cfg).cache == Newest(Answers(log), cfg.maxEntries)
    ensures |Run(log, cfg).cache| <= cfg.maxEntries
    ensures Keyed(Answers(log)) && forall x | x in Answers(log) :: LastAnswer(log, x.key) == Some((x.value, x.at))
    ensures forall k | LastAnswer(log, k).Some? :: Find(Answers(log), k).Some?
    decreases |log|
  {
    if log != [] {
      CacheIsNewest(log[..|log| - 1], cfg);
      CacheStep(log, cfg);
      RecordedStep(log);
    }
  }

  lemma CacheStep(log: seq<Event>, cfg: Config)
    requires cfg.maxEntries >= 1 && log != [] && Keyed(Answers(log[..|log| - 1]))
    requires Run(log[..|log| - 1], cfg).cache == Newest(Answers(log[..|log| - 1]), cfg.maxEntries)
    ensures Run(log, cfg).cache == Newest(Answers(log), cfg.maxEntries)
  {
    hide After, Put, Remove, Newest, Keyed;
    var head, e := log[..|log| - 1], log[|log| - 1];
    AfterCache(Run(head, cfg), e, cfg);
    if e.Answered? {
      PutNewest(Answers(head), cfg.maxEntries, e.key, e.resolved, e.now);
    }
  }

  lemma AfterCache(p: Provider, e: Event, cfg: Config)
    ensures After(p, e, cfg).cache ==
      if e.Answered? then Put(p.cache, cfg.maxEntries, e.key, e.resolved, e.now) else p.cache
  {
    hide Put, Young;
  }

  lemma RecordedStep(log: seq<Event>)
    requires log != [] && Recorded(log[..|log| - 1])
    ensures Recorded(log)
  {
    hide Remove, Find, Keyed;
    var before := Answers(log[..|log| - 1]);
    match log[|log| - 1]
    case Answered(key, resolved, now) =>
      var slot := Slot(key, resolved, now);
      RemoveKeyed(before, key);
      KeyedSnoc(Remove(before, key), slot);
      forall k | LastAnswer(log, k).Some? ensures Find(Answers(log), k).Some? {
        if k == key {
          assert slot in Answers(log);
        } else {
          assert Find(before, k).value in Answers(log);
        }
      }
    case _ =>
  }

  // ---------- main results ----------

  /** A cached reply is the latest answer the node gave for that very key, and younger than the limit asked for:
      `ttlSec` for a lookup, `minRefreshAgeSec` for a refresh. */
  lemma CachedRepliesAreCurrent(log: seq<Event>, cfg: Config, identity: string, age: int, now: int)
    requires cfg.maxEntries >= 1
    ensures var reply := Ask(Run(log, cfg), identity, age, now).1;
      var last := LastAnswer(log, N.NormalizeIdentityKey(identity));
      reply.FromCache? ==> last.Some? && reply.resolved == last.value.0 && now - last.value.1 < age
  {
    CacheIsNewest(log, cfg);
    hide Run, Answers, LastAnswer, N.NormalizeIdentityKey;
    assert forall x | x in Run(log, cfg).cache :: x in Answers(log);
  }

  /** What a request not answered from the cache does: it joins exactly when a call for its key is open or not yet
      cleaned up, and otherwise makes one, which is then open. */
  lemma JoinsExactlyWhenOpen(log: seq<Event>, cfg: Config, identity: string, age: int, now: int)
    requires Feasible(log, cfg)
    ensures var p := Run(log, cfg);
      var key := N.NormalizeIdentityKey(identity);
      var (q, reply) := Ask(p, identity, age, now);
      && q.cache == p.cache && q.settled == p.settled
      && (reply.Joins? ==> q == p && p.rpcs[key] + p.settled[key] == 1)
      && (reply.Calls? ==> p.rpcs[key] + p.settled[key] == 0 && q.rpcs == p.rpcs + multiset{key} && q.rpcs[key] == 1)
      && (reply.FromCache? ==> q == p)
  {
    OneCallPerKey(log, cfg);
    hide Run, N.NormalizeIdentityKey, Young;
  }

  /** How many keys were answered more recently than this one. */
  function NewerThan(answers: seq<Slot<Resolved>>, key: string): nat {
    if answers == [] then 0
    else if answers[|answers| - 1].key == key then 0
    else 1 + NewerThan(answers[..|answers| - 1], key)
  }

  lemma {:induction false} NewerThanPosition(answers: seq<Slot<Resolved>>, key: string, cap: nat)
    requires Find(answers, key).Some?
    ensures Find(Newest(answers, cap), key).Some? <==> NewerThan(answers, key) < cap
  {
    hide Find, Newest;
    if cap == 0 {
      NewestNone(answers);
    } else {
      var n := |answers| - 1;
      var head, last := answers[..n], answers[n];
      assert answers == head + [last];
      NewestSnoc(head, last, cap);
      FindSnoc(Newest(head, cap - 1), last, key);
      FindSnoc(head, last, key);
      if last.key != key {
        NewerThanPosition(head, key, cap - 1);
      }
    }
  }

  lemma NewestNone<T>(s: seq<T>)
    ensures Newest(s, 0) == []
  {}

  lemma FindSnoc<V>(m: seq<Slot<V>>, x: Slot<V>, key: string)
    ensures Find(m + [x], key).Some? <==> Find(m, key).Some? || x.key == key
  {
    hide Find;
    assert x in m + [x];
    forall y | y in m ensures y in m + [x] {}
  }

  /** The rate limit: a request reaches the node only if nothing was ever answered for the key, or the latest
      answer is at least as old as the limit, or as many other keys as the cache holds were answered since. */
  lemma CallsAreRateLimited(log: seq<Event>, cfg: Config, identity: string, age: int, now: int)
    requires cfg.maxEntries >= 1
    ensures var reply := Ask(Run(log, cfg), identity, age, now).1;
      var key := N.NormalizeIdentityKey(identity);
      var last := LastAnswer(log, key);
      reply.FromCache? <==> last.Some? && now - last.value.1 < age && NewerThan(Answers(log), key) < cfg.maxEntries
  {
    CacheIsNewest(log, cfg);
    var key := N.NormalizeIdentityKey(identity);
    var p, answers := Run(log, cfg), Answers(log);
    hide Run, Answers, LastAnswer, N.NormalizeIdentityKey, NewerThan, Find, Newest, Fetch;
    if LastAnswer(log, key).Some? {
      NewerThanPosition(answers, key, cfg.maxEntries);
      if Find(p.cache, key).Some? {
        NewestFrom(answers, cfg.maxEntries, Find(p.cache, key).value);
      }
    } else if Find(p.cache, key).Some? {
      NewestFrom(answers, cfg.maxEntries, Find(p.cache, key).value);
    }
  }

  lemma NewestFrom<T>(s: seq<T>, n: nat, x: T)
    requires x in Newest(s, n)
    ensures x in s
  {}
}
