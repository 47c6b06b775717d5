/** The paying client over a lossy network, composed with the server's reserve: one call costs at most one
    debit, and it stops after a bounded number of paid sends. */
module Client {
  import opened Basics
  import opened Fifo
  import opened AcceptsCache
  import L = Ledger
  import C = Conservation
  import V = Lifecycle

  // ---------- the server, as one delivery of a paid request ----------

  /** What the client reads in a 402 body. */
  datatype Challenge = Malformed | Parsed(requirement: Requirement, priceMismatch: bool)
  datatype Reply = Reply(status: int, challenge: Challenge)

  /** What becomes of a reservation: the guard commits it, rolls it back, or dies before either. */
  datatype PhaseTwo = DoCommit(bytes: int) | DoRollback | Neither

  /** The checks before the reserve either refuse or pass; after a pass the endpoint answers. */
  datatype Verdict =
    | Refuse(reply: Reply)
    | Pass(amount: int, verb: string, path: string, endpointStatus: int, phase: PhaseTwo, unpaid: Challenge)

  datatype Fate = Arrives | RequestLost | ResponseLost

  /** One send: what others did to the store before, when it is received, the verdict, and what is lost. */
  datatype Delivery = Delivery(noise: seq<C.Op>, receivedAt: int, verdict: Verdict, fate: Fate)

  /** The schedule of deliveries, the fresh request ids of the call with their signing times, and the payer. */
  datatype Env = Env(script: nat -> Delivery, ids: nat -> string, issuedAt: nat -> int, who: string)

  function Settle(s: L.Store, rid: string, phase: PhaseTwo, at: int): L.Store {
    match phase
    case DoCommit(bytes) => V.CommitPhase(s, rid, bytes, at).0
    case DoRollback => V.RollbackPhase(s, rid, at).0
    case Neither => s
  }

  /** The verifier's order: replay first, then the checks, then the atomic reserve, then the endpoint. */
  function Serve(s: L.Store, rid: string, who: string, issuedAt: int, d: Delivery): (L.Store, Reply) {
    if rid in s.requests then (s, Reply(409, Malformed))
    else
      match d.verdict
      case Refuse(reply) => (s, reply)
      case Pass(amount, verb, path, status, phase, unpaid) =>
        var (s1, r) := L.Reserve(s, L.ReserveInput(rid, who, issuedAt, d.receivedAt, amount, verb, path));
        match r
        case Fault => (s1, Reply(500, Malformed))
        case Done(ReservedWith(_)) => (Settle(s1, rid, phase, d.receivedAt), Reply(status, Malformed))
        case Done(Replay(_)) => (s1, Reply(409, Malformed))
        case Done(_) => (s1, Reply(402, unpaid))
  }

  function Disturb(s: L.Store, ops: seq<C.Op>): L.Store {
    if ops == [] then s else C.Apply(Disturb(s, ops[..|ops| - 1]), ops[|ops| - 1])
  }

  /** The server's store, the position in the schedule, and the number of paid sends so far. */
  datatype Net = Net(s: L.Store, step: nat, sends: nat)

  function Exchange(net: Net, k: nat, env: Env): (Net, Option<Reply>) {
    var d := env.script(net.step);
    var s := Disturb(net.s, d.noise);
    if d.fate.RequestLost? then (Net(s, net.step + 1, net.sends + 1), None)
    else
      var (s1, reply) := Serve(s, env.ids(k), env.who, env.issuedAt(k), d);
      (Net(s1, net.step + 1, net.sends + 1), if d.fate.ResponseLost? then None else Some(reply))
  }

  // ---------- the client ----------

  datatype Config = Config(maxRetries: nat, priceMismatchRetries: nat)

  predicate Transient(reply: Reply) {
    reply.status == 503 || reply.status == 429
  }

  /** Transient retries of one signed request; None when every attempt was lost. */
  function SendPaid(net: Net, k: nat, attempt: nat, env: Env, cfg: Config): (Net, Option<Reply>)
    decreases cfg.maxRetries - attempt
  {
    if attempt > cfg.maxRetries then (net, None)
    else
      var (net', reply) := Exchange(net, k, env);
      if attempt < cfg.maxRetries && (reply.None? || Transient(reply.value))
      then SendPaid(net', k, attempt + 1, env, cfg)
      else (net', reply)
  }

  datatype Failure = NetworkError | InvalidChallenge | RetriesExhausted
  datatype Result = Response(reply: Reply) | Thrown(failure: Failure)
  datatype CacheMark = Untouched | Stored(requirement: Requirement) | Dropped

  /** How a call ended: the network after it, the number of request ids it used, its result, its cache entry. */
  datatype Fetched = Fetched(net: Net, used: nat, result: Result, mark: CacheMark)

  function FetchLoop(net: Net, k: nat, requirement: Requirement, fromCache: bool, recovery: nat, mark: CacheMark,
                     env: Env, cfg: Config): Fetched
    decreases fromCache, cfg.priceMismatchRetries - recovery
  {
    var (net', reply) := SendPaid(net, k, 0, env, cfg);
    if reply.None? then Fetched(net', k + 1, Thrown(RetriesExhausted), mark)
    else if reply.value.status != 402 then Fetched(net', k + 1, Response(reply.value), Stored(requirement))
    else if fromCache then
      match reply.value.challenge
      case Malformed => Fetched(net', k + 1, Thrown(InvalidChallenge), Dropped)
      case Parsed(renewed, _) => FetchLoop(net', k + 1, renewed, false, recovery + 1, Dropped, env, cfg)
    else if recovery < cfg.priceMismatchRetries then
      match reply.value.challenge
      case Malformed => Fetched(net', k + 1, Thrown(InvalidChallenge), Dropped)
      case Parsed(renewed, priceMismatch) =>
        if priceMismatch then FetchLoop(net', k + 1, renewed, false, recovery + 1, Dropped, env, cfg)
        else Fetched(net', k + 1, Response(reply.value), Dropped)
    else Fetched(net', k + 1, Response(reply.value), Dropped)
  }

  /** `first` answers the unpaid request; None when it is lost. */
  function PaidFetch(net: Net, cached: Option<Requirement>, first: Option<Reply>, env: Env, cfg: Config): Fetched {
    match cached
    case Some(requirement) => FetchLoop(net, 0, requirement, true, 0, Untouched, env, cfg)
    case None =>
      if first.None? then Fetched(net, 0, Thrown(NetworkError), Untouched)
      else if first.value.status != 402 then Fetched(net, 0, Response(first.value), Untouched)
      else
        match first.value.challenge
        case Malformed => Fetched(net, 0, Thrown(InvalidChallenge), Untouched)
        case Parsed(requirement, _) => FetchLoop(net, 0, requirement, false, 0, Untouched, env, cfg)
  }

  // ---------- hypotheses ----------

  /** Others use other request ids, and purge nothing signed since `start`. */
  ghost predicate Quiet(op: C.Op, env: Env, start: int) {
    && (op.OpReserve? || op.OpQuery? ==> forall k: nat :: op.input.requestId != env.ids(k))
    && (op.OpCleanup? ==> op.cutoff <= start)
  }

  /** Request ids are fresh and distinct, the endpoint itself never answers 402, and the call is shorter than
      the cleanup horizon. */
  ghost predicate Orderly(env: Env, start: int) {
    && (forall i: nat, j: nat | i != j :: env.ids(i) != env.ids(j))
    && (forall k: nat :: env.issuedAt(k) >= start)
    && (forall n: nat :: env.script(n).verdict.Pass? ==> env.script(n).verdict.endpointStatus != 402)
    && (forall n: nat, op | op in env.script(n).noise :: Quiet(op, env, start))
  }

  ghost predicate Unused(s: L.Store, env: Env) {
    forall k: nat :: env.ids(k) !in s.requests
  }

  /** The request has been reserved, whatever became of it: reserved, committed or refunded. */
  predicate Charged(s: L.Store, rid: string) {
    rid in s.requests && s.requests[rid].status != L.Insufficient
  }

  // ---------- at most one debit ----------

  ghost predicate SignedSince(s: L.Store, rid: string, start: int) {
    rid in s.requests ==> s.requests[rid].issuedAt >= start
  }

  /** A row nobody else may touch: present or not, charged or not, it stays so. */
  ghost predicate Steady(s: L.Store, t: L.Store, rid: string) {
    && (rid in t.requests <==> rid in s.requests)
    && (rid in s.requests ==> t.requests[rid].issuedAt == s.requests[rid].issuedAt)
    && (Charged(t, rid) <==> Charged(s, rid))
  }

  lemma QuietIsSteady(s: L.Store, op: C.Op, env: Env, start: int, k: nat)
    requires Quiet(op, env, start) && SignedSince(s, env.ids(k), start)
    ensures Steady(s, C.Apply(s, op), env.ids(k))
  {
    hide C.Apply;
    V.StepMoves(s, op, env.ids(k));
  }

  lemma {:induction false} NoiseIsSteady(s: L.Store, ops: seq<C.Op>, env: Env, start: int, k: nat)
    requires forall op | op in ops :: Quiet(op, env, start)
    requires SignedSince(s, env.ids(k), start)
    ensures Steady(s, Disturb(s, ops), env.ids(k))
    decreases |ops|
  {
    hide Quiet;
    if ops != [] {
      NoiseIsSteady(s, ops[..|ops| - 1], env, start, k);
      QuietIsSteady(Disturb(s, ops[..|ops| - 1]), ops[|ops| - 1], env, start, k);
    }
  }

  lemma ServeOwn(s: L.Store, rid: string, who: string, issuedAt: int, d: Delivery)
    requires d.verdict.Pass? ==> d.verdict.endpointStatus != 402
    ensures var (t, reply) := Serve(s, rid, who, issuedAt, d);
      && (reply.status == 402 ==> !Charged(t, rid))
      && (rid in t.requests ==>
            t.requests[rid].issuedAt == if rid in s.requests then s.requests[rid].issuedAt else issuedAt)
  {}

  lemma ServeOthers(s: L.Store, rid: string, who: string, issuedAt: int, d: Delivery, other: string)
    requires other != rid
    ensures Steady(s, Serve(s, rid, who, issuedAt, d).0, other)
  {}

  /** Only the current id can be charged; later ones are still unused. */
  ghost predicate Clean(s: L.Store, env: Env, start: int, k: nat) {
    forall j: nat ::
      && SignedSince(s, env.ids(j), start)
      && (j < k ==> !Charged(s, env.ids(j)))
      && (j > k ==> env.ids(j) !in s.requests)
  }

  lemma ExchangeClean(net: Net, k: nat, env: Env, start: int)
    requires Orderly(env, start) && Clean(net.s, env, start, k)
    ensures var (net', reply) := Exchange(net, k, env);
      && Clean(net'.s, env, start, k)
      && (reply.Some? && reply.value.status == 402 ==> !Charged(net'.s, env.ids(k)))
      && net'.sends == net.sends + 1
  {
    var d := env.script(net.step);
    var s := Disturb(net.s, d.noise);
    var (net', reply) := Exchange(net, k, env);
    hide Serve, Disturb, Quiet;
    ServeOwn(s, env.ids(k), env.who, env.issuedAt(k), d);
    forall j: nat
      ensures SignedSince(net'.s, env.ids(j), start)
      ensures j < k ==> !Charged(net'.s, env.ids(j))
      ensures j > k ==> env.ids(j) !in net'.s.requests
    {
      assert SignedSince(net.s, env.ids(j), start);
      NoiseIsSteady(net.s, d.noise, env, start, j);
      if j != k {
        ServeOthers(s, env.ids(k), env.who, env.issuedAt(k), d, env.ids(j));
      }
    }
  }

  lemma {:induction false} SendPaidClean(net: Net, k: nat, attempt: nat, env: Env, cfg: Config, start: int)
    requires Orderly(env, start) && Clean(net.s, env, start, k) && attempt <= cfg.maxRetries
    ensures var (net', reply) := SendPaid(net, k, attempt, env, cfg);
      && Clean(net'.s, env, start, k)
      && (reply.Some? && reply.value.status == 402 ==> !Charged(net'.s, env.ids(k)))
      && net.sends < net'.sends <= net.sends + cfg.maxRetries + 1 - attempt
    decreases cfg.maxRetries - attempt
  {
    hide Orderly, Clean, Exchange;
    ExchangeClean(net, k, env, start);
    var (net', reply) := Exchange(net, k, env);
    if attempt < cfg.maxRetries && (reply.None? || Transient(reply.value)) {
      SendPaidClean(net', k, attempt + 1, env, cfg, start);
    }
  }

  /** How many signed requests a call can still make. */
  function Rounds(fromCache: bool, recovery: nat, cfg: Config): int {
    var left := if recovery <= cfg.priceMismatchRetries then cfg.priceMismatchRetries - recovery + 1 else 1;
    if fromCache && left < 2 then 2 else left
  }

  lemma {:induction false} FetchLoopClean(net: Net, k: nat, requirement: Requirement, fromCache: bool, recovery: nat,
                                           mark: CacheMark, env: Env, cfg: Config, start: int)
    requires Orderly(env, start) && Clean(net.s, env, start, k)
    ensures var f := FetchLoop(net, k, requirement, fromCache, recovery, mark, env, cfg);
      && f.used > k && Clean(f.net.s, env, start, f.used - 1)
      && f.used - k <= Rounds(fromCache, recovery, cfg)
      && f.net.sends <= net.sends + (f.used - k) * (cfg.maxRetries + 1)
    decreases fromCache, cfg.priceMismatchRetries - recovery
  {
    hide Orderly, SendPaid, Clean;
    SendPaidClean(net, k, 0, env, cfg, start);
    var (net', reply) := SendPaid(net, k, 0, env, cfg);
    if reply.Some? && reply.value.status == 402 && reply.value.challenge.Parsed? {
      var renewed := reply.value.challenge.requirement;
      if fromCache || (recovery < cfg.priceMismatchRetries && reply.value.challenge.priceMismatch) {
        NextClean(net'.s, env, start, k);
        FetchLoopClean(net', k + 1, renewed, false, recovery + 1, Dropped, env, cfg, start);
        var f := FetchLoop(net', k + 1, renewed, false, recovery + 1, Dropped, env, cfg);
        assert (f.used - k) * (cfg.maxRetries + 1) == (f.used - (k + 1)) * (cfg.maxRetries + 1) + (cfg.maxRetries + 1);
      }
    }
  }

  lemma NextClean(s: L.Store, env: Env, start: int, k: nat)
    requires Clean(s, env, start, k) && !Charged(s, env.ids(k))
    ensures Clean(s, env, start, k + 1)
  {}

  /** At most once, end to end: for every schedule of lost requests and lost responses, transient errors,
      concurrent operations and server verdicts, at most one request id of the call is ever reserved, and the
      paid sends are bounded. */
  lemma OneCallOneDebit(net: Net, cached: Option<Requirement>, first: Option<Reply>, env: Env, cfg: Config, start: int)
    requires Orderly(env, start) && Unused(net.s, env)
    ensures var f := PaidFetch(net, cached, first, env, cfg);
      && (forall i: nat, j: nat | Charged(f.net.s, env.ids(i)) && Charged(f.net.s, env.ids(j)) :: i == j)
      && f.used <= Rounds(cached.Some?, 0, cfg)
      && f.net.sends - net.sends <= Rounds(cached.Some?, 0, cfg) * (cfg.maxRetries + 1)
  {
    var f := PaidFetch(net, cached, first, env, cfg);
    assert Clean(net.s, env, start, 0);
    hide FetchLoop, Orderly;
    var m := cfg.maxRetries + 1;
    if cached.Some? {
      FetchLoopClean(net, 0, cached.value, true, 0, Untouched, env, cfg, start);
    } else if first.Some? && first.value.status == 402 && first.value.challenge.Parsed? {
      FetchLoopClean(net, 0, first.value.challenge.requirement, false, 0, Untouched, env, cfg, start);
    }
    if f.used > 0 {
      assert Clean(f.net.s, env, start, f.used - 1);
      MulMono(f.used, Rounds(cached.Some?, 0, cfg), m);
    } else {
      MulMono(0, Rounds(cached.Some?, 0, cfg), m);
    }
  }

  lemma MulMono(a: int, b: int, m: nat)
    requires a <= b
    ensures a * m <= b * m
  {}

  // ---------- what a call returns ----------

  /** The attempt is repeated: it was lost, or the answer is 503 or 429. */
  predicate Repeats(reply: Option<Reply>) {
    reply.None? || reply.value.status == 503 || reply.value.status == 429
  }

  /** The network after `j` sends of the same signed request. */
  function Resent(net: Net, k: nat, j: nat, env: Env): Net {
    if j == 0 then net else Exchange(Resent(net, k, j - 1, env), k, env).0
  }

  lemma {:induction false} ResentCounts(net: Net, k: nat, j: nat, env: Env)
    ensures Resent(net, k, j, env).sends == net.sends + j && Resent(net, k, j, env).step == net.step + j
  {
    hide Serve, Disturb;
    if j > 0 {
      ResentCounts(net, k, j - 1, env);
    }
  }

  /** The retry loop ends with the first answer that is not to be repeated, or with its last attempt: that answer is
      what it returns, after exactly so many sends of the same request. */
  lemma {:induction false} SendPaidReturns(net: Net, k: nat, attempt: nat, j: nat, env: Env, cfg: Config)
    requires attempt <= j <= cfg.maxRetries
    requires forall i | attempt <= i < j :: Repeats(Exchange(Resent(net, k, i, env), k, env).1)
    requires j == cfg.maxRetries || !Repeats(Exchange(Resent(net, k, j, env), k, env).1)
    ensures SendPaid(Resent(net, k, attempt, env), k, attempt, env, cfg) == Exchange(Resent(net, k, j, env), k, env)
    decreases j - attempt
  {
    hide Exchange;
    if attempt < j {
      SendPaidReturns(net, k, attempt + 1, j, env, cfg);
    }
  }

  /** There is always such an attempt, and exactly one. */
  lemma {:induction false} SomeAttemptReturns(net: Net, k: nat, from: nat, env: Env, cfg: Config) returns (j: nat)
    requires from <= cfg.maxRetries
    ensures from <= j <= cfg.maxRetries
    ensures forall i | from <= i < j :: Repeats(Exchange(Resent(net, k, i, env), k, env).1)
    ensures j == cfg.maxRetries || !Repeats(Exchange(Resent(net, k, j, env), k, env).1)
    decreases cfg.maxRetries - from
  {
    hide Exchange;
    if from == cfg.maxRetries || !Repeats(Exchange(Resent(net, k, from, env), k, env).1) {
      j := from;
    } else {
      j := SomeAttemptReturns(net, k, from + 1, env, cfg);
    }
  }

  /** An answer that is neither 503 nor 429 is not asked for again. */
  lemma DefinitiveAnswerIsFinal(net: Net, k: nat, env: Env, cfg: Config)
    requires !Repeats(Exchange(net, k, env).1)
    ensures SendPaid(net, k, 0, env, cfg) == Exchange(net, k, env)
  {
    SendPaidReturns(net, k, 0, 0, env, cfg);
  }

  /** A round whose answer is not a 402 ends the call: the answer is returned and the requirement cached; a round
      without any answer ends it with an error, and the cache is left alone. */
  lemma RoundEndsCall(net: Net, k: nat, requirement: Requirement, fromCache: bool, recovery: nat, mark: CacheMark,
                      env: Env, cfg: Config)
    ensures var (net', reply) := SendPaid(net, k, 0, env, cfg);
      var f := FetchLoop(net, k, requirement, fromCache, recovery, mark, env, cfg);
      && (reply.Some? && reply.value.status != 402 ==>
            f == Fetched(net', k + 1, Response(reply.value), Stored(requirement)))
      && (reply.None? ==> f == Fetched(net', k + 1, Thrown(RetriesExhausted), mark))
  {
    hide SendPaid;
  }

  /** A round answered by a 402 goes on exactly when the requirement came from the cache, or when the answer is a
      price mismatch and the budget is not spent; then the next id signs the requirement of that very answer.
      Otherwise the 402 is returned, or an unreadable body reported, and the cached entry is gone. */
  lemma RoundGoesOn(net: Net, k: nat, requirement: Requirement, fromCache: bool, recovery: nat, mark: CacheMark,
                    env: Env, cfg: Config)
    requires var reply := SendPaid(net, k, 0, env, cfg).1; reply.Some? && reply.value.status == 402
    ensures var (net', reply) := SendPaid(net, k, 0, env, cfg);
      var f := FetchLoop(net, k, requirement, fromCache, recovery, mark, env, cfg);
      var mayAsk := fromCache || recovery < cfg.priceMismatchRetries;
      match reply.value.challenge
      case Parsed(renewed, mismatch) =>
        f == if fromCache || (mismatch && recovery < cfg.priceMismatchRetries)
             then FetchLoop(net', k + 1, renewed, false, recovery + 1, Dropped, env, cfg)
             else Fetched(net', k + 1, Response(reply.value), Dropped)
      case Malformed =>
        f == Fetched(net', k + 1, if mayAsk then Thrown(InvalidChallenge) else Response(reply.value), Dropped)
  {
    hide SendPaid;
  }

  /** Before anything is signed: with a cached requirement the unpaid request is skipped; without one its answer is
      returned unless it is a readable 402, whose requirement is then signed. None of this sends or changes anything. */
  lemma UnpaidAnswers(net: Net, cached: Option<Requirement>, first: Option<Reply>, env: Env, cfg: Config)
    ensures cached.Some? ==>
      PaidFetch(net, cached, first, env, cfg) == FetchLoop(net, 0, cached.value, true, 0, Untouched, env, cfg)
    ensures cached.None? && first.None? ==>
      PaidFetch(net, cached, first, env, cfg) == Fetched(net, 0, Thrown(NetworkError), Untouched)
    ensures cached.None? && first.Some? && first.value.status != 402 ==>
      PaidFetch(net, cached, first, env, cfg) == Fetched(net, 0, Response(first.value), Untouched)
    ensures cached.None? && first.Some? && first.value.status == 402 && first.value.challenge.Malformed? ==>
      PaidFetch(net, cached, first, env, cfg) == Fetched(net, 0, Thrown(InvalidChallenge), Untouched)
    ensures cached.None? && first.Some? && first.value.status == 402 && first.value.challenge.Parsed? ==>
      PaidFetch(net, cached, first, env, cfg) ==
        FetchLoop(net, 0, first.value.challenge.requirement, false, 0, Untouched, env, cfg)
  {
    hide FetchLoop;
  }

  /** The paid call, end to end: a delivery that arrives, passes the checks and is reserved, and whose answer is
      neither lost nor 402, 503 or 429, is what the call returns, after one send; its requirement is cached, and the
      row of the first id holds what the delivery asked for. */
  lemma PaidAnswerIsReturned(net: Net, requirement: Requirement, cached: bool, challenge: Reply, env: Env, cfg: Config)
    requires !cached ==> challenge.status == 402 && challenge.challenge.Parsed?
                         && challenge.challenge.requirement == requirement
    requires var d := env.script(net.step);
      var s := Disturb(net.s, d.noise);
      && d.fate.Arrives? && d.verdict.Pass? && d.verdict.endpointStatus !in {402, 503, 429}
      && env.ids(0) !in s.requests && env.who in s.identities && L.Solvent(s, env.who)
      && s.identities[env.who].balance >= d.verdict.amount
    ensures var f := PaidFetch(net, if cached then Some(requirement) else None, Some(challenge), env, cfg);
      var d := env.script(net.step);
      && f.result == Response(Reply(d.verdict.endpointStatus, Malformed)) && f.mark == Stored(requirement)
      && f.used == 1 && f.net.sends == net.sends + 1
      && Charged(f.net.s, env.ids(0)) && f.net.s.requests[env.ids(0)].amount == d.verdict.amount
      && Ends(f.net.s.requests[env.ids(0)], d.verdict.phase)
  {
    var d := env.script(net.step);
    var s := Disturb(net.s, d.noise);
    ServePays(s, env.ids(0), env.who, env.issuedAt(0), d);
    hide Serve, Disturb, L.Solvent;
    assert !Repeats(Exchange(net, 0, env).1);
    DefinitiveAnswerIsFinal(net, 0, env, cfg);
    RoundEndsCall(net, 0, requirement, cached, 0, Untouched, env, cfg);
    hide FetchLoop, SendPaid;
  }

  lemma ServePays(s: L.Store, rid: string, who: string, issuedAt: int, d: Delivery)
    requires d.verdict.Pass? && rid !in s.requests && who in s.identities && L.Solvent(s, who)
    requires s.identities[who].balance >= d.verdict.amount
    ensures var (t, reply) := Serve(s, rid, who, issuedAt, d);
      && reply == Reply(d.verdict.endpointStatus, Malformed)
      && Charged(t, rid) && t.requests[rid].amount == d.verdict.amount
      && Ends(t.requests[rid], d.verdict.phase)
  {
    var (s1, reserved) := L.Reserve(s, L.ReserveInput(rid, who, issuedAt, d.receivedAt, d.verdict.amount,
                                                      d.verdict.verb, d.verdict.path));
    assert L.LastBalance(s1.ledger, who) == Some(s1.identities[who].balance);
    assert L.Solvent(s1, who);
    hide L.Solvent, L.LastBalance;
  }

  /** The row after the guard's second phase. */
  predicate Ends(row: L.Request, phase: PhaseTwo) {
    match phase
    case DoCommit(bytes) => row.status == L.Committed && row.responseBytes == Some(bytes)
    case DoRollback => row.status == L.Errored
    case Neither => row.status == L.Reserved
  }

  /** Where the code departs from its comment that endpoint errors are handed to the caller: an endpoint's own 503 or
      429 is taken for a transient failure of the protocol, the request is sent again, and the caller gets the 409 of
      the replay check instead. */
  lemma BusyEndpointLooksLikeReplay(net: Net, env: Env, cfg: Config)
    requires cfg.maxRetries > 0
    requires var d := env.script(net.step);
      var s := Disturb(net.s, d.noise);
      && d.fate.Arrives? && d.verdict.Pass? && d.verdict.endpointStatus in {503, 429}
      && env.ids(0) !in s.requests && env.who in s.identities && L.Solvent(s, env.who)
      && s.identities[env.who].balance >= d.verdict.amount
    requires env.script(net.step + 1).fate.Arrives? && env.script(net.step + 1).noise == []
    ensures var d := env.script(net.step);
      && Exchange(net, 0, env).1 == Some(Reply(d.verdict.endpointStatus, Malformed))
      && SendPaid(net, 0, 0, env, cfg) == (Resent(net, 0, 2, env), Some(Reply(409, Malformed)))
  {
    var d, next := env.script(net.step), env.script(net.step + 1);
    var s := Disturb(net.s, d.noise);
    ServePays(s, env.ids(0), env.who, env.issuedAt(0), d);
    var (net', reply) := Exchange(net, 0, env);
    assert Disturb(net'.s, next.noise) == net'.s;
    assert Serve(net'.s, env.ids(0), env.who, env.issuedAt(0), next) == (net'.s, Reply(409, Malformed));
    hide Serve, Disturb, L.Solvent;
    assert Resent(net, 0, 0, env) == net && Resent(net, 0, 1, env) == net';
    assert Exchange(net', 0, env).1 == Some(Reply(409, Malformed));
    assert Resent(net, 0, 2, env) == Exchange(net', 0, env).0;
    SendPaidReturns(net, 0, 0, 1, env, cfg);
  }

  // ---------- the price-mismatch budget ----------

  /** A stale cache entry does use up one price-mismatch recovery: the call goes on exactly as one that has
      already spent a recovery, and with a budget of at most one a following price mismatch is handed back
      instead of being retried. */
  lemma StaleCacheSpendsBudget(net: Net, requirement: Requirement, env: Env, cfg: Config)
    requires var (net1, reply) := SendPaid(net, 0, 0, env, cfg);
      reply.Some? && reply.value.status == 402 && reply.value.challenge.Parsed?
    ensures var (net1, reply) := SendPaid(net, 0, 0, env, cfg);
      var renewed := reply.value.challenge.requirement;
      var (net2, again) := SendPaid(net1, 1, 0, env, cfg);
      && PaidFetch(net, Some(requirement), None, env, cfg) == FetchLoop(net1, 1, renewed, false, 1, Dropped, env, cfg)
      && (again.Some? && again.value.status == 402 && again.value.challenge.Parsed?
          && again.value.challenge.priceMismatch ==>
            (cfg.priceMismatchRetries <= 1 <==>
             PaidFetch(net, Some(requirement), None, env, cfg) == Fetched(net2, 2, Response(again.value), Dropped)))
  {
    hide SendPaid;
    var (net1, reply) := SendPaid(net, 0, 0, env, cfg);
    var renewed := reply.value.challenge.requirement;
    var (net2, again) := SendPaid(net1, 1, 0, env, cfg);
    if again.Some? && again.value.status == 402 && again.value.challenge.Parsed? && again.value.challenge.priceMismatch
       && cfg.priceMismatchRetries > 1 {
      UsesMore(net2, 2, again.value.challenge.requirement, false, 2, Dropped, env, cfg);
    }
  }

  /** The next `n` rounds are all answered with a readable price mismatch; the network after them. */
  function Mismatches(net: Net, k: nat, n: nat, env: Env, cfg: Config): Option<Net>
    decreases n
  {
    if n == 0 then Some(net)
    else
      var (net', reply) := SendPaid(net, k, 0, env, cfg);
      if reply.Some? && reply.value.status == 402 && reply.value.challenge.Parsed?
         && reply.value.challenge.priceMismatch
      then Mismatches(net', k + 1, n - 1, env, cfg)
      else None
  }

  /** The next round is answered by a 402 that a recovery would act on: a price mismatch, or no readable body. */
  predicate Recoverable(net: Net, k: nat, env: Env, cfg: Config) {
    var reply := SendPaid(net, k, 0, env, cfg).1;
    && reply.Some? && reply.value.status == 402
    && (reply.value.challenge.Parsed? ==> reply.value.challenge.priceMismatch)
  }

  /** One recovery more or less spent changes the outcome exactly when every round that the smaller budget allows
      is used up by price mismatches and the round after them asks for one more. */
  lemma {:induction false} SpentRecoveryMatters(net: Net, k: nat, requirement: Requirement, spent: nat, env: Env,
                                                 cfg: Config)
    ensures FetchLoop(net, k, requirement, false, spent + 1, Dropped, env, cfg) !=
              FetchLoop(net, k, requirement, false, spent, Dropped, env, cfg) <==>
      && spent < cfg.priceMismatchRetries
      && var after := Mismatches(net, k, cfg.priceMismatchRetries - spent - 1, env, cfg);
         after.Some? && Recoverable(after.value, k + cfg.priceMismatchRetries - spent - 1, env, cfg)
    decreases cfg.priceMismatchRetries - spent
  {
    hide SendPaid;
    var (net', reply) := SendPaid(net, k, 0, env, cfg);
    if spent < cfg.priceMismatchRetries && reply.Some? && reply.value.status == 402 && reply.value.challenge.Parsed?
       && reply.value.challenge.priceMismatch {
      var renewed := reply.value.challenge.requirement;
      if spent + 1 < cfg.priceMismatchRetries {
        SpentRecoveryMatters(net', k + 1, renewed, spent + 1, env, cfg);
      } else {
        UsesMore(net', k + 1, renewed, false, spent + 1, Dropped, env, cfg);
      }
    }
  }

  /** For every budget: after a stale cache entry the call differs from one that keeps its whole budget, as the
      comment promises, exactly when the budget is positive, all its recoveries but one are used up by price
      mismatches, and one more is called for. With a budget of zero there is no difference. */
  lemma StaleCacheDiffersExactly(net: Net, requirement: Requirement, env: Env, cfg: Config)
    requires var (net1, reply) := SendPaid(net, 0, 0, env, cfg);
      reply.Some? && reply.value.status == 402 && reply.value.challenge.Parsed?
    ensures var (net1, reply) := SendPaid(net, 0, 0, env, cfg);
      var promised := FetchLoop(net1, 1, reply.value.challenge.requirement, false, 0, Dropped, env, cfg);
      var budget := cfg.priceMismatchRetries;
      PaidFetch(net, Some(requirement), None, env, cfg) != promised <==>
        && budget > 0
        && var after := Mismatches(net1, 1, budget - 1, env, cfg);
           after.Some? && Recoverable(after.value, budget, env, cfg)
  {
    hide SendPaid, Mismatches, Recoverable;
    StaleCacheSpendsBudget(net, requirement, env, cfg);
    var (net1, reply) := SendPaid(net, 0, 0, env, cfg);
    SpentRecoveryMatters(net1, 1, reply.value.challenge.requirement, 0, env, cfg);
  }

  /** A server that answers every signed request with a readable price mismatch. */
  function Haggler(requirement: Requirement, ids: nat -> string, issuedAt: nat -> int, who: string): Env {
    Env((n: nat) => Delivery([], 0, Refuse(Reply(402, Parsed(requirement, true))), Arrives), ids, issuedAt, who)
  }

  lemma HagglerMismatches(net: Net, k: nat, n: nat, env: Env, cfg: Config, requirement: Requirement)
    requires net.s == L.EMPTY && env == Haggler(requirement, env.ids, env.issuedAt, env.who)
    ensures SendPaid(net, k, 0, env, cfg) ==
      (Net(L.EMPTY, net.step + 1, net.sends + 1), Some(Reply(402, Parsed(requirement, true))))
    ensures var after := Mismatches(net, k, n, env, cfg); after.Some? && after.value.s == L.EMPTY
    decreases n
  {
    assert Disturb(net.s, []) == net.s;
    if n > 0 {
      HagglerMismatches(Net(L.EMPTY, net.step + 1, net.sends + 1), k + 1, n - 1, env, cfg, requirement);
    }
  }

  /** The failing input: against that server a call that starts from a stale entry ends otherwise than the comment
      promises, for every positive budget. */
  lemma HagglerShowsIt(stale: Requirement, requirement: Requirement, ids: nat -> string, issuedAt: nat -> int,
                       who: string, cfg: Config)
    requires cfg.priceMismatchRetries > 0
    ensures var env := Haggler(requirement, ids, issuedAt, who);
      PaidFetch(Net(L.EMPTY, 0, 0), Some(stale), None, env, cfg) !=
        FetchLoop(Net(L.EMPTY, 1, 1), 1, requirement, false, 0, Dropped, env, cfg)
  {
    var env, budget := Haggler(requirement, ids, issuedAt, who), cfg.priceMismatchRetries;
    HagglerMismatches(Net(L.EMPTY, 0, 0), 0, 0, env, cfg, requirement);
    HagglerMismatches(Net(L.EMPTY, 1, 1), 1, budget - 1, env, cfg, requirement);
    HagglerMismatches(Mismatches(Net(L.EMPTY, 1, 1), 1, budget - 1, env, cfg).value, budget, 0, env, cfg, requirement);
    hide SendPaid, Mismatches, PaidFetch, FetchLoop, Haggler;
    StaleCacheDiffersExactly(Net(L.EMPTY, 0, 0), stale, env, cfg);
  }

  lemma {:induction false} UsesMore(net: Net, k: nat, requirement: Requirement, fromCache: bool, recovery: nat,
                                     mark: CacheMark, env: Env, cfg: Config)
    ensures FetchLoop(net, k, requirement, fromCache, recovery, mark, env, cfg).used > k
    decreases fromCache, cfg.priceMismatchRetries - recovery
  {
    hide SendPaid;
    var (net', reply) := SendPaid(net, k, 0, env, cfg);
    if reply.Some? && reply.value.status == 402 && reply.value.challenge.Parsed? {
      if fromCache || (recovery < cfg.priceMismatchRetries && reply.value.challenge.priceMismatch) {
        UsesMore(net', k + 1, reply.value.challenge.requirement, false, recovery + 1, Dropped, env, cfg);
      }
    }
  }

  // ---------- the client's loops ----------

  /** The wire as the client meets it. */
  class Network {
    const env: Env
    var net: Net

    constructor (env: Env, net: Net)
      ensures this.env == env && this.net == net
    {
      this.env, this.net := env, net;
    }

    method Fetch(k: nat) returns (reply: Option<Reply>)
      modifies this
      ensures (net, reply) == Exchange(old(net), k, env)
    {
      var (net', r) := Exchange(net, k, env);
      net, reply := net', r;
    }
  }

  method SendPaidLoop(wire: Network, k: nat, cfg: Config) returns (reply: Option<Reply>)
    modifies wire
    ensures (wire.net, reply) == SendPaid(old(wire.net), k, 0, wire.env, cfg)
  {
    hide Exchange;
    var attempt := 0;
    while attempt <= cfg.maxRetries
      invariant attempt <= cfg.maxRetries + 1
      invariant SendPaid(old(wire.net), k, 0, wire.env, cfg) == SendPaid(wire.net, k, attempt, wire.env, cfg)
      invariant attempt > cfg.maxRetries ==> SendPaid(old(wire.net), k, 0, wire.env, cfg) == (wire.net, None)
    {
      var response := wire.Fetch(k);
      if response.None? {
        attempt := attempt + 1;
        continue;
      }
      if Transient(response.value) && attempt < cfg.maxRetries {
        attempt := attempt + 1;
        continue;
      }
      return response;
    }
    reply := None;
  }

  /** What the other callers that share the cache do to it meanwhile. */
  method Interfere(cache: AcceptsCache, accesses: seq<Access>)
    modifies cache
    ensures cache.entries == Replayed(old(cache.entries), accesses, cache.ttlSec, cache.maxEntries)
  {
    hide After;
    assert accesses[..0] == [];
    for i := 0 to |accesses|
      invariant cache.entries == Replayed(old(cache.entries), accesses[..i], cache.ttlSec, cache.maxEntries)
    {
      ReplayedStep(old(cache.entries), accesses[..i], accesses[i], cache.ttlSec, cache.maxEntries);
      assert accesses[..i + 1] == accesses[..i] + [accesses[i]];
      match accesses[i]
      case Lookup(key, now) => var _ := cache.Get(key, now);
      case Store(key, requirement, now) => cache.Set(key, requirement, now);
      case Drop(key) => cache.Delete(key);
    }
    assert accesses[..|accesses|] == accesses;
  }

  /** The call itself: it reads the shared cache at `readAt`, writes it at `storedAt`, and other callers use it
      during every round. `log` is the whole history of the cache meanwhile. */
  method Call(wire: Network, cache: AcceptsCache, key: string, readAt: int, storedAt: int, others: nat -> seq<Access>,
              first: Option<Reply>, cfg: Config)
    returns (result: Result, ghost f: Fetched, ghost log: seq<Access>)
    requires Keyed(cache.entries)
    modifies wire, cache
    ensures f == PaidFetch(old(wire.net), Answer(old(cache.entries), cache.ttlSec, key, readAt), first, wire.env, cfg)
    ensures wire.net == f.net && result == f.result && Keyed(cache.entries)
    ensures cache.entries == Replayed(old(cache.entries), log, cache.ttlSec, cache.maxEntries)
    ensures log != [] && log[0] == Lookup(key, readAt)
    ensures f.mark.Stored? ==> log[|log| - 1] == Store(key, f.mark.requirement, storedAt)
                               && Find(cache.entries, key) == Some(Slot(key, f.mark.requirement, storedAt))
    ensures f.mark.Dropped? ==> Drop(key) in log
  {
    hide SendPaid, Put, After, Keyed, Find;
    var cached := cache.Get(key, readAt);
    log := [Lookup(key, readAt)];
    FirstAccess(old(cache.entries), log[0], cache.ttlSec, cache.maxEntries);
    f := PaidFetch(wire.net, cached, first, wire.env, cfg);
    var requirement: Requirement;
    var fromCache := cached.Some?;
    if fromCache {
      requirement := cached.value;
    } else {
      if first.None? {
        result := Thrown(NetworkError);
        return;
      }
      if first.value.status != 402 {
        result := Response(first.value);
        return;
      }
      if first.value.challenge.Malformed? {
        result := Thrown(InvalidChallenge);
        return;
      }
      requirement := first.value.challenge.requirement;
    }
    var recovery, k := 0, 0;
    ghost var mark := Untouched;
    while true
      invariant Keyed(cache.entries)
      invariant cache.entries == Replayed(old(cache.entries), log, cache.ttlSec, cache.maxEntries)
      invariant log != [] && log[0] == Lookup(key, readAt)
      invariant f == FetchLoop(wire.net, k, requirement, fromCache, recovery, mark, wire.env, cfg)
      invariant mark == Untouched || (mark == Dropped && Drop(key) in log)
      decreases fromCache, cfg.priceMismatchRetries - recovery
    {
      var response := SendPaidLoop(wire, k, cfg);
      log := MeanwhileOthers(cache, others(k), old(cache.entries), log);
      k := k + 1;
      if response.None? {
        result := Thrown(RetriesExhausted);
        return;
      }
      if response.value.status != 402 {
        StoreAccess(old(cache.entries), log, key, requirement, storedAt, cache.ttlSec, cache.maxEntries);
        cache.Set(key, requirement, storedAt);
        log := log + [Store(key, requirement, storedAt)];
        result := Response(response.value);
        return;
      }
      ReplayedStep(old(cache.entries), log, Drop(key), cache.ttlSec, cache.maxEntries);
      AfterKeyed(cache.entries, cache.ttlSec, cache.maxEntries, Drop(key));
      cache.Delete(key);
      log := log + [Drop(key)];
      mark := Dropped;
      if fromCache {
        fromCache := false;
        if response.value.challenge.Malformed? {
          result := Thrown(InvalidChallenge);
          return;
        }
        requirement := response.value.challenge.requirement;
        recovery := recovery + 1;
        continue;
      }
      if recovery < cfg.priceMismatchRetries {
        if response.value.challenge.Malformed? {
          result := Thrown(InvalidChallenge);
          return;
        }
        if response.value.challenge.priceMismatch {
          requirement := response.value.challenge.requirement;
          recovery := recovery + 1;
          continue;
        }
      }
      result := Response(response.value);
      return;
    }
  }

  method MeanwhileOthers(cache: AcceptsCache, accesses: seq<Access>, ghost start: seq<Slot<Requirement>>,
                         ghost log: seq<Access>)
    returns (ghost log': seq<Access>)
    requires Keyed(cache.entries) && cache.entries == Replayed(start, log, cache.ttlSec, cache.maxEntries)
    modifies cache
    ensures log' == log + accesses
    ensures Keyed(cache.entries) && cache.entries == Replayed(start, log', cache.ttlSec, cache.maxEntries)
  {
    ReplayedTwice(start, log, accesses, cache.ttlSec, cache.maxEntries);
    ReplayedKeyed(cache.entries, accesses, cache.ttlSec, cache.maxEntries);
    Interfere(cache, accesses);
    log' := log + accesses;
  }

  lemma FirstAccess(m: seq<Slot<Requirement>>, a: Access, ttl: int, cap: int)
    requires Keyed(m)
    ensures Replayed(m, [a], ttl, cap) == After(m, ttl, cap, a) && Keyed(After(m, ttl, cap, a))
  {
    ReplayedStep(m, [], a, ttl, cap);
    assert [] + [a] == [a];
    AfterKeyed(m, ttl, cap, a);
  }

  lemma StoreAccess(m: seq<Slot<Requirement>>, log: seq<Access>, key: string, requirement: Requirement, at: int,
                    ttl: int, cap: int)
    requires Keyed(Replayed(m, log, ttl, cap))
    ensures var t := After(Replayed(m, log, ttl, cap), ttl, cap, Store(key, requirement, at));
      && t == Replayed(m, log + [Store(key, requirement, at)], ttl, cap)
      && Keyed(t) && Find(t, key) == Some(Slot(key, requirement, at))
  {
    ReplayedStep(m, log, Store(key, requirement, at), ttl, cap);
    PutEffect(Replayed(m, log, ttl, cap), cap, key, requirement, at);
  }
}
