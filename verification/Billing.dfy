/** What one call of the paying client costs: over the whole call the ledger rows of all its request ids together
    take at most one price from the payer. */
module Billing {
  import opened Basics
  import opened Client
  import AcceptsCache
  import L = Ledger
  import C = Conservation
  import R = Runs
  import V = Lifecycle

  // ---------- what the ledger holds for a call ----------

  /** The row belongs to one of the first `k` ids of the call. */
  ghost predicate OfFirst(e: L.Entry, env: Env, k: nat) {
    exists j: nat :: j < k && e.requestId == Some(env.ids(j))
  }

  ghost predicate OfCall(e: L.Entry, env: Env) {
    exists j: nat :: e.requestId == Some(env.ids(j))
  }

  ghost function FirstRows(env: Env, k: nat): L.Entry -> int {
    (e: L.Entry) => if OfFirst(e, env, k) then e.amount else 0
  }

  ghost function CallRows(env: Env): L.Entry -> int {
    (e: L.Entry) => if OfCall(e, env) then e.amount else 0
  }

  /** The sum of every ledger row that bears a request id of the call: refunds and late commits included. */
  ghost function CallTotal(s: L.Store, env: Env): int {
    SumSeq(s.ledger, CallRows(env))
  }

  lemma {:induction false} SumSeqPlus<T>(s: seq<T>, f: T -> int, g: T -> int, h: T -> int)
    requires forall x | x in s :: h(x) == f(x) + g(x)
    ensures SumSeq(s, h) == SumSeq(s, f) + SumSeq(s, g)
  {
    if s != [] {
      SumSeqPlus(s[..|s| - 1], f, g, h);
    }
  }

  lemma {:induction false} CountsNone(ledger: seq<L.Entry>, rid: string)
    ensures SumSeq(ledger, V.CountRow(rid)) >= 0
    ensures SumSeq(ledger, V.CountRow(rid)) == 0 ==> forall e | e in ledger :: e.requestId != Some(rid)
  {
    if ledger != [] {
      var n := |ledger| - 1;
      CountsNone(ledger[..n], rid);
      assert ledger == ledger[..n] + [ledger[n]];
    }
  }

  lemma OneMoreId(s: L.Store, env: Env, k: nat)
    requires forall i: nat, j: nat | i != j :: env.ids(i) != env.ids(j)
    ensures SumSeq(s.ledger, FirstRows(env, k + 1)) == SumSeq(s.ledger, FirstRows(env, k)) + V.Net(s, env.ids(k))
  {
    SumSeqPlus(s.ledger, FirstRows(env, k), V.NetRow(env.ids(k)), FirstRows(env, k + 1));
  }

  /** The ids up to `k` net to zero, the one at `j` excepted. */
  lemma {:induction false} FirstTotal(s: L.Store, env: Env, k: nat, j: nat)
    requires forall i: nat, j: nat | i != j :: env.ids(i) != env.ids(j)
    requires forall i: nat | i != j :: V.Net(s, env.ids(i)) == 0
    ensures SumSeq(s.ledger, FirstRows(env, k)) == if j < k then V.Net(s, env.ids(j)) else 0
  {
    if k == 0 {
      SumSeqZero(s.ledger, FirstRows(env, 0));
    } else {
      OneMoreId(s, env, k - 1);
      FirstTotal(s, env, k - 1, j);
    }
  }

  /** Every id but one nets to zero, and from some id on there are no rows: the call nets to what that one does. */
  lemma TotalIsOneNet(s: L.Store, env: Env, k: nat, j: nat)
    requires forall i: nat, j: nat | i != j :: env.ids(i) != env.ids(j)
    requires forall i: nat | i != j :: V.Net(s, env.ids(i)) == 0
    requires forall i: nat | i >= k :: V.Count(s, env.ids(i)) == 0
    requires j < k
    ensures CallTotal(s, env) == V.Net(s, env.ids(j))
  {
    FirstTotal(s, env, k, j);
    forall e | e in s.ledger ensures OfCall(e, env) <==> OfFirst(e, env, k) {
      if OfCall(e, env) {
        var i: nat :| e.requestId == Some(env.ids(i));
        CountsNone(s.ledger, env.ids(i));
      }
    }
    var nothing := (e: L.Entry) => 0;
    SumSeqPlus(s.ledger, FirstRows(env, k), nothing, CallRows(env));
    SumSeqZero(s.ledger, nothing);
  }

  // ---------- every step keeps the accounts of the call ----------

  /** The row of the id was priced by one of the deliveries from `lo` up to and excluding `hi`. */
  ghost predicate Priced(s: L.Store, env: Env, j: nat, lo: nat, hi: nat) {
    env.ids(j) in s.requests ==>
      exists n: nat :: lo <= n < hi && AsksFor(env, n, s.requests[env.ids(j)].amount)
  }

  ghost predicate AsksFor(env: Env, n: nat, amount: int) {
    env.script(n).verdict.Pass? && env.script(n).verdict.amount == amount
  }

  ghost predicate Billed(s: L.Store, env: Env, start: int, lo: nat, hi: nat) {
    forall j: nat :: SignedSince(s, env.ids(j), start) && V.Accounted(s, env.ids(j)) && Priced(s, env, j, lo, hi)
  }

  predicate KeepsPrice(s: L.Store, t: L.Store, rid: string) {
    rid in s.requests ==> rid in t.requests && t.requests[rid].amount == s.requests[rid].amount
  }

  lemma QuietKeepsAccount(s: L.Store, op: C.Op, env: Env, start: int, k: nat)
    requires Quiet(op, env, start) && SignedSince(s, env.ids(k), start) && V.Accounted(s, env.ids(k))
    ensures V.Accounted(C.Apply(s, op), env.ids(k)) && KeepsPrice(s, C.Apply(s, op), env.ids(k))
  {
    V.OpAccounted(s, op, env.ids(k));
    hide C.Apply, V.Accounted;
    V.StepMoves(s, op, env.ids(k));
  }

  lemma {:induction false} NoiseKeepsAccount(s: L.Store, ops: seq<C.Op>, env: Env, start: int, k: nat)
    requires forall op | op in ops :: Quiet(op, env, start)
    requires SignedSince(s, env.ids(k), start) && V.Accounted(s, env.ids(k))
    ensures V.Accounted(Disturb(s, ops), env.ids(k)) && KeepsPrice(s, Disturb(s, ops), env.ids(k))
    decreases |ops|
  {
    hide Quiet, V.Accounted, C.Apply;
    if ops != [] {
      var head := ops[..|ops| - 1];
      NoiseKeepsAccount(s, head, env, start, k);
      NoiseIsSteady(s, head, env, start, k);
      QuietKeepsAccount(Disturb(s, head), ops[|ops| - 1], env, start, k);
    }
  }

  lemma SettleAccounted(s: L.Store, rid: string, phase: PhaseTwo, at: int, other: string)
    requires V.Accounted(s, other)
    ensures V.Accounted(Settle(s, rid, phase, at), other)
  {
    hide V.Accounted, L.Commit, L.LateCommitPayment, L.Rollback;
    match phase
    case DoCommit(bytes) =>
      V.OpAccounted(s, C.OpCommit(rid, bytes), other);
      V.OpAccounted(L.Commit(s, rid, bytes).0, C.OpLateCommit(rid, bytes, at), other);
    case DoRollback => V.OpAccounted(s, C.OpRollback(rid, at), other);
    case Neither =>
  }

  lemma ServeAccounted(s: L.Store, rid: string, who: string, issuedAt: int, d: Delivery, other: string)
    requires V.Accounted(s, other)
    ensures V.Accounted(Serve(s, rid, who, issuedAt, d).0, other)
  {
    hide V.Accounted, L.Reserve, Settle;
    if rid !in s.requests && d.verdict.Pass? {
      var input := L.ReserveInput(rid, who, issuedAt, d.receivedAt, d.verdict.amount, d.verdict.verb, d.verdict.path);
      V.OpAccounted(s, C.OpReserve(input), other);
      SettleAccounted(L.Reserve(s, input).0, rid, d.verdict.phase, d.receivedAt, other);
    }
  }

  lemma ServePrices(s: L.Store, rid: string, who: string, issuedAt: int, d: Delivery, other: string)
    ensures var t := Serve(s, rid, who, issuedAt, d).0;
      && KeepsPrice(s, t, other)
      && (other !in s.requests && other in t.requests ==>
            other == rid && d.verdict.Pass? && t.requests[other].amount == d.verdict.amount)
  {
    hide L.Solvent;
  }

  lemma PricedOn(s: L.Store, t: L.Store, env: Env, j: nat, lo: nat, n: nat)
    requires Priced(s, env, j, lo, n) && lo <= n && KeepsPrice(s, t, env.ids(j))
    requires env.ids(j) !in s.requests && env.ids(j) in t.requests ==> AsksFor(env, n, t.requests[env.ids(j)].amount)
    ensures Priced(t, env, j, lo, n + 1)
  {}

  lemma ExchangeBilled(net: Client.Net, k: nat, env: Env, start: int, lo: nat)
    requires Orderly(env, start) && lo <= net.step && Billed(net.s, env, start, lo, net.step)
    ensures var net' := Exchange(net, k, env).0;
      net'.step == net.step + 1 && Billed(net'.s, env, start, lo, net'.step)
  {
    var d := env.script(net.step);
    var s := Disturb(net.s, d.noise);
    var net' := Exchange(net, k, env).0;
    hide Serve, Disturb, Quiet, V.Accounted, Priced, AsksFor;
    forall j: nat
      ensures SignedSince(net'.s, env.ids(j), start) && V.Accounted(net'.s, env.ids(j))
      ensures Priced(net'.s, env, j, lo, net'.step)
    {
      assert SignedSince(net.s, env.ids(j), start) && Priced(net.s, env, j, lo, net.step);
      NoiseIsSteady(net.s, d.noise, env, start, j);
      NoiseKeepsAccount(net.s, d.noise, env, start, j);
      ServeAccounted(s, env.ids(k), env.who, env.issuedAt(k), d, env.ids(j));
      ServePrices(s, env.ids(k), env.who, env.issuedAt(k), d, env.ids(j));
      if j != k {
        ServeOthers(s, env.ids(k), env.who, env.issuedAt(k), d, env.ids(j));
      } else {
        ServeOwn(s, env.ids(k), env.who, env.issuedAt(k), d);
      }
      if d.verdict.Pass? { AskedBy(env, net.step); }
      PricedOn(net.s, net'.s, env, j, lo, net.step);
    }
  }

  lemma AskedBy(env: Env, n: nat)
    requires env.script(n).verdict.Pass?
    ensures AsksFor(env, n, env.script(n).verdict.amount)
  {}

  lemma {:induction false} SendPaidBilled(net: Client.Net, k: nat, attempt: nat, env: Env, cfg: Config, start: int,
                                          lo: nat)
    requires Orderly(env, start) && lo <= net.step && Billed(net.s, env, start, lo, net.step)
    ensures var net' := SendPaid(net, k, attempt, env, cfg).0;
      net.step <= net'.step && Billed(net'.s, env, start, lo, net'.step)
    decreases cfg.maxRetries - attempt
  {
    hide Orderly, Billed, Exchange;
    if attempt <= cfg.maxRetries {
      ExchangeBilled(net, k, env, start, lo);
      var (net', reply) := Exchange(net, k, env);
      if attempt < cfg.maxRetries && (reply.None? || Transient(reply.value)) {
        SendPaidBilled(net', k, attempt + 1, env, cfg, start, lo);
      }
    }
  }

  lemma {:induction false} FetchLoopBilled(net: Client.Net, k: nat, requirement: AcceptsCache.Requirement,
                                           fromCache: bool, recovery: nat, mark: CacheMark, env: Env, cfg: Config,
                                           start: int, lo: nat)
    requires Orderly(env, start) && lo <= net.step && Billed(net.s, env, start, lo, net.step)
    ensures var f := FetchLoop(net, k, requirement, fromCache, recovery, mark, env, cfg);
      Billed(f.net.s, env, start, lo, f.net.step)
    decreases fromCache, cfg.priceMismatchRetries - recovery
  {
    hide Orderly, SendPaid, Billed;
    SendPaidBilled(net, k, 0, env, cfg, start, lo);
    var (net', reply) := SendPaid(net, k, 0, env, cfg);
    if reply.Some? && reply.value.status == 402 && reply.value.challenge.Parsed? {
      if fromCache || (recovery < cfg.priceMismatchRetries && reply.value.challenge.priceMismatch) {
        FetchLoopBilled(net', k + 1, reply.value.challenge.requirement, false, recovery + 1, Dropped, env, cfg, start,
                        lo);
      }
    }
  }

  // ---------- the whole call ----------

  /** What a request holds of its payer's money: its amount while it is reserved or committed. */
  function Due(s: L.Store, rid: string): int {
    if rid in s.requests && (s.requests[rid].status.Reserved? || s.requests[rid].status.Committed?)
    then s.requests[rid].amount else 0
  }

  lemma NetIsDue(s: L.Store, rid: string)
    requires V.Accounted(s, rid)
    ensures V.Net(s, rid) == -Due(s, rid) && (rid !in s.requests ==> V.Count(s, rid) == 0)
    ensures !Charged(s, rid) ==> Due(s, rid) == 0
  {}

  /** At the end of a clean, billed call. */
  lemma BillIsOnePrice(s: L.Store, env: Env, start: int, k: nat, lo: nat, hi: nat)
    requires Orderly(env, start) && Clean(s, env, start, k) && Billed(s, env, start, lo, hi)
    ensures CallTotal(s, env) == -Due(s, env.ids(k)) && Priced(s, env, k, lo, hi)
    ensures forall i: nat | i != k :: Due(s, env.ids(i)) == 0
  {
    hide V.Accounted, V.Net, V.Count, Priced, Quiet, Due, CallTotal, Charged;
    forall i: nat
      ensures V.Net(s, env.ids(i)) == -Due(s, env.ids(i))
      ensures i != k ==> Due(s, env.ids(i)) == 0
      ensures i > k ==> V.Count(s, env.ids(i)) == 0
    {
      assert SignedSince(s, env.ids(i), start) && V.Accounted(s, env.ids(i));
      NetIsDue(s, env.ids(i));
      StillUnused(s, env.ids(i));
    }
    assert SignedSince(s, env.ids(k), start) && Priced(s, env, k, lo, hi);
    TotalIsOneNet(s, env, k + 1, k);
  }

  lemma StillUnused(s: L.Store, rid: string)
    ensures rid !in s.requests ==> !Charged(s, rid)
  {}

  /** At most one price per call: whatever is lost, retried, refunded by the reaper or committed late, and whatever
      others do meanwhile, the ledger rows of all request ids of the call together sum to minus what at most one of
      them holds, and that one holds what a delivery of the call asked for. */
  lemma OneCallOnePrice(net: Client.Net, cached: Option<AcceptsCache.Requirement>, first: Option<Reply>, env: Env,
                        cfg: Config, start: int)
    requires Orderly(env, start) && Unused(net.s, env) && forall k: nat :: V.Accounted(net.s, env.ids(k))
    ensures CallTotal(net.s, env) == 0
    ensures var f := PaidFetch(net, cached, first, env, cfg);
      exists k: nat ::
        && CallTotal(f.net.s, env) == -Due(f.net.s, env.ids(k))
        && Priced(f.net.s, env, k, net.step, f.net.step)
        && forall i: nat | i != k :: Due(f.net.s, env.ids(i)) == 0
  {
    var f := PaidFetch(net, cached, first, env, cfg);
    NothingBilled(net.s, env, start, net.step);
    BillIsOnePrice(net.s, env, start, 0, net.step, net.step);
    hide FetchLoop, Orderly, Clean, Billed, CallTotal, V.Accounted, Unused, Due, Priced;
    if cached.Some? {
      FetchLoopClean(net, 0, cached.value, true, 0, Untouched, env, cfg, start);
      FetchLoopBilled(net, 0, cached.value, true, 0, Untouched, env, cfg, start, net.step);
      BillIsOnePrice(f.net.s, env, start, f.used - 1, net.step, f.net.step);
    } else if first.Some? && first.value.status == 402 && first.value.challenge.Parsed? {
      var requirement := first.value.challenge.requirement;
      FetchLoopClean(net, 0, requirement, false, 0, Untouched, env, cfg, start);
      FetchLoopBilled(net, 0, requirement, false, 0, Untouched, env, cfg, start, net.step);
      BillIsOnePrice(f.net.s, env, start, f.used - 1, net.step, f.net.step);
    } else {
      assert f.net == net;
    }
  }

  /** Where the hypothesis comes from: ids that no run so far has seen purged are accounted for. */
  lemma {:induction false} UnpurgedAreAccounted(ops: seq<C.Op>, env: Env)
    requires forall k: nat :: V.NeverPurged(R.Exec(ops), env.ids(k))
    ensures forall k: nat :: V.Accounted(R.Exec(ops).s, env.ids(k))
  {
    hide V.Accounted, V.NeverPurged, R.Exec;
    forall k: nat ensures V.Accounted(R.Exec(ops).s, env.ids(k)) {
      V.RunAccounts(ops, env.ids(k));
    }
  }

  lemma NothingBilled(s: L.Store, env: Env, start: int, lo: nat)
    requires Unused(s, env) && forall k: nat :: V.Accounted(s, env.ids(k))
    ensures Clean(s, env, start, 0) && Billed(s, env, start, lo, lo)
  {
    hide V.Accounted;
  }
}
