/** The verifier's time window, the reaper and the cleanup against one clock: a signed claim is spent once
    although its replay row is purged, and no reservation is purged before its refund. */
module Maintenance {
  import opened Basics
  import opened Ledger
  import opened Conservation
  import opened Runs
  import opened Lifecycle
  import opened MemoryStorage

  datatype Config = Config(reserveTtl: int, tolerance: int)

  predicate Positive(cfg: Config) {
    cfg.reserveTtl > 0 && cfg.tolerance > 0
  }

  function Horizon(cfg: Config): int {
    var longer := if cfg.reserveTtl >= cfg.tolerance then cfg.reserveTtl else cfg.tolerance;
    if 600 >= 2 * longer then 600 else 2 * longer
  }

  /** How long after a reaper run a cleanup is still harmless. */
  function Slack(cfg: Config): int {
    Horizon(cfg) - cfg.tolerance - cfg.reserveTtl
  }

  /** The horizon formula leaves a non-negative slack for every configuration, and exactly none when window and
      reservation time are equal and at least 300 seconds, as the defaults are. */
  lemma SlackIsNonNegative(cfg: Config)
    ensures Slack(cfg) >= 0
    ensures Slack(cfg) == 0 <==> cfg.tolerance == cfg.reserveTtl && cfg.tolerance >= 300
  {}

  /** The periodic jobs over the storage. */
  class MaintenanceService {
    const cfg: Config
    const storage: InMemoryStorage
    const cleanupHorizonSec: int

    constructor (cfg: Config, storage: InMemoryStorage)
      ensures this.cfg == cfg && this.storage == storage && cleanupHorizonSec == Horizon(cfg)
    {
      this.cfg, this.storage := cfg, storage;
      var longer := if cfg.reserveTtl >= cfg.tolerance then cfg.reserveTtl else cfg.tolerance;
      cleanupHorizonSec := if 600 >= 2 * longer then 600 else 2 * longer;
    }

    method RunReaper(now: int) returns (reaped: Outcome<seq<string>>)
      requires storage.Valid()
      modifies storage
      ensures storage.Valid()
      ensures (storage.Model(), reaped) ==
        Reap(old(storage.Model()), old(storage.requestOrder), now - cfg.reserveTtl, now)
    {
      hide Reap;
      reaped := storage.ReapExpiredReservations(now - cfg.reserveTtl, now);
    }

    method RunCleanup(now: int) returns (removed: nat)
      requires storage.Valid()
      modifies storage
      ensures storage.Valid()
      ensures (storage.Model(), removed) == Cleanup(old(storage.Model()), now - cleanupHorizonSec)
    {
      hide Cleanup, Aged, Lists;
      removed := storage.CleanupSpentRequests(now - cleanupHorizonSec);
    }
  }

  // ---------- the timed system ----------

  /** The clock, the audited store, the requests whose window check has passed, every successful reservation
      so far, and the time of the last reaper run. */
  datatype Sys = Sys(clock: int, a: Audit, checked: set<ReserveInput>, spent: seq<ReserveInput>, lastReap: int)

  datatype Tick =
    | Wait(until: int)
    | CheckWindow(input: ReserveInput)
    | TryReserve(input: ReserveInput)
    | RunReaper(order: seq<string>)
    | RunCleanup
    | Other(op: Op)

  function After(y: Sys, t: Tick, cfg: Config): Sys {
    match t
    case Wait(until) => y.(clock := until)
    case CheckWindow(input) => y.(checked := y.checked + {input})
    case TryReserve(input) =>
      var (s, r) := Reserve(y.a.s, input);
      y.(a := y.a.(s := s), spent := if r.Done? && r.value.ReservedWith? then y.spent + [input] else y.spent)
    case RunReaper(order) =>
      y.(a := Step(y.a, OpReap(order, y.clock - cfg.reserveTtl, y.clock)), lastReap := y.clock)
    case RunCleanup => y.(a := Step(y.a, OpCleanup(y.clock - Horizon(cfg))))
    case Other(op) => y.(a := Step(y.a, op))
  }

  /** What may happen next: the clock never goes back, a reserve follows its own window check by at most `gap`,
      the reaper visits every row, and everything else is neither a reserve nor a cleanup. */
  ghost predicate Possible(y: Sys, t: Tick, cfg: Config, gap: int) {
    match t
    case Wait(until) => y.clock <= until
    case CheckWindow(input) =>
      input.receivedAt == y.clock && -cfg.tolerance <= y.clock - input.issuedAt <= cfg.tolerance
    case TryReserve(input) => input in y.checked && y.clock - input.receivedAt <= gap
    case RunReaper(order) => Lists(order, y.a.s.requests.Keys)
    case RunCleanup => true
    case Other(op) => !op.OpReserve? && !op.OpCleanup? && !Overcredits(y.a.s, op)
  }

  ghost function Run(y: Sys, ts: seq<Tick>, cfg: Config): Sys {
    if ts == [] then y else After(Run(y, ts[..|ts| - 1], cfg), ts[|ts| - 1], cfg)
  }

  ghost predicate Feasible(y: Sys, ts: seq<Tick>, cfg: Config, gap: int) {
    forall i | 0 <= i < |ts| :: Possible(Run(y, ts[..i], cfg), ts[i], cfg, gap)
  }

  lemma FeasiblePrefix(y: Sys, ts: seq<Tick>, cfg: Config, gap: int)
    requires Feasible(y, ts, cfg, gap) && ts != []
    ensures Feasible(y, ts[..|ts| - 1], cfg, gap)
    ensures Possible(Run(y, ts[..|ts| - 1], cfg), ts[|ts| - 1], cfg, gap)
  {
    hide Possible, After;
    var head := ts[..|ts| - 1];
    forall i | 0 <= i < |head| ensures Possible(Run(y, head[..i], cfg), head[i], cfg, gap) {
      assert head[..i] == ts[..i] && Possible(Run(y, ts[..i], cfg), ts[i], cfg, gap);
    }
  }

  /** A system that starts with an empty store. */
  function Fresh(clock: int): Sys {
    Sys(clock, Audit(EMPTY, []), {}, [], clock)
  }

  // ---------- replay safety ----------

  predicate SameClaim(x: ReserveInput, y: ReserveInput) {
    x.requestId == y.requestId && x.issuedAt == y.issuedAt
  }

  /** A spent claim still has its row, or lies behind the cleanup horizon. */
  ghost predicate Remembered(y: Sys, cfg: Config, x: ReserveInput) {
    || (x.requestId in y.a.s.requests && y.a.s.requests[x.requestId].issuedAt == x.issuedAt)
    || x.issuedAt < y.clock - Horizon(cfg)
  }

  ghost predicate SpentOnce(y: Sys, cfg: Config) {
    && (forall x | x in y.spent :: Remembered(y, cfg, x))
    && (forall x | x in y.checked ::
          x.receivedAt <= y.clock && -cfg.tolerance <= x.receivedAt - x.issuedAt <= cfg.tolerance)
    && (forall i, j | 0 <= i < j < |y.spent| :: !SameClaim(y.spent[i], y.spent[j]))
  }

  /** Apart from cleanup no operation removes a replay row or changes when it was issued. */
  lemma RowsStay(s: Store, op: Op)
    requires !op.OpCleanup?
    ensures forall rid | rid in s.requests ::
      rid in Apply(s, op).requests && Apply(s, op).requests[rid].issuedAt == s.requests[rid].issuedAt
  {
    hide Apply;
    forall rid | rid in s.requests
      ensures rid in Apply(s, op).requests && Apply(s, op).requests[rid].issuedAt == s.requests[rid].issuedAt
    {
      StepMoves(s, op, rid);
    }
  }

  /** Rows that stay, with the clock moving forward, keep claims remembered. */
  lemma StillSpentOnce(y: Sys, z: Sys, cfg: Config)
    requires SpentOnce(y, cfg) && y.clock <= z.clock && z.spent == y.spent && z.checked == y.checked
    requires forall rid | rid in y.a.s.requests ::
      || (rid in z.a.s.requests && z.a.s.requests[rid].issuedAt == y.a.s.requests[rid].issuedAt)
      || y.a.s.requests[rid].issuedAt < z.clock - Horizon(cfg)
    ensures SpentOnce(z, cfg)
  {
    forall x | x in z.spent ensures Remembered(z, cfg, x) {
      assert Remembered(y, cfg, x);
    }
  }

  lemma TrySpentOnce(y: Sys, input: ReserveInput, cfg: Config, gap: int)
    requires SpentOnce(y, cfg) && gap <= Horizon(cfg) - cfg.tolerance
    requires input in y.checked && y.clock - input.receivedAt <= gap
    ensures SpentOnce(After(y, TryReserve(input), cfg), cfg)
  {
    RowsStay(y.a.s, OpReserve(input));
    var z := After(y, TryReserve(input), cfg);
    StillSpentOnce(y, z.(spent := y.spent), cfg);
    if z.spent != y.spent {
      assert input.requestId !in y.a.s.requests && z.a.s.requests[input.requestId] == RowOf(input, Reserved);
      hide Reserve, Apply;
      assert Remembered(z, cfg, input);
      forall x | x in z.spent ensures Remembered(z, cfg, x) {
        assert x in y.spent || x == input;
        assert x in y.spent ==> Remembered(z.(spent := y.spent), cfg, x);
      }
      forall i | 0 <= i < |y.spent| ensures !SameClaim(y.spent[i], input) {
        assert Remembered(y, cfg, y.spent[i]);
      }
    }
  }

  lemma TickSpentOnce(y: Sys, t: Tick, cfg: Config, gap: int)
    requires SpentOnce(y, cfg) && Possible(y, t, cfg, gap) && gap <= Horizon(cfg) - cfg.tolerance
    ensures SpentOnce(After(y, t, cfg), cfg)
  {
    hide Apply, Reserve, Overcredits, Lists;
    match t
    case TryReserve(input) => TrySpentOnce(y, input, cfg, gap);
    case RunReaper(order) =>
      RowsStay(y.a.s, OpReap(order, y.clock - cfg.reserveTtl, y.clock));
      StillSpentOnce(y, After(y, t, cfg), cfg);
    case Other(op) =>
      RowsStay(y.a.s, op);
      StillSpentOnce(y, After(y, t, cfg), cfg);
    case RunCleanup => CleanupRows(y.a.s, y.clock - Horizon(cfg)); StillSpentOnce(y, After(y, t, cfg), cfg);
    case Wait(until) => StillSpentOnce(y, After(y, t, cfg), cfg);
    case CheckWindow(input) =>
      forall x | x in y.spent ensures Remembered(After(y, t, cfg), cfg, x) {
        assert Remembered(y, cfg, x);
      }
  }

  lemma CleanupRows(s: Store, cutoff: int)
    ensures Apply(s, OpCleanup(cutoff)) == s.(requests := s.requests - Aged(s, cutoff).Keys)
  {}

  /** Replay safety across purging: over every interleaving of window checks, reserves, reaper and cleanup runs
      and other operations, no signed claim (requestId, issuedAt) is reserved twice, if a reserve follows its
      window check within horizon minus tolerance. */
  lemma {:induction false} ClaimsAreSingleUse(clock: int, ts: seq<Tick>, cfg: Config, gap: int)
    requires Feasible(Fresh(clock), ts, cfg, gap) && gap <= Horizon(cfg) - cfg.tolerance
    ensures SpentOnce(Run(Fresh(clock), ts, cfg), cfg)
    decreases |ts|
  {
    if ts != [] {
      hide Possible, SpentOnce, After;
      FeasiblePrefix(Fresh(clock), ts, cfg, gap);
      ClaimsAreSingleUse(clock, ts[..|ts| - 1], cfg, gap);
      TickSpentOnce(Run(Fresh(clock), ts[..|ts| - 1], cfg), ts[|ts| - 1], cfg, gap);
    }
  }

  /** A system in which an account can pay, two steps from the empty one: what the schedules below start from. */
  lemma SomeoneCanPay(clock: int, d: DepositInput)
    requires d.amount >= 0
    ensures var ts := [Other(OpMint(d, clock))];
      forall cfg, gap ::
        var y := Run(Fresh(clock), ts, cfg);
        && Feasible(Fresh(clock), ts, cfg, gap) && Inv(y.a) && y.clock == clock
        && y.a.s.requests == map[] && d.identityId in y.a.s.identities
        && y.a.s.identities[d.identityId].balance == d.amount
  {
    var t := Other(OpMint(d, clock));
    FirstMint(d, clock);
    InvInit();
    MintKeeps(Audit(EMPTY, []), d, clock);
    hide Inv, InsertAndCredit;
    assert [t][..0] == [];
    forall cfg, gap
      ensures var y := Run(Fresh(clock), [t], cfg);
        && Feasible(Fresh(clock), [t], cfg, gap) && Inv(y.a) && y.clock == clock
        && y.a.s.requests == map[] && d.identityId in y.a.s.identities
        && y.a.s.identities[d.identityId].balance == d.amount
    {
      assert Run(Fresh(clock), [t][..0], cfg) == Fresh(clock);
      assert Run(Fresh(clock), [t], cfg) == After(Fresh(clock), t, cfg);
    }
  }

  // ---------- the bound on the gap is exact ----------

  /** The schedule that spends a claim twice: check and reserve at once, check again at the end of the window,
      purge just behind the horizon, then reserve on the second check. */
  function DoubleSpend(first: ReserveInput, cfg: Config): seq<Tick> {
    var second := first.(receivedAt := first.issuedAt + cfg.tolerance);
    [CheckWindow(first), TryReserve(first), Wait(second.receivedAt), CheckWindow(second),
     Wait(first.issuedAt + Horizon(cfg) + 1), RunCleanup, TryReserve(second)]
  }

  /** One second more and the guarantee is gone: from any state in which the account can pay twice, the
      schedule above is feasible with a gap of horizon minus tolerance plus one, and reserves one claim twice. */
  lemma LargerGapSpendsTwice(y: Sys, input: ReserveInput, cfg: Config)
    requires Positive(cfg)
    requires input.issuedAt == input.receivedAt == y.clock && input.amount >= 0
    requires input.requestId !in y.a.s.requests && input.identityId in y.a.s.identities
    requires Solvent(y.a.s, input.identityId)
    requires y.a.s.identities[input.identityId].balance >= 2 * input.amount
    ensures var ts := DoubleSpend(input, cfg);
      && Feasible(y, ts, cfg, Horizon(cfg) - cfg.tolerance + 1)
      && Run(y, ts, cfg).spent == y.spent + [input, input.(receivedAt := input.issuedAt + cfg.tolerance)]
  {
    hide Reserve, Solvent, Move, Run, Feasible, After, Possible, Horizon;
    var second, gap := input.(receivedAt := input.issuedAt + cfg.tolerance), Horizon(cfg) - cfg.tolerance + 1;
    HorizonExceeds(cfg);
    ReserveSucceeds(y.a.s, input);
    var y1 := y.(checked := y.checked + {input});
    var y2 := y1.(a := y.a.(s := Reserve(y.a.s, input).0), spent := y.spent + [input]);
    var y3 := y2.(clock := second.receivedAt);
    var y4 := y3.(checked := y3.checked + {second});
    var y5 := y4.(clock := input.issuedAt + Horizon(cfg) + 1);
    CheckStep(y, input, cfg, gap);
    TryStep(y1, input, cfg, gap);
    WaitStep(y2, y3.clock, cfg, gap);
    CheckStep(y3, second, cfg, gap);
    WaitStep(y4, y5.clock, cfg, gap);
    var y6 := After(y5, RunCleanup, cfg);
    CleanStep(y5, input.requestId, cfg, gap);
    SolventWithoutRequests(y5.a.s, y6.a.s, input.identityId);
    ReserveSucceeds(y6.a.s, second);
    TryStep(y6, second, cfg, gap);
    var y7 := y6.(a := y6.a.(s := Reserve(y6.a.s, second).0), spent := y6.spent + [second]);
    SevenSteps(y, y1, y2, y3, y4, y5, y6, y7, DoubleSpend(input, cfg), cfg, gap);
    assert y.spent + [input] + [second] == y.spent + [input, second];
  }

  lemma HorizonExceeds(cfg: Config)
    requires Positive(cfg)
    ensures Horizon(cfg) > cfg.tolerance > 0
  {}

  /** A cleanup that finds the row of a request behind the horizon. */
  lemma CleanStep(y: Sys, rid: string, cfg: Config, gap: int)
    requires rid in y.a.s.requests && y.a.s.requests[rid].issuedAt < y.clock - Horizon(cfg)
    ensures Possible(y, RunCleanup, cfg, gap)
    ensures var z := After(y, RunCleanup, cfg);
      && z == y.(a := z.a) && z.a.s == y.a.s.(requests := z.a.s.requests) && rid !in z.a.s.requests
  {
    CleanupRows(y.a.s, y.clock - Horizon(cfg));
    hide Apply;
    assert rid in Aged(y.a.s, y.clock - Horizon(cfg));
  }

  lemma SolventWithoutRequests(s: Store, t: Store, who: string)
    requires t == s.(requests := t.requests)
    ensures Solvent(s, who) <==> Solvent(t, who)
  {}

  lemma ReserveSucceeds(s: Store, input: ReserveInput)
    requires input.requestId !in s.requests && input.identityId in s.identities && Solvent(s, input.identityId)
    requires s.identities[input.identityId].balance >= input.amount
    ensures var (t, r) := Reserve(s, input);
      && r.Done? && r.value.ReservedWith?
      && t.requests == s.requests[input.requestId := RowOf(input, Reserved)]
      && input.identityId in t.identities
      && t.identities[input.identityId].balance == s.identities[input.identityId].balance - input.amount
      && Solvent(t, input.identityId)
  {
    var who := input.identityId;
    var row := s.(requests := s.requests[input.requestId := RowOf(input, Reserved)],
      identities := s.identities[who := s.identities[who].(lastRequestAt := Some(input.receivedAt))]);
    MoveIsSolvent(row, who, -input.amount, Debit, ReserveReason, input.receivedAt, Some(input.requestId), None);
  }

  /** A run of seven steps, spelt out. */
  lemma SevenSteps(y0: Sys, y1: Sys, y2: Sys, y3: Sys, y4: Sys, y5: Sys, y6: Sys, y7: Sys,
                   ts: seq<Tick>, cfg: Config, gap: int)
    requires |ts| == 7
    requires Possible(y0, ts[0], cfg, gap) && y1 == After(y0, ts[0], cfg)
    requires Possible(y1, ts[1], cfg, gap) && y2 == After(y1, ts[1], cfg)
    requires Possible(y2, ts[2], cfg, gap) && y3 == After(y2, ts[2], cfg)
    requires Possible(y3, ts[3], cfg, gap) && y4 == After(y3, ts[3], cfg)
    requires Possible(y4, ts[4], cfg, gap) && y5 == After(y4, ts[4], cfg)
    requires Possible(y5, ts[5], cfg, gap) && y6 == After(y5, ts[5], cfg)
    requires Possible(y6, ts[6], cfg, gap) && y7 == After(y6, ts[6], cfg)
    ensures Feasible(y0, ts, cfg, gap) && Run(y0, ts, cfg) == y7
  {
    hide After, Possible;
    assert ts[..1][..0] == ts[..0] && ts[..2][..1] == ts[..1] && ts[..3][..2] == ts[..2] && ts[..4][..3] == ts[..3];
    assert ts[..5][..4] == ts[..4] && ts[..6][..5] == ts[..5] && ts[..7] == ts && ts[..7][..6] == ts[..6];
    assert Run(y0, ts[..0], cfg) == y0;
    assert Run(y0, ts[..1], cfg) == y1;
    assert Run(y0, ts[..2], cfg) == y2;
    assert Run(y0, ts[..3], cfg) == y3;
    assert Run(y0, ts[..4], cfg) == y4;
    assert Run(y0, ts[..5], cfg) == y5;
    assert Run(y0, ts[..6], cfg) == y6;
  }

  // ---------- no reservation is purged ----------

  /** Every reserved row was received no earlier than one reservation time before the last reaper run, and
      carries a claim inside its window. */
  ghost predicate Reapt(y: Sys, cfg: Config) {
    && Inv(y.a) && y.lastReap <= y.clock
    && (forall x | x in y.checked ::
          x.receivedAt <= y.clock && -cfg.tolerance <= x.receivedAt - x.issuedAt <= cfg.tolerance)
    && (forall rid | rid in y.a.s.requests && y.a.s.requests[rid].status == Reserved ::
          y.a.s.requests[rid].receivedAt >= y.lastReap - cfg.reserveTtl
          && y.a.s.requests[rid].issuedAt >= y.a.s.requests[rid].receivedAt - cfg.tolerance)
  }

  /** Cleanup follows the last reaper run closely enough. */
  predicate Timely(y: Sys, t: Tick, cfg: Config) {
    t.RunCleanup? ==> y.clock - y.lastReap <= Slack(cfg)
  }

  ghost predicate PurgesReservation(y: Sys, cfg: Config) {
    exists rid :: rid in Aged(y.a.s, y.clock - Horizon(cfg)) && y.a.s.requests[rid].status == Reserved
  }

  lemma {:induction false} ReapedRows(s: Store, order: seq<string>, cutoff: int, at: int)
    requires Reap(s, order, cutoff, at).1.Done?
    ensures var t := Reap(s, order, cutoff, at).0;
      && t.identities.Keys == s.identities.Keys
      && (forall rid | rid in t.requests && t.requests[rid].status == Reserved ::
            rid in s.requests && t.requests[rid] == s.requests[rid] && !(rid in order && Reapable(s, rid, cutoff)))
    decreases |order|
  {
    if order != [] {
      ReapedRows(s, order[..|order| - 1], cutoff, at);
    }
  }

  /** Reserved rows come from a reserve or were there before. */
  lemma ReservedFrom(s: Store, op: Op)
    requires !op.OpReserve? && !op.OpCleanup?
    ensures forall rid | rid in Apply(s, op).requests && Apply(s, op).requests[rid].status == Reserved ::
      rid in s.requests && s.requests[rid] == Apply(s, op).requests[rid]
  {
    hide Apply;
    forall rid | rid in Apply(s, op).requests && Apply(s, op).requests[rid].status == Reserved
      ensures rid in s.requests && s.requests[rid] == Apply(s, op).requests[rid]
    {
      StepMoves(s, op, rid);
    }
  }

  lemma ReaperReapt(y: Sys, order: seq<string>, cfg: Config)
    requires Reapt(y, cfg) && Lists(order, y.a.s.requests.Keys)
    ensures Reapt(After(y, RunReaper(order), cfg), cfg)
  {
    hide Balanced, WellNumbered;
    var cutoff := y.clock - cfg.reserveTtl;
    StepKeeps(y.a, OpReap(order, cutoff, y.clock));
    ReapedRows(y.a.s, order, cutoff, y.clock);
  }

  lemma TryReapt(y: Sys, input: ReserveInput, cfg: Config, gap: int)
    requires Reapt(y, cfg) && gap <= cfg.reserveTtl && input in y.checked && y.clock - input.receivedAt <= gap
    ensures Reapt(After(y, TryReserve(input), cfg), cfg)
  {
    StepKeeps(y.a, OpReserve(input));
    hide Inv, Solvent, Move;
    ReserveRows(y.a.s, input);
  }

  lemma ReserveRows(s: Store, input: ReserveInput)
    ensures var t := Reserve(s, input).0;
      forall rid | rid in t.requests && t.requests[rid].status == Reserved ::
        (rid in s.requests && t.requests[rid] == s.requests[rid]) || t.requests[rid] == RowOf(input, Reserved)
  {}

  lemma TickReapt(y: Sys, t: Tick, cfg: Config, gap: int)
    requires Reapt(y, cfg) && Possible(y, t, cfg, gap) && gap <= cfg.reserveTtl
    ensures Reapt(After(y, t, cfg), cfg)
  {
    hide Balanced, WellNumbered, Anchored, Inv, Apply, Reserve, Lists;
    match t
    case RunReaper(order) => ReaperReapt(y, order, cfg);
    case TryReserve(input) => TryReapt(y, input, cfg, gap);
    case RunCleanup =>
      CleanupRows(y.a.s, y.clock - Horizon(cfg));
      StepKeeps(y.a, OpCleanup(y.clock - Horizon(cfg)));
    case Other(op) =>
      StepKeeps(y.a, op);
      ReservedFrom(y.a.s, op);
    case _ =>
  }

  lemma {:induction false} RunReapt(clock: int, ts: seq<Tick>, cfg: Config, gap: int)
    requires Feasible(Fresh(clock), ts, cfg, gap) && gap <= cfg.reserveTtl
    ensures Reapt(Run(Fresh(clock), ts, cfg), cfg)
    decreases |ts|
  {
    if ts == [] {
      InvInit();
    } else {
      hide Possible, Reapt, After;
      FeasiblePrefix(Fresh(clock), ts, cfg, gap);
      RunReapt(clock, ts[..|ts| - 1], cfg, gap);
      TickReapt(Run(Fresh(clock), ts[..|ts| - 1], cfg), ts[|ts| - 1], cfg, gap);
    }
  }

  /** Over every run a cleanup that follows the last reaper run within the slack purges no reserved row, so no
      reservation loses its refund. */
  lemma CleanupSparesReservations(clock: int, ts: seq<Tick>, cfg: Config, gap: int)
    requires Feasible(Fresh(clock), ts, cfg, gap) && gap <= cfg.reserveTtl
    ensures var y := Run(Fresh(clock), ts, cfg);
      Timely(y, RunCleanup, cfg) ==> !PurgesReservation(y, cfg)
  {
    RunReapt(clock, ts, cfg, gap);
  }

  /** The slack is exact: a row whose claim was signed at the far edge of the window, received exactly one
      reservation time before the reaper ran, is still reserved after it, and a cleanup purges it as soon as
      the slack is exceeded; its refund is then refused. */
  lemma LateCleanupLosesRefund(y: Sys, rid: string, order: seq<string>, until: int, cfg: Config)
    requires Inv(y.a) && Lists(order, y.a.s.requests.Keys)
    requires CurrentStatus(y.a.s, rid) == Some(Reserved)
    requires y.a.s.requests[rid].receivedAt == y.clock - cfg.reserveTtl
    requires y.a.s.requests[rid].issuedAt == y.a.s.requests[rid].receivedAt - cfg.tolerance
    ensures var z := After(After(y, RunReaper(order), cfg), Wait(until), cfg);
      && CurrentStatus(z.a.s, rid) == Some(Reserved)
      && (rid in Aged(z.a.s, z.clock - Horizon(cfg)) <==> z.clock - z.lastReap > Slack(cfg))
      && (z.clock - z.lastReap > Slack(cfg) ==>
            Rollback(After(z, RunCleanup, cfg).a.s, rid, z.clock).1 == Done(Refused(None)))
  {
    var cutoff := y.clock - cfg.reserveTtl;
    ReapKeeps(y.a, order, cutoff, y.clock);
    NotReaped(y.a.s, order, cutoff, y.clock, rid);
  }

  /** A schedule that leads there: check and reserve a claim signed at the far edge of the window, wait one
      reservation time, run the reaper, wait. */
  function LastMomentReservation(input: ReserveInput, order: seq<string>, until: int, cfg: Config): seq<Tick> {
    [CheckWindow(input), TryReserve(input), Wait(input.receivedAt + cfg.reserveTtl), RunReaper(order), Wait(until)]
  }

  /** From any state in which the account can pay that schedule is feasible without any delay between check and
      reserve; the row is still reserved after it, and a cleanup purges it, refund and all, exactly when it runs
      later after the reaper than the slack allows. */
  lemma LastMomentRefundLost(y: Sys, input: ReserveInput, order: seq<string>, until: int, cfg: Config)
    requires Positive(cfg) && Inv(y.a) && until >= y.clock + cfg.reserveTtl
    requires input.receivedAt == y.clock && input.issuedAt == y.clock - cfg.tolerance
    requires input.requestId !in y.a.s.requests && input.identityId in y.a.s.identities
    requires y.a.s.identities[input.identityId].balance >= input.amount
    requires Lists(order, y.a.s.requests.Keys + {input.requestId})
    ensures var ts := LastMomentReservation(input, order, until, cfg);
      var z := Run(y, ts, cfg);
      && Feasible(y, ts, cfg, 0)
      && CurrentStatus(z.a.s, input.requestId) == Some(Reserved)
      && (input.requestId in Aged(z.a.s, z.clock - Horizon(cfg)) <==> !Timely(z, RunCleanup, cfg))
      && (!Timely(z, RunCleanup, cfg) ==>
            Rollback(After(z, RunCleanup, cfg).a.s, input.requestId, z.clock).1 == Done(Refused(None)))
  {
    hide *;
    LastMomentFeasible(y, input, order, until, cfg);
    var y3 := JustReserved(y, input, cfg);
    LateCleanupLosesRefund(y3, input.requestId, order, until, cfg);
    TimelyMeans(After(After(y3, RunReaper(order), cfg), Wait(until), cfg), cfg);
  }

  /** The state in which the reaper meets the reservation. */
  function JustReserved(y: Sys, input: ReserveInput, cfg: Config): Sys {
    y.(clock := y.clock + cfg.reserveTtl, checked := y.checked + {input}, a := y.a.(s := Reserve(y.a.s, input).0),
       spent := y.spent + [input])
  }

  lemma LastMomentFeasible(y: Sys, input: ReserveInput, order: seq<string>, until: int, cfg: Config)
    requires Positive(cfg) && Inv(y.a) && until >= y.clock + cfg.reserveTtl
    requires input.receivedAt == y.clock && input.issuedAt == y.clock - cfg.tolerance
    requires input.requestId !in y.a.s.requests && input.identityId in y.a.s.identities
    requires y.a.s.identities[input.identityId].balance >= input.amount
    requires Lists(order, y.a.s.requests.Keys + {input.requestId})
    ensures var ts := LastMomentReservation(input, order, until, cfg);
      var y3 := JustReserved(y, input, cfg);
      && Feasible(y, ts, cfg, 0) && Run(y, ts, cfg) == After(After(y3, RunReaper(order), cfg), Wait(until), cfg)
      && Inv(y3.a) && Lists(order, y3.a.s.requests.Keys)
      && CurrentStatus(y3.a.s, input.requestId) == Some(Reserved)
      && y3.a.s.requests[input.requestId].receivedAt == y3.clock - cfg.reserveTtl
      && y3.a.s.requests[input.requestId].issuedAt == y3.a.s.requests[input.requestId].receivedAt - cfg.tolerance
  {
    InvIsSolvent(y.a, input.identityId);
    ReserveSucceeds(y.a.s, input);
    ReserveKeeps(y.a, input);
    hide Inv, Reserve, Solvent, Run, Feasible, After, Possible, Lists, Reap;
    var y1 := y.(checked := y.checked + {input});
    var y2 := y1.(a := y.a.(s := Reserve(y.a.s, input).0), spent := y.spent + [input]);
    var y3 := JustReserved(y, input, cfg);
    CheckStep(y, input, cfg, 0);
    TryStep(y1, input, cfg, 0);
    WaitStep(y2, y3.clock, cfg, 0);
    assert y3.a.s.requests.Keys == y.a.s.requests.Keys + {input.requestId};
    ReapStep(y3, order, cfg, 0);
    var y4 := After(y3, RunReaper(order), cfg);
    WaitStep(y4, until, cfg, 0);
    FiveSteps(y, y1, y2, y3, y4, y4.(clock := until), LastMomentReservation(input, order, until, cfg), cfg, 0);
  }

  lemma TimelyMeans(z: Sys, cfg: Config)
    ensures Timely(z, RunCleanup, cfg) <==> z.clock - z.lastReap <= Slack(cfg)
  {}

  lemma CheckStep(y: Sys, input: ReserveInput, cfg: Config, gap: int)
    requires input.receivedAt == y.clock && -cfg.tolerance <= y.clock - input.issuedAt <= cfg.tolerance
    ensures Possible(y, CheckWindow(input), cfg, gap)
    ensures After(y, CheckWindow(input), cfg) == y.(checked := y.checked + {input})
  {}

  lemma TryStep(y: Sys, input: ReserveInput, cfg: Config, gap: int)
    requires input in y.checked && y.clock - input.receivedAt <= gap
    requires var r := Reserve(y.a.s, input).1; r.Done? && r.value.ReservedWith?
    ensures Possible(y, TryReserve(input), cfg, gap)
    ensures After(y, TryReserve(input), cfg) == y.(a := y.a.(s := Reserve(y.a.s, input).0), spent := y.spent + [input])
  {
    hide Reserve;
  }

  lemma WaitStep(y: Sys, until: int, cfg: Config, gap: int)
    requires y.clock <= until
    ensures Possible(y, Wait(until), cfg, gap) && After(y, Wait(until), cfg) == y.(clock := until)
  {}

  lemma ReapStep(y: Sys, order: seq<string>, cfg: Config, gap: int)
    requires Lists(order, y.a.s.requests.Keys)
    ensures Possible(y, RunReaper(order), cfg, gap)
    ensures After(y, RunReaper(order), cfg) ==
      y.(a := y.a.(s := Reap(y.a.s, order, y.clock - cfg.reserveTtl, y.clock).0), lastReap := y.clock)
  {
    hide Reap;
  }

  /** A run of five steps, spelt out. */
  lemma FiveSteps(y0: Sys, y1: Sys, y2: Sys, y3: Sys, y4: Sys, y5: Sys, ts: seq<Tick>, cfg: Config, gap: int)
    requires |ts| == 5
    requires Possible(y0, ts[0], cfg, gap) && y1 == After(y0, ts[0], cfg)
    requires Possible(y1, ts[1], cfg, gap) && y2 == After(y1, ts[1], cfg)
    requires Possible(y2, ts[2], cfg, gap) && y3 == After(y2, ts[2], cfg)
    requires Possible(y3, ts[3], cfg, gap) && y4 == After(y3, ts[3], cfg)
    requires Possible(y4, ts[4], cfg, gap) && y5 == After(y4, ts[4], cfg)
    ensures Feasible(y0, ts, cfg, gap) && Run(y0, ts, cfg) == y5
  {
    hide After, Possible;
    assert ts[..1][..0] == ts[..0] && ts[..2][..1] == ts[..1] && ts[..3][..2] == ts[..2] && ts[..4][..3] == ts[..3];
    assert ts[..5] == ts && ts[..5][..4] == ts[..4];
    assert Run(y0, ts[..0], cfg) == y0;
    assert Run(y0, ts[..1], cfg) == y1;
    assert Run(y0, ts[..2], cfg) == y2;
    assert Run(y0, ts[..3], cfg) == y3;
    assert Run(y0, ts[..4], cfg) == y4;
  }

  // ---------- the bound on the gap, for reservations ----------

  /** A reserve that lands one second too late: the reaper has passed, and the row is overdue from the start. */
  function LateReserve(input: ReserveInput, order: seq<string>, cfg: Config): seq<Tick> {
    var t := input.receivedAt + cfg.reserveTtl + 1;
    [CheckWindow(input), Wait(t), RunReaper(order), TryReserve(input), Wait(t + Slack(cfg))]
  }

  lemma {:induction false} ReapRaises(s: Store, order: seq<string>, cutoff: int, at: int, who: string)
    requires forall rid | rid in s.requests :: s.requests[rid].amount >= 0
    ensures var t := Reap(s, order, cutoff, at).0;
      && Balance(t, who) >= Balance(s, who)
      && forall rid | rid in t.requests :: t.requests[rid].amount >= 0
    decreases |order|
  {
    if order != [] {
      ReapRaises(s, order[..|order| - 1], cutoff, at, who);
    }
  }

  /** The bound on the gap is exact: at one second more than the reservation time, from any state in which the
      account can pay, a feasible schedule ends where a cleanup within the slack purges a reserved row. */
  lemma LargerGapPurges(y: Sys, input: ReserveInput, order: seq<string>, cfg: Config)
    requires Positive(cfg) && Inv(y.a) && Lists(order, y.a.s.requests.Keys)
    requires forall rid | rid in y.a.s.requests :: y.a.s.requests[rid].amount >= 0
    requires input.receivedAt == y.clock && input.issuedAt == y.clock - cfg.tolerance
    requires input.requestId !in y.a.s.requests && input.identityId in y.a.s.identities
    requires y.a.s.identities[input.identityId].balance >= input.amount
    ensures var ts := LateReserve(input, order, cfg);
      var z := Run(y, ts, cfg);
      Feasible(y, ts, cfg, cfg.reserveTtl + 1) && Timely(z, RunCleanup, cfg) && PurgesReservation(z, cfg)
  {
    hide Inv, Reserve, Solvent, Run, Feasible, After, Possible, Reap, Lists, PurgesReservation, Timely, Slack, Horizon;
    var t := y.clock + cfg.reserveTtl + 1;
    ReapLeavesRoom(y.a, input, order, t - cfg.reserveTtl, t);
    SlackIsNonNegative(cfg);
    var gap := cfg.reserveTtl + 1;
    var y1 := y.(checked := y.checked + {input});
    var y2 := y1.(clock := t);
    var y3 := After(y2, RunReaper(order), cfg);
    CheckStep(y, input, cfg, gap);
    WaitStep(y1, t, cfg, gap);
    ReapStep(y2, order, cfg, gap);
    InvIsSolvent(y3.a, input.identityId);
    ReserveSucceeds(y3.a.s, input);
    TryStep(y3, input, cfg, gap);
    var y4 := After(y3, TryReserve(input), cfg);
    var y5 := y4.(clock := t + Slack(cfg));
    WaitStep(y4, y5.clock, cfg, gap);
    FiveSteps(y, y1, y2, y3, y4, y5, LateReserve(input, order, cfg), cfg, gap);
    TimelyMeans(y5, cfg);
    PurgeMeans(y5, cfg, input.requestId);
  }

  lemma PurgeMeans(z: Sys, cfg: Config, rid: string)
    requires CurrentStatus(z.a.s, rid) == Some(Reserved)
    requires z.a.s.requests[rid].issuedAt + cfg.tolerance < z.clock - cfg.reserveTtl - Slack(cfg)
    ensures PurgesReservation(z, cfg)
  {
    assert rid in Aged(z.a.s, z.clock - Horizon(cfg));
  }

  /** A reap leaves a payable account payable and an unused requestId unused. */
  lemma ReapLeavesRoom(a: Audit, input: ReserveInput, order: seq<string>, cutoff: int, at: int)
    requires Inv(a) && input.requestId !in a.s.requests && input.identityId in a.s.identities
    requires forall rid | rid in a.s.requests :: a.s.requests[rid].amount >= 0
    requires a.s.identities[input.identityId].balance >= input.amount
    ensures var t := Reap(a.s, order, cutoff, at).0;
      && Inv(Audit(t, a.purged)) && input.requestId !in t.requests && input.identityId in t.identities
      && t.identities[input.identityId].balance >= input.amount
  {
    hide Inv, Reap;
    ReapKeeps(a, order, cutoff, at);
    ReapedRows(a.s, order, cutoff, at);
    ReapRaises(a.s, order, cutoff, at, input.identityId);
    ReapFollows(a.s, order, cutoff, at, input.requestId);
  }

  lemma {:induction false} NotReaped(s: Store, order: seq<string>, cutoff: int, at: int, rid: string)
    requires rid in s.requests && s.requests[rid].receivedAt >= cutoff
    ensures rid in Reap(s, order, cutoff, at).0.requests
    ensures Reap(s, order, cutoff, at).0.requests[rid] == s.requests[rid]
    decreases |order|
  {
    if order != [] {
      NotReaped(s, order[..|order| - 1], cutoff, at, rid);
    }
  }
}
