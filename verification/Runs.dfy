/** Whole runs of storage operations: conservation, the exact condition for it, and the debt bound. */
module Runs {
  import opened Basics
  import opened Ledger
  import opened Conservation

  function ExecFrom(a: Audit, ops: seq<Op>): Audit
    decreases |ops|
  {
    if ops == [] then a else Step(ExecFrom(a, ops[..|ops| - 1]), ops[|ops| - 1])
  }

  function Exec(ops: seq<Op>): Audit {
    ExecFrom(Audit(EMPTY, []), ops)
  }

  /** No re-mine of the run hits a live credited row. */
  ghost predicate Careful(ops: seq<Op>) {
    forall i | 0 <= i < |ops| :: !Overcredits(Exec(ops[..i]).s, ops[i])
  }

  lemma CarefulPrefix(ops: seq<Op>)
    requires Careful(ops) && ops != []
    ensures Careful(ops[..|ops| - 1]) && !Overcredits(Exec(ops[..|ops| - 1]).s, ops[|ops| - 1])
  {
    hide Apply, Overcredits;
    var head := ops[..|ops| - 1];
    forall i | 0 <= i < |head| ensures !Overcredits(Exec(head[..i]).s, head[i]) {
      assert head[..i] == ops[..i] && !Overcredits(Exec(ops[..i]).s, ops[i]);
    }
  }

  /** Conservation over every run: for every identity the balance, the ledger sum, the newest running
      balance, and credited deposits minus charges agree, and no operation of the run throws. */
  lemma {:induction false} RunConserves(ops: seq<Op>)
    requires Careful(ops)
    ensures Inv(Exec(ops))
    ensures forall i | 0 <= i < |ops| :: !Faults(Exec(ops[..i]).s, ops[i])
    decreases |ops|
  {
    hide Inv, Apply, Faults, Overcredits;
    if ops != [] {
      var n := |ops| - 1;
      var head := ops[..n];
      CarefulPrefix(ops);
      RunConserves(head);
      StepKeeps(Exec(head), ops[n]);
      forall i | 0 <= i < n ensures !Faults(Exec(ops[..i]).s, ops[i]) {
        assert head[..i] == ops[..i] && head[i] == ops[i];
      }
    } else {
      InvInit();
    }
  }

  /** A re-mine of a live credited row drops its credit from the books and leaves the balance alone. */
  lemma OvercreditUnbalances(a: Audit, op: Op)
    requires Inv(a) && Overcredits(a.s, op)
    ensures var d := a.s.deposits[FindDeposit(a.s.deposits, op.txid, op.vout).value];
      Balance(Step(a, op).s, d.identityId) == Expected(Step(a, op), d.identityId) + d.amount
  {
    var i := FindDeposit(a.s.deposits, op.txid, op.vout).value;
    var d := a.s.deposits[i];
    assert Balanced(a, d.identityId);
    PutDeposit(a, i, Step(a, op).s.deposits[i], d.identityId);
  }

  /** The exact condition: an operation keeps the invariant if and only if it is not a re-mine of a live
      credited row of non-zero amount. */
  lemma KeepsExactlyWhen(a: Audit, op: Op)
    requires Inv(a)
    ensures Inv(Step(a, op)) <==>
      !(Overcredits(a.s, op) && a.s.deposits[FindDeposit(a.s.deposits, op.txid, op.vout).value].amount != 0)
  {
    if Overcredits(a.s, op) {
      var i := FindDeposit(a.s.deposits, op.txid, op.vout).value;
      var d := a.s.deposits[i];
      OvercreditUnbalances(a, op);
      assert Inv(Step(a, op)) ==> Balanced(Step(a, op), d.identityId);
      if d.amount == 0 {
        var s1 := Step(a, op).s;
        forall other ensures Balanced(Audit(s1, a.purged), other) {
          assert Balanced(a, other);
          PutDeposit(a, i, s1.deposits[i], other);
        }
      }
    } else {
      StepKeeps(a, op);
    }
  }

  /** A first deposit, credited by the operator, opens an account that holds its amount. */
  lemma FirstMint(d: DepositInput, at: int)
    ensures var s := InsertAndCredit(EMPTY, d, at).0;
      && d.identityId in s.identities && s.identities[d.identityId].balance == d.amount && s.requests == map[]
      && |s.deposits| == 1 && s.deposits[0].creditedAt.Some? && s.deposits[0].reorgedAt.None?
      && s.deposits[0].txid == d.txid && s.deposits[0].vout == d.vout && s.deposits[0].amount == d.amount
      && FindDeposit(s.deposits, d.txid, d.vout) == Some(0)
  {}

  /** The failing input: an operator credit followed by a re-mine of the same output unbalances the books. */
  lemma RemineAloneUnbalances(d: DepositInput, at: int, height: int, hash: string, confirmations: int)
    requires d.amount != 0
    ensures var mint, remine := OpMint(d, at), OpRemine(d.txid, d.vout, height, hash, confirmations);
      && Overcredits(Exec([mint]).s, remine) && Inv(Exec([mint])) && !Inv(Exec([mint, remine]))
  {
    var mint, remine := OpMint(d, at), OpRemine(d.txid, d.vout, height, hash, confirmations);
    FirstMint(d, at);
    InvInit();
    MintKeeps(Audit(EMPTY, []), d, at);
    hide Inv, InsertAndCredit, FindDeposit;
    assert [mint][..0] == [] && [mint, remine][..1] == [mint];
    assert Exec([]) == Audit(EMPTY, []);
    assert Exec([mint]) == Step(Exec([]), mint);
    assert Exec([mint, remine]) == Step(Exec([mint]), remine);
    KeepsExactlyWhen(Exec([mint]), remine);
  }

  // ---------- the debt bound ----------

  /** What late commits and reorgs have taken from `who`. */
  function Forced(who: string): Entry -> int {
    (e: Entry) => if e.identityId == who && (e.reason.LateCommit? || e.reason.Reorg?) then -e.amount else 0
  }

  ghost function ForcedSum(s: Store, who: string): int {
    SumSeq(s.ledger, Forced(who))
  }

  ghost predicate NonNegative(s: Store) {
    && (forall rid | rid in s.requests :: s.requests[rid].amount >= 0)
    && (forall d | d in s.deposits :: d.amount >= 0)
  }

  predicate NonNegativeOp(op: Op) {
    match op
    case OpReserve(input) => input.amount >= 0
    case OpInsert(d) => d.amount >= 0
    case OpMint(d, _) => d.amount >= 0
    case _ => true
  }

  /** The debt of `who` is covered by forced movements, which never shrink. */
  ghost predicate Bounded(s: Store, who: string) {
    Balance(s, who) + ForcedSum(s, who) >= 0 && ForcedSum(s, who) >= 0
  }

  ghost predicate AllBounded(s: Store) {
    NonNegative(s) && forall who :: Bounded(s, who)
  }

  lemma MoveBounded(s: Store, who: string, amount: int, kind: Kind, reason: Reason, at: int,
                    requestId: Option<string>, depositId: Option<nat>)
    requires who in s.identities && AllBounded(s)
    requires if reason.LateCommit? || reason.Reorg? then amount <= 0
             else amount >= 0 || Balance(s, who) + amount >= 0
    ensures AllBounded(Move(s, who, amount, kind, reason, at, requestId, depositId))
  {
    var m := Move(s, who, amount, kind, reason, at, requestId, depositId);
    forall other ensures Bounded(m, other) {
      assert Bounded(s, other);
      SumSeqAppend(s.ledger, m.ledger[|s.ledger|], Forced(other));
    }
  }

  /** The bound only reads balances and the ledger. */
  lemma SameBooks(s: Store, t: Store)
    requires AllBounded(s) && NonNegative(t) && t.ledger == s.ledger
    requires forall who :: Balance(t, who) == Balance(s, who)
    ensures AllBounded(t)
  {
    forall who ensures Bounded(t, who) {
      assert Bounded(s, who);
    }
  }

  lemma RefundBounded(s: Store, rid: string, reason: Reason, at: int)
    requires AllBounded(s) && rid in s.requests && s.requests[rid].identityId in s.identities
    requires reason.RollbackReason? || reason.ReaperExpired?
    ensures AllBounded(RefundRow(s, rid, reason, at))
  {
    var freed := SetStatus(s, rid, Errored);
    SameBooks(s, freed);
    MoveBounded(freed, s.requests[rid].identityId, s.requests[rid].amount, Refund, reason, at, Some(rid), None);
  }

  lemma {:induction false} ReapBounded(s: Store, order: seq<string>, cutoff: int, at: int)
    requires AllBounded(s)
    ensures AllBounded(Reap(s, order, cutoff, at).0)
    decreases |order|
  {
    if order != [] {
      var n := |order| - 1;
      ReapBounded(s, order[..n], cutoff, at);
      var s1 := Reap(s, order[..n], cutoff, at).0;
      if Reapable(s1, order[n], cutoff) {
        RefundBounded(s1, order[n], ReaperExpired, at);
      }
    }
  }

  lemma ReserveBounded(s: Store, input: ReserveInput)
    requires AllBounded(s) && input.amount >= 0
    ensures AllBounded(Reserve(s, input).0)
  {
    var s1 := Reserve(s, input).0;
    var who := input.identityId;
    if |s1.ledger| > |s.ledger| {
      var row := s.(requests := s1.requests,
                    identities := s.identities[who := s.identities[who].(lastRequestAt := Some(input.receivedAt))]);
      SameBooks(s, row);
      MoveBounded(row, who, -input.amount, Debit, ReserveReason, input.receivedAt, Some(input.requestId), None);
    } else {
      SameBooks(s, s1);
    }
  }

  lemma CreditBounded(s: Store, id: int, at: int)
    requires AllBounded(s)
    ensures AllBounded(Credit(s, id, at).0)
  {
    var s1 := Credit(s, id, at).0;
    if s1 != s {
      var d := s.deposits[id - 1];
      var enrolled := Enrol(SetDeposit(s, id - 1, d.(creditedAt := Some(at))), d.identityId, at);
      assert NonNegative(enrolled);
      SameBooks(s, enrolled);
      MoveBounded(enrolled, d.identityId, d.amount, DepositKind, DepositCredited, at, None, Some(id));
    }
  }

  lemma LateCommitBounded(s: Store, rid: string, bytes: int, at: int)
    requires AllBounded(s)
    ensures AllBounded(LateCommitPayment(s, rid, bytes, at).0)
  {
    var s1 := LateCommitPayment(s, rid, bytes, at).0;
    if s1 != s {
      var row := s.requests[rid];
      var done := s.(requests := s1.requests);
      SameBooks(s, done);
      MoveBounded(done, row.identityId, -row.amount, Debit, LateCommit, at, Some(rid), None);
    }
  }

  lemma MarkBounded(s: Store, id: int, at: int)
    requires AllBounded(s)
    ensures AllBounded(MarkReorged(s, id, at).0)
  {
    if HasId(s, id) && s.deposits[id - 1].reorgedAt.None? {
      var d := s.deposits[id - 1];
      var marked := SetDeposit(s, id - 1, d.(reorgedAt := Some(at)));
      SameBooks(s, marked);
      if MarkReorged(s, id, at).0 != marked {
        MoveBounded(marked, d.identityId, -d.amount, ReorgAdjust, Reorg, at, None, Some(id));
      }
    }
  }

  /** Operations that move no balance. */
  lemma QuietBounded(s: Store, op: Op)
    requires AllBounded(s) && NonNegativeOp(op)
    requires op.OpCommit? || op.OpCleanup? || op.OpQuery? || op.OpInsert? || op.OpRemine? || op.OpConfirm?
    ensures AllBounded(Apply(s, op))
  {
    SameBooks(s, Apply(s, op));
  }

  lemma StepBounded(a: Audit, op: Op)
    requires AllBounded(a.s) && NonNegativeOp(op)
    ensures AllBounded(Step(a, op).s)
  {
    hide AllBounded;
    match op
    case OpReserve(input) => ReserveBounded(a.s, input);
    case OpReap(order, cutoff, at) => ReapBounded(a.s, order, cutoff, at);
    case OpRollback(rid, at) => if Rollback(a.s, rid, at).0 != a.s { RefundBounded(a.s, rid, RollbackReason, at); }
    case OpLateCommit(rid, bytes, at) => LateCommitBounded(a.s, rid, bytes, at);
    case OpCredit(id, at) => CreditBounded(a.s, id, at);
    case OpMint(input, at) =>
      QuietBounded(a.s, OpInsert(input));
      CreditBounded(InsertDeposit(a.s, input).0, |InsertDeposit(a.s, input).0.deposits|, at);
    case OpMark(id, at) => MarkBounded(a.s, id, at);
    case _ => QuietBounded(a.s, op);
  }

  /** Debt bound over every run, faults and careless re-mines included: with non-negative amounts a balance
      is at least minus the total late-committed and reorg-adjusted for that identity. Without those rows
      no balance is ever negative. */
  lemma {:induction false} RunDebtBound(ops: seq<Op>, who: string)
    requires forall op | op in ops :: NonNegativeOp(op)
    ensures AllBounded(Exec(ops).s)
    ensures Balance(Exec(ops).s, who) >= -ForcedSum(Exec(ops).s, who)
    ensures (forall e | e in Exec(ops).s.ledger && e.identityId == who :: !e.reason.LateCommit? && !e.reason.Reorg?)
              ==> Balance(Exec(ops).s, who) >= 0
    decreases |ops|
  {
    if ops != [] {
      RunDebtBound(ops[..|ops| - 1], who);
      StepBounded(Exec(ops[..|ops| - 1]), ops[|ops| - 1]);
    }
    var s := Exec(ops).s;
    assert Bounded(s, who);
    if forall e | e in s.ledger && e.identityId == who :: !e.reason.LateCommit? && !e.reason.Reorg? {
      SumSeqZero(s.ledger, Forced(who));
    }
  }
}
