/** The two backends agree. They are proved against the same functions and differ only in the order in
    which the reaper meets its rows; here that order is shown not to matter, over whole runs. */
module Refinement {
  import opened Basics
  import opened Ledger
  import opened Conservation
  import opened Runs

  /** A ledger row without its position: row id and running balance depend on the listing order. */
  function Strip(e: Entry): Entry {
    e.(id := 0, balanceAfter := 0)
  }

  /** A measure of rows that does not look at positions. */
  ghost predicate Blind(f: Entry -> int) {
    forall e :: f(e) == f(Strip(e))
  }

  /** The same rows in possibly different order (every position-blind sum agrees, counts included), with the
      same newest running balance for everyone. */
  ghost predicate SameRows(l: seq<Entry>, m: seq<Entry>) {
    && (forall f: Entry -> int | Blind(f) :: SumSeq(l, f) == SumSeq(m, f))
    && (forall who :: LastBalance(l, who) == LastBalance(m, who))
  }

  /** Equal states up to the order in which ledger rows are listed. */
  ghost predicate Agree(s: Store, t: Store) {
    t == s.(ledger := t.ledger) && SameRows(s.ledger, t.ledger)
  }

  lemma AgreeSums(s: Store, t: Store, who: string)
    requires Agree(s, t)
    ensures LedgerSum(s, who) == LedgerSum(t, who)
  {
    assert Blind(LedgerOf(who));
  }

  // ---------- what a reap does, whatever the order ----------

  function RefundOf(s: Store, rid: string, at: int): Entry
    requires rid in s.requests
  {
    Entry(0, s.requests[rid].identityId, Refund, ReaperExpired, s.requests[rid].amount, 0, at, Some(rid), None)
  }

  /** The stripped refund rows a reap appends. */
  ghost function Refunds(s: Store, order: seq<string>, cutoff: int, at: int): map<string, Entry> {
    map rid | rid in s.requests && rid in order && Reapable(s, rid, cutoff) :: RefundOf(s, rid, at)
  }

  ghost predicate OnlyBalancesMoved(s: Store, t: Store) {
    && s.identities.Keys == t.identities.Keys
    && (forall w | w in s.identities :: s.identities[w].(balance := 0) == t.identities[w].(balance := 0))
    && s.deposits == t.deposits && s.cursors == t.cursors
  }

  /** The listed overdue rows are errored and named once each; besides them only balances move. */
  ghost predicate ReapedTo(s: Store, order: seq<string>, cutoff: int, t: Store, reaped: seq<string>) {
    && OnlyBalancesMoved(s, t)
    && t.requests == (map rid | rid in s.requests ::
         if rid in order && Reapable(s, rid, cutoff) then s.requests[rid].(status := Errored) else s.requests[rid])
    && Distinct(reaped)
    && (forall rid :: rid in reaped <==> rid in order && Reapable(s, rid, cutoff))
  }

  lemma ReapedNext(s: Store, head: seq<string>, rid: string, cutoff: int, at: int, t: Store, reaped: seq<string>)
    requires ReapedTo(s, head, cutoff, t, reaped) && rid !in head
    ensures Reapable(t, rid, cutoff) ==>
      ReapedTo(s, head + [rid], cutoff, RefundRow(t, rid, ReaperExpired, at), reaped + [rid])
    ensures !Reapable(t, rid, cutoff) ==> ReapedTo(s, head + [rid], cutoff, t, reaped)
  {}

  lemma {:induction false} ReapShape(s: Store, order: seq<string>, cutoff: int, at: int)
    requires Distinct(order) && Reap(s, order, cutoff, at).1.Done?
    ensures var (t, reaped) := Reap(s, order, cutoff, at);
      ReapedTo(s, order, cutoff, t, reaped.value)
    decreases |order|
  {
    if order == [] {
      assert Reap(s, order, cutoff, at) == (s, Done([]));
    } else {
      hide ReapedTo, RefundRow, Solvent;
      var n := |order| - 1;
      var (t, reaped) := Reap(s, order[..n], cutoff, at);
      ReapShape(s, order[..n], cutoff, at);
      ReapedNext(s, order[..n], order[n], cutoff, at, t, reaped.value);
      assert order == order[..n] + [order[n]];
    }
  }

  lemma {:induction false} ReapRows(s: Store, order: seq<string>, cutoff: int, at: int, f: Entry -> int)
    requires Distinct(order) && Reap(s, order, cutoff, at).1.Done? && Blind(f)
    ensures SumSeq(Reap(s, order, cutoff, at).0.ledger, f) ==
      SumSeq(s.ledger, f) + SumMap(Refunds(s, order, cutoff, at), f)
    decreases |order|
  {
    if order == [] {
      assert Refunds(s, order, cutoff, at) == map[];
    } else {
      var n := |order| - 1;
      var head, rid := order[..n], order[n];
      var s1 := Reap(s, head, cutoff, at).0;
      ReapRows(s, head, cutoff, at, f);
      ReapShape(s, head, cutoff, at);
      var before, after := Refunds(s, head, cutoff, at), Refunds(s, order, cutoff, at);
      assert rid !in head;
      RefundsStep(s, order, cutoff, at);
      hide Refunds;
      if Reapable(s, rid, cutoff) {
        assert s1.requests[rid] == s.requests[rid];
        RefundAppends(s1, rid, at, f);
        SumMapPut(before, rid, after[rid], f);
      }
    }
  }

  lemma RefundsStep(s: Store, order: seq<string>, cutoff: int, at: int)
    requires Distinct(order) && order != []
    ensures var n := |order| - 1;
      var before, after := Refunds(s, order[..n], cutoff, at), Refunds(s, order, cutoff, at);
      if Reapable(s, order[n], cutoff) then
        order[n] !in before && after == before[order[n] := RefundOf(s, order[n], at)]
      else after == before
  {
    var n := |order| - 1;
    assert order[n] !in order[..n];
    assert order == order[..n] + [order[n]];
    hide Reapable;
  }

  /** The refund appends one row, which a blind sum sees as the stripped one. */
  lemma RefundAppends(s: Store, rid: string, at: int, f: Entry -> int)
    requires rid in s.requests && s.requests[rid].identityId in s.identities && Blind(f)
    ensures SumSeq(RefundRow(s, rid, ReaperExpired, at).ledger, f) == SumSeq(s.ledger, f) + f(RefundOf(s, rid, at))
  {
    var t := RefundRow(s, rid, ReaperExpired, at);
    SumSeqAppend(s.ledger, t.ledger[|s.ledger|], f);
    assert Strip(t.ledger[|s.ledger|]) == RefundOf(s, rid, at) == Strip(RefundOf(s, rid, at));
  }

  /** Both orders meet every row the reaper must take. */
  ghost predicate SameSelection(s: Store, o1: seq<string>, o2: seq<string>, cutoff: int) {
    && Distinct(o1) && Distinct(o2)
    && (forall rid | Reapable(s, rid, cutoff) :: rid in o1 && rid in o2)
  }

  lemma BooksFixBalances(a: Audit, b: Audit)
    requires Inv(a) && Inv(b) && OnlyBalancesMoved(a.s, b.s)
    requires forall who :: LedgerSum(a.s, who) == LedgerSum(b.s, who)
    ensures a.s.identities == b.s.identities
    ensures forall who :: LastBalance(a.s.ledger, who) == LastBalance(b.s.ledger, who)
  {
    forall who ensures LastBalance(a.s.ledger, who) == LastBalance(b.s.ledger, who)
      ensures who in a.s.identities ==> a.s.identities[who] == b.s.identities[who]
    {
      assert Balanced(a, who) && Balanced(b, who);
      if who in a.s.identities {
        assert a.s.identities[who].(balance := 0) == b.s.identities[who].(balance := 0);
      }
    }
  }

  /** Reaping the same expired rows in any two orders gives the same accounts, the same request rows and the
      same ledger rows up to listing order, and names the same requests. */
  lemma ReapOrderIrrelevant(a: Audit, o1: seq<string>, o2: seq<string>, cutoff: int, at: int)
    requires Inv(a) && SameSelection(a.s, o1, o2, cutoff)
    ensures var (s1, r1) := Reap(a.s, o1, cutoff, at);
      var (s2, r2) := Reap(a.s, o2, cutoff, at);
      && Agree(s1, s2) && r1.Done? && r2.Done?
      && Distinct(r1.value) && Distinct(r2.value) && (forall rid :: rid in r1.value <==> rid in r2.value)
  {
    ReapKeeps(a, o1, cutoff, at);
    ReapKeeps(a, o2, cutoff, at);
    ReapShape(a.s, o1, cutoff, at);
    ReapShape(a.s, o2, cutoff, at);
    var s1, s2 := Reap(a.s, o1, cutoff, at).0, Reap(a.s, o2, cutoff, at).0;
    assert Refunds(a.s, o1, cutoff, at) == Refunds(a.s, o2, cutoff, at);
    forall f: Entry -> int | Blind(f) ensures SumSeq(s1.ledger, f) == SumSeq(s2.ledger, f) {
      ReapRows(a.s, o1, cutoff, at, f);
      ReapRows(a.s, o2, cutoff, at, f);
    }
    forall who ensures LedgerSum(s1, who) == LedgerSum(s2, who) {
      assert Blind(LedgerOf(who));
    }
    BooksFixBalances(Audit(s1, a.purged), Audit(s2, a.purged));
    assert s1.requests == s2.requests;
  }

  // ---------- lockstep ----------

  /** The observable answer of an operation; a reap answers with the set of requests it refunded. */
  datatype Reply =
    | RReserve(Outcome<ReserveResult>)
    | RConditional(Outcome<Conditional>)
    | RLate(Outcome<LateResult>)
    | RReap(Outcome<set<string>>)
    | RCount(nat)
    | RQuery(QueryResult)
    | RInsert(InsertResult)
    | RRemine(Option<Deposit>)
    | RUnit
    | RCredit(Outcome<CreditResult>)
    | RMint(Outcome<MintResult>)
    | RMark(Outcome<MarkResult>)

  ghost function Answer(s: Store, op: Op): Reply {
    match op
    case OpReserve(input) => RReserve(Reserve(s, input).1)
    case OpCommit(rid, bytes) => RConditional(Done(Commit(s, rid, bytes).1))
    case OpRollback(rid, at) => RConditional(Rollback(s, rid, at).1)
    case OpLateCommit(rid, bytes, at) => RLate(LateCommitPayment(s, rid, bytes, at).1)
    case OpReap(order, cutoff, at) =>
      var r := Reap(s, order, cutoff, at).1;
      RReap(if r.Fault? then Fault else Done(set rid | rid in r.value))
    case OpCleanup(cutoff) => RCount(Cleanup(s, cutoff).1)
    case OpQuery(input) => RQuery(RecordQuery(s, input).1)
    case OpInsert(input) => RInsert(InsertDeposit(s, input).1)
    case OpRemine(txid, vout, height, hash, confirmations) =>
      RRemine(Remine(s, txid, vout, height, hash, confirmations).1)
    case OpConfirm(id, confirmations) => RUnit
    case OpCredit(id, at) => RCredit(Credit(s, id, at).1)
    case OpMint(input, at) => RMint(InsertAndCredit(s, input, at).1)
    case OpMark(id, at) => RMark(MarkReorged(s, id, at).1)
  }

  /** The same call made to both backends: equal, except that each reaper meets the rows in its own order. */
  ghost predicate SameCall(s: Store, op: Op, op': Op) {
    if op.OpReap? && op'.OpReap? then
      op.cutoff == op'.cutoff && op.at == op'.at && SameSelection(s, op.order, op'.order, op.cutoff)
    else op == op'
  }

  lemma MoveAgrees(s: Store, t: Store, who: string, amount: int, kind: Kind, reason: Reason, at: int,
                   requestId: Option<string>, depositId: Option<nat>)
    requires Agree(s, t) && who in s.identities
    ensures Agree(Move(s, who, amount, kind, reason, at, requestId, depositId),
                  Move(t, who, amount, kind, reason, at, requestId, depositId))
  {
    var m, n := Move(s, who, amount, kind, reason, at, requestId, depositId),
                Move(t, who, amount, kind, reason, at, requestId, depositId);
    var x, y := m.ledger[|s.ledger|], n.ledger[|t.ledger|];
    forall f: Entry -> int | Blind(f) ensures SumSeq(m.ledger, f) == SumSeq(n.ledger, f) {
      SumSeqAppend(s.ledger, x, f);
      SumSeqAppend(t.ledger, y, f);
      assert f(x) == f(Strip(x)) && f(y) == f(Strip(y)) && Strip(x) == Strip(y);
    }
    forall w ensures LastBalance(m.ledger, w) == LastBalance(n.ledger, w) {
      assert m.ledger[..|s.ledger|] == s.ledger && n.ledger[..|t.ledger|] == t.ledger;
      assert LastBalance(s.ledger, w) == LastBalance(t.ledger, w);
    }
  }

  lemma AgreeSolvent(s: Store, t: Store)
    requires Agree(s, t)
    ensures forall who :: Solvent(s, who) <==> Solvent(t, who)
  {
    assert forall who :: LastBalance(s.ledger, who) == LastBalance(t.ledger, who);
  }

  lemma {:induction false} SameOrderAgrees(s: Store, t: Store, order: seq<string>, cutoff: int, at: int)
    requires Agree(s, t)
    ensures Agree(Reap(s, order, cutoff, at).0, Reap(t, order, cutoff, at).0)
    ensures Reap(s, order, cutoff, at).1 == Reap(t, order, cutoff, at).1
    decreases |order|
  {
    if order != [] {
      var n := |order| - 1;
      SameOrderAgrees(s, t, order[..n], cutoff, at);
      var s1, t1 := Reap(s, order[..n], cutoff, at).0, Reap(t, order[..n], cutoff, at).0;
      if Reapable(s1, order[n], cutoff) {
        var row := s1.requests[order[n]];
        MoveAgrees(SetStatus(s1, order[n], Errored), SetStatus(t1, order[n], Errored), row.identityId, row.amount,
                   Refund, ReaperExpired, at, Some(order[n]), None);
      }
    }
  }

  lemma ReserveAgrees(s: Store, t: Store, input: ReserveInput)
    requires Agree(s, t)
    ensures Agree(Reserve(s, input).0, Reserve(t, input).0) && Reserve(s, input).1 == Reserve(t, input).1
  {
    AgreeSolvent(s, t);
    hide SameRows, Solvent;
    var rid, who := input.requestId, input.identityId;
    if rid !in s.requests && who in s.identities && Solvent(s, who) && s.identities[who].balance >= input.amount {
      var seen := s.identities[who := s.identities[who].(lastRequestAt := Some(input.receivedAt))];
      var rows := s.requests[rid := RowOf(input, Reserved)];
      MoveAgrees(s.(identities := seen, requests := rows), t.(identities := seen, requests := rows), who, -input.amount,
                 Debit, ReserveReason, input.receivedAt, Some(rid), None);
    }
  }

  lemma PhaseTwoAgrees(s: Store, t: Store, rid: string, bytes: int, at: int)
    requires Agree(s, t)
    ensures Agree(Rollback(s, rid, at).0, Rollback(t, rid, at).0) && Rollback(s, rid, at).1 == Rollback(t, rid, at).1
    ensures Agree(LateCommitPayment(s, rid, bytes, at).0, LateCommitPayment(t, rid, bytes, at).0)
    ensures LateCommitPayment(s, rid, bytes, at).1 == LateCommitPayment(t, rid, bytes, at).1
  {
    AgreeSolvent(s, t);
    hide SameRows, Solvent;
    if rid in s.requests && s.requests[rid].identityId in s.identities {
      var row := s.requests[rid];
      MoveAgrees(SetStatus(s, rid, Errored), SetStatus(t, rid, Errored), row.identityId, row.amount,
                 Refund, RollbackReason, at, Some(rid), None);
      var rows := s.requests[rid := row.(status := Committed, responseBytes := Some(bytes))];
      MoveAgrees(s.(requests := rows), t.(requests := rows), row.identityId, -row.amount,
                 Debit, LateCommit, at, Some(rid), None);
    }
  }

  lemma CreditAgrees(s: Store, t: Store, id: int, at: int)
    requires Agree(s, t)
    ensures Agree(Credit(s, id, at).0, Credit(t, id, at).0) && Credit(s, id, at).1 == Credit(t, id, at).1
  {
    AgreeSolvent(s, t);
    hide SameRows, Solvent;
    if HasId(s, id) && s.deposits[id - 1].reorgedAt.None? && s.deposits[id - 1].creditedAt.None? {
      var d := s.deposits[id - 1];
      var s1 := Enrol(SetDeposit(s, id - 1, d.(creditedAt := Some(at))), d.identityId, at);
      var t1 := Enrol(SetDeposit(t, id - 1, d.(creditedAt := Some(at))), d.identityId, at);
      MoveAgrees(s1, t1, d.identityId, d.amount, DepositKind, DepositCredited, at, None, Some(id));
    }
  }

  lemma MarkAgrees(s: Store, t: Store, id: int, at: int)
    requires Agree(s, t)
    ensures Agree(MarkReorged(s, id, at).0, MarkReorged(t, id, at).0)
    ensures MarkReorged(s, id, at).1 == MarkReorged(t, id, at).1
  {
    hide SameRows, Solvent;
    if HasId(s, id) {
      var d := s.deposits[id - 1];
      var s1, t1 := SetDeposit(s, id - 1, d.(reorgedAt := Some(at))), SetDeposit(t, id - 1, d.(reorgedAt := Some(at)));
      AgreeSolvent(s1, t1);
      if d.identityId in s.identities {
        MoveAgrees(s1, t1, d.identityId, -d.amount, ReorgAdjust, Reorg, at, None, Some(id));
      }
    }
  }

  lemma MintAgrees(s: Store, t: Store, input: DepositInput, at: int)
    requires Agree(s, t)
    ensures Agree(InsertAndCredit(s, input, at).0, InsertAndCredit(t, input, at).0)
    ensures InsertAndCredit(s, input, at).1 == InsertAndCredit(t, input, at).1
  {
    var s1, t1 := InsertDeposit(s, input).0, InsertDeposit(t, input).0;
    CreditAgrees(s1, t1, |s1.deposits|, at);
  }

  /** Agreeing backends answer the same call alike, whatever the call, reaps in one order included. */
  lemma SameOpAgrees(s: Store, t: Store, op: Op)
    requires Agree(s, t)
    ensures Agree(Apply(s, op), Apply(t, op)) && Answer(s, op) == Answer(t, op)
  {
    hide Agree, Reserve, Rollback, LateCommitPayment, Reap, Credit, InsertAndCredit, MarkReorged, FindDeposit;
    match op
    case OpReserve(input) => ReserveAgrees(s, t, input);
    case OpRollback(rid, at) => PhaseTwoAgrees(s, t, rid, 0, at);
    case OpLateCommit(rid, bytes, at) => PhaseTwoAgrees(s, t, rid, bytes, at);
    case OpReap(order, cutoff, at) => SameOrderAgrees(s, t, order, cutoff, at);
    case OpCredit(id, at) => CreditAgrees(s, t, id, at);
    case OpMint(input, at) => MintAgrees(s, t, input, at);
    case OpMark(id, at) => MarkAgrees(s, t, id, at);
    case _ => QuietOpAgrees(s, t, op);
  }

  /** Operations that neither look at the ledger nor append to it. */
  lemma QuietOpAgrees(s: Store, t: Store, op: Op)
    requires Agree(s, t)
    requires op.OpCommit? || op.OpCleanup? || op.OpQuery? || op.OpInsert? || op.OpRemine? || op.OpConfirm?
    ensures Agree(Apply(s, op), Apply(t, op)) && Answer(s, op) == Answer(t, op)
  {
    hide SameRows, FindDeposit;
  }

  lemma SameCallAgrees(a: Audit, t: Store, op: Op, op': Op)
    requires Inv(a) && Agree(a.s, t) && SameCall(a.s, op, op')
    ensures Agree(Apply(a.s, op), Apply(t, op')) && Answer(a.s, op) == Answer(t, op')
  {
    SameOpAgrees(a.s, t, op');
    if op.OpReap? && op'.OpReap? {
      ReapOrderIrrelevant(a, op.order, op'.order, op.cutoff, op.at);
      var r1, r2 := Reap(a.s, op.order, op.cutoff, op.at).1, Reap(a.s, op'.order, op.cutoff, op.at).1;
      assert (set rid | rid in r1.value) == (set rid | rid in r2.value);
      AgreeTrans(Apply(a.s, op), Apply(a.s, op'), Apply(t, op'));
    }
  }

  lemma AgreeTrans(s: Store, t: Store, u: Store)
    requires Agree(s, t) && Agree(t, u)
    ensures Agree(s, u)
  {}

  /** Two runs of the same calls. */
  ghost predicate SameCalls(ops: seq<Op>, ops': seq<Op>) {
    |ops| == |ops'| && forall i | 0 <= i < |ops| :: SameCall(Exec(ops[..i]).s, ops[i], ops'[i])
  }

  lemma SameCallsPrefix(ops: seq<Op>, ops': seq<Op>)
    requires SameCalls(ops, ops') && ops != []
    ensures SameCalls(ops[..|ops| - 1], ops'[..|ops| - 1])
    ensures SameCall(Exec(ops[..|ops| - 1]).s, ops[|ops| - 1], ops'[|ops| - 1])
  {
    hide Apply, SameCall;
    var head, head' := ops[..|ops| - 1], ops'[..|ops| - 1];
    forall i | 0 <= i < |head| ensures SameCall(Exec(head[..i]).s, head[i], head'[i]) {
      assert head[..i] == ops[..i] && SameCall(Exec(ops[..i]).s, ops[i], ops'[i]);
    }
  }

  /** Where the backends would part: of the operations that throw on the solvency check, exactly a reorg mark, an
      insert-and-credit, and a reap that has refunded a row before the throw leave memory changed; SQLite rolls
      all of them back. */
  lemma ThrowsThatLeaveTraces(s: Store, op: Op)
    requires Faults(s, op)
    ensures Apply(s, op) != s <==>
      op.OpMark? || op.OpMint? || (op.OpReap? && |Apply(s, op).ledger| > |s.ledger|)
  {
    hide Solvent, Reap, FindDeposit;
    if op.OpReap? {
      ReapChanges(s, op.order, op.cutoff, op.at);
    } else if op.OpMark? {
      assert s.deposits[op.id - 1].reorgedAt.None?;
      assert Apply(s, op).deposits[op.id - 1].reorgedAt.Some?;
    } else if op.OpMint? {
      assert |Apply(s, op).deposits| == |s.deposits| + 1;
    }
  }

  lemma {:induction false} ReapChanges(s: Store, order: seq<string>, cutoff: int, at: int)
    ensures var t := Reap(s, order, cutoff, at).0; |t.ledger| >= |s.ledger| && (t != s <==> |t.ledger| > |s.ledger|)
    decreases |order|
  {
    hide Solvent;
    if order != [] {
      ReapChanges(s, order[..|order| - 1], cutoff, at);
    }
  }

  ghost predicate SameAnswers(ops: seq<Op>, ops': seq<Op>) {
    |ops| == |ops'| && forall i | 0 <= i < |ops| ::
      Answer(Exec(ops[..i]).s, ops[i]) == Answer(Exec(ops'[..i]).s, ops'[i])
  }

  lemma AnswersSnoc(ops: seq<Op>, ops': seq<Op>)
    requires ops != [] && |ops| == |ops'|
    requires var n := |ops| - 1;
      && SameAnswers(ops[..n], ops'[..n])
      && Answer(Exec(ops[..n]).s, ops[n]) == Answer(Exec(ops'[..n]).s, ops'[n])
    ensures SameAnswers(ops, ops')
  {
    hide Exec, Answer;
    var n := |ops| - 1;
    forall i | 0 <= i < n ensures Answer(Exec(ops[..i]).s, ops[i]) == Answer(Exec(ops'[..i]).s, ops'[i]) {
      assert ops[..n][..i] == ops[..i] && ops[..n][i] == ops[i];
      assert ops'[..n][..i] == ops'[..i] && ops'[..n][i] == ops'[i];
    }
  }

  lemma NoAnswers()
    ensures SameAnswers([], [])
  {}

  /** The last call, seen from agreeing states. */
  lemma LastCallAgrees(ops: seq<Op>, ops': seq<Op>)
    requires ops != [] && |ops| == |ops'|
    requires var n := |ops| - 1;
      Inv(Exec(ops[..n])) && Agree(Exec(ops[..n]).s, Exec(ops'[..n]).s) && SameCall(Exec(ops[..n]).s, ops[n], ops'[n])
    ensures var n := |ops| - 1;
      Agree(Exec(ops).s, Exec(ops').s) && Answer(Exec(ops[..n]).s, ops[n]) == Answer(Exec(ops'[..n]).s, ops'[n])
  {
    hide Inv, Step, Answer, SameCall, Agree;
    var n := |ops| - 1;
    SameCallAgrees(Exec(ops[..n]), Exec(ops'[..n]).s, ops[n], ops'[n]);
    StepApplies(Exec(ops[..n]), ops[n]);
    StepApplies(Exec(ops'[..n]), ops'[n]);
  }

  lemma {:induction false} BackendsInStep(ops: seq<Op>, ops': seq<Op>)
    requires Careful(ops) && SameCalls(ops, ops')
    ensures Agree(Exec(ops).s, Exec(ops').s) && SameAnswers(ops, ops')
    decreases |ops|
  {
    hide Inv, Exec, Faults, SameCalls, SameCall, Careful, Agree, SameAnswers, Answer;
    SameLength(ops, ops');
    if ops == [] {
      SameStateAgrees(Exec(ops).s);
      NoAnswers();
    } else {
      CarefulPrefix(ops);
      SameCallsPrefix(ops, ops');
      RunConserves(ops[..|ops| - 1]);
      BackendsInStep(ops[..|ops| - 1], ops'[..|ops| - 1]);
      LastCallAgrees(ops, ops');
      AnswersSnoc(ops, ops');
    }
  }

  /** SQLite refines memory over every run: two backends that receive the same calls, each reaping in its own
      order, give the same answer to every call and end in states that agree up to listing order. */
  lemma BackendsAgree(ops: seq<Op>, ops': seq<Op>)
    requires Careful(ops) && SameCalls(ops, ops')
    ensures Agree(Exec(ops).s, Exec(ops').s)
    ensures forall i | 0 <= i < |ops| :: Answer(Exec(ops[..i]).s, ops[i]) == Answer(Exec(ops'[..i]).s, ops'[i])
  {
    hide Agree, Exec, Answer, Careful, SameCalls;
    BackendsInStep(ops, ops');
  }

  /** In particular both backends show every identity the same money: balance, ledger sum and newest running
      balance, after every run. */
  lemma BackendsShowSameMoney(ops: seq<Op>, ops': seq<Op>, who: string)
    requires Careful(ops) && SameCalls(ops, ops')
    ensures var s, t := Exec(ops).s, Exec(ops').s;
      && Balance(s, who) == Balance(t, who) == LedgerSum(s, who) == LedgerSum(t, who)
      && LastBalance(s.ledger, who) == LastBalance(t.ledger, who)
  {
    BackendsAgree(ops, ops');
    RunConserves(ops);
    hide Exec, Careful, SameCalls;
    AgreeSums(Exec(ops).s, Exec(ops').s, who);
    assert Balanced(Exec(ops), who);
  }

  lemma SameStateAgrees(s: Store)
    ensures Agree(s, s)
  {}

  lemma SameLength(ops: seq<Op>, ops': seq<Op>)
    requires SameCalls(ops, ops')
    ensures |ops| == |ops'|
  {
    hide SameCall;
  }

  lemma StepApplies(a: Audit, op: Op)
    ensures Step(a, op).s == Apply(a.s, op)
  {
    hide Apply;
  }
}
