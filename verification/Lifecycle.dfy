/** The life of one payment: which statuses follow which, what the ledger holds for a requestId at every
    moment, and the verifier's idempotent commit and rollback. */
module Lifecycle {
  import opened Basics
  import opened Ledger
  import opened Conservation
  import opened Runs

  function NetRow(rid: string): Entry -> int {
    (e: Entry) => if e.requestId == Some(rid) then e.amount else 0
  }

  function CountRow(rid: string): Entry -> int {
    (e: Entry) => if e.requestId == Some(rid) then 1 else 0
  }

  ghost function Net(s: Store, rid: string): int {
    SumSeq(s.ledger, NetRow(rid))
  }

  ghost function Count(s: Store, rid: string): int {
    SumSeq(s.ledger, CountRow(rid))
  }

  /** What the ledger holds for a requestId in each status: a charge of the amount exactly while reserved or
      committed, and never more than three rows. */
  ghost predicate Accounted(s: Store, rid: string) {
    if rid !in s.requests then Net(s, rid) == 0 && Count(s, rid) == 0
    else
      var r := s.requests[rid];
      match r.status
      case Reserved => Net(s, rid) == -r.amount && Count(s, rid) == 1
      case Committed => Net(s, rid) == -r.amount && (Count(s, rid) in {1, 3} || (Count(s, rid) == 0 && r.amount == 0))
      case Errored => Net(s, rid) == 0 && Count(s, rid) == 2
      case Insufficient => Net(s, rid) == 0 && Count(s, rid) == 0
      case Blocked => false
      case Expired => false
  }

  ghost predicate NeverPurged(a: Audit, rid: string) {
    forall b | b in a.purged :: rid !in b
  }

  lemma MoveRows(s: Store, who: string, amount: int, kind: Kind, reason: Reason, at: int,
                 requestId: Option<string>, depositId: Option<nat>, rid: string)
    requires who in s.identities
    ensures var m := Move(s, who, amount, kind, reason, at, requestId, depositId);
      && Net(m, rid) == Net(s, rid) + (if requestId == Some(rid) then amount else 0)
      && Count(m, rid) == Count(s, rid) + (if requestId == Some(rid) then 1 else 0)
  {
    var m := Move(s, who, amount, kind, reason, at, requestId, depositId);
    SumSeqAppend(s.ledger, m.ledger[|s.ledger|], NetRow(rid));
    SumSeqAppend(s.ledger, m.ledger[|s.ledger|], CountRow(rid));
  }

  lemma RefundAccounted(s: Store, rid: string, reason: Reason, at: int, other: string)
    requires rid in s.requests && s.requests[rid].status == Reserved && s.requests[rid].identityId in s.identities
    requires Accounted(s, other)
    ensures Accounted(RefundRow(s, rid, reason, at), other)
  {
    MoveRows(SetStatus(s, rid, Errored), s.requests[rid].identityId, s.requests[rid].amount, Refund, reason, at,
             Some(rid), None, other);
  }

  lemma {:induction false} ReapAccounted(s: Store, order: seq<string>, cutoff: int, at: int, other: string)
    requires Accounted(s, other)
    ensures Accounted(Reap(s, order, cutoff, at).0, other)
    decreases |order|
  {
    if order != [] {
      var n := |order| - 1;
      ReapAccounted(s, order[..n], cutoff, at, other);
      var s1 := Reap(s, order[..n], cutoff, at).0;
      if Reapable(s1, order[n], cutoff) {
        RefundAccounted(s1, order[n], ReaperExpired, at, other);
      }
    }
  }

  lemma ReserveAccounted(s: Store, input: ReserveInput, other: string)
    requires Accounted(s, other)
    ensures Accounted(Reserve(s, input).0, other)
  {
    hide Solvent, SumSeq;
    var s1 := Reserve(s, input).0;
    if |s1.ledger| > |s.ledger| {
      var who := input.identityId;
      var row := s.(requests := s1.requests,
                    identities := s.identities[who := s.identities[who].(lastRequestAt := Some(input.receivedAt))]);
      MoveRows(row, who, -input.amount, Debit, ReserveReason, input.receivedAt, Some(input.requestId), None, other);
    }
  }

  lemma CreditAccounted(s: Store, id: int, at: int, other: string)
    requires Accounted(s, other)
    ensures Accounted(Credit(s, id, at).0, other)
  {
    hide Solvent, SumSeq;
    if Credit(s, id, at).0 != s {
      var d := s.deposits[id - 1];
      var enrolled := Enrol(SetDeposit(s, id - 1, d.(creditedAt := Some(at))), d.identityId, at);
      MoveRows(enrolled, d.identityId, d.amount, DepositKind, DepositCredited, at, None, Some(id), other);
    }
  }

  lemma LateCommitAccounted(s: Store, rid: string, bytes: int, at: int, other: string)
    requires Accounted(s, other)
    ensures Accounted(LateCommitPayment(s, rid, bytes, at).0, other)
  {
    hide Solvent, SumSeq;
    var s1 := LateCommitPayment(s, rid, bytes, at).0;
    if s1 != s {
      var row := s.requests[rid];
      MoveRows(s.(requests := s1.requests), row.identityId, -row.amount, Debit, LateCommit, at, Some(rid), None, other);
    }
  }

  lemma MarkAccounted(s: Store, id: int, at: int, other: string)
    requires Accounted(s, other)
    ensures Accounted(MarkReorged(s, id, at).0, other)
  {
    hide Solvent, SumSeq;
    if |MarkReorged(s, id, at).0.ledger| > |s.ledger| {
      var d := s.deposits[id - 1];
      var marked := SetDeposit(s, id - 1, d.(reorgedAt := Some(at)));
      MoveRows(marked, d.identityId, -d.amount, ReorgAdjust, Reorg, at, None, Some(id), other);
    }
  }

  /** Operations that append nothing to the ledger. */
  lemma QuietAccounted(s: Store, op: Op, other: string)
    requires Accounted(s, other)
    requires op.OpCommit? || op.OpQuery? || op.OpInsert? || op.OpRemine? || op.OpConfirm?
    ensures Accounted(Apply(s, op), other)
  {
    assert Apply(s, op).ledger == s.ledger;
  }

  lemma PurgeAccounted(s: Store, cutoff: int, other: string)
    requires Accounted(s, other) && other !in Aged(s, cutoff)
    ensures Accounted(Cleanup(s, cutoff).0, other)
  {}

  lemma RollbackAccounted(s: Store, rid: string, at: int, other: string)
    requires Accounted(s, other)
    ensures Accounted(Rollback(s, rid, at).0, other)
  {
    hide Accounted, RefundRow, Solvent;
    if CurrentStatus(s, rid) == Some(Reserved) && s.requests[rid].identityId in s.identities {
      RefundAccounted(s, rid, RollbackReason, at, other);
    }
  }

  /** Nothing but a purge of its row takes a request out of the accounts. */
  lemma OpAccounted(s: Store, op: Op, other: string)
    requires Accounted(s, other) && (op.OpCleanup? ==> other !in Aged(s, op.cutoff))
    ensures Accounted(Apply(s, op), other)
  {
    hide Accounted, Reserve, Reap, Rollback, LateCommitPayment, Credit, MarkReorged, Cleanup, InsertDeposit;
    match op
    case OpReserve(input) => ReserveAccounted(s, input, other);
    case OpReap(order, cutoff, at) => ReapAccounted(s, order, cutoff, at, other);
    case OpRollback(rid, at) => RollbackAccounted(s, rid, at, other);
    case OpLateCommit(rid, bytes, at) => LateCommitAccounted(s, rid, bytes, at, other);
    case OpCredit(id, at) => CreditAccounted(s, id, at, other);
    case OpMint(input, at) =>
      QuietAccounted(s, OpInsert(input), other);
      CreditAccounted(InsertDeposit(s, input).0, |InsertDeposit(s, input).0.deposits|, at, other);
    case OpMark(id, at) => MarkAccounted(s, id, at, other);
    case OpCleanup(cutoff) => PurgeAccounted(s, cutoff, other);
    case _ => QuietAccounted(s, op, other);
  }

  lemma StepAccounted(a: Audit, op: Op, other: string)
    requires NeverPurged(a, other) ==> Accounted(a.s, other)
    ensures NeverPurged(Step(a, op), other) ==> Accounted(Step(a, op).s, other)
  {
    hide Accounted, Apply, Aged;
    if NeverPurged(Step(a, op), other) {
      assert forall b | b in a.purged :: b in Step(a, op).purged;
      assert op.OpCleanup? ==> Aged(a.s, op.cutoff) in Step(a, op).purged;
      OpAccounted(a.s, op, other);
    }
  }

  /** Lifecycle over every run: as long as no row of a requestId was purged, its ledger rows sum to minus the
      amount while it is reserved or committed and to zero otherwise, and there are at most three. */
  lemma {:induction false} RunAccounts(ops: seq<Op>, rid: string)
    ensures NeverPurged(Exec(ops), rid) ==> Accounted(Exec(ops).s, rid)
    decreases |ops|
  {
    if ops != [] {
      RunAccounts(ops[..|ops| - 1], rid);
      StepAccounted(Exec(ops[..|ops| - 1]), ops[|ops| - 1], rid);
    }
  }

  // ---------- which status follows which ----------

  predicate Final(s: Store, rid: string) {
    CurrentStatus(s, rid) in {Some(Committed), Some(Insufficient)}
  }

  /** Purges leave the row of `rid` alone. */
  predicate Spares(s: Store, op: Op, rid: string) {
    op.OpCleanup? ==> rid !in Aged(s, op.cutoff)
  }

  /** The only moves a status makes, whatever the operation. */
  predicate Follows(before: Option<Status>, after: Option<Status>) {
    match before
    case None => after in {None, Some(Reserved), Some(Insufficient), Some(Committed)}
    case Some(Reserved) => after in {Some(Reserved), Some(Committed), Some(Errored)}
    case Some(Errored) => after in {Some(Errored), Some(Committed)}
    case Some(_) => after == before
  }

  lemma {:induction false} ReapFollows(s: Store, order: seq<string>, cutoff: int, at: int, rid: string)
    ensures var s1 := Reap(s, order, cutoff, at).0;
      && (rid in s1.requests <==> rid in s.requests)
      && (rid in s.requests ==>
            s1.requests[rid] == s.requests[rid] ||
            (s.requests[rid].status == Reserved && s1.requests[rid] == s.requests[rid].(status := Errored)))
    decreases |order|
  {
    if order != [] {
      ReapFollows(s, order[..|order| - 1], cutoff, at, rid);
    }
  }

  function RowAt(s: Store, rid: string): Option<Request> {
    if rid in s.requests then Some(s.requests[rid]) else None
  }

  /** The row a reserve or a query of a new requestId leaves. */
  function NewRow(input: ReserveInput, amount: int, status: Status): Request {
    Request(input.identityId, input.issuedAt, input.receivedAt, amount, input.verb, input.path, status, None)
  }

  predicate CanPay(s: Store, input: ReserveInput) {
    input.identityId in s.identities && s.identities[input.identityId].balance >= input.amount
  }

  /** The row of `rid` after an operation that does not throw, from a state whose reserved and errored rows belong to
      accounts: what each operation must do to it. */
  function NextRow(s: Store, op: Op, rid: string): Option<Request> {
    match RowAt(s, rid)
    case None =>
      if op.OpReserve? && op.input.requestId == rid then
        Some(NewRow(op.input, op.input.amount, if CanPay(s, op.input) then Reserved else Insufficient))
      else if op.OpQuery? && op.input.requestId == rid then Some(NewRow(op.input, 0, Committed))
      else None
    case Some(r) =>
      match op
      case OpCleanup(cutoff) => if r.issuedAt < cutoff then None else Some(r)
      case OpCommit(id, bytes) =>
        Some(if id == rid && r.status == Reserved then r.(status := Committed, responseBytes := Some(bytes)) else r)
      case OpLateCommit(id, bytes, _) =>
        Some(if id == rid && r.status == Errored then r.(status := Committed, responseBytes := Some(bytes)) else r)
      case OpRollback(id, _) => Some(if id == rid && r.status == Reserved then r.(status := Errored) else r)
      case OpReap(order, cutoff, _) =>
        Some(if rid in order && r.status == Reserved && r.receivedAt < cutoff then r.(status := Errored) else r)
      case _ => Some(r)
  }

  /** Everything one operation may do to the row of one requestId, whether it throws or not. */
  predicate Moves(op: Op, rid: string, before: Option<Request>, after: Option<Request>, throws: bool) {
    match before
    case None =>
      || (after.None? && ((op.OpReserve? || op.OpQuery?) && op.input.requestId == rid ==> throws))
      || (op.OpReserve? && op.input.requestId == rid
          && after in {Some(RowOf(op.input, Reserved)), Some(RowOf(op.input, Insufficient))})
      || (op.OpQuery? && op.input.requestId == rid && after == Some(RowOf(op.input.(amount := 0), Committed)))
    case Some(r) =>
      if op.OpCleanup? && r.issuedAt < op.cutoff then after.None?
      else
        || after == before
        || (r.status.Reserved? && (op.OpRollback? || op.OpReap?) && after == Some(r.(status := Errored)))
        || (r.status.Reserved? && op.OpCommit?
            && after == Some(r.(status := Committed, responseBytes := Some(op.bytes))))
        || (r.status.Errored? && op.OpLateCommit?
            && after == Some(r.(status := Committed, responseBytes := Some(op.bytes))))
  }

  lemma ReserveMoves(s: Store, input: ReserveInput, rid: string)
    ensures Moves(OpReserve(input), rid, RowAt(s, rid), RowAt(Reserve(s, input).0, rid), Reserve(s, input).1.Fault?)
  {
    hide Solvent;
  }

  lemma RefundMoves(s: Store, rid: string, at: int, other: string)
    ensures Moves(OpRollback(rid, at), other, RowAt(s, other), RowAt(Rollback(s, rid, at).0, other), false)
  {
    hide Solvent;
  }

  lemma LateMoves(s: Store, rid: string, bytes: int, at: int, other: string)
    ensures Moves(OpLateCommit(rid, bytes, at), other, RowAt(s, other),
                  RowAt(LateCommitPayment(s, rid, bytes, at).0, other), false)
  {
    hide Solvent;
  }

  /** Row by row, what an operation can do to the replay table. */
  lemma StepMoves(s: Store, op: Op, rid: string)
    ensures Moves(op, rid, RowAt(s, rid), RowAt(Apply(s, op), rid), Faults(s, op))
  {
    hide Reserve, Rollback, LateCommitPayment, Reap;
    if OnDeposits(op) {
      DepositOpsLeaveRequests(s, op);
      hide Apply;
    } else {
      match op
      case OpReserve(input) => ReserveMoves(s, input, rid);
      case OpRollback(r, at) => RefundMoves(s, r, at, rid);
      case OpLateCommit(r, bytes, at) => LateMoves(s, r, bytes, at, rid);
      case OpReap(order, cutoff, at) => ReapFollows(s, order, cutoff, at, rid);
      case _ =>
    }
  }

  lemma ReserveMovesExactly(a: Audit, input: ReserveInput, rid: string)
    requires Inv(a)
    ensures RowAt(Reserve(a.s, input).0, rid) == NextRow(a.s, OpReserve(input), rid)
  {
    InvIsSolvent(a, input.identityId);
    hide Solvent, Inv;
  }

  lemma RefundMovesExactly(a: Audit, rid: string, at: int, other: string)
    requires Inv(a)
    ensures RowAt(Rollback(a.s, rid, at).0, other) == NextRow(a.s, OpRollback(rid, at), other)
  {
    if rid in a.s.requests {
      InvIsSolvent(a, a.s.requests[rid].identityId);
    }
    hide Solvent, Balanced, WellNumbered;
  }

  lemma LateMovesExactly(a: Audit, rid: string, bytes: int, at: int, other: string)
    requires Inv(a)
    ensures RowAt(LateCommitPayment(a.s, rid, bytes, at).0, other) == NextRow(a.s, OpLateCommit(rid, bytes, at), other)
  {
    if rid in a.s.requests {
      InvIsSolvent(a, a.s.requests[rid].identityId);
    }
    hide Solvent, Balanced, WellNumbered;
  }

  lemma {:induction false} ReapMovesExactly(a: Audit, order: seq<string>, cutoff: int, at: int, rid: string)
    requires Inv(a)
    ensures RowAt(Reap(a.s, order, cutoff, at).0, rid) == NextRow(a.s, OpReap(order, cutoff, at), rid)
    decreases |order|
  {
    hide Solvent, Balanced, WellNumbered;
    if order != [] {
      var n := |order| - 1;
      assert order == order[..n] + [order[n]];
      ReapMovesExactly(a, order[..n], cutoff, at, rid);
      ReapKeeps(a, order, cutoff, at);
      ReapKeeps(a, order[..n], cutoff, at);
    }
  }

  /** In every state that satisfies the invariant an operation changes a row of the replay table exactly as the table
      of transitions says: nothing that must happen is skipped, and nothing else happens. */
  lemma StepMovesExactly(a: Audit, op: Op, rid: string)
    requires Inv(a)
    ensures RowAt(Apply(a.s, op), rid) == NextRow(a.s, op, rid)
  {
    hide Inv, Reserve, Rollback, LateCommitPayment, Reap;
    if OnDeposits(op) {
      DepositOpsLeaveRequests(a.s, op);
      hide Apply;
    } else {
      match op
      case OpReserve(input) => ReserveMovesExactly(a, input, rid);
      case OpRollback(r, at) => RefundMovesExactly(a, r, at, rid);
      case OpLateCommit(r, bytes, at) => LateMovesExactly(a, r, bytes, at, rid);
      case OpReap(order, cutoff, at) => ReapMovesExactly(a, order, cutoff, at, rid);
      case _ =>
    }
  }

  lemma StepFollows(s: Store, op: Op, rid: string)
    requires Spares(s, op, rid)
    ensures Follows(CurrentStatus(s, rid), CurrentStatus(Apply(s, op), rid))
    ensures Final(s, rid) ==> Apply(s, op).requests[rid] == s.requests[rid]
  {
    hide Apply;
    StepMoves(s, op, rid);
  }

  ghost predicate AllSpare(a: Audit, ops: seq<Op>, rid: string) {
    forall i | 0 <= i < |ops| :: Spares(ExecFrom(a, ops[..i]).s, ops[i], rid)
  }

  lemma AllSparePrefix(a: Audit, ops: seq<Op>, rid: string)
    requires AllSpare(a, ops, rid) && ops != []
    ensures AllSpare(a, ops[..|ops| - 1], rid)
    ensures Spares(ExecFrom(a, ops[..|ops| - 1]).s, ops[|ops| - 1], rid)
  {
    var head := ops[..|ops| - 1];
    forall i | 0 <= i < |head| ensures Spares(ExecFrom(a, head[..i]).s, head[i], rid) {
      assert head[..i] == ops[..i] && head[i] == ops[i];
    }
  }

  /** Committed and insufficient rows never change again, over any run that does not purge them; an errored
      row is never reserved again. */
  lemma {:induction false} FinalIsAbsorbing(a: Audit, ops: seq<Op>, rid: string)
    requires AllSpare(a, ops, rid)
    ensures Final(a.s, rid) ==>
      rid in ExecFrom(a, ops).s.requests && ExecFrom(a, ops).s.requests[rid] == a.s.requests[rid]
    ensures CurrentStatus(a.s, rid) == Some(Errored) ==>
      CurrentStatus(ExecFrom(a, ops).s, rid) in {Some(Errored), Some(Committed)}
    decreases |ops|
  {
    if ops != [] {
      AllSparePrefix(a, ops, rid);
      FinalIsAbsorbing(a, ops[..|ops| - 1], rid);
      StepFollows(ExecFrom(a, ops[..|ops| - 1]).s, ops[|ops| - 1], rid);
    }
  }

  // ---------- signed queries ----------

  /** A query of a requestId without a row burns it, whatever came with it; one with a row changes nothing. */
  lemma QueryAnswers(s: Store, input: ReserveInput)
    ensures var (t, r) := RecordQuery(s, input);
      if input.requestId in s.requests
      then t == s && r == QueryReplay(s.requests[input.requestId].status)
      else r == Recorded && t == s.(requests := t.requests)
           && t.requests == s.requests[input.requestId := NewRow(input, 0, Committed)]
  {}

  /** A signed query is answered once: after it was recorded, and any further run that does not purge its row, the
      same requestId is reported as a replay, and nothing changes. */
  lemma QueryIsSingleUse(a: Audit, input: ReserveInput, ops: seq<Op>, again: ReserveInput)
    requires RecordQuery(a.s, input).1 == Recorded && again.requestId == input.requestId
    requires AllSpare(Audit(RecordQuery(a.s, input).0, a.purged), ops, input.requestId)
    ensures var t := ExecFrom(Audit(RecordQuery(a.s, input).0, a.purged), ops).s;
      RecordQuery(t, again) == (t, QueryReplay(Committed))
  {
    hide ExecFrom, AllSpare;
    FinalIsAbsorbing(Audit(RecordQuery(a.s, input).0, a.purged), ops, input.requestId);
  }

  // ---------- the verifier's second phase ----------

  datatype CommitReply =
    | CommitOk(already: bool, late: bool, balanceAfter: Option<int>)
    | CommitUnknown
    | CommitInvalid(status: Option<Status>)

  datatype RollbackReply = RollbackOk(already: bool) | RollbackUnknown | RollbackInvalid(status: Status)

  function CommitPhase(s: Store, rid: string, bytes: int, now: int): (Store, Outcome<CommitReply>) {
    var (s1, r) := Commit(s, rid, bytes);
    match r
    case Applied => (s1, Done(CommitOk(false, false, None)))
    case Refused(None) => (s1, Done(CommitUnknown))
    case Refused(Some(Committed)) => (s1, Done(CommitOk(true, false, None)))
    case Refused(Some(Errored)) =>
      (var (s2, late) := LateCommitPayment(s1, rid, bytes, now);
       match late
       case Fault => (s2, Fault)
       case Done(AppliedLate(balance)) => (s2, Done(CommitOk(false, true, Some(balance))))
       case Done(RefusedLate(status)) => (s2, Done(CommitInvalid(status))))
    case Refused(status) => (s1, Done(CommitInvalid(status)))
  }

  function RollbackPhase(s: Store, rid: string, now: int): (Store, Outcome<RollbackReply>) {
    var (s1, r) := Rollback(s, rid, now);
    match r
    case Fault => (s1, Fault)
    case Done(Applied) => (s1, Done(RollbackOk(false)))
    case Done(Refused(None)) => (s1, Done(RollbackUnknown))
    case Done(Refused(Some(Errored))) => (s1, Done(RollbackOk(true)))
    case Done(Refused(Some(status))) => (s1, Done(RollbackInvalid(status)))
  }

  /** What the second phase answers and does, status by status. */
  lemma CommitAnswers(a: Audit, rid: string, bytes: int, now: int)
    requires Inv(a)
    ensures var (t, reply) := CommitPhase(a.s, rid, bytes, now);
      match RowAt(a.s, rid)
      case None => t == a.s && reply == Done(CommitUnknown)
      case Some(r) =>
        match r.status
        case Reserved => reply == Done(CommitOk(false, false, None)) && t == a.s.(requests := t.requests)
        case Committed => t == a.s && reply == Done(CommitOk(true, false, None))
        case Errored => reply == Done(CommitOk(false, true, Some(Balance(a.s, r.identityId) - r.amount)))
        case _ => t == a.s && reply == Done(CommitInvalid(Some(r.status)))
    ensures CommitPhase(a.s, rid, bytes, now).0 ==
      if CurrentStatus(a.s, rid) == Some(Errored) then Apply(a.s, OpLateCommit(rid, bytes, now))
      else Apply(a.s, OpCommit(rid, bytes))
  {
    if CurrentStatus(a.s, rid) == Some(Errored) {
      LateCommitKeeps(a, rid, bytes, now);
      hide Balanced, WellNumbered, Solvent;
    } else {
      hide Inv, LateCommitPayment;
    }
  }

  lemma RollbackAnswers(a: Audit, rid: string, now: int)
    requires Inv(a)
    ensures var (t, reply) := RollbackPhase(a.s, rid, now);
      && t == Apply(a.s, OpRollback(rid, now))
      && match RowAt(a.s, rid)
         case None => t == a.s && reply == Done(RollbackUnknown)
         case Some(r) =>
           match r.status
           case Reserved => reply == Done(RollbackOk(false))
           case Errored => t == a.s && reply == Done(RollbackOk(true))
           case _ => t == a.s && reply == Done(RollbackInvalid(r.status))
  {
    RollbackKeeps(a, rid, now);
    hide Balanced, WellNumbered, Solvent;
  }

  /** A commit that succeeded can be repeated after any further run (reaper included) that does not purge the
      row: it answers "already committed" and changes nothing. */
  lemma CommitIsIdempotent(a: Audit, rid: string, bytes: int, now: int, ops: seq<Op>, bytes': int, now': int)
    requires var r := CommitPhase(a.s, rid, bytes, now).1; r.Done? && r.value.CommitOk?
    requires AllSpare(Audit(CommitPhase(a.s, rid, bytes, now).0, a.purged), ops, rid)
    ensures var s2 := ExecFrom(Audit(CommitPhase(a.s, rid, bytes, now).0, a.purged), ops).s;
      CommitPhase(s2, rid, bytes', now') == (s2, Done(CommitOk(true, false, None)))
  {
    hide ExecFrom, AllSpare, Solvent;
    FinalIsAbsorbing(Audit(CommitPhase(a.s, rid, bytes, now).0, a.purged), ops, rid);
  }

  /** A rollback that succeeded can be repeated after any further run that does not purge the row: it changes
      nothing, and it answers "already rolled back" unless a late commit came between. */
  lemma RollbackIsIdempotent(a: Audit, rid: string, now: int, ops: seq<Op>, now': int)
    requires var r := RollbackPhase(a.s, rid, now).1; r.Done? && r.value.RollbackOk?
    requires AllSpare(Audit(RollbackPhase(a.s, rid, now).0, a.purged), ops, rid)
    ensures var s2 := ExecFrom(Audit(RollbackPhase(a.s, rid, now).0, a.purged), ops).s;
      RollbackPhase(s2, rid, now') ==
        (s2, Done(if CurrentStatus(s2, rid) == Some(Errored) then RollbackOk(true) else RollbackInvalid(Committed)))
  {
    hide ExecFrom, AllSpare, Solvent;
    FinalIsAbsorbing(Audit(RollbackPhase(a.s, rid, now).0, a.purged), ops, rid);
  }

  /** When a commit debits: exactly when it finds the row errored, whoever errored it. Then it answers as a late
      commit, appends one ledger row and takes the amount from the row's account; in every other status no
      account and no ledger row moves. */
  lemma DebitsExactlyWhen(a: Audit, rid: string, bytes: int, now: int)
    requires Inv(a)
    ensures var (t, reply) := CommitPhase(a.s, rid, bytes, now);
      var errored := CurrentStatus(a.s, rid) == Some(Errored);
      && reply.Done?
      && (|t.ledger| > |a.s.ledger| <==> errored)
      && (reply.value.CommitOk? && reply.value.late <==> errored)
      && forall who :: Balance(t, who) == Balance(a.s, who) -
           if errored && who == a.s.requests[rid].identityId then a.s.requests[rid].amount else 0
  {
    if CurrentStatus(a.s, rid) == Some(Errored) {
      LateCommitKeeps(a, rid, bytes, now);
      InvIsSolvent(a, a.s.requests[rid].identityId);
    }
  }

  /** The failing input of the late commit's purpose: an explicit rollback refunds a reservation, and a commit
      that follows takes the amount again, although no reaper ran. */
  lemma CommitAfterRollbackDebits(a: Audit, rid: string, at: int, bytes: int, now: int)
    requires Inv(a) && CurrentStatus(a.s, rid) == Some(Reserved)
    ensures var (refunded, first) := RollbackPhase(a.s, rid, at);
      var (debited, second) := CommitPhase(refunded, rid, bytes, now);
      var row := a.s.requests[rid];
      && first == Done(RollbackOk(false))
      && Balance(refunded, row.identityId) == Balance(a.s, row.identityId) + row.amount
      && second == Done(CommitOk(false, true, Some(Balance(a.s, row.identityId))))
      && Balance(debited, row.identityId) == Balance(refunded, row.identityId) - row.amount
      && debited.requests[rid].status == Committed
  {
    InvIsSolvent(a, a.s.requests[rid].identityId);
    RollbackKeeps(a, rid, at);
    var refunded := RollbackPhase(a.s, rid, at).0;
    InvIsSolvent(Audit(refunded, a.purged), a.s.requests[rid].identityId);
    DebitsExactlyWhen(Audit(refunded, a.purged), rid, bytes, now);
  }

  /** The reaper race: a commit that lands after the reaper refunded the reservation ends in the same rows,
      the same accounts and the same ledger sums as a commit that won the race. */
  lemma RaceIsResolved(a: Audit, rid: string, bytes: int, now: int, cutoff: int, at: int)
    requires Inv(a) && Reapable(a.s, rid, cutoff)
    ensures var won := CommitPhase(a.s, rid, bytes, now);
      var lost := CommitPhase(Reap(a.s, [rid], cutoff, at).0, rid, bytes, now);
      && won.1.Done? && won.1.value.CommitOk? && !won.1.value.late
      && lost.1.Done? && lost.1.value.CommitOk? && lost.1.value.late
      && lost.0.requests == won.0.requests && lost.0.identities == won.0.identities
      && lost.0.deposits == won.0.deposits
      && forall who :: LedgerSum(lost.0, who) == LedgerSum(won.0, who)
  {
    var s, row := a.s, a.s.requests[rid];
    var reaped := Reap(s, [rid], cutoff, at).0;
    assert [rid][..0] == [];
    assert Reap(s, [], cutoff, at) == (s, Done([]));
    InvIsSolvent(a, row.identityId);
    assert reaped == RefundRow(s, rid, ReaperExpired, at);
    ReapKeeps(a, [rid], cutoff, at);
    InvIsSolvent(Audit(reaped, a.purged), row.identityId);
    var freed := SetStatus(s, rid, Errored);
    var won, lost := CommitPhase(s, rid, bytes, now).0, CommitPhase(reaped, rid, bytes, now).0;
    forall who ensures LedgerSum(lost, who) == LedgerSum(won, who) {
      MoveEffect(freed, row.identityId, row.amount, Refund, ReaperExpired, at, Some(rid), None, who);
      var done := reaped.(requests := lost.requests);
      MoveEffect(done, row.identityId, -row.amount, Debit, LateCommit, now, Some(rid), None, who);
    }
  }
}
