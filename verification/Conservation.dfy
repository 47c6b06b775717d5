/** Conservation of money over every run of storage operations, and what follows from it: the runtime
    check never throws, and debts are bounded by late commits and reorgs. */
module Conservation {
  import opened Basics
  import opened Ledger

  /** The store with a ghost history: one batch of purged replay rows per cleanup. */
  datatype Audit = Audit(s: Store, purged: seq<map<string, Request>>)

  datatype Op =
    | OpReserve(input: ReserveInput)
    | OpCommit(rid: string, bytes: int)
    | OpRollback(rid: string, at: int)
    | OpLateCommit(rid: string, bytes: int, at: int)
    | OpReap(order: seq<string>, cutoff: int, at: int)
    | OpCleanup(cutoff: int)
    | OpQuery(input: ReserveInput)
    | OpInsert(deposit: DepositInput)
    | OpRemine(txid: string, vout: int, height: int, hash: string, confirmations: int)
    | OpConfirm(id: int, confirmations: int)
    | OpCredit(id: int, at: int)
    | OpMint(deposit: DepositInput, at: int)
    | OpMark(id: int, at: int)

  function Apply(s: Store, op: Op): Store {
    match op
    case OpReserve(input) => Reserve(s, input).0
    case OpCommit(rid, bytes) => Commit(s, rid, bytes).0
    case OpRollback(rid, at) => Rollback(s, rid, at).0
    case OpLateCommit(rid, bytes, at) => LateCommitPayment(s, rid, bytes, at).0
    case OpReap(order, cutoff, at) => Reap(s, order, cutoff, at).0
    case OpCleanup(cutoff) => Cleanup(s, cutoff).0
    case OpQuery(input) => RecordQuery(s, input).0
    case OpInsert(input) => InsertDeposit(s, input).0
    case OpRemine(txid, vout, height, hash, confirmations) => Remine(s, txid, vout, height, hash, confirmations).0
    case OpConfirm(id, confirmations) => UpdateConfirmations(s, id, confirmations)
    case OpCredit(id, at) => Credit(s, id, at).0
    case OpMint(input, at) => InsertAndCredit(s, input, at).0
    case OpMark(id, at) => MarkReorged(s, id, at).0
  }

  /** The operation throws on the runtime solvency check. */
  predicate Faults(s: Store, op: Op) {
    match op
    case OpReserve(input) => Reserve(s, input).1.Fault?
    case OpRollback(rid, at) => Rollback(s, rid, at).1.Fault?
    case OpLateCommit(rid, bytes, at) => LateCommitPayment(s, rid, bytes, at).1.Fault?
    case OpReap(order, cutoff, at) => Reap(s, order, cutoff, at).1.Fault?
    case OpCredit(id, at) => Credit(s, id, at).1.Fault?
    case OpMint(input, at) => InsertAndCredit(s, input, at).1.Fault?
    case OpMark(id, at) => MarkReorged(s, id, at).1.Fault?
    case _ => false
  }

  function Step(a: Audit, op: Op): Audit {
    Audit(Apply(a.s, op), if op.OpCleanup? then a.purged + [Aged(a.s, op.cutoff)] else a.purged)
  }

  /** A re-mine that finds its row live and credited: the one call that loses money. */
  predicate Overcredits(s: Store, op: Op) {
    && op.OpRemine?
    && var i := FindDeposit(s.deposits, op.txid, op.vout);
       i.Some? && s.deposits[i.value].creditedAt.Some? && s.deposits[i.value].reorgedAt.None?
  }

  // ---------- what an operation leaves alone ----------

  predicate OnDeposits(op: Op) {
    op.OpInsert? || op.OpRemine? || op.OpConfirm? || op.OpCredit? || op.OpMint? || op.OpMark?
  }

  lemma CreditLeavesRequests(s: Store, id: int, at: int)
    ensures Credit(s, id, at).0.requests == s.requests && Credit(s, id, at).0.cursors == s.cursors
  {
    hide Solvent;
  }

  lemma MarkLeavesRequests(s: Store, id: int, at: int)
    ensures MarkReorged(s, id, at).0.requests == s.requests && MarkReorged(s, id, at).0.cursors == s.cursors
  {
    hide Solvent;
  }

  lemma DepositOpsLeaveRequests(s: Store, op: Op)
    requires OnDeposits(op)
    ensures Apply(s, op).requests == s.requests && Apply(s, op).cursors == s.cursors
  {
    hide Credit, MarkReorged, FindDeposit;
    match op
    case OpCredit(id, at) => CreditLeavesRequests(s, id, at);
    case OpMint(input, at) =>
      CreditLeavesRequests(InsertDeposit(s, input).0, |InsertDeposit(s, input).0.deposits|, at);
    case OpMark(id, at) => MarkLeavesRequests(s, id, at);
    case _ =>
  }

  lemma {:induction false} ReapLeavesDeposits(s: Store, order: seq<string>, cutoff: int, at: int)
    ensures var t := Reap(s, order, cutoff, at).0; t.deposits == s.deposits && t.cursors == s.cursors
    decreases |order|
  {
    hide Solvent;
    if order != [] {
      ReapLeavesDeposits(s, order[..|order| - 1], cutoff, at);
    }
  }

  lemma PhaseTwoLeavesDeposits(s: Store, rid: string, bytes: int, at: int)
    ensures var t := Rollback(s, rid, at).0; t.deposits == s.deposits && t.cursors == s.cursors
    ensures var t := LateCommitPayment(s, rid, bytes, at).0; t.deposits == s.deposits && t.cursors == s.cursors
  {
    hide Solvent;
  }

  lemma RequestOpsLeaveDeposits(s: Store, op: Op)
    requires !OnDeposits(op)
    ensures Apply(s, op).deposits == s.deposits && Apply(s, op).cursors == s.cursors
  {
    hide Reap, Rollback, LateCommitPayment, Solvent;
    match op
    case OpReap(order, cutoff, at) => ReapLeavesDeposits(s, order, cutoff, at);
    case OpRollback(rid, at) => PhaseTwoLeavesDeposits(s, rid, 0, at);
    case OpLateCommit(rid, bytes, at) => PhaseTwoLeavesDeposits(s, rid, bytes, at);
    case _ =>
  }

  // ---------- the invariant ----------

  ghost function PurgedCharge(who: string): map<string, Request> -> int {
    (m: map<string, Request>) => SumMap(m, Charge(who))
  }

  /** Credited live deposits minus charged requests, purged rows included. */
  ghost function Expected(a: Audit, who: string): int {
    SumSeq(a.s.deposits, CreditOf(who)) - SumMap(a.s.requests, Charge(who)) - SumSeq(a.purged, PurgedCharge(who))
  }

  /** The four views of the money of `who` agree. */
  ghost predicate Balanced(a: Audit, who: string) {
    && Balance(a.s, who) == LedgerSum(a.s, who)
    && Balance(a.s, who) == Expected(a, who)
    && LastBalance(a.s.ledger, who) == (if who in a.s.identities then Some(a.s.identities[who].balance) else None)
  }

  /** Rows that can still move money belong to an account. */
  ghost predicate Anchored(s: Store) {
    && (forall rid | rid in s.requests ::
          var r := s.requests[rid];
          r.status.Reserved? || r.status.Errored? ==> r.identityId in s.identities)
    && (forall d | d in s.deposits && d.creditedAt.Some? :: d.identityId in s.identities)
  }

  ghost predicate WellNumbered(s: Store) {
    && (forall i | 0 <= i < |s.deposits| :: s.deposits[i].id == i + 1)
    && (forall i | 0 <= i < |s.ledger| :: s.ledger[i].id == i + 1)
    && (forall i, j | 0 <= i < j < |s.deposits| ::
          s.deposits[i].txid != s.deposits[j].txid || s.deposits[i].vout != s.deposits[j].vout)
  }

  ghost predicate Inv(a: Audit) {
    && Anchored(a.s)
    && WellNumbered(a.s)
    && forall who :: Balanced(a, who)
  }

  lemma InvInit()
    ensures Inv(Audit(EMPTY, []))
  {}

  // ---------- effect of the primitive changes on the sums ----------

  lemma MoveEffect(s: Store, who: string, amount: int, kind: Kind, reason: Reason, at: int,
                   requestId: Option<string>, depositId: Option<nat>, other: string)
    requires who in s.identities
    ensures var m := Move(s, who, amount, kind, reason, at, requestId, depositId);
      && LedgerSum(m, other) == LedgerSum(s, other) + (if other == who then amount else 0)
      && Balance(m, other) == Balance(s, other) + (if other == who then amount else 0)
      && LastBalance(m.ledger, other) ==
           if other == who then Some(m.identities[who].balance) else LastBalance(s.ledger, other)
  {
    var m := Move(s, who, amount, kind, reason, at, requestId, depositId);
    SumSeqAppend(s.ledger, m.ledger[|s.ledger|], LedgerOf(other));
    assert m.ledger[..|s.ledger|] == s.ledger;
  }

  /** The check at the end of a money operation always passes: the row it would compare was just appended. */
  lemma MoveIsSolvent(s: Store, who: string, amount: int, kind: Kind, reason: Reason, at: int,
                      requestId: Option<string>, depositId: Option<nat>)
    requires who in s.identities
    ensures Solvent(Move(s, who, amount, kind, reason, at, requestId, depositId), who)
  {
    MoveEffect(s, who, amount, kind, reason, at, requestId, depositId, who);
  }

  lemma InvIsSolvent(a: Audit, who: string)
    requires Inv(a)
    ensures Solvent(a.s, who)
  {
    assert Balanced(a, who);
  }

  /** The balance change an operation owes `who`, read off the rows it changes. */
  lemma PutRequest(a: Audit, s1: Store, rid: string, r: Request, who: string)
    requires s1 == a.s.(requests := a.s.requests[rid := r])
    ensures Expected(Audit(s1, a.purged), who) ==
      Expected(a, who) - Charge(who)(r) + (if rid in a.s.requests then Charge(who)(a.s.requests[rid]) else 0)
  {
    SumMapPut(a.s.requests, rid, r, Charge(who));
  }

  lemma PutDeposit(a: Audit, i: nat, d: Deposit, who: string)
    requires i < |a.s.deposits|
    ensures Expected(Audit(SetDeposit(a.s, i, d), a.purged), who) ==
      Expected(a, who) - CreditOf(who)(a.s.deposits[i]) + CreditOf(who)(d)
  {
    SumSeqUpdate(a.s.deposits, i, d, CreditOf(who));
  }

  // ---------- each operation keeps the invariant ----------

  lemma ReserveBalances(a: Audit, input: ReserveInput, other: string)
    requires Balanced(a, other) && Solvent(a.s, input.identityId)
    ensures Balanced(Audit(Reserve(a.s, input).0, a.purged), other)
  {
    hide SumSeq, SumMap, LastBalance;
    var s, rid, who := a.s, input.requestId, input.identityId;
    var s1 := Reserve(s, input).0;
    if rid !in s.requests {
      PutRequest(a, s.(requests := s1.requests), rid, s1.requests[rid], other);
      if s1.requests[rid].status == Reserved {
        var row := s.(requests := s1.requests,
                      identities := s.identities[who := s.identities[who].(lastRequestAt := Some(input.receivedAt))]);
        MoveEffect(row, who, -input.amount, Debit, ReserveReason, input.receivedAt, Some(rid), None, other);
      }
    }
  }

  lemma ReserveKeeps(a: Audit, input: ReserveInput)
    requires Inv(a)
    ensures Inv(Audit(Reserve(a.s, input).0, a.purged)) && Reserve(a.s, input).1.Done?
  {
    InvIsSolvent(a, input.identityId);
    hide Balanced, Solvent;
    forall other ensures Balanced(Audit(Reserve(a.s, input).0, a.purged), other) {
      assert Balanced(a, other);
      ReserveBalances(a, input, other);
    }
  }

  lemma CommitKeeps(a: Audit, rid: string, bytes: int)
    requires Inv(a)
    ensures Inv(Audit(Commit(a.s, rid, bytes).0, a.purged))
  {
    var s1 := Commit(a.s, rid, bytes).0;
    forall other ensures Balanced(Audit(s1, a.purged), other) {
      assert Balanced(a, other);
      if s1 != a.s {
        PutRequest(a, s1, rid, s1.requests[rid], other);
      }
    }
  }

  lemma RefundKeeps(a: Audit, rid: string, reason: Reason, at: int)
    requires Inv(a)
    requires CurrentStatus(a.s, rid) == Some(Reserved)
    ensures a.s.requests[rid].identityId in a.s.identities
    ensures Inv(Audit(RefundRow(a.s, rid, reason, at), a.purged))
  {
    var row := a.s.requests[rid];
    var freed := SetStatus(a.s, rid, Errored);
    var s1 := RefundRow(a.s, rid, reason, at);
    forall other ensures Balanced(Audit(s1, a.purged), other) {
      assert Balanced(a, other);
      PutRequest(a, freed, rid, freed.requests[rid], other);
      MoveEffect(freed, row.identityId, row.amount, Refund, reason, at, Some(rid), None, other);
    }
  }

  lemma RollbackKeeps(a: Audit, rid: string, at: int)
    requires Inv(a)
    ensures Inv(Audit(Rollback(a.s, rid, at).0, a.purged)) && Rollback(a.s, rid, at).1.Done?
  {
    if CurrentStatus(a.s, rid) == Some(Reserved) {
      RefundKeeps(a, rid, RollbackReason, at);
      InvIsSolvent(a, a.s.requests[rid].identityId);
    }
  }

  lemma LateCommitBalances(a: Audit, rid: string, bytes: int, at: int, other: string)
    requires Balanced(a, other) && CurrentStatus(a.s, rid) == Some(Errored)
    requires a.s.requests[rid].identityId in a.s.identities && Solvent(a.s, a.s.requests[rid].identityId)
    ensures Balanced(Audit(LateCommitPayment(a.s, rid, bytes, at).0, a.purged), other)
  {
    hide SumSeq, SumMap, LastBalance;
    var row := a.s.requests[rid];
    var s1 := LateCommitPayment(a.s, rid, bytes, at).0;
    var done := a.s.(requests := s1.requests);
    PutRequest(a, done, rid, s1.requests[rid], other);
    MoveEffect(done, row.identityId, -row.amount, Debit, LateCommit, at, Some(rid), None, other);
  }

  lemma LateCommitKeeps(a: Audit, rid: string, bytes: int, at: int)
    requires Inv(a)
    ensures Inv(Audit(LateCommitPayment(a.s, rid, bytes, at).0, a.purged))
    ensures LateCommitPayment(a.s, rid, bytes, at).1.Done?
  {
    if CurrentStatus(a.s, rid) == Some(Errored) {
      InvIsSolvent(a, a.s.requests[rid].identityId);
      hide Balanced, Solvent;
      forall other ensures Balanced(Audit(LateCommitPayment(a.s, rid, bytes, at).0, a.purged), other) {
        assert Balanced(a, other);
        LateCommitBalances(a, rid, bytes, at, other);
      }
    }
  }

  lemma {:induction false} ReapKeeps(a: Audit, order: seq<string>, cutoff: int, at: int)
    requires Inv(a)
    ensures Inv(Audit(Reap(a.s, order, cutoff, at).0, a.purged)) && Reap(a.s, order, cutoff, at).1.Done?
    decreases |order|
  {
    if order != [] {
      var n := |order| - 1;
      var s1 := Reap(a.s, order[..n], cutoff, at).0;
      ReapKeeps(a, order[..n], cutoff, at);
      if Reapable(s1, order[n], cutoff) {
        RefundKeeps(Audit(s1, a.purged), order[n], ReaperExpired, at);
        InvIsSolvent(Audit(s1, a.purged), s1.requests[order[n]].identityId);
      }
    }
  }

  lemma CleanupSplits(s: Store, cutoff: int, f: Request -> int)
    ensures SumMap(s.requests, f) == SumMap(Cleanup(s, cutoff).0.requests, f) + SumMap(Aged(s, cutoff), f)
  {
    var gone := Aged(s, cutoff);
    SumMapSplit(s.requests, gone.Keys, f);
    assert s.requests - (s.requests.Keys - gone.Keys) == gone;
  }

  lemma CleanupBalances(a: Audit, cutoff: int, other: string)
    requires Balanced(a, other)
    ensures Balanced(Step(a, OpCleanup(cutoff)), other)
  {
    hide SumMap, SumSeq, LastBalance, Aged;
    CleanupSplits(a.s, cutoff, Charge(other));
    SumSeqAppend(a.purged, Aged(a.s, cutoff), PurgedCharge(other));
  }

  lemma CleanupKeeps(a: Audit, cutoff: int)
    requires Inv(a)
    ensures Inv(Step(a, OpCleanup(cutoff)))
  {
    forall other ensures Balanced(Step(a, OpCleanup(cutoff)), other) {
      assert Balanced(a, other);
      CleanupBalances(a, cutoff, other);
    }
  }

  lemma QueryKeeps(a: Audit, input: ReserveInput)
    requires Inv(a)
    ensures Inv(Audit(RecordQuery(a.s, input).0, a.purged))
  {
    var s1 := RecordQuery(a.s, input).0;
    forall other ensures Balanced(Audit(s1, a.purged), other) {
      assert Balanced(a, other);
      if s1 != a.s {
        PutRequest(a, s1, input.requestId, s1.requests[input.requestId], other);
      }
    }
  }

  lemma InsertKeeps(a: Audit, input: DepositInput)
    requires Inv(a)
    ensures Inv(Audit(InsertDeposit(a.s, input).0, a.purged))
  {
    var s1 := InsertDeposit(a.s, input).0;
    forall other ensures Balanced(Audit(s1, a.purged), other) {
      assert Balanced(a, other);
      SumSeqAppend(a.s.deposits, NewDeposit(a.s, input), CreditOf(other));
    }
  }

  lemma RemineKeeps(a: Audit, txid: string, vout: int, height: int, hash: string, confirmations: int)
    requires Inv(a)
    requires !Overcredits(a.s, OpRemine(txid, vout, height, hash, confirmations))
    ensures Inv(Audit(Remine(a.s, txid, vout, height, hash, confirmations).0, a.purged))
  {
    var (s1, found) := Remine(a.s, txid, vout, height, hash, confirmations);
    var i := FindDeposit(a.s.deposits, txid, vout);
    forall other ensures Balanced(Audit(s1, a.purged), other) {
      assert Balanced(a, other);
      if i.Some? {
        PutDeposit(a, i.value, found.value, other);
      }
    }
  }

  lemma ConfirmKeeps(a: Audit, id: int, confirmations: int)
    requires Inv(a)
    ensures Inv(Audit(UpdateConfirmations(a.s, id, confirmations), a.purged))
  {
    var s1 := UpdateConfirmations(a.s, id, confirmations);
    forall other ensures Balanced(Audit(s1, a.purged), other) {
      assert Balanced(a, other);
      if HasId(a.s, id) {
        PutDeposit(a, id - 1, s1.deposits[id - 1], other);
      }
    }
  }

  lemma EnrolEffect(s: Store, who: string, at: int, other: string)
    ensures var e := Enrol(s, who, at);
      && who in e.identities && e.(identities := s.identities) == s
      && Balance(e, other) == Balance(s, other)
      && (other != who ==> (other in e.identities <==> other in s.identities))
      && (other in s.identities ==> other in e.identities && e.identities[other].balance == s.identities[other].balance)
  {}

  lemma CreditBalances(a: Audit, id: int, at: int, other: string)
    requires Balanced(a, other) && HasId(a.s, id) && Solvent(a.s, a.s.deposits[id - 1].identityId)
    requires a.s.deposits[id - 1].reorgedAt.None? && a.s.deposits[id - 1].creditedAt.None?
    ensures Balanced(Audit(Credit(a.s, id, at).0, a.purged), other)
  {
    hide SumSeq, SumMap, LastBalance;
    var d := a.s.deposits[id - 1];
    var marked := SetDeposit(a.s, id - 1, d.(creditedAt := Some(at)));
    var enrolled := Enrol(marked, d.identityId, at);
    PutDeposit(a, id - 1, d.(creditedAt := Some(at)), other);
    EnrolEffect(marked, d.identityId, at, other);
    MoveEffect(enrolled, d.identityId, d.amount, DepositKind, DepositCredited, at, None, Some(id), other);
  }

  lemma CreditKeeps(a: Audit, id: int, at: int)
    requires Inv(a)
    ensures Inv(Audit(Credit(a.s, id, at).0, a.purged)) && Credit(a.s, id, at).1.Done?
  {
    if HasId(a.s, id) && a.s.deposits[id - 1].reorgedAt.None? && a.s.deposits[id - 1].creditedAt.None? {
      InvIsSolvent(a, a.s.deposits[id - 1].identityId);
      hide Balanced, Solvent;
      forall other ensures Balanced(Audit(Credit(a.s, id, at).0, a.purged), other) {
        assert Balanced(a, other);
        CreditBalances(a, id, at, other);
      }
    }
  }

  lemma MintKeeps(a: Audit, input: DepositInput, at: int)
    requires Inv(a)
    ensures Inv(Audit(InsertAndCredit(a.s, input, at).0, a.purged)) && InsertAndCredit(a.s, input, at).1.Done?
  {
    var (s1, inserted) := InsertDeposit(a.s, input);
    if inserted.Inserted? {
      InsertKeeps(a, input);
      CreditKeeps(Audit(s1, a.purged), |s1.deposits|, at);
    }
  }

  lemma MarkBalances(a: Audit, id: int, at: int, other: string)
    requires Balanced(a, other) && HasId(a.s, id) && a.s.deposits[id - 1].reorgedAt.None?
    requires var d := a.s.deposits[id - 1];
      Solvent(a.s, d.identityId) && (d.creditedAt.Some? ==> d.identityId in a.s.identities)
    ensures Balanced(Audit(MarkReorged(a.s, id, at).0, a.purged), other)
  {
    hide SumSeq, SumMap, LastBalance;
    var d := a.s.deposits[id - 1];
    var marked := SetDeposit(a.s, id - 1, d.(reorgedAt := Some(at)));
    PutDeposit(a, id - 1, d.(reorgedAt := Some(at)), other);
    if d.creditedAt.Some? {
      MoveEffect(marked, d.identityId, -d.amount, ReorgAdjust, Reorg, at, None, Some(id), other);
    }
  }

  lemma MarkKeeps(a: Audit, id: int, at: int)
    requires Inv(a)
    ensures Inv(Audit(MarkReorged(a.s, id, at).0, a.purged)) && MarkReorged(a.s, id, at).1.Done?
  {
    if HasId(a.s, id) && a.s.deposits[id - 1].reorgedAt.None? {
      InvIsSolvent(a, a.s.deposits[id - 1].identityId);
      hide Balanced, Solvent;
      forall other ensures Balanced(Audit(MarkReorged(a.s, id, at).0, a.purged), other) {
        assert Balanced(a, other);
        MarkBalances(a, id, at, other);
      }
    }
  }

  lemma StepKeeps(a: Audit, op: Op)
    requires Inv(a) && !Overcredits(a.s, op)
    ensures Inv(Step(a, op)) && !Faults(a.s, op)
  {
    hide Inv, Reserve, Rollback, LateCommitPayment, Reap, Credit, InsertAndCredit, MarkReorged;
    match op
    case OpReserve(input) => ReserveKeeps(a, input);
    case OpCommit(rid, bytes) => CommitKeeps(a, rid, bytes);
    case OpRollback(rid, at) => RollbackKeeps(a, rid, at);
    case OpLateCommit(rid, bytes, at) => LateCommitKeeps(a, rid, bytes, at);
    case OpReap(order, cutoff, at) => ReapKeeps(a, order, cutoff, at);
    case OpCleanup(cutoff) => CleanupKeeps(a, cutoff);
    case OpQuery(input) => QueryKeeps(a, input);
    case OpInsert(input) => InsertKeeps(a, input);
    case OpRemine(txid, vout, height, hash, confirmations) => RemineKeeps(a, txid, vout, height, hash, confirmations);
    case OpConfirm(id, confirmations) => ConfirmKeeps(a, id, confirmations);
    case OpCredit(id, at) => CreditKeeps(a, id, at);
    case OpMint(input, at) => MintKeeps(a, input, at);
    case OpMark(id, at) => MarkKeeps(a, id, at);
  }
}
