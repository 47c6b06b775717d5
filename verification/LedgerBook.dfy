/** The ledger as a book: every row carries the running balance on, names its cause, and the rows of one deposit sum
    to what the deposit is worth at the moment. */
module LedgerBook {
  import opened Basics
  import opened Ledger
  import opened Conservation
  import opened Runs

  // ---------- what a row must say ----------

  /** The running balance of `who` before any further row. */
  function Before(ledger: seq<Entry>, who: string): int {
    match LastBalance(ledger, who)
    case Some(balance) => balance
    case None => 0
  }

  /** Each row goes on from the newest row of its identity. */
  ghost predicate Chained(ledger: seq<Entry>) {
    forall i | 0 <= i < |ledger| ::
      ledger[i].balanceAfter == Before(ledger[..i], ledger[i].identityId) + ledger[i].amount
  }

  /** A replay row of this identity and amount exists, or was purged. */
  ghost predicate RowKnown(a: Audit, rid: string, who: string, amount: int) {
    || (rid in a.s.requests && a.s.requests[rid].identityId == who && a.s.requests[rid].amount == amount)
    || exists b: map<string, Request> ::
      b in a.purged && rid in b && b[rid].identityId == who && b[rid].amount == amount
  }

  ghost predicate DepositKnown(a: Audit, id: nat, who: string, amount: int) {
    HasId(a.s, id) && a.s.deposits[id - 1].identityId == who && a.s.deposits[id - 1].amount == amount
  }

  /** The row names one request or one deposit, and its kind, sign and amount are those its reason stands for. */
  ghost predicate Explained(a: Audit, e: Entry) {
    match e.reason
    case ReserveReason => e.kind == Debit && OfRequest(a, e, -e.amount)
    case LateCommit => e.kind == Debit && OfRequest(a, e, -e.amount)
    case RollbackReason => e.kind == Refund && OfRequest(a, e, e.amount)
    case ReaperExpired => e.kind == Refund && OfRequest(a, e, e.amount)
    case DepositCredited => e.kind == DepositKind && OfDeposit(a, e, e.amount)
    case Reorg => e.kind == ReorgAdjust && OfDeposit(a, e, -e.amount)
    case CommitReason => false
  }

  ghost predicate OfRequest(a: Audit, e: Entry, amount: int) {
    e.requestId.Some? && e.depositId.None? && RowKnown(a, e.requestId.value, e.identityId, amount)
  }

  ghost predicate OfDeposit(a: Audit, e: Entry, amount: int) {
    e.requestId.None? && e.depositId.Some? && DepositKnown(a, e.depositId.value, e.identityId, amount)
  }

  function DepositRow(id: nat): Entry -> int {
    (e: Entry) => if e.depositId == Some(id) then e.amount else 0
  }

  /** What the ledger holds for a deposit. */
  ghost function Posted(s: Store, id: nat): int {
    SumSeq(s.ledger, DepositRow(id))
  }

  /** What a deposit is worth: its amount while it is credited and live. */
  function Worth(s: Store, id: nat): int {
    if HasId(s, id) && s.deposits[id - 1].creditedAt.Some? && s.deposits[id - 1].reorgedAt.None?
    then s.deposits[id - 1].amount else 0
  }

  ghost predicate Book(a: Audit) {
    && Chained(a.s.ledger)
    && (forall e | e in a.s.ledger :: Explained(a, e))
    && (forall id: nat :: Posted(a.s, id) == Worth(a.s, id))
  }

  // ---------- one row more, or none ----------

  /** Causes do not disappear: rows stay known, deposits keep their identity and amount. */
  ghost predicate Lasting(a: Audit, b: Audit) {
    && (forall rid, who, amount | RowKnown(a, rid, who, amount) :: RowKnown(b, rid, who, amount))
    && (forall id: nat, who, amount | DepositKnown(a, id, who, amount) :: DepositKnown(b, id, who, amount))
  }

  lemma StillExplained(a: Audit, b: Audit, e: Entry)
    requires Lasting(a, b) && Explained(a, e)
    ensures Explained(b, e)
  {
    hide RowKnown, DepositKnown;
  }

  lemma BookStays(a: Audit, b: Audit)
    requires Book(a) && Lasting(a, b) && b.s.ledger == a.s.ledger
    requires forall id: nat :: Worth(b.s, id) == Worth(a.s, id)
    ensures Book(b)
  {
    hide Lasting, Explained, Worth, Chained;
    forall e | e in b.s.ledger ensures Explained(b, e) {
      StillExplained(a, b, e);
    }
  }

  lemma BookGrows(a: Audit, b: Audit, e: Entry)
    requires Book(a) && Lasting(a, b) && b.s.ledger == a.s.ledger + [e]
    requires e.balanceAfter == Before(a.s.ledger, e.identityId) + e.amount && Explained(b, e)
    requires forall id: nat :: Worth(b.s, id) == Worth(a.s, id) + (if e.depositId == Some(id) then e.amount else 0)
    ensures Book(b)
  {
    hide Lasting, Explained, Worth;
    forall f | f in b.s.ledger ensures Explained(b, f) {
      if f in a.s.ledger {
        StillExplained(a, b, f);
      }
    }
    forall id: nat ensures Posted(b.s, id) == Worth(b.s, id) {
      SumSeqAppend(a.s.ledger, e, DepositRow(id));
    }
    ChainGrows(a.s.ledger, e);
  }

  lemma ChainGrows(ledger: seq<Entry>, e: Entry)
    requires Chained(ledger) && e.balanceAfter == Before(ledger, e.identityId) + e.amount
    ensures Chained(ledger + [e])
  {
    hide Before;
    var l := ledger + [e];
    forall i | 0 <= i < |l| ensures l[i].balanceAfter == Before(l[..i], l[i].identityId) + l[i].amount {
      assert i < |ledger| ==> l[..i] == ledger[..i];
      assert l[..|ledger|] == ledger;
    }
  }

  // ---------- every operation keeps the book ----------

  /** The store before a money movement: the books of `who` are in order. */
  lemma MoveBooks(a: Audit, mid: Store, who: string, amount: int, kind: Kind, reason: Reason, at: int,
                  requestId: Option<string>, depositId: Option<nat>)
    requires Book(a) && who in mid.identities && mid.ledger == a.s.ledger
    requires mid.identities[who].balance == Before(a.s.ledger, who)
    requires var b := Audit(Move(mid, who, amount, kind, reason, at, requestId, depositId), a.purged);
      && Lasting(a, b) && Explained(b, b.s.ledger[|a.s.ledger|])
      && forall id: nat :: Worth(b.s, id) == Worth(a.s, id) + (if depositId == Some(id) then amount else 0)
    ensures Book(Audit(Move(mid, who, amount, kind, reason, at, requestId, depositId), a.purged))
  {
    hide Lasting, Explained, Worth, Before;
    var b := Audit(Move(mid, who, amount, kind, reason, at, requestId, depositId), a.purged);
    BookGrows(a, b, b.s.ledger[|a.s.ledger|]);
  }

  lemma BalanceIsBefore(a: Audit, who: string)
    requires Inv(a)
    ensures Balance(a.s, who) == Before(a.s.ledger, who)
  {
    assert Balanced(a, who);
  }

  /** Rows are added or keep identity and amount; deposits stay as they are. */
  lemma RequestsLast(a: Audit, s1: Store)
    requires s1.deposits == a.s.deposits
    requires forall rid | rid in a.s.requests ::
      && rid in s1.requests && s1.requests[rid].identityId == a.s.requests[rid].identityId
      && s1.requests[rid].amount == a.s.requests[rid].amount
    ensures Lasting(a, Audit(s1, a.purged))
    ensures forall id: nat :: Worth(s1, id) == Worth(a.s, id)
  {}

  lemma ReserveBooks(a: Audit, input: ReserveInput)
    requires Inv(a) && Book(a)
    ensures Book(Audit(Reserve(a.s, input).0, a.purged))
  {
    hide Inv, Solvent, Book, Lasting, Worth, Move;
    var s1, rid, who := Reserve(a.s, input).0, input.requestId, input.identityId;
    InvIsSolvent(a, who);
    if rid !in a.s.requests && who in a.s.identities && a.s.identities[who].balance >= input.amount {
      PaidReserveBooks(a, input);
    } else {
      RequestsLast(a, s1);
      BookStays(a, Audit(s1, a.purged));
    }
  }

  lemma PaidReserveBooks(a: Audit, input: ReserveInput)
    requires Inv(a) && Book(a) && input.requestId !in a.s.requests && input.identityId in a.s.identities
    requires Solvent(a.s, input.identityId) && a.s.identities[input.identityId].balance >= input.amount
    ensures Book(Audit(Reserve(a.s, input).0, a.purged))
  {
    hide Inv, Solvent, Book, Lasting, Worth, Before;
    var s1, rid, who := Reserve(a.s, input).0, input.requestId, input.identityId;
    BalanceIsBefore(a, who);
    RequestsLast(a, s1);
    var seen := a.s.identities[who].(lastRequestAt := Some(input.receivedAt));
    var row := a.s.(requests := s1.requests, identities := a.s.identities[who := seen]);
    MoveBooks(a, row, who, -input.amount, Debit, ReserveReason, input.receivedAt, Some(rid), None);
  }

  lemma CommitBooks(a: Audit, rid: string, bytes: int)
    requires Book(a)
    ensures Book(Audit(Commit(a.s, rid, bytes).0, a.purged))
  {
    var s1 := Commit(a.s, rid, bytes).0;
    hide Book, Lasting, Worth;
    RequestsLast(a, s1);
    BookStays(a, Audit(s1, a.purged));
  }

  lemma QueryBooks(a: Audit, input: ReserveInput)
    requires Book(a)
    ensures Book(Audit(RecordQuery(a.s, input).0, a.purged))
  {
    var s1 := RecordQuery(a.s, input).0;
    hide Book, Lasting, Worth;
    RequestsLast(a, s1);
    BookStays(a, Audit(s1, a.purged));
  }

  lemma RefundBooks(a: Audit, rid: string, reason: Reason, at: int)
    requires Inv(a) && Book(a) && reason in {RollbackReason, ReaperExpired}
    requires rid in a.s.requests && a.s.requests[rid].identityId in a.s.identities
    ensures Book(Audit(RefundRow(a.s, rid, reason, at), a.purged))
  {
    var row := a.s.requests[rid];
    BalanceIsBefore(a, row.identityId);
    hide Inv, Book, Lasting, Worth, Before;
    RequestsLast(a, RefundRow(a.s, rid, reason, at));
    MoveBooks(a, SetStatus(a.s, rid, Errored), row.identityId, row.amount, Refund, reason, at, Some(rid), None);
  }

  lemma RollbackBooks(a: Audit, rid: string, at: int)
    requires Inv(a) && Book(a)
    ensures Book(Audit(Rollback(a.s, rid, at).0, a.purged))
  {
    hide Inv, Book, Solvent, RefundRow;
    if CurrentStatus(a.s, rid) == Some(Reserved) && a.s.requests[rid].identityId in a.s.identities {
      RefundBooks(a, rid, RollbackReason, at);
    }
  }

  lemma {:induction false} ReapBooks(a: Audit, order: seq<string>, cutoff: int, at: int)
    requires Inv(a) && Book(a)
    ensures Book(Audit(Reap(a.s, order, cutoff, at).0, a.purged))
    decreases |order|
  {
    hide Inv, Book, Solvent, RefundRow;
    if order != [] {
      var n := |order| - 1;
      ReapBooks(a, order[..n], cutoff, at);
      ReapKeeps(a, order[..n], cutoff, at);
      var s1 := Reap(a.s, order[..n], cutoff, at).0;
      if Reapable(s1, order[n], cutoff) {
        RefundBooks(Audit(s1, a.purged), order[n], ReaperExpired, at);
      }
    }
  }

  lemma LateCommitBooks(a: Audit, rid: string, bytes: int, at: int)
    requires Inv(a) && Book(a)
    ensures Book(Audit(LateCommitPayment(a.s, rid, bytes, at).0, a.purged))
  {
    hide Inv, Solvent, Book, Move;
    if CurrentStatus(a.s, rid) == Some(Errored) && a.s.requests[rid].identityId in a.s.identities {
      InvIsSolvent(a, a.s.requests[rid].identityId);
      ErroredCommitBooks(a, rid, bytes, at);
    }
  }

  lemma ErroredCommitBooks(a: Audit, rid: string, bytes: int, at: int)
    requires Inv(a) && Book(a) && CurrentStatus(a.s, rid) == Some(Errored)
    requires a.s.requests[rid].identityId in a.s.identities && Solvent(a.s, a.s.requests[rid].identityId)
    ensures Book(Audit(LateCommitPayment(a.s, rid, bytes, at).0, a.purged))
  {
    hide Inv, Solvent, Book, Lasting, Worth, Before;
    var row, s1 := a.s.requests[rid], LateCommitPayment(a.s, rid, bytes, at).0;
    BalanceIsBefore(a, row.identityId);
    RequestsLast(a, s1);
    MoveBooks(a, a.s.(requests := s1.requests), row.identityId, -row.amount, Debit, LateCommit, at, Some(rid), None);
  }

  lemma CleanupBooks(a: Audit, cutoff: int)
    requires Book(a)
    ensures Book(Step(a, OpCleanup(cutoff)))
  {
    var b := Step(a, OpCleanup(cutoff));
    forall rid, who, amount | RowKnown(a, rid, who, amount) ensures RowKnown(b, rid, who, amount) {
      if rid in a.s.requests && a.s.requests[rid].identityId == who && a.s.requests[rid].amount == amount {
        if rid in Aged(a.s, cutoff) {
          assert Aged(a.s, cutoff) in b.purged;
        }
      } else {
        var m: map<string, Request> :| m in a.purged && rid in m && m[rid].identityId == who && m[rid].amount == amount;
        assert m in b.purged;
      }
    }
    assert Lasting(a, b);
    BookStays(a, b);
  }

  // ---------- deposits ----------

  /** Requests stay; deposits may be added and rewritten, but keep identity and amount. */
  lemma DepositsLast(a: Audit, s1: Store)
    requires s1.requests == a.s.requests && |s1.deposits| >= |a.s.deposits|
    requires forall i | 0 <= i < |a.s.deposits| ::
      s1.deposits[i].identityId == a.s.deposits[i].identityId && s1.deposits[i].amount == a.s.deposits[i].amount
    ensures Lasting(a, Audit(s1, a.purged))
  {}

  lemma RewriteBooks(a: Audit, i: nat, d: Deposit)
    requires Book(a) && i < |a.s.deposits|
    requires d.identityId == a.s.deposits[i].identityId && d.amount == a.s.deposits[i].amount
    requires (d.creditedAt.Some? && d.reorgedAt.None?) ==
      (a.s.deposits[i].creditedAt.Some? && a.s.deposits[i].reorgedAt.None?)
    ensures Book(Audit(SetDeposit(a.s, i, d), a.purged))
  {
    var s1 := SetDeposit(a.s, i, d);
    DepositsLast(a, s1);
    assert forall id: nat :: Worth(s1, id) == Worth(a.s, id);
    hide Book, Lasting, Worth;
    BookStays(a, Audit(s1, a.purged));
  }

  lemma InsertBooks(a: Audit, input: DepositInput)
    requires Book(a)
    ensures Book(Audit(InsertDeposit(a.s, input).0, a.purged))
  {
    var s1 := InsertDeposit(a.s, input).0;
    DepositsLast(a, s1);
    assert forall id: nat :: Worth(s1, id) == Worth(a.s, id);
    hide Book, Lasting, Worth;
    BookStays(a, Audit(s1, a.purged));
  }

  lemma RemineBooks(a: Audit, txid: string, vout: int, height: int, hash: string, confirmations: int)
    requires Book(a) && !Overcredits(a.s, OpRemine(txid, vout, height, hash, confirmations))
    ensures Book(Audit(Remine(a.s, txid, vout, height, hash, confirmations).0, a.purged))
  {
    hide Book;
    var i := FindDeposit(a.s.deposits, txid, vout);
    if i.Some? {
      RewriteBooks(a, i.value, Remine(a.s, txid, vout, height, hash, confirmations).1.value);
    }
  }

  lemma ConfirmBooks(a: Audit, id: int, confirmations: int)
    requires Book(a)
    ensures Book(Audit(UpdateConfirmations(a.s, id, confirmations), a.purged))
  {
    hide Book;
    if HasId(a.s, id) {
      RewriteBooks(a, id - 1, UpdateConfirmations(a.s, id, confirmations).deposits[id - 1]);
    }
  }

  lemma CreditBooks(a: Audit, id: int, at: int)
    requires Inv(a) && Book(a)
    ensures Book(Audit(Credit(a.s, id, at).0, a.purged))
  {
    hide Inv, Solvent, Book, Move, Enrol;
    if HasId(a.s, id) && Waits(a.s.deposits[id - 1]) {
      InvIsSolvent(a, a.s.deposits[id - 1].identityId);
      WaitingCreditBooks(a, id, at);
    }
  }

  lemma WaitingCreditBooks(a: Audit, id: int, at: int)
    requires Inv(a) && Book(a) && HasId(a.s, id) && Waits(a.s.deposits[id - 1])
    requires Solvent(a.s, a.s.deposits[id - 1].identityId)
    ensures Book(Audit(Credit(a.s, id, at).0, a.purged))
  {
    hide Inv, Solvent, Book, Before, LastBalance;
    var d := a.s.deposits[id - 1];
    BalanceIsBefore(a, d.identityId);
    var s1 := Enrol(SetDeposit(a.s, id - 1, d.(creditedAt := Some(at))), d.identityId, at);
    var s2 := Credit(a.s, id, at).0;
    DepositsLast(a, s2);
    assert forall n: nat :: Worth(s2, n) == Worth(a.s, n) + if Some(id as nat) == Some(n) then d.amount else 0;
    hide Lasting, Worth;
    MoveBooks(a, s1, d.identityId, d.amount, DepositKind, DepositCredited, at, None, Some(id));
  }

  lemma MintBooks(a: Audit, input: DepositInput, at: int)
    requires Inv(a) && Book(a)
    ensures Book(Audit(InsertAndCredit(a.s, input, at).0, a.purged))
  {
    InsertBooks(a, input);
    InsertKeeps(a, input);
    var s1 := InsertDeposit(a.s, input).0;
    hide Inv, Book, Credit, FindDeposit;
    CreditBooks(Audit(s1, a.purged), |s1.deposits|, at);
  }

  lemma MarkBooks(a: Audit, id: int, at: int)
    requires Inv(a) && Book(a)
    ensures Book(Audit(MarkReorged(a.s, id, at).0, a.purged))
  {
    hide Book, Balanced, WellNumbered;
    if HasId(a.s, id) && a.s.deposits[id - 1].reorgedAt.None? {
      var d := a.s.deposits[id - 1];
      if d.creditedAt.Some? {
        assert d in a.s.deposits;
        InvIsSolvent(a, d.identityId);
        MarkCreditedBooks(a, id, at);
      } else {
        RewriteBooks(a, id - 1, d.(reorgedAt := Some(at)));
      }
    }
  }

  lemma MarkCreditedBooks(a: Audit, id: int, at: int)
    requires Inv(a) && Book(a) && HasId(a.s, id)
    requires a.s.deposits[id - 1].reorgedAt.None? && a.s.deposits[id - 1].creditedAt.Some?
    requires a.s.deposits[id - 1].identityId in a.s.identities && Solvent(a.s, a.s.deposits[id - 1].identityId)
    ensures Book(Audit(MarkReorged(a.s, id, at).0, a.purged))
  {
    hide Inv, Book, Before, LastBalance;
    var d := a.s.deposits[id - 1];
    BalanceIsBefore(a, d.identityId);
    var s1, s2 := SetDeposit(a.s, id - 1, d.(reorgedAt := Some(at))), MarkReorged(a.s, id, at).0;
    hide Solvent;
    DepositsLast(a, s2);
    assert forall n: nat :: Worth(s2, n) == Worth(a.s, n) + if Some(id as nat) == Some(n) then -d.amount else 0;
    hide Lasting, Worth;
    MoveBooks(a, s1, d.identityId, -d.amount, ReorgAdjust, Reorg, at, None, Some(id));
  }

  lemma StepBooks(a: Audit, op: Op)
    requires Inv(a) && Book(a) && !Overcredits(a.s, op)
    ensures Book(Step(a, op))
  {
    hide Inv, Book, Reserve, Rollback, LateCommitPayment, Reap, Credit, InsertAndCredit, MarkReorged, Overcredits;
    match op
    case OpReserve(input) => ReserveBooks(a, input);
    case OpCommit(rid, bytes) => CommitBooks(a, rid, bytes);
    case OpRollback(rid, at) => RollbackBooks(a, rid, at);
    case OpLateCommit(rid, bytes, at) => LateCommitBooks(a, rid, bytes, at);
    case OpReap(order, cutoff, at) => ReapBooks(a, order, cutoff, at);
    case OpCleanup(cutoff) => CleanupBooks(a, cutoff);
    case OpQuery(input) => QueryBooks(a, input);
    case OpInsert(input) => InsertBooks(a, input);
    case OpRemine(txid, vout, height, hash, confirmations) => RemineBooks(a, txid, vout, height, hash, confirmations);
    case OpConfirm(id, confirmations) => ConfirmBooks(a, id, confirmations);
    case OpCredit(id, at) => CreditBooks(a, id, at);
    case OpMint(input, at) => MintBooks(a, input, at);
    case OpMark(id, at) => MarkBooks(a, id, at);
  }

  /** Over every run without an over-crediting re-mine: each ledger row carries on the running balance of its
      identity, names one request or one deposit of that identity with the amount and sign its reason stands for, and
      the rows of each deposit sum to its amount exactly while it is credited and live, and to nothing otherwise. */
  lemma {:induction false} RunBooks(ops: seq<Op>)
    requires Careful(ops)
    ensures Book(Exec(ops))
    decreases |ops|
  {
    hide Inv, Book, Apply, Overcredits;
    if ops == [] {
      EmptyBook();
    } else {
      var n := |ops| - 1;
      CarefulPrefix(ops);
      RunConserves(ops[..n]);
      RunBooks(ops[..n]);
      StepBooks(Exec(ops[..n]), ops[n]);
    }
  }

  lemma EmptyBook()
    ensures Book(Audit(EMPTY, []))
  {}

  /** The solvency check compares exactly these two: the balance and the running balance of the newest row. */
  lemma SolventMeans(s: Store, who: string, i: nat)
    requires i < |s.ledger| && s.ledger[i].identityId == who
    requires forall j | i < j < |s.ledger| :: s.ledger[j].identityId != who
    ensures LastBalance(s.ledger, who) == Some(s.ledger[i].balanceAfter)
    ensures Solvent(s, who) <==> who !in s.identities || s.identities[who].balance == s.ledger[i].balanceAfter
  {
    NewestRow(s.ledger, who, i);
  }

  lemma {:induction false} NewestRow(ledger: seq<Entry>, who: string, i: nat)
    requires i < |ledger| && ledger[i].identityId == who
    requires forall j | i < j < |ledger| :: ledger[j].identityId != who
    ensures LastBalance(ledger, who) == Some(ledger[i].balanceAfter)
  {
    if i < |ledger| - 1 {
      NewestRow(ledger[..|ledger| - 1], who, i);
    }
  }
}
