/** What each operation does, as tables: deposit rows, accounts, answers and ledger rows after one step from any state
    that satisfies the invariant. `Lifecycle.NextRow` is the table of replay rows. */
module Tables {
  import opened Basics
  import opened Ledger
  import opened Conservation
  import opened Lifecycle

  // ---------- deposits ----------

  /** The row an insertion leaves, credited or not. */
  function Fresh(s: Store, d: DepositInput, credited: Option<int>): Deposit {
    Deposit(|s.deposits| + 1, d.identityId, d.amount, d.txid, d.vout, d.blockHeight, d.blockHash, d.confirmations,
            d.detectedAt, credited, None, d.origin, d.memo)
  }

  /** Row `i` after the operation. */
  function NextDeposit(op: Op, i: nat, d: Deposit): Deposit {
    match op
    case OpRemine(txid, vout, height, hash, confirmations) =>
      if (d.txid, d.vout) != (txid, vout) then d
      else d.(blockHeight := height, blockHash := hash, confirmations := confirmations, reorgedAt := None,
              creditedAt := None)
    case OpConfirm(id, confirmations) => if id == i + 1 then d.(confirmations := confirmations) else d
    case OpCredit(id, at) =>
      if id == i + 1 && d.creditedAt.None? && d.reorgedAt.None? then d.(creditedAt := Some(at)) else d
    case OpMark(id, at) => if id == i + 1 && d.reorgedAt.None? then d.(reorgedAt := Some(at)) else d
    case _ => d
  }

  predicate KnownOutpoint(s: Store, txid: string, vout: int) {
    exists i | 0 <= i < |s.deposits| :: s.deposits[i].txid == txid && s.deposits[i].vout == vout
  }

  function NewDeposits(s: Store, op: Op): seq<Deposit> {
    match op
    case OpInsert(d) => if KnownOutpoint(s, d.txid, d.vout) then [] else [Fresh(s, d, None)]
    case OpMint(d, at) => if KnownOutpoint(s, d.txid, d.vout) then [] else [Fresh(s, d, Some(at))]
    case _ => []
  }

  ghost predicate DepositsAfter(s: Store, op: Op, t: Store) {
    && |t.deposits| == |s.deposits| + |NewDeposits(s, op)|
    && (forall i | 0 <= i < |s.deposits| :: t.deposits[i] == NextDeposit(op, i, s.deposits[i]))
    && t.deposits[|s.deposits|..] == NewDeposits(s, op)
  }

  lemma OutpointFound(s: Store, txid: string, vout: int)
    ensures FindDeposit(s.deposits, txid, vout).Some? <==> KnownOutpoint(s, txid, vout)
  {
    if FindDeposit(s.deposits, txid, vout).None? {
      forall i | 0 <= i < |s.deposits| ensures s.deposits[i].txid != txid || s.deposits[i].vout != vout {
        assert s.deposits[i] in s.deposits;
      }
    }
    hide FindDeposit;
  }

  lemma RemineTable(a: Audit, op: Op)
    requires Inv(a) && op.OpRemine?
    ensures DepositsAfter(a.s, op, Apply(a.s, op))
  {
    assert WellNumbered(a.s);
    OutpointFound(a.s, op.txid, op.vout);
    hide Inv, FindDeposit;
    var f := FindDeposit(a.s.deposits, op.txid, op.vout);
    forall i | 0 <= i < |a.s.deposits| && a.s.deposits[i].txid == op.txid && a.s.deposits[i].vout == op.vout
      ensures f == Some(i)
    {
      assert f.Some?;
    }
  }

  lemma CreditTable(a: Audit, id: int, at: int)
    requires Inv(a)
    ensures DepositsAfter(a.s, OpCredit(id, at), Credit(a.s, id, at).0)
  {
    if HasId(a.s, id) {
      InvIsSolvent(a, a.s.deposits[id - 1].identityId);
    }
    hide Inv, Solvent;
  }

  /** A mint is an insertion followed by a credit of the row it added. */
  lemma MintStore(s: Store, d: DepositInput, at: int)
    ensures InsertAndCredit(s, d, at).0 ==
      if KnownOutpoint(s, d.txid, d.vout) then s
      else Credit(s.(deposits := s.deposits + [Fresh(s, d, None)]), |s.deposits| + 1, at).0
    ensures !KnownOutpoint(s, d.txid, d.vout) ==>
      InsertDeposit(s, d).0 == s.(deposits := s.deposits + [Fresh(s, d, None)])
  {
    OutpointFound(s, d.txid, d.vout);
    hide Credit, FindDeposit, KnownOutpoint;
  }

  lemma MintTable(a: Audit, d: DepositInput, at: int)
    requires Inv(a)
    ensures DepositsAfter(a.s, OpMint(d, at), InsertAndCredit(a.s, d, at).0)
  {
    MintStore(a.s, d, at);
    hide Inv, Credit, InsertAndCredit, InsertDeposit, KnownOutpoint;
    if !KnownOutpoint(a.s, d.txid, d.vout) {
      var n := |a.s.deposits|;
      var s1 := a.s.(deposits := a.s.deposits + [Fresh(a.s, d, None)]);
      InsertKeeps(a, d);
      CreditTable(Audit(s1, a.purged), n + 1, at);
      var t := Credit(s1, n + 1, at).0;
      assert |t.deposits| == n + 1 && t.deposits[n..] == [t.deposits[n]];
      assert s1.deposits[n] == Fresh(a.s, d, None) && t.deposits[n] == Fresh(a.s, d, Some(at));
    }
  }

  lemma MarkTable(a: Audit, id: int, at: int)
    requires Inv(a)
    ensures DepositsAfter(a.s, OpMark(id, at), MarkReorged(a.s, id, at).0)
  {
    if HasId(a.s, id) {
      InvIsSolvent(a, a.s.deposits[id - 1].identityId);
    }
    hide Inv, Solvent;
  }

  /** Every deposit row, old and new, after one operation. */
  lemma StepDeposits(a: Audit, op: Op)
    requires Inv(a)
    ensures DepositsAfter(a.s, op, Apply(a.s, op))
  {
    hide Inv, Credit, InsertAndCredit, MarkReorged, FindDeposit;
    if !OnDeposits(op) {
      RequestOpsLeaveDeposits(a.s, op);
      hide Apply;
    } else {
      match op
      case OpInsert(d) => OutpointFound(a.s, d.txid, d.vout);
      case OpRemine(_, _, _, _, _) => RemineTable(a, op);
      case OpCredit(id, at) => CreditTable(a, id, at);
      case OpMint(d, at) => MintTable(a, d, at);
      case OpMark(id, at) => MarkTable(a, id, at);
      case _ =>
    }
  }

  // ---------- accounts ----------

  /** An account without its balance. */
  function Face(s: Store, who: string): Option<Identity> {
    if who in s.identities then Some(s.identities[who].(balance := 0)) else None
  }

  /** The account a credit leaves: opened by it, or with its first deposit noted. */
  function Welcome(face: Option<Identity>, at: int): Identity {
    match face
    case None => Identity(0, at, Some(at), None)
    case Some(i) => if i.firstDepositAt.None? then i.(firstDepositAt := Some(at)) else i
  }

  /** The operation tries to reserve for `who`, under a new requestId. */
  predicate AsksFor(s: Store, op: Op, who: string) {
    op.OpReserve? && op.input.identityId == who && op.input.requestId !in s.requests
  }

  /** The operation credits a deposit of `who`, at this time. */
  function CreditTime(s: Store, op: Op, who: string): Option<int> {
    match op
    case OpCredit(id, at) =>
      if HasId(s, id) && Waits(s.deposits[id - 1]) && s.deposits[id - 1].identityId == who then Some(at) else None
    case OpMint(d, at) => if !KnownOutpoint(s, d.txid, d.vout) && d.identityId == who then Some(at) else None
    case _ => None
  }

  function NextFace(s: Store, op: Op, who: string): Option<Identity> {
    var face := Face(s, who);
    if AsksFor(s, op, who) && face.Some? then Some(face.value.(lastRequestAt := Some(op.input.receivedAt)))
    else if CreditTime(s, op, who).Some? then Some(Welcome(face, CreditTime(s, op, who).value))
    else face
  }

  lemma ReserveFace(a: Audit, input: ReserveInput, who: string)
    requires Inv(a)
    ensures Face(Reserve(a.s, input).0, who) == NextFace(a.s, OpReserve(input), who)
  {
    InvIsSolvent(a, input.identityId);
    hide Inv, Solvent;
  }

  lemma CreditFace(a: Audit, id: int, at: int, who: string)
    requires Inv(a)
    ensures Face(Credit(a.s, id, at).0, who) == NextFace(a.s, OpCredit(id, at), who)
  {
    if HasId(a.s, id) {
      InvIsSolvent(a, a.s.deposits[id - 1].identityId);
    }
    hide Inv, Solvent;
  }

  lemma MintFace(a: Audit, d: DepositInput, at: int, who: string)
    requires Inv(a)
    ensures Face(InsertAndCredit(a.s, d, at).0, who) == NextFace(a.s, OpMint(d, at), who)
  {
    OutpointFound(a.s, d.txid, d.vout);
    InsertKeeps(a, d);
    var s1 := InsertDeposit(a.s, d).0;
    CreditFace(Audit(s1, a.purged), |s1.deposits|, at, who);
    hide Inv, Credit, FindDeposit;
  }

  lemma MoneyFaces(s: Store, op: Op, who: string)
    requires op.OpRollback? || op.OpLateCommit? || op.OpMark?
    ensures Face(Apply(s, op), who) == Face(s, who)
  {
    hide Solvent;
  }

  lemma {:induction false} ReapFaces(s: Store, order: seq<string>, cutoff: int, at: int, who: string)
    ensures Face(Reap(s, order, cutoff, at).0, who) == Face(s, who)
    decreases |order|
  {
    hide Solvent;
    if order != [] {
      ReapFaces(s, order[..|order| - 1], cutoff, at, who);
    }
  }

  /** Every account, its balance aside, after one operation. */
  lemma StepAccounts(a: Audit, op: Op, who: string)
    requires Inv(a)
    ensures Face(Apply(a.s, op), who) == NextFace(a.s, op, who)
  {
    hide Inv, Face, Reserve, Reap, Credit, InsertAndCredit, FindDeposit;
    match op
    case OpReserve(input) => ReserveFace(a, input, who);
    case OpCredit(id, at) => CreditFace(a, id, at, who);
    case OpMint(d, at) => MintFace(a, d, at, who);
    case OpReap(order, cutoff, at) => ReapFaces(a.s, order, cutoff, at, who);
    case OpRollback(_, _) => MoneyFaces(a.s, op, who);
    case OpLateCommit(_, _, _) => MoneyFaces(a.s, op, who);
    case OpMark(_, _) => MoneyFaces(a.s, op, who);
    case _ => SameIdentities(a.s, op, who);
  }

  lemma SameIdentities(s: Store, op: Op, who: string)
    requires op.OpCommit? || op.OpCleanup? || op.OpQuery? || op.OpInsert? || op.OpRemine? || op.OpConfirm?
    ensures Face(Apply(s, op), who) == Face(s, who)
  {
    hide FindDeposit;
  }

  // ---------- answers ----------

  /** What a reserve answers: the replay check, then the account, then the balance. */
  lemma ReserveAnswers(a: Audit, input: ReserveInput)
    requires Inv(a)
    ensures Reserve(a.s, input).1 == Done(
      match RowAt(a.s, input.requestId)
      case Some(r) => Replay(r.status)
      case None =>
        if input.identityId !in a.s.identities then UnknownIdentity
        else
          var balance := a.s.identities[input.identityId].balance;
          if balance < input.amount then TooPoor(balance) else ReservedWith(balance - input.amount))
  {
    InvIsSolvent(a, input.identityId);
    hide Inv, Solvent;
  }

  /** What a credit answers: the new balance and whether the account was opened, or why it was refused. */
  lemma CreditAnswers(a: Audit, id: int, at: int)
    requires Inv(a)
    ensures Credit(a.s, id, at).1 == Done(
      if !HasId(a.s, id) then NotFound
      else
        var d := a.s.deposits[id - 1];
        match (d.reorgedAt, d.creditedAt)
        case (Some(_), _) => WasReorged
        case (None, Some(_)) => AlreadyCredited
        case (None, None) => Credited(Balance(a.s, d.identityId) + d.amount, d.identityId !in a.s.identities))
  {
    if HasId(a.s, id) {
      InvIsSolvent(a, a.s.deposits[id - 1].identityId);
    }
    hide Inv, Solvent;
  }

  lemma MintAnswers(a: Audit, d: DepositInput, at: int)
    requires Inv(a)
    ensures InsertAndCredit(a.s, d, at).1 == Done(
      if KnownOutpoint(a.s, d.txid, d.vout) then MintDuplicate
      else Minted(Fresh(a.s, d, Some(at)), Balance(a.s, d.identityId) + d.amount, d.identityId !in a.s.identities))
  {
    OutpointFound(a.s, d.txid, d.vout);
    InsertKeeps(a, d);
    var s1 := InsertDeposit(a.s, d).0;
    CreditAnswers(Audit(s1, a.purged), |s1.deposits|, at);
    hide Inv, Credit, FindDeposit;
  }

  /** What a reorg mark answers: the balance a credited deposit leaves behind, or nothing if no money moved. */
  lemma MarkAnswers(a: Audit, id: int, at: int)
    requires Inv(a)
    ensures MarkReorged(a.s, id, at).1 == Done(
      if !HasId(a.s, id) then MarkNotFound
      else
        var d := a.s.deposits[id - 1];
        match (d.reorgedAt, d.creditedAt)
        case (Some(_), _) => AlreadyReorged
        case (None, None) => Marked(None)
        case (None, Some(_)) => Marked(Some(Balance(a.s, d.identityId) - d.amount)))
  {
    if HasId(a.s, id) {
      var d := a.s.deposits[id - 1];
      InvIsSolvent(a, d.identityId);
      assert d in a.s.deposits && (d.creditedAt.Some? ==> d.identityId in a.s.identities);
    }
    hide Inv, Solvent;
  }

  /** What the insertion, the re-mine and the cleanup answer. */
  lemma OtherAnswers(s: Store, d: DepositInput, txid: string, vout: int, height: int, hash: string, confirmations: int,
                     cutoff: int)
    ensures InsertDeposit(s, d).1 ==
      if KnownOutpoint(s, d.txid, d.vout) then Duplicate else Inserted(Fresh(s, d, None))
    ensures var (t, row) := Remine(s, txid, vout, height, hash, confirmations);
      if !KnownOutpoint(s, txid, vout) then t == s && row == None
      else
        && row.Some? && row.value in t.deposits && (row.value.txid, row.value.vout) == (txid, vout)
        && row.value.blockHeight == height && row.value.blockHash == hash && row.value.confirmations == confirmations
        && row.value.reorgedAt == None && row.value.creditedAt == None
    ensures Cleanup(s, cutoff).1 == |s.requests| - |Cleanup(s, cutoff).0.requests|
  {
    OutpointFound(s, d.txid, d.vout);
    OutpointFound(s, txid, vout);
    CountRemoved(s.requests, Aged(s, cutoff).Keys);
    hide FindDeposit, KnownOutpoint;
    var (t, row) := Remine(s, txid, vout, height, hash, confirmations);
    if row.Some? {
      assert t.deposits[FindDeposit(s.deposits, txid, vout).value] == row.value;
    }
    assert |Aged(s, cutoff)| == |Aged(s, cutoff).Keys|;
  }

  lemma CountRemoved(m: map<string, Request>, gone: set<string>)
    requires gone <= m.Keys
    ensures |m - gone| == |m| - |gone|
  {
    assert (m - gone).Keys == m.Keys - gone;
    assert |(m - gone).Keys| == |m - gone| && |m.Keys| == |m|;
  }

  // ---------- ledger rows ----------

  /** When an operation happens, for the ledger. */
  function TimeOf(op: Op): int {
    match op
    case OpReserve(input) => input.receivedAt
    case OpRollback(_, at) => at
    case OpLateCommit(_, _, at) => at
    case OpReap(_, _, at) => at
    case OpCredit(_, at) => at
    case OpMint(_, at) => at
    case OpMark(_, at) => at
    case _ => 0
  }

  /** The reason the rows of an operation give. */
  function ReasonOf(op: Op): Option<Reason> {
    match op
    case OpReserve(_) => Some(ReserveReason)
    case OpRollback(_, _) => Some(RollbackReason)
    case OpLateCommit(_, _, _) => Some(LateCommit)
    case OpReap(_, _, _) => Some(ReaperExpired)
    case OpCredit(_, _) => Some(DepositCredited)
    case OpMint(_, _) => Some(DepositCredited)
    case OpMark(_, _) => Some(Reorg)
    case _ => None
  }

  ghost predicate OnlyAdds(s: Store, op: Op, t: Store) {
    && |t.ledger| >= |s.ledger| && t.ledger[..|s.ledger|] == s.ledger
    && forall i | |s.ledger| <= i < |t.ledger| ::
         t.ledger[i].createdAt == TimeOf(op) && ReasonOf(op) == Some(t.ledger[i].reason) && t.ledger[i].id == i + 1
  }

  lemma {:induction false} ReapAdds(s: Store, order: seq<string>, cutoff: int, at: int)
    ensures OnlyAdds(s, OpReap(order, cutoff, at), Reap(s, order, cutoff, at).0)
    decreases |order|
  {
    hide Solvent;
    if order != [] {
      var n := |order| - 1;
      ReapAdds(s, order[..n], cutoff, at);
      var t, u := Reap(s, order[..n], cutoff, at).0, Reap(s, order, cutoff, at).0;
      assert u.ledger == t.ledger || u.ledger[..|t.ledger|] == t.ledger;
    }
  }

  lemma DepositAdds(s: Store, id: int, at: int)
    ensures OnlyAdds(s, OpCredit(id, at), Credit(s, id, at).0)
    ensures OnlyAdds(s, OpMark(id, at), MarkReorged(s, id, at).0)
  {
    hide Solvent;
  }

  lemma RequestAdds(s: Store, op: Op)
    requires op.OpReserve? || op.OpRollback? || op.OpLateCommit?
    ensures OnlyAdds(s, op, Apply(s, op))
  {
    hide Solvent;
  }

  /** The ledger only grows: no row is ever changed or removed, and the rows an operation adds are numbered on, carry
      its time and its reason. */
  lemma StepAdds(s: Store, op: Op)
    ensures OnlyAdds(s, op, Apply(s, op))
  {
    hide Reserve, Rollback, LateCommitPayment, Reap, Credit, MarkReorged, FindDeposit;
    match op
    case OpReserve(_) => RequestAdds(s, op);
    case OpRollback(_, _) => RequestAdds(s, op);
    case OpLateCommit(_, _, _) => RequestAdds(s, op);
    case OpReap(order, cutoff, at) => ReapAdds(s, order, cutoff, at);
    case OpCredit(id, at) => DepositAdds(s, id, at);
    case OpMark(id, at) => DepositAdds(s, id, at);
    case OpMint(d, at) => DepositAdds(InsertDeposit(s, d).0, |InsertDeposit(s, d).0.deposits|, at);
    case _ => assert Apply(s, op).ledger == s.ledger;
  }
}
