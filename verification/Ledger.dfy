/** The prepaid account: identities, replay rows, deposits and the append-only ledger, with every
    storage operation as a function from state to state and result. `InMemoryStorage` and
    `SqliteStorage` are proved against these functions. */
module Ledger {
  import opened Basics

  // ---------- records ----------

  datatype Status = Reserved | Committed | Errored | Insufficient | Blocked | Expired
  datatype Kind = DepositKind | Debit | Refund | ReorgAdjust
  datatype Reason = ReserveReason | CommitReason | LateCommit | RollbackReason | ReaperExpired | DepositCredited | Reorg
  datatype Origin = Real | Simulated

  datatype Identity = Identity(balance: int, createdAt: int, firstDepositAt: Option<int>, lastRequestAt: Option<int>)

  datatype Request = Request(
    identityId: string, issuedAt: int, receivedAt: int, amount: int, verb: string, path: string,
    status: Status, responseBytes: Option<int>)

  /** What the caller of an insertion supplies; `memo` bundles the columns nothing computes with. */
  datatype Memo = Memo(currency: string, createdBy: Option<string>, note: Option<string>)
  datatype DepositInput = DepositInput(
    identityId: string, amount: int, txid: string, vout: int, blockHeight: int, blockHash: string,
    confirmations: int, detectedAt: int, origin: Origin, memo: Memo)

  datatype Deposit = Deposit(
    id: nat, identityId: string, amount: int, txid: string, vout: int, blockHeight: int, blockHash: string,
    confirmations: int, detectedAt: int, creditedAt: Option<int>, reorgedAt: Option<int>, origin: Origin, memo: Memo)

  datatype Entry = Entry(
    id: nat, identityId: string, kind: Kind, reason: Reason, amount: int, balanceAfter: int, createdAt: int,
    requestId: Option<string>, depositId: Option<nat>)

  datatype Cursor = Cursor(lastBlock: int, lastBlockHash: string, updatedAt: int)

  datatype Store = Store(
    identities: map<string, Identity>,
    requests: map<string, Request>,
    deposits: seq<Deposit>,   // the deposit with id n is at index n - 1
    ledger: seq<Entry>,
    cursors: map<string, Cursor>)

  const EMPTY := Store(map[], map[], [], [], map[])

  // ---------- inputs and results ----------

  datatype ReserveInput = ReserveInput(
    requestId: string, identityId: string, issuedAt: int, receivedAt: int, amount: int, verb: string, path: string)

  datatype ReserveResult =
    | ReservedWith(balanceAfter: int)
    | Replay(previous: Status)
    | TooPoor(balance: int)
    | UnknownIdentity

  /** A conditional transition: done, or the status found instead (`None`: no such row). */
  datatype Conditional = Applied | Refused(current: Option<Status>)
  datatype LateResult = AppliedLate(balanceAfter: int) | RefusedLate(current: Option<Status>)
  datatype QueryResult = Recorded | QueryReplay(previous: Status)

  datatype CreditResult = Credited(balanceAfter: int, identityCreated: bool) | NotFound | AlreadyCredited | WasReorged
  datatype MarkResult = Marked(adjusted: Option<int>) | MarkNotFound | AlreadyReorged
  datatype InsertResult = Inserted(deposit: Deposit) | Duplicate
  datatype MintResult = Minted(deposit: Deposit, balanceAfter: int, identityCreated: bool) | MintDuplicate
  datatype Summary = Summary(entryCount: nat, sum: int, latest: Option<int>)

  // ---------- reading the state ----------

  /** `balanceAfter` of the newest ledger row of `who`. */
  function LastBalance(ledger: seq<Entry>, who: string): Option<int> {
    if ledger == [] then None
    else
      var e := ledger[|ledger| - 1];
      if e.identityId == who then Some(e.balanceAfter) else LastBalance(ledger[..|ledger| - 1], who)
  }

  /** The runtime solvency check of one identity passes. */
  predicate Solvent(s: Store, who: string) {
    who in s.identities && LastBalance(s.ledger, who).Some? ==>
      LastBalance(s.ledger, who) == Some(s.identities[who].balance)
  }

  function FindDeposit(ds: seq<Deposit>, txid: string, vout: int): (r: Option<nat>)
    ensures r.Some? ==> r.value < |ds| && ds[r.value].txid == txid && ds[r.value].vout == vout
    ensures r.None? ==> forall d | d in ds :: d.txid != txid || d.vout != vout
  {
    if ds == [] then None
    else
      var n := |ds| - 1;
      if ds[n].txid == txid && ds[n].vout == vout then Some(n) else FindDeposit(ds[..n], txid, vout)
  }

  /** Deposits waiting for depth, oldest first. */
  function Uncredited(ds: seq<Deposit>): seq<Deposit> {
    if ds == [] then []
    else
      var d := ds[|ds| - 1];
      Uncredited(ds[..|ds| - 1]) + (if d.creditedAt.None? && d.reorgedAt.None? then [d] else [])
  }

  /** Live deposits recorded at `height` or above, oldest first. */
  function AtOrAbove(ds: seq<Deposit>, height: int): seq<Deposit> {
    if ds == [] then []
    else
      var d := ds[|ds| - 1];
      AtOrAbove(ds[..|ds| - 1], height) + (if d.blockHeight >= height && d.reorgedAt.None? then [d] else [])
  }

  predicate Waits(d: Deposit) {
    d.creditedAt.None? && d.reorgedAt.None?
  }

  lemma {:induction false} UncreditedSelects(ds: seq<Deposit>)
    ensures forall d :: d in Uncredited(ds) <==> d in ds && Waits(d)
  {
    if ds != [] {
      var n := |ds| - 1;
      UncreditedSelects(ds[..n]);
      assert ds == ds[..n] + [ds[n]];
    }
  }

  lemma {:induction false} AtOrAboveSelects(ds: seq<Deposit>, height: int)
    ensures forall d :: d in AtOrAbove(ds, height) <==> d in ds && d.blockHeight >= height && d.reorgedAt.None?
  {
    if ds != [] {
      var n := |ds| - 1;
      AtOrAboveSelects(ds[..n], height);
      assert ds == ds[..n] + [ds[n]];
    }
  }

  /** Rows with distinct ids are listed once each. */
  lemma {:induction false} ListedOnce(ds: seq<Deposit>, height: int)
    requires forall i, j | 0 <= i < j < |ds| :: ds[i].id != ds[j].id
    ensures Distinct(Uncredited(ds)) && Distinct(AtOrAbove(ds, height))
  {
    if ds != [] {
      var n := |ds| - 1;
      ListedOnce(ds[..n], height);
      UncreditedSelects(ds[..n]);
      AtOrAboveSelects(ds[..n], height);
      assert ds[n] !in ds[..n];
    }
  }

  predicate HasId(s: Store, id: int) {
    1 <= id <= |s.deposits|
  }

  // ---------- the two primitive changes ----------

  /** Moves `amount` on the balance of `who` and appends the matching ledger row. */
  function Move(s: Store, who: string, amount: int, kind: Kind, reason: Reason, at: int,
                requestId: Option<string>, depositId: Option<nat>): Store
    requires who in s.identities
  {
    var after := s.identities[who].balance + amount;
    s.(identities := s.identities[who := s.identities[who].(balance := after)],
       ledger := s.ledger + [Entry(|s.ledger| + 1, who, kind, reason, amount, after, at, requestId, depositId)])
  }

  function SetStatus(s: Store, requestId: string, status: Status): Store
    requires requestId in s.requests
  {
    s.(requests := s.requests[requestId := s.requests[requestId].(status := status)])
  }

  function SetDeposit(s: Store, i: nat, d: Deposit): Store
    requires i < |s.deposits|
  {
    s.(deposits := s.deposits[i := d])
  }

  // ---------- payments ----------

  function RowOf(input: ReserveInput, status: Status): Request {
    Request(input.identityId, input.issuedAt, input.receivedAt, input.amount, input.verb, input.path, status, None)
  }

  function Reserve(s: Store, input: ReserveInput): (Store, Outcome<ReserveResult>) {
    var rid, who := input.requestId, input.identityId;
    if rid in s.requests then (s, Done(Replay(s.requests[rid].status)))
    else if who !in s.identities then
      (s.(requests := s.requests[rid := RowOf(input, Insufficient)]), Done(UnknownIdentity))
    else if !Solvent(s, who) then (s, Fault)
    else
      var seen := s.(identities := s.identities[who := s.identities[who].(lastRequestAt := Some(input.receivedAt))]);
      var balance := s.identities[who].balance;
      if balance < input.amount then
        (seen.(requests := s.requests[rid := RowOf(input, Insufficient)]), Done(TooPoor(balance)))
      else
        var row := seen.(requests := s.requests[rid := RowOf(input, Reserved)]);
        (Move(row, who, -input.amount, Debit, ReserveReason, input.receivedAt, Some(rid), None),
         Done(ReservedWith(balance - input.amount)))
  }

  function CurrentStatus(s: Store, rid: string): Option<Status> {
    if rid in s.requests then Some(s.requests[rid].status) else None
  }

  function Commit(s: Store, rid: string, bytes: int): (Store, Conditional) {
    if CurrentStatus(s, rid) != Some(Reserved) then (s, Refused(CurrentStatus(s, rid)))
    else
      (s.(requests := s.requests[rid := s.requests[rid].(status := Committed, responseBytes := Some(bytes))]), Applied)
  }

  /** The refund shared by a rollback and the reaper; the identity is known to exist. */
  function RefundRow(s: Store, rid: string, reason: Reason, at: int): Store
    requires rid in s.requests && s.requests[rid].identityId in s.identities
  {
    var row := s.requests[rid];
    Move(SetStatus(s, rid, Errored), row.identityId, row.amount, Refund, reason, at, Some(rid), None)
  }

  function Rollback(s: Store, rid: string, at: int): (Store, Outcome<Conditional>) {
    if CurrentStatus(s, rid) != Some(Reserved) || s.requests[rid].identityId !in s.identities then
      (s, Done(Refused(CurrentStatus(s, rid))))
    else if !Solvent(s, s.requests[rid].identityId) then (s, Fault)
    else (RefundRow(s, rid, RollbackReason, at), Done(Applied))
  }

  function LateCommitPayment(s: Store, rid: string, bytes: int, at: int): (Store, Outcome<LateResult>) {
    if CurrentStatus(s, rid) != Some(Errored) || s.requests[rid].identityId !in s.identities then
      (s, Done(RefusedLate(CurrentStatus(s, rid))))
    else
      var row := s.requests[rid];
      if !Solvent(s, row.identityId) then (s, Fault)
      else
        var done := s.(requests := s.requests[rid := row.(status := Committed, responseBytes := Some(bytes))]);
        var moved := Move(done, row.identityId, -row.amount, Debit, LateCommit, at, Some(rid), None);
        (moved, Done(AppliedLate(moved.identities[row.identityId].balance)))
  }

  /** The reaper takes a row when it is still reserved, was received before the cutoff and has an account. */
  predicate Reapable(s: Store, rid: string, cutoff: int) {
    && rid in s.requests
    && s.requests[rid].status == Reserved
    && s.requests[rid].receivedAt < cutoff
    && s.requests[rid].identityId in s.identities
  }

  /** Reaping visits rows in some order; the visiting order is an argument. */
  function Reap(s: Store, order: seq<string>, cutoff: int, at: int): (Store, Outcome<seq<string>>)
    decreases |order|
  {
    if order == [] then (s, Done([]))
    else
      var n := |order| - 1;
      var rid := order[n];
      var (s1, before) := Reap(s, order[..n], cutoff, at);
      if before.Fault? then (s1, Fault)
      else if !Reapable(s1, rid, cutoff) then (s1, before)
      else if !Solvent(s1, s1.requests[rid].identityId) then (s1, Fault)
      else (RefundRow(s1, rid, ReaperExpired, at), Done(before.value + [rid]))
  }

  function Aged(s: Store, cutoff: int): map<string, Request> {
    map rid | rid in s.requests && s.requests[rid].issuedAt < cutoff :: s.requests[rid]
  }

  function Cleanup(s: Store, cutoff: int): (Store, nat) {
    (s.(requests := s.requests - Aged(s, cutoff).Keys), |Aged(s, cutoff)|)
  }

  function RecordQuery(s: Store, input: ReserveInput): (Store, QueryResult) {
    if input.requestId in s.requests then (s, QueryReplay(s.requests[input.requestId].status))
    else (s.(requests := s.requests[input.requestId := RowOf(input.(amount := 0), Committed)]), Recorded)
  }

  // ---------- deposits ----------

  function NewDeposit(s: Store, input: DepositInput): Deposit {
    Deposit(|s.deposits| + 1, input.identityId, input.amount, input.txid, input.vout, input.blockHeight,
            input.blockHash, input.confirmations, input.detectedAt, None, None, input.origin, input.memo)
  }

  function InsertDeposit(s: Store, input: DepositInput): (Store, InsertResult) {
    if FindDeposit(s.deposits, input.txid, input.vout).Some? then (s, Duplicate)
    else (s.(deposits := s.deposits + [NewDeposit(s, input)]), Inserted(NewDeposit(s, input)))
  }

  function Remine(s: Store, txid: string, vout: int, height: int, hash: string, confirmations: int)
    : (Store, Option<Deposit>)
  {
    match FindDeposit(s.deposits, txid, vout)
    case None => (s, None)
    case Some(i) =>
      var d := s.deposits[i].(blockHeight := height, blockHash := hash, confirmations := confirmations,
                              reorgedAt := None, creditedAt := None);
      (SetDeposit(s, i, d), Some(d))
  }

  function UpdateConfirmations(s: Store, id: int, confirmations: int): Store {
    if HasId(s, id) then SetDeposit(s, id - 1, s.deposits[id - 1].(confirmations := confirmations)) else s
  }

  /** The account a credit goes to: created on first credit, else with its first deposit time filled in. */
  function Enrol(s: Store, who: string, at: int): Store {
    if who !in s.identities then s.(identities := s.identities[who := Identity(0, at, Some(at), None)])
    else if s.identities[who].firstDepositAt.None? then
      s.(identities := s.identities[who := s.identities[who].(firstDepositAt := Some(at))])
    else s
  }

  function Credit(s: Store, id: int, at: int): (Store, Outcome<CreditResult>) {
    if !HasId(s, id) then (s, Done(NotFound))
    else
      var d := s.deposits[id - 1];
      if d.reorgedAt.Some? then (s, Done(WasReorged))
      else if d.creditedAt.Some? then (s, Done(AlreadyCredited))
      else if !Solvent(s, d.identityId) then (s, Fault)
      else
        var s1 := Enrol(SetDeposit(s, id - 1, d.(creditedAt := Some(at))), d.identityId, at);
        var s2 := Move(s1, d.identityId, d.amount, DepositKind, DepositCredited, at, None, Some(id));
        (s2, Done(Credited(s2.identities[d.identityId].balance, d.identityId !in s.identities)))
  }

  function InsertAndCredit(s: Store, input: DepositInput, at: int): (Store, Outcome<MintResult>) {
    var (s1, inserted) := InsertDeposit(s, input);
    if inserted.Duplicate? then (s, Done(MintDuplicate))
    else
      var (s2, credited) := Credit(s1, |s1.deposits|, at);
      match credited
      case Done(Credited(balance, created)) =>
        (s2, Done(Minted(inserted.deposit.(creditedAt := Some(at)), balance, created)))
      case _ => (s2, Fault)
  }

  /** The reorg mark is written before the solvency check: a fault leaves the row marked and unadjusted. */
  function MarkReorged(s: Store, id: int, at: int): (Store, Outcome<MarkResult>) {
    if !HasId(s, id) then (s, Done(MarkNotFound))
    else
      var d := s.deposits[id - 1];
      if d.reorgedAt.Some? then (s, Done(AlreadyReorged))
      else
        var s1 := SetDeposit(s, id - 1, d.(reorgedAt := Some(at)));
        if d.creditedAt.None? || d.identityId !in s.identities then (s1, Done(Marked(None)))
        else if !Solvent(s1, d.identityId) then (s1, Fault)
        else
          var s2 := Move(s1, d.identityId, -d.amount, ReorgAdjust, Reorg, at, None, Some(id));
          (s2, Done(Marked(Some(s2.identities[d.identityId].balance))))
  }

  // ---------- sums ----------

  function Charge(who: string): Request -> int {
    (r: Request) => if r.identityId == who && (r.status.Reserved? || r.status.Committed?) then r.amount else 0
  }

  function Hold(who: string): Request -> int {
    (r: Request) => if r.identityId == who && r.status.Reserved? then r.amount else 0
  }

  function CreditOf(who: string): Deposit -> int {
    (d: Deposit) => if d.identityId == who && d.creditedAt.Some? && d.reorgedAt.None? then d.amount else 0
  }

  function PendingOf(who: string): Deposit -> int {
    (d: Deposit) => if d.identityId == who && d.creditedAt.None? && d.reorgedAt.None? then d.amount else 0
  }

  function LedgerOf(who: string): Entry -> int {
    (e: Entry) => if e.identityId == who then e.amount else 0
  }

  function RowsOf(who: string): Entry -> int {
    (e: Entry) => if e.identityId == who then 1 else 0
  }

  ghost function LedgerSum(s: Store, who: string): int {
    SumSeq(s.ledger, LedgerOf(who))
  }

  function Balance(s: Store, who: string): int {
    if who in s.identities then s.identities[who].balance else 0
  }
}
