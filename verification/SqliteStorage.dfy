/** The SQLite backend: tables whose money columns are decimal text, one transaction per operation that is
    rolled back when it throws. Proved against the same functions as the in-memory backend. */
module SqliteStorage {
  import opened Basics
  import opened Decimal
  import opened Ledger
  import opened MemoryStorage
  import Conservation

  // ---------- rows ----------

  datatype IdentityRow = IdentityRow(balance: string, createdAt: int, firstDepositAt: Option<int>,
                                     lastRequestAt: Option<int>)

  datatype SpentRow = SpentRow(
    identityId: string, issuedAt: int, amount: string, receivedAt: int, verb: string, path: string,
    status: Status, responseBytes: Option<int>)

  datatype DepositRow = DepositRow(
    id: nat, identityId: string, amount: string, txid: string, vout: int, blockHeight: int, blockHash: string,
    confirmations: int, detectedAt: int, creditedAt: Option<int>, reorgedAt: Option<int>, origin: Origin, memo: Memo)

  datatype LedgerRow = LedgerRow(
    id: nat, identityId: string, kind: Kind, reason: Reason, amount: string, requestId: Option<string>,
    depositId: Option<nat>, balanceAfter: string, createdAt: int)

  /** The database file. The two tables with AUTOINCREMENT keys are sequences: row n has id n + 1. */
  datatype Tables = Tables(
    identities: map<string, IdentityRow>,
    spent: map<string, SpentRow>,
    deposits: seq<DepositRow>,
    ledger: seq<LedgerRow>,
    cursors: map<string, Cursor>)

  // ---------- the row mappers ----------

  function MapIdentity(r: IdentityRow): Identity
    requires Readable(r.balance)
  {
    Identity(Read(r.balance), r.createdAt, r.firstDepositAt, r.lastRequestAt)
  }

  function MapSpent(r: SpentRow): Request
    requires Readable(r.amount)
  {
    Request(r.identityId, r.issuedAt, r.receivedAt, Read(r.amount), r.verb, r.path, r.status, r.responseBytes)
  }

  function MapDeposit(r: DepositRow): Deposit
    requires Readable(r.amount)
  {
    Deposit(r.id, r.identityId, Read(r.amount), r.txid, r.vout, r.blockHeight, r.blockHash, r.confirmations,
            r.detectedAt, r.creditedAt, r.reorgedAt, r.origin, r.memo)
  }

  function MapLedger(r: LedgerRow): Entry
    requires Readable(r.amount) && Readable(r.balanceAfter)
  {
    Entry(r.id, r.identityId, r.kind, r.reason, Read(r.amount), Read(r.balanceAfter), r.createdAt, r.requestId,
          r.depositId)
  }

  // ---------- the state the tables stand for ----------

  ghost predicate Legible(t: Tables) {
    && (forall k | k in t.identities :: Readable(t.identities[k].balance))
    && (forall k | k in t.spent :: Readable(t.spent[k].amount))
    && (forall i | 0 <= i < |t.deposits| :: Readable(t.deposits[i].amount))
    && (forall i | 0 <= i < |t.ledger| :: Readable(t.ledger[i].amount) && Readable(t.ledger[i].balanceAfter))
  }

  ghost predicate Numbered(t: Tables) {
    && (forall i | 0 <= i < |t.deposits| :: t.deposits[i].id == i + 1)
    && (forall i | 0 <= i < |t.ledger| :: t.ledger[i].id == i + 1)
  }

  ghost predicate Sound(t: Tables) {
    Legible(t) && Numbered(t)
  }

  ghost function Identities(m: map<string, IdentityRow>): map<string, Identity>
    requires forall k | k in m :: Readable(m[k].balance)
  {
    map k | k in m :: MapIdentity(m[k])
  }

  ghost function Spent(m: map<string, SpentRow>): map<string, Request>
    requires forall k | k in m :: Readable(m[k].amount)
  {
    map k | k in m :: MapSpent(m[k])
  }

  ghost function Deposits(s: seq<DepositRow>): seq<Deposit>
    requires forall i | 0 <= i < |s| :: Readable(s[i].amount)
  {
    seq(|s|, i requires 0 <= i < |s| => MapDeposit(s[i]))
  }

  ghost function Entries(s: seq<LedgerRow>): seq<Entry>
    requires forall i | 0 <= i < |s| :: Readable(s[i].amount) && Readable(s[i].balanceAfter)
  {
    seq(|s|, i requires 0 <= i < |s| => MapLedger(s[i]))
  }

  ghost function View(t: Tables): Store
    requires Legible(t)
  {
    Store(Identities(t.identities), Spent(t.spent), Deposits(t.deposits), Entries(t.ledger), t.cursors)
  }

  // ---------- effect of single-row writes on the view ----------

  lemma PutIdentityView(t: Tables, who: string, row: IdentityRow)
    requires Sound(t) && Readable(row.balance)
    ensures var u := t.(identities := t.identities[who := row]);
      Sound(u) && View(u) == View(t).(identities := View(t).identities[who := MapIdentity(row)])
  {
    assert Identities(t.identities[who := row]) == Identities(t.identities)[who := MapIdentity(row)];
  }

  lemma PutSpentView(t: Tables, rid: string, row: SpentRow)
    requires Sound(t) && Readable(row.amount)
    ensures var u := t.(spent := t.spent[rid := row]);
      Sound(u) && View(u) == View(t).(requests := View(t).requests[rid := MapSpent(row)])
  {
    assert Spent(t.spent[rid := row]) == Spent(t.spent)[rid := MapSpent(row)];
  }

  lemma PutDepositView(t: Tables, i: nat, row: DepositRow)
    requires Sound(t) && i < |t.deposits| && Readable(row.amount) && row.id == i + 1
    ensures var u := t.(deposits := t.deposits[i := row]);
      Sound(u) && View(u) == SetDeposit(View(t), i, MapDeposit(row))
  {
    assert Deposits(t.deposits[i := row]) == Deposits(t.deposits)[i := MapDeposit(row)];
  }

  lemma AppendDepositView(t: Tables, row: DepositRow)
    requires Sound(t) && Readable(row.amount) && row.id == |t.deposits| + 1
    ensures var u := t.(deposits := t.deposits + [row]);
      Sound(u) && View(u) == View(t).(deposits := View(t).deposits + [MapDeposit(row)])
  {
    assert Deposits(t.deposits + [row]) == Deposits(t.deposits) + [MapDeposit(row)];
  }

  lemma AppendLedgerView(t: Tables, row: LedgerRow)
    requires Sound(t) && Readable(row.amount) && Readable(row.balanceAfter) && row.id == |t.ledger| + 1
    ensures var u := t.(ledger := t.ledger + [row]);
      Sound(u) && View(u) == View(t).(ledger := View(t).ledger + [MapLedger(row)])
  {
    assert Entries(t.ledger + [row]) == Entries(t.ledger) + [MapLedger(row)];
  }

  lemma DeleteSpentView(t: Tables, gone: set<string>)
    requires Sound(t)
    ensures var u := t.(spent := t.spent - gone);
      Sound(u) && View(u) == View(t).(requests := View(t).requests - gone)
  {
    assert Spent(t.spent - gone) == Spent(t.spent) - gone;
  }

  lemma ViewSizes(t: Tables)
    requires Sound(t)
    ensures |View(t).deposits| == |t.deposits| && |View(t).ledger| == |t.ledger|
  {}

  // ---------- queries ----------

  /** SELECT ... WHERE identity_id = who ORDER BY id DESC LIMIT 1 */
  function LastRow(rows: seq<LedgerRow>, who: string): Option<LedgerRow> {
    if rows == [] then None
    else if rows[|rows| - 1].identityId == who then Some(rows[|rows| - 1])
    else LastRow(rows[..|rows| - 1], who)
  }

  lemma {:induction false} LastRowIsLast(rows: seq<LedgerRow>, who: string)
    requires forall i | 0 <= i < |rows| :: Readable(rows[i].amount) && Readable(rows[i].balanceAfter)
    ensures LastRow(rows, who).Some? ==> Readable(LastRow(rows, who).value.balanceAfter)
    ensures LastBalance(Entries(rows), who) ==
      if LastRow(rows, who).Some? then Some(Read(LastRow(rows, who).value.balanceAfter)) else None
  {
    if rows != [] {
      var n := |rows| - 1;
      LastRowIsLast(rows[..n], who);
      assert Entries(rows)[..n] == Entries(rows[..n]);
    }
  }

  /** SELECT ... WHERE txid = ? AND vout = ? */
  function FindRow(rows: seq<DepositRow>, txid: string, vout: int): (r: Option<nat>)
    ensures r.Some? ==> r.value < |rows|
  {
    if rows == [] then None
    else
      var n := |rows| - 1;
      if rows[n].txid == txid && rows[n].vout == vout then Some(n) else FindRow(rows[..n], txid, vout)
  }

  lemma {:induction false} FindRowFinds(rows: seq<DepositRow>, txid: string, vout: int)
    requires forall i | 0 <= i < |rows| :: Readable(rows[i].amount)
    ensures FindDeposit(Deposits(rows), txid, vout) == FindRow(rows, txid, vout)
  {
    if rows != [] {
      var n := |rows| - 1;
      FindRowFinds(rows[..n], txid, vout);
      assert Deposits(rows)[..n] == Deposits(rows[..n]);
    }
  }

  /** The rows the reaper selects. */
  predicate Selected(s: Store, rid: string, cutoff: int) {
    rid in s.requests && s.requests[rid].status == Reserved && s.requests[rid].receivedAt < cutoff
  }

  lemma KeysCount<K, V>(m: map<K, V>)
    ensures |m| == |m.Keys|
  {}

  /** `r` holds the chosen ones of the rows at the visited places, each once. */
  ghost predicate Visited(ds: seq<Deposit>, places: seq<nat>, chosen: Deposit -> bool, r: seq<Deposit>) {
    && (forall k | k in places :: k < |ds|)
    && Distinct(r)
    && forall d :: d in r <==> chosen(d) && exists k | k in places :: ds[k] == d
  }

  lemma VisitNext(ds: seq<Deposit>, places: seq<nat>, k: nat, chosen: Deposit -> bool, r: seq<Deposit>)
    requires Visited(ds, places, chosen, r) && k < |ds| && k !in places
    requires forall i | 0 <= i < |ds| :: ds[i].id == i + 1
    ensures Visited(ds, places + [k], chosen, if chosen(ds[k]) then r + [ds[k]] else r)
  {
    assert ds[k] !in r;
  }

  lemma VisitedAll(ds: seq<Deposit>, places: seq<nat>, chosen: Deposit -> bool, r: seq<Deposit>)
    requires Visited(ds, places, chosen, r) && forall k: nat :: k in places <==> k < |ds|
    ensures Distinct(r) && forall d :: d in r <==> d in ds && chosen(d)
  {
    forall d | d in ds ensures exists k | k in places :: ds[k] == d {
      var k :| 0 <= k < |ds| && ds[k] == d;
      assert k in places;
    }
  }

  class SqliteStorage {
    var db: Tables

    ghost predicate Valid()
      reads this
    {
      Sound(db)
    }

    ghost function Model(): Store
      requires Valid()
      reads this
    {
      View(db)
    }

    constructor ()
      ensures Valid() && Model() == EMPTY
    {
      db := Tables(map[], map[], [], [], map[]);
    }

    // ---------- single statements ----------

    method AppendLedger(who: string, kind: Kind, reason: Reason, amount: int, balanceAfter: int, at: int,
                        requestId: Option<string>, depositId: Option<nat>)
      requires Valid()
      modifies this
      ensures Valid() && Model() == old(Model()).(ledger := old(Model()).ledger +
        [Entry(|old(Model()).ledger| + 1, who, kind, reason, amount, balanceAfter, at, requestId, depositId)])
    {
      hide View, Legible, Numbered;
      ShowReads(amount);
      ShowReads(balanceAfter);
      var row := LedgerRow(|db.ledger| + 1, who, kind, reason, Show(amount), requestId, depositId, Show(balanceAfter),
                           at);
      ViewSizes(db);
      AppendLedgerView(db, row);
      db := db.(ledger := db.ledger + [row]);
    }

    method PutIdentity(who: string, identity: Identity)
      requires Valid()
      modifies this
      ensures Valid() && Model() == old(Model()).(identities := old(Model()).identities[who := identity])
    {
      hide View, Legible, Numbered;
      ShowReads(identity.balance);
      var row := IdentityRow(Show(identity.balance), identity.createdAt, identity.firstDepositAt,
                             identity.lastRequestAt);
      PutIdentityView(db, who, row);
      db := db.(identities := db.identities[who := row]);
    }

    method PutSpent(rid: string, r: Request)
      requires Valid()
      modifies this
      ensures Valid() && Model() == old(Model()).(requests := old(Model()).requests[rid := r])
    {
      hide View, Legible, Numbered;
      ShowReads(r.amount);
      var row := SpentRow(r.identityId, r.issuedAt, Show(r.amount), r.receivedAt, r.verb, r.path, r.status,
                          r.responseBytes);
      PutSpentView(db, rid, row);
      db := db.(spent := db.spent[rid := row]);
    }

    /** SELECT * FROM deposits WHERE id = ? */
    method SelectDeposit(id: int) returns (r: Option<Deposit>)
      requires Valid()
      ensures r == if HasId(Model(), id) then Some(Model().deposits[id - 1]) else None
    {
      r := if 1 <= id <= |db.deposits| then Some(MapDeposit(db.deposits[id - 1])) else None;
    }

    /** UPDATE deposits SET the columns that can change WHERE id = ? */
    method UpdateDeposit(id: int, d: Deposit)
      requires Valid() && HasId(Model(), id)
      requires d == Model().deposits[id - 1].(blockHeight := d.blockHeight, blockHash := d.blockHash,
        confirmations := d.confirmations, creditedAt := d.creditedAt, reorgedAt := d.reorgedAt)
      modifies this
      ensures Valid() && Model() == SetDeposit(old(Model()), id - 1, d)
    {
      var row := db.deposits[id - 1].(blockHeight := d.blockHeight, blockHash := d.blockHash,
        confirmations := d.confirmations, creditedAt := d.creditedAt, reorgedAt := d.reorgedAt);
      PutDepositView(db, id - 1, row);
      db := db.(deposits := db.deposits[id - 1 := row]);
    }

    method GetIdentity(who: string) returns (r: Option<Identity>)
      requires Valid()
      ensures r == if who in Model().identities then Some(Model().identities[who]) else None
    {
      r := if who in db.identities then Some(MapIdentity(db.identities[who])) else None;
    }

    method GetSpentRequest(rid: string) returns (r: Option<Request>)
      requires Valid()
      ensures r == if rid in Model().requests then Some(Model().requests[rid]) else None
    {
      r := if rid in db.spent then Some(MapSpent(db.spent[rid])) else None;
    }

    /** The runtime check; false where the transaction throws. */
    method AssertBalanceInvariant(who: string) returns (ok: bool)
      requires Valid()
      ensures ok == Solvent(Model(), who)
    {
      LastRowIsLast(db.ledger, who);
      if who !in db.identities {
        return true;
      }
      var last := LastRow(db.ledger, who);
      if last.None? {
        return true;
      }
      ok := Read(last.value.balanceAfter) == Read(db.identities[who].balance);
    }

    /** The selected rows, in the order the database returns them. */
    method SelectSpent(scan: seq<string>) returns (rows: seq<Request>)
      requires Valid() && forall rid | rid in scan :: rid in Model().requests
      ensures |rows| == |scan| && forall i | 0 <= i < |scan| :: rows[i] == Model().requests[scan[i]]
    {
      hide View, Legible, Numbered;
      rows := [];
      while |rows| < |scan|
        invariant |rows| <= |scan| && forall i | 0 <= i < |rows| :: rows[i] == Model().requests[scan[i]]
      {
        assert scan[|rows|] in scan;
        var row := GetSpentRequest(scan[|rows|]);
        rows := rows + [row.value];
      }
    }

    /** Balance update, ledger row and the closing check of a money transaction. */
    method Post(who: string, amount: int, kind: Kind, reason: Reason, at: int,
                requestId: Option<string>, depositId: Option<nat>) returns (balanceAfter: int)
      requires Valid() && who in Model().identities
      modifies this
      ensures Valid() && Model() == Move(old(Model()), who, amount, kind, reason, at, requestId, depositId)
      ensures balanceAfter == Model().identities[who].balance
    {
      hide View, Legible, Numbered;
      var identity := GetIdentity(who);
      balanceAfter := identity.value.balance + amount;
      PutIdentity(who, identity.value.(balance := balanceAfter));
      AppendLedger(who, kind, reason, amount, balanceAfter, at, requestId, depositId);
      var ok := AssertBalanceInvariant(who);
      Conservation.MoveIsSolvent(old(Model()), who, amount, kind, reason, at, requestId, depositId);
      assert ok;
    }

    // ---------- two-phase debit ----------

    method ReservePayment(input: ReserveInput) returns (r: Outcome<ReserveResult>)
      requires Valid()
      modifies this
      ensures Valid() && r == Reserve(old(Model()), input).1
      ensures Model() == if r.Done? then Reserve(old(Model()), input).0 else old(Model())
    {
      hide View, Legible, Numbered;
      var rid, who := input.requestId, input.identityId;
      var existing := GetSpentRequest(rid);
      if existing.Some? {
        return Done(Replay(existing.value.status));
      }
      var identity := GetIdentity(who);
      if identity.None? {
        PutSpent(rid, RowOf(input, Insufficient));
        return Done(UnknownIdentity);
      }
      var ok := AssertBalanceInvariant(who);
      if !ok {
        return Fault;
      }
      var balance := identity.value.balance;
      if balance < input.amount {
        PutSpent(rid, RowOf(input, Insufficient));
        PutIdentity(who, identity.value.(lastRequestAt := Some(input.receivedAt)));
        return Done(TooPoor(balance));
      }
      PutSpent(rid, RowOf(input, Reserved));
      PutIdentity(who, identity.value.(lastRequestAt := Some(input.receivedAt)));
      var after := Post(who, -input.amount, Debit, ReserveReason, input.receivedAt, Some(rid), None);
      r := Done(ReservedWith(after));
    }

    method CommitPayment(rid: string, bytes: int) returns (r: Conditional)
      requires Valid()
      modifies this
      ensures Valid() && (Model(), r) == Commit(old(Model()), rid, bytes)
    {
      hide View, Legible, Numbered;
      var row := GetSpentRequest(rid);
      if row.None? || row.value.status != Reserved {
        return Refused(if row.Some? then Some(row.value.status) else None);
      }
      PutSpent(rid, row.value.(status := Committed, responseBytes := Some(bytes)));
      r := Applied;
    }

    method RollbackPayment(rid: string, at: int) returns (r: Outcome<Conditional>)
      requires Valid()
      modifies this
      ensures Valid() && r == Rollback(old(Model()), rid, at).1
      ensures Model() == if r.Done? then Rollback(old(Model()), rid, at).0 else old(Model())
    {
      hide View, Legible, Numbered;
      var row := GetSpentRequest(rid);
      if row.None? || row.value.status != Reserved {
        return Done(Refused(if row.Some? then Some(row.value.status) else None));
      }
      var who := row.value.identityId;
      var identity := GetIdentity(who);
      if identity.None? {
        return Done(Refused(Some(row.value.status)));
      }
      var ok := AssertBalanceInvariant(who);
      if !ok {
        return Fault;
      }
      PutSpent(rid, row.value.(status := Errored));
      var after := Post(who, row.value.amount, Refund, RollbackReason, at, Some(rid), None);
      r := Done(Applied);
    }

    method LateCommitSpent(rid: string, bytes: int, at: int) returns (r: Outcome<LateResult>)
      requires Valid()
      modifies this
      ensures Valid() && r == LateCommitPayment(old(Model()), rid, bytes, at).1
      ensures Model() == if r.Done? then LateCommitPayment(old(Model()), rid, bytes, at).0 else old(Model())
    {
      hide View, Legible, Numbered;
      var row := GetSpentRequest(rid);
      if row.None? || row.value.status != Errored {
        return Done(RefusedLate(if row.Some? then Some(row.value.status) else None));
      }
      var who := row.value.identityId;
      var identity := GetIdentity(who);
      if identity.None? {
        return Done(RefusedLate(Some(row.value.status)));
      }
      var ok := AssertBalanceInvariant(who);
      if !ok {
        return Fault;
      }
      PutSpent(rid, row.value.(status := Committed, responseBytes := Some(bytes)));
      var after := Post(who, -row.value.amount, Debit, LateCommit, at, Some(rid), None);
      r := Done(AppliedLate(after));
    }

    /** `scan` is the order in which the database happens to return the selected rows. A throw rolls every
        refund of this call back. */
    method ReapExpiredReservations(cutoff: int, at: int, scan: seq<string>) returns (r: Outcome<seq<string>>)
      requires Valid()
      requires Distinct(scan) && forall rid :: rid in scan <==> Selected(Model(), rid, cutoff)
      modifies this
      ensures Valid() && r == Reap(old(Model()), scan, cutoff, at).1
      ensures Model() == if r.Done? then Reap(old(Model()), scan, cutoff, at).0 else old(Model())
    {
      hide View, Legible, Numbered;
      var begin := db;
      var rows := SelectSpent(scan);
      var reaped := [];
      var i := 0;
      while i < |rows|
        invariant Valid() && 0 <= i <= |rows|
        invariant (Model(), Done(reaped)) == Reap(old(Model()), scan[..i], cutoff, at)
        invariant forall j | i <= j < |scan| :: scan[j] in Model().requests && Model().requests[scan[j]] == rows[j]
      {
        var rid, row := scan[i], rows[i];
        assert rid in scan && Selected(old(Model()), rid, cutoff);
        assert scan[..i + 1][..i] == scan[..i];
        var identity := GetIdentity(row.identityId);
        if identity.Some? {
          var ok := AssertBalanceInvariant(row.identityId);
          if !ok {
            assert Reap(old(Model()), scan[..i + 1], cutoff, at).1.Fault?;
            FaultSticks(old(Model()), scan, i + 1, cutoff, at);
            db := begin;
            return Fault;
          }
          PutSpent(rid, row.(status := Errored));
          var after := Post(row.identityId, row.amount, Refund, ReaperExpired, at, Some(rid), None);
          reaped := reaped + [rid];
        }
        i := i + 1;
      }
      assert scan[..i] == scan;
      r := Done(reaped);
    }

    /** DELETE FROM spent_requests WHERE issued_at < cutoff */
    method CleanupSpentRequests(cutoff: int) returns (changes: nat)
      requires Valid()
      modifies this
      ensures Valid() && (Model(), changes) == Cleanup(old(Model()), cutoff)
    {
      var gone := set rid | rid in db.spent && db.spent[rid].issuedAt < cutoff;
      assert gone == Aged(Model(), cutoff).Keys;
      DeleteSpentView(db, gone);
      db := db.(spent := db.spent - gone);
      changes := |gone|;
      KeysCount(Aged(old(Model()), cutoff));
    }

    method RecordBalanceQuery(input: ReserveInput) returns (r: QueryResult)
      requires Valid()
      modifies this
      ensures Valid() && (Model(), r) == RecordQuery(old(Model()), input)
    {
      hide View, Legible, Numbered;
      var existing := GetSpentRequest(input.requestId);
      if existing.Some? {
        return QueryReplay(existing.value.status);
      }
      PutSpent(input.requestId, RowOf(input.(amount := 0), Committed));
      r := Recorded;
    }

    // ---------- deposits ----------

    method AppendDeposit(input: DepositInput)
      requires Valid()
      modifies this
      ensures Valid() && Model() == old(Model()).(deposits := old(Model()).deposits + [NewDeposit(old(Model()), input)])
    {
      hide View, Legible, Numbered;
      ShowReads(input.amount);
      var row := DepositRow(|db.deposits| + 1, input.identityId, Show(input.amount), input.txid, input.vout,
                            input.blockHeight, input.blockHash, input.confirmations, input.detectedAt, None, None,
                            input.origin, input.memo);
      ViewSizes(db);
      AppendDepositView(db, row);
      db := db.(deposits := db.deposits + [row]);
    }

    /** INSERT, refused by the unique index on (txid, vout). */
    method InsertDepositRow(input: DepositInput) returns (r: InsertResult)
      requires Valid()
      modifies this
      ensures Valid() && (Model(), r) == InsertDeposit(old(Model()), input)
    {
      hide View, Legible, Numbered;
      var existing := GetDeposit(input.txid, input.vout);
      if existing.Some? {
        return Duplicate;
      }
      AppendDeposit(input);
      var row := GetDeposit(input.txid, input.vout);
      r := Inserted(row.value);
    }

    method GetDeposit(txid: string, vout: int) returns (r: Option<Deposit>)
      requires Valid()
      ensures var f := FindDeposit(Model().deposits, txid, vout);
        r == if f.Some? then Some(Model().deposits[f.value]) else None
    {
      FindRowFinds(db.deposits, txid, vout);
      var i := FindRow(db.deposits, txid, vout);
      r := if i.Some? then Some(MapDeposit(db.deposits[i.value])) else None;
    }

    method RemineDeposit(txid: string, vout: int, height: int, hash: string, confirmations: int)
      returns (r: Option<Deposit>)
      requires Valid()
      modifies this
      ensures Valid() && (Model(), r) == Remine(old(Model()), txid, vout, height, hash, confirmations)
    {
      FindRowFinds(db.deposits, txid, vout);
      var i := FindRow(db.deposits, txid, vout);
      if i.None? {
        return None;
      }
      var d := MapDeposit(db.deposits[i.value]).(blockHeight := height, blockHash := hash,
        confirmations := confirmations, reorgedAt := None, creditedAt := None);
      UpdateDeposit(i.value + 1, d);
      r := Some(d);
    }

    method UpdateDepositConfirmations(id: int, confirmations: int)
      requires Valid()
      modifies this
      ensures Valid() && Model() == UpdateConfirmations(old(Model()), id, confirmations)
    {
      hide View, Legible, Numbered;
      var d := SelectDeposit(id);
      if d.Some? {
        UpdateDeposit(id, d.value.(confirmations := confirmations));
      }
    }

    /** `scan` is the order in which the database happens to visit the table: the query fixes none. */
    method ListUncreditedDeposits(scan: seq<nat>) returns (r: seq<Deposit>)
      requires Valid()
      requires Distinct(scan) && forall k: nat :: k in scan <==> k < |Model().deposits|
      ensures Reorders(r, Uncredited(Model().deposits))
    {
      r := [];
      var i := 0;
      ghost var ds := Model().deposits;
      while i < |scan|
        invariant 0 <= i <= |scan|
        invariant Visited(ds, scan[..i], Waits, r)
      {
        assert scan[i] in scan;
        var row := db.deposits[scan[i]];
        VisitNext(ds, scan[..i], scan[i], Waits, r);
        if row.creditedAt.None? && row.reorgedAt.None? {
          r := r + [MapDeposit(row)];
        }
        assert scan[..i + 1] == scan[..i] + [scan[i]];
        i := i + 1;
      }
      assert scan[..i] == scan;
      UncreditedSelects(ds);
      VisitedAll(ds, scan, Waits, r);
    }

    method ListDepositsAtOrAbove(height: int, scan: seq<nat>) returns (r: seq<Deposit>)
      requires Valid()
      requires Distinct(scan) && forall k: nat :: k in scan <==> k < |Model().deposits|
      ensures Reorders(r, AtOrAbove(Model().deposits, height))
    {
      r := [];
      var i := 0;
      ghost var ds := Model().deposits;
      ghost var live := (d: Deposit) => d.blockHeight >= height && d.reorgedAt.None?;
      while i < |scan|
        invariant 0 <= i <= |scan|
        invariant Visited(ds, scan[..i], live, r)
      {
        assert scan[i] in scan;
        var row := db.deposits[scan[i]];
        VisitNext(ds, scan[..i], scan[i], live, r);
        if row.blockHeight >= height && row.reorgedAt.None? {
          r := r + [MapDeposit(row)];
        }
        assert scan[..i + 1] == scan[..i] + [scan[i]];
        i := i + 1;
      }
      assert scan[..i] == scan;
      AtOrAboveSelects(ds, height);
      VisitedAll(ds, scan, live, r);
    }

    /** The credit inside its transaction; the row is marked before the check, and the caller rolls back. */
    method CreditInTx(id: int, at: int) returns (r: Outcome<CreditResult>)
      requires Valid()
      modifies this
      ensures Valid() && r == Credit(old(Model()), id, at).1
      ensures r.Done? ==> Model() == Credit(old(Model()), id, at).0
    {
      hide View, Legible, Numbered;
      var row := SelectDeposit(id);
      if row.None? {
        return Done(NotFound);
      }
      var d := row.value;
      if d.reorgedAt.Some? {
        return Done(WasReorged);
      }
      if d.creditedAt.Some? {
        return Done(AlreadyCredited);
      }
      UpdateDeposit(id, d.(creditedAt := Some(at)));
      var identity := GetIdentity(d.identityId);
      if identity.Some? {
        var ok := AssertBalanceInvariant(d.identityId);
        if !ok {
          return Fault;
        }
      }
      if identity.None? {
        PutIdentity(d.identityId, Identity(0, at, Some(at), None));
      } else if identity.value.firstDepositAt.None? {
        PutIdentity(d.identityId, identity.value.(firstDepositAt := Some(at)));
      }
      var after := Post(d.identityId, d.amount, DepositKind, DepositCredited, at, None, Some(id));
      r := Done(Credited(after, identity.None?));
    }

    method CreditDeposit(id: int, at: int) returns (r: Outcome<CreditResult>)
      requires Valid()
      modifies this
      ensures Valid() && r == Credit(old(Model()), id, at).1
      ensures Model() == if r.Done? then Credit(old(Model()), id, at).0 else old(Model())
    {
      hide View, Legible, Numbered;
      var begin := db;
      r := CreditInTx(id, at);
      if r.Fault? {
        db := begin;
      }
    }

    method InsertAndCreditDeposit(input: DepositInput, at: int) returns (r: Outcome<MintResult>)
      requires Valid()
      modifies this
      ensures Valid() && r == InsertAndCredit(old(Model()), input, at).1
      ensures Model() == if r.Done? then InsertAndCredit(old(Model()), input, at).0 else old(Model())
    {
      hide View, Legible, Numbered;
      var begin := db;
      var inserted := InsertDepositRow(input);
      if inserted.Duplicate? {
        return Done(MintDuplicate);
      }
      var credited := CreditInTx(inserted.deposit.id, at);
      if credited.Fault? {
        db := begin;
        return Fault;
      }
      r := Done(Minted(inserted.deposit.(creditedAt := Some(at)), credited.value.balanceAfter,
                       credited.value.identityCreated));
    }

    method MarkDepositReorged(id: int, at: int) returns (r: Outcome<MarkResult>)
      requires Valid()
      modifies this
      ensures Valid() && r == MarkReorged(old(Model()), id, at).1
      ensures Model() == if r.Done? then MarkReorged(old(Model()), id, at).0 else old(Model())
    {
      hide View, Legible, Numbered;
      var begin := db;
      var row := SelectDeposit(id);
      if row.None? {
        return Done(MarkNotFound);
      }
      var d := row.value;
      if d.reorgedAt.Some? {
        return Done(AlreadyReorged);
      }
      UpdateDeposit(id, d.(reorgedAt := Some(at)));
      var identity := GetIdentity(d.identityId);
      if d.creditedAt.None? || identity.None? {
        return Done(Marked(None));
      }
      var ok := AssertBalanceInvariant(d.identityId);
      if !ok {
        db := begin;
        return Fault;
      }
      var after := Post(d.identityId, -d.amount, ReorgAdjust, Reorg, at, None, Some(id));
      r := Done(Marked(Some(after)));
    }

    /** Sums the text amounts outside SQL, newest row last. */
    method GetLedgerSummary(who: string) returns (r: Summary)
      requires Valid()
      ensures r.sum == LedgerSum(Model(), who)
      ensures r.latest == LastBalance(Model().ledger, who)
      ensures r.entryCount == SumSeq(Model().ledger, RowsOf(who))
    {
      var sum, latest, count, i := 0, None, 0, 0;
      ghost var rows := Model().ledger;
      while i < |db.ledger|
        invariant 0 <= i <= |db.ledger|
        invariant sum == SumSeq(rows[..i], LedgerOf(who)) && count == SumSeq(rows[..i], RowsOf(who))
        invariant latest == LastBalance(rows[..i], who)
      {
        SumSeqStep(rows, i, LedgerOf(who));
        SumSeqStep(rows, i, RowsOf(who));
        assert rows[..i + 1][..i] == rows[..i];
        if db.ledger[i].identityId == who {
          sum := sum + Read(db.ledger[i].amount);
          latest := Some(Read(db.ledger[i].balanceAfter));
          count := count + 1;
        }
        i := i + 1;
      }
      assert rows[..i] == rows;
      r := Summary(count, sum, latest);
    }
  }
}
