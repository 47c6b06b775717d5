/** The in-memory backend: insertion-ordered maps updated in place, proved against the functions of
    `Ledger`. Each insertion-ordered map is a `map` field with a `seq` field for the order. */
module MemoryStorage {
  import opened Basics
  import opened Ledger
  import Conservation

  type Outpoint = (string, int)

  /** `order` lists the keys of a map, each once. */
  ghost predicate Lists<K(!new)>(order: seq<K>, keys: set<K>) {
    Distinct(order) && forall k :: k in order <==> k in keys
  }

  function Without<K(==,!new)>(order: seq<K>, k: K): (r: seq<K>)
    ensures forall x :: x in r <==> x in order && x != k
  {
    if order == [] then []
    else
      var n := |order| - 1;
      var rest := Without(order[..n], k);
      if order[n] == k then rest else rest + [order[n]]
  }

  lemma {:induction false} WithoutDistinct<K(!new)>(order: seq<K>, k: K)
    requires Distinct(order)
    ensures Distinct(Without(order, k))
  {
    if order != [] {
      var n := |order| - 1;
      WithoutDistinct(order[..n], k);
      assert order[n] !in order[..n];
    }
  }

  function Rows(m: map<Outpoint, Deposit>, order: seq<Outpoint>): seq<Deposit>
    requires forall k | k in order :: k in m
  {
    seq(|order|, i requires 0 <= i < |order| => m[order[i]])
  }

  ghost function Chosen<K, V>(m: map<K, V>, ks: seq<K>): map<K, V> {
    map k | k in m && k in ks :: m[k]
  }

  /** A sum over a prefix of the key order grows by the next value. */
  lemma ChosenStep<K(!new), V>(m: map<K, V>, order: seq<K>, i: nat, f: V -> int)
    requires Lists(order, m.Keys) && i < |order|
    ensures SumMap(Chosen(m, order[..i + 1]), f) == SumMap(Chosen(m, order[..i]), f) + f(m[order[i]])
  {
    hide SumMap;
    var k := order[i];
    assert k in order && k !in order[..i];
    assert order[..i + 1] == order[..i] + [k];
    SumMapTake(Chosen(m, order[..i + 1]), k, f);
    assert Chosen(m, order[..i + 1]) - {k} == Chosen(m, order[..i]);
  }

  ghost function AgedAmong(s: Store, visited: seq<string>, cutoff: int): set<string> {
    set rid | rid in visited && rid in s.requests && s.requests[rid].issuedAt < cutoff
  }

  lemma AgedAmongStep(s: Store, visit: seq<string>, i: nat, cutoff: int)
    requires Lists(visit, s.requests.Keys) && i < |visit|
    ensures visit[i] in s.requests && visit[i] !in AgedAmong(s, visit[..i], cutoff)
    ensures AgedAmong(s, visit[..i + 1], cutoff) ==
      AgedAmong(s, visit[..i], cutoff) + (if s.requests[visit[i]].issuedAt < cutoff then {visit[i]} else {})
    ensures s.requests - AgedAmong(s, visit[..i], cutoff) - {visit[i]} ==
      s.requests - (AgedAmong(s, visit[..i], cutoff) + {visit[i]})
  {
    assert visit[i] in visit;
    assert visit[..i + 1] == visit[..i] + [visit[i]];
  }

  lemma AgedAmongAll(s: Store, visit: seq<string>, cutoff: int)
    requires Lists(visit, s.requests.Keys)
    ensures AgedAmong(s, visit, cutoff) == Aged(s, cutoff).Keys
    ensures |AgedAmong(s, visit, cutoff)| == |Aged(s, cutoff)|
  {
    assert AgedAmong(s, visit, cutoff) == Aged(s, cutoff).Keys;
  }

  class InMemoryStorage {
    var identities: map<string, Identity>
    var identityOrder: seq<string>
    var spentRequests: map<string, Request>
    var requestOrder: seq<string>
    var depositsByKey: map<Outpoint, Deposit>
    var depositOrder: seq<Outpoint>
    var ledger: seq<Entry>
    var cursors: map<string, Cursor>
    var nextDepositId: nat
    var nextLedgerId: nat

    ghost predicate Valid()
      reads this
    {
      && Lists(identityOrder, identities.Keys)
      && Lists(requestOrder, spentRequests.Keys)
      && Lists(depositOrder, depositsByKey.Keys)
      && nextDepositId == |depositOrder| + 1
      && nextLedgerId == |ledger| + 1
      && (forall i | 0 <= i < |depositOrder| ::
            var d := depositsByKey[depositOrder[i]];
            d.id == i + 1 && (d.txid, d.vout) == depositOrder[i])
    }

    ghost function Model(): Store
      requires Valid()
      reads this
    {
      Store(identities, spentRequests, Rows(depositsByKey, depositOrder), ledger, cursors)
    }

    constructor ()
      ensures Valid() && Model() == EMPTY && identityOrder == [] && requestOrder == []
    {
      identities, identityOrder := map[], [];
      spentRequests, requestOrder := map[], [];
      depositsByKey, depositOrder := map[], [];
      ledger, cursors := [], map[];
      nextDepositId, nextLedgerId := 1, 1;
    }

    // ---------- private helpers ----------

    /** The index of an outpoint in the deposit order is the index `FindDeposit` finds. */
    lemma Located(txid: string, vout: int)
      requires Valid()
      ensures var f := FindDeposit(Model().deposits, txid, vout);
        if (txid, vout) in depositsByKey then f.Some? && depositOrder[f.value] == (txid, vout)
        else f.None?
    {
      var ds := Model().deposits;
      var f := FindDeposit(ds, txid, vout);
      if (txid, vout) in depositsByKey {
        assert (txid, vout) in depositOrder;
        var i :| 0 <= i < |depositOrder| && depositOrder[i] == (txid, vout);
        assert ds[i] in ds;
      }
      if f.Some? {
        assert ds[f.value] == depositsByKey[depositOrder[f.value]];
        assert depositOrder[f.value] in depositOrder;
      }
    }

    method DepositById(id: int) returns (key: Option<Outpoint>)
      requires Valid()
      ensures if HasId(Model(), id) then key == Some(depositOrder[id - 1]) else key == None
    {
      var i := 0;
      while i < |depositOrder|
        invariant 0 <= i <= |depositOrder|
        invariant 1 <= id <= |depositOrder| ==> i < id
      {
        assert depositOrder[i] in depositOrder;
        if depositsByKey[depositOrder[i]].id == id {
          return Some(depositOrder[i]);
        }
        i := i + 1;
      }
      key := None;
    }

    method AppendLedger(who: string, kind: Kind, reason: Reason, amount: int, balanceAfter: int, at: int,
                        requestId: Option<string>, depositId: Option<nat>)
      requires Valid()
      modifies this`ledger, this`nextLedgerId
      ensures Valid()
      ensures ledger == old(ledger) +
        [Entry(|old(ledger)| + 1, who, kind, reason, amount, balanceAfter, at, requestId, depositId)]
    {
      ledger := ledger + [Entry(nextLedgerId, who, kind, reason, amount, balanceAfter, at, requestId, depositId)];
      nextLedgerId := nextLedgerId + 1;
    }

    /** The runtime check; false where the source throws. */
    method AssertBalanceInvariant(who: string) returns (ok: bool)
      requires Valid()
      ensures ok == Solvent(Model(), who)
    {
      if who !in identities {
        return true;
      }
      var i := |ledger|;
      assert ledger[..i] == ledger;
      while i > 0
        invariant 0 <= i <= |ledger|
        invariant LastBalance(ledger, who) == LastBalance(ledger[..i], who)
      {
        i := i - 1;
        assert ledger[..i + 1][..i] == ledger[..i];
        if ledger[i].identityId == who {
          return ledger[i].balanceAfter == identities[who].balance;
        }
      }
      ok := true;
    }

    /** Balance change and ledger row together, ending with the second check, which cannot fail. */
    method Post(who: string, amount: int, kind: Kind, reason: Reason, at: int,
                requestId: Option<string>, depositId: Option<nat>)
      requires Valid() && who in identities
      modifies this
      ensures Valid() && Model() == Move(old(Model()), who, amount, kind, reason, at, requestId, depositId)
      ensures identityOrder == old(identityOrder) && requestOrder == old(requestOrder)
      ensures depositOrder == old(depositOrder)
    {
      hide Solvent;
      identities := identities[who := identities[who].(balance := identities[who].balance + amount)];
      AppendLedger(who, kind, reason, amount, identities[who].balance, at, requestId, depositId);
      var ok := AssertBalanceInvariant(who);
      Conservation.MoveIsSolvent(old(Model()), who, amount, kind, reason, at, requestId, depositId);
      assert ok;
    }

    method PutRequest(rid: string, row: Request)
      requires Valid()
      modifies this`spentRequests, this`requestOrder
      ensures Valid() && Model() == old(Model()).(requests := old(spentRequests)[rid := row])
      ensures requestOrder == if rid in old(spentRequests) then old(requestOrder) else old(requestOrder) + [rid]
    {
      if rid !in spentRequests {
        requestOrder := requestOrder + [rid];
      }
      spentRequests := spentRequests[rid := row];
    }

    method PutDeposit(key: Outpoint, d: Deposit, ghost i: nat)
      requires Valid() && i < |depositOrder| && depositOrder[i] == key
      requires (d.txid, d.vout) == key && d.id == i + 1
      modifies this`depositsByKey
      ensures Valid() && Model() == SetDeposit(old(Model()), i, d)
    {
      assert key in depositOrder;
      depositsByKey := depositsByKey[key := d];
      assert Model().deposits == old(Model()).deposits[i := d];
    }

    // ---------- two-phase debit ----------

    method ReservePayment(input: ReserveInput) returns (r: Outcome<ReserveResult>)
      requires Valid()
      modifies this
      ensures Valid() && (Model(), r) == Reserve(old(Model()), input)
    {
      hide Solvent;
      var rid, who := input.requestId, input.identityId;
      if rid in spentRequests {
        return Done(Replay(spentRequests[rid].status));
      }
      if who !in identities {
        PutRequest(rid, RowOf(input, Insufficient));
        return Done(UnknownIdentity);
      }
      var ok := AssertBalanceInvariant(who);
      if !ok {
        return Fault;
      }
      identities := identities[who := identities[who].(lastRequestAt := Some(input.receivedAt))];
      if identities[who].balance < input.amount {
        PutRequest(rid, RowOf(input, Insufficient));
        return Done(TooPoor(identities[who].balance));
      }
      PutRequest(rid, RowOf(input, Reserved));
      Post(who, -input.amount, Debit, ReserveReason, input.receivedAt, Some(rid), None);
      r := Done(ReservedWith(identities[who].balance));
    }

    method CommitPayment(rid: string, bytes: int) returns (r: Conditional)
      requires Valid()
      modifies this
      ensures Valid() && (Model(), r) == Commit(old(Model()), rid, bytes)
    {
      if rid !in spentRequests {
        return Refused(None);
      }
      if spentRequests[rid].status != Reserved {
        return Refused(Some(spentRequests[rid].status));
      }
      PutRequest(rid, spentRequests[rid].(status := Committed, responseBytes := Some(bytes)));
      r := Applied;
    }

    method RollbackPayment(rid: string, at: int) returns (r: Outcome<Conditional>)
      requires Valid()
      modifies this
      ensures Valid() && (Model(), r) == Rollback(old(Model()), rid, at)
    {
      if rid !in spentRequests {
        return Done(Refused(None));
      }
      var row := spentRequests[rid];
      if row.status != Reserved || row.identityId !in identities {
        return Done(Refused(Some(row.status)));
      }
      var ok := AssertBalanceInvariant(row.identityId);
      if !ok {
        return Fault;
      }
      PutRequest(rid, row.(status := Errored));
      Post(row.identityId, row.amount, Refund, RollbackReason, at, Some(rid), None);
      r := Done(Applied);
    }

    method LateCommitSpent(rid: string, bytes: int, at: int) returns (r: Outcome<LateResult>)
      requires Valid()
      modifies this
      ensures Valid() && (Model(), r) == LateCommitPayment(old(Model()), rid, bytes, at)
    {
      if rid !in spentRequests {
        return Done(RefusedLate(None));
      }
      var row := spentRequests[rid];
      if row.status != Errored || row.identityId !in identities {
        return Done(RefusedLate(Some(row.status)));
      }
      var ok := AssertBalanceInvariant(row.identityId);
      if !ok {
        return Fault;
      }
      PutRequest(rid, row.(status := Committed, responseBytes := Some(bytes)));
      Post(row.identityId, -row.amount, Debit, LateCommit, at, Some(rid), None);
      r := Done(AppliedLate(identities[row.identityId].balance));
    }

    /** The reaper visits the rows in insertion order. */
    method ReapExpiredReservations(cutoff: int, at: int) returns (r: Outcome<seq<string>>)
      requires Valid()
      modifies this
      ensures Valid() && requestOrder == old(requestOrder)
      ensures (Model(), r) == Reap(old(Model()), old(requestOrder), cutoff, at)
    {
      var reaped := [];
      var i := 0;
      while i < |requestOrder|
        invariant Valid() && requestOrder == old(requestOrder) && 0 <= i <= |requestOrder|
        invariant (Model(), Done(reaped)) == Reap(old(Model()), requestOrder[..i], cutoff, at)
      {
        var rid := requestOrder[i];
        assert rid in requestOrder;
        assert requestOrder[..i + 1][..i] == requestOrder[..i];
        var row := spentRequests[rid];
        if row.status == Reserved && row.receivedAt < cutoff && row.identityId in identities {
          var ok := AssertBalanceInvariant(row.identityId);
          if !ok {
            assert Reap(old(Model()), requestOrder[..i + 1], cutoff, at) == (Model(), Fault);
            FaultSticks(old(Model()), requestOrder, i + 1, cutoff, at);
            return Fault;
          }
          PutRequest(rid, row.(status := Errored));
          Post(row.identityId, row.amount, Refund, ReaperExpired, at, Some(rid), None);
          reaped := reaped + [rid];
        }
        i := i + 1;
      }
      assert requestOrder[..i] == requestOrder;
      r := Done(reaped);
    }

    method DeleteRequest(rid: string)
      requires Valid()
      modifies this`spentRequests, this`requestOrder
      ensures Valid() && Model() == old(Model()).(requests := old(spentRequests) - {rid})
    {
      spentRequests := spentRequests - {rid};
      WithoutDistinct(requestOrder, rid);
      requestOrder := Without(requestOrder, rid);
    }

    method CleanupSpentRequests(cutoff: int) returns (removed: nat)
      requires Valid()
      modifies this
      ensures Valid() && (Model(), removed) == Cleanup(old(Model()), cutoff)
    {
      hide Rows;
      removed := 0;
      var visit, i := requestOrder, 0;
      ghost var start := Model();
      assert AgedAmong(start, visit[..0], cutoff) == {};
      while i < |visit|
        invariant Valid() && 0 <= i <= |visit|
        invariant Model() == start.(requests := start.requests - AgedAmong(start, visit[..i], cutoff))
        invariant removed == |AgedAmong(start, visit[..i], cutoff)|
      {
        var rid := visit[i];
        assert rid in visit;
        AgedAmongStep(start, visit, i, cutoff);
        if spentRequests[rid].issuedAt < cutoff {
          DeleteRequest(rid);
          removed := removed + 1;
        }
        i := i + 1;
      }
      AgedAmongAll(start, visit, cutoff);
      assert visit[..i] == visit;
    }

    method GetSpentRequest(rid: string) returns (r: Option<Request>)
      requires Valid()
      ensures r == if rid in Model().requests then Some(Model().requests[rid]) else None
    {
      r := if rid in spentRequests then Some(spentRequests[rid]) else None;
    }

    method SumReservedSats(who: string) returns (sum: int)
      requires Valid()
      ensures sum == SumMap(Model().requests, Hold(who))
    {
      sum := 0;
      var i := 0;
      assert Chosen(spentRequests, requestOrder[..0]) == map[];
      while i < |requestOrder|
        invariant 0 <= i <= |requestOrder|
        invariant sum == SumMap(Chosen(spentRequests, requestOrder[..i]), Hold(who))
      {
        ChosenStep(spentRequests, requestOrder, i, Hold(who));
        var rid := requestOrder[i];
        assert rid in requestOrder;
        if spentRequests[rid].identityId == who && spentRequests[rid].status == Reserved {
          sum := sum + spentRequests[rid].amount;
        }
        i := i + 1;
      }
      assert Chosen(spentRequests, requestOrder[..i]) == spentRequests;
    }

    method RecordBalanceQuery(input: ReserveInput) returns (r: QueryResult)
      requires Valid()
      modifies this
      ensures Valid() && (Model(), r) == RecordQuery(old(Model()), input)
    {
      var rid := input.requestId;
      if rid in spentRequests {
        return QueryReplay(spentRequests[rid].status);
      }
      PutRequest(rid, RowOf(input.(amount := 0), Committed));
      r := Recorded;
    }

    // ---------- deposits ----------

    method InsertDepositRow(input: DepositInput) returns (r: InsertResult)
      requires Valid()
      modifies this`depositsByKey, this`depositOrder, this`nextDepositId
      ensures Valid() && (Model(), r) == InsertDeposit(old(Model()), input)
      ensures r.Inserted? ==> (input.txid, input.vout) in depositsByKey
    {
      var key := (input.txid, input.vout);
      hide FindDeposit;
      Located(input.txid, input.vout);
      if key in depositsByKey {
        return Duplicate;
      }
      var d := Deposit(nextDepositId, input.identityId, input.amount, input.txid, input.vout, input.blockHeight,
                       input.blockHash, input.confirmations, input.detectedAt, None, None, input.origin, input.memo);
      nextDepositId := nextDepositId + 1;
      depositsByKey := depositsByKey[key := d];
      depositOrder := depositOrder + [key];
      assert Model().deposits == old(Model()).deposits + [d];
      r := Inserted(d);
    }

    method GetDeposit(txid: string, vout: int) returns (r: Option<Deposit>)
      requires Valid()
      ensures var f := FindDeposit(Model().deposits, txid, vout);
        r == if f.Some? then Some(Model().deposits[f.value]) else None
    {
      Located(txid, vout);
      r := if (txid, vout) in depositsByKey then Some(depositsByKey[(txid, vout)]) else None;
    }

    method RemineDeposit(txid: string, vout: int, height: int, hash: string, confirmations: int)
      returns (r: Option<Deposit>)
      requires Valid()
      modifies this
      ensures Valid() && (Model(), r) == Remine(old(Model()), txid, vout, height, hash, confirmations)
    {
      Located(txid, vout);
      var key := (txid, vout);
      if key !in depositsByKey {
        return None;
      }
      ghost var i := FindDeposit(Model().deposits, txid, vout).value;
      var d := depositsByKey[key].(blockHeight := height, blockHash := hash, confirmations := confirmations);
      d := d.(reorgedAt := None);
      d := d.(creditedAt := None);
      PutDeposit(key, d, i);
      r := Some(d);
    }

    method UpdateDepositConfirmations(id: int, confirmations: int)
      requires Valid()
      modifies this
      ensures Valid() && Model() == UpdateConfirmations(old(Model()), id, confirmations)
    {
      var key := DepositById(id);
      if key.Some? {
        assert key.value in depositOrder;
        PutDeposit(key.value, depositsByKey[key.value].(confirmations := confirmations), id - 1);
      }
    }

    method SumPendingDepositSats(who: string) returns (total: int)
      requires Valid()
      ensures total == SumSeq(Model().deposits, PendingOf(who))
    {
      total := 0;
      var i := 0;
      ghost var ds := Model().deposits;
      while i < |depositOrder|
        invariant 0 <= i <= |depositOrder|
        invariant total == SumSeq(ds[..i], PendingOf(who))
      {
        SumSeqStep(ds, i, PendingOf(who));
        assert depositOrder[i] in depositOrder;
        var d := depositsByKey[depositOrder[i]];
        if d.identityId == who && d.creditedAt.None? && d.reorgedAt.None? {
          total := total + d.amount;
        }
        i := i + 1;
      }
      assert ds[..i] == ds;
    }

    method ListUncreditedDeposits() returns (r: seq<Deposit>)
      requires Valid()
      ensures r == Uncredited(Model().deposits)
    {
      r := [];
      var i := 0;
      ghost var ds := Model().deposits;
      while i < |depositOrder|
        invariant 0 <= i <= |depositOrder|
        invariant r == Uncredited(ds[..i])
      {
        assert ds[..i + 1][..i] == ds[..i];
        assert depositOrder[i] in depositOrder;
        var d := depositsByKey[depositOrder[i]];
        if d.creditedAt.None? && d.reorgedAt.None? {
          r := r + [d];
        }
        i := i + 1;
      }
      assert ds[..i] == ds;
    }

    method ListDepositsAtOrAbove(height: int) returns (r: seq<Deposit>)
      requires Valid()
      ensures r == AtOrAbove(Model().deposits, height)
    {
      r := [];
      var i := 0;
      ghost var ds := Model().deposits;
      while i < |depositOrder|
        invariant 0 <= i <= |depositOrder|
        invariant r == AtOrAbove(ds[..i], height)
      {
        assert ds[..i + 1][..i] == ds[..i];
        assert depositOrder[i] in depositOrder;
        var d := depositsByKey[depositOrder[i]];
        if d.blockHeight >= height && d.reorgedAt.None? {
          r := r + [d];
        }
        i := i + 1;
      }
      assert ds[..i] == ds;
    }

    method CreditDeposit(id: int, at: int) returns (r: Outcome<CreditResult>)
      requires Valid()
      modifies this
      ensures Valid() && (Model(), r) == Credit(old(Model()), id, at)
    {
      var key := DepositById(id);
      if key.None? {
        return Done(NotFound);
      }
      assert key.value in depositOrder;
      var d := depositsByKey[key.value];
      if d.reorgedAt.Some? {
        return Done(WasReorged);
      }
      if d.creditedAt.Some? {
        return Done(AlreadyCredited);
      }
      var ok := AssertBalanceInvariant(d.identityId);
      if !ok {
        return Fault;
      }
      PutDeposit(key.value, d.(creditedAt := Some(at)), id - 1);
      var created := d.identityId !in identities;
      EnrolIdentity(d.identityId, at);
      Post(d.identityId, d.amount, DepositKind, DepositCredited, at, None, Some(d.id));
      r := Done(Credited(identities[d.identityId].balance, created));
    }

    method EnrolIdentity(who: string, at: int)
      requires Valid()
      modifies this`identities, this`identityOrder
      ensures Valid() && Model() == Enrol(old(Model()), who, at)
    {
      if who !in identities {
        identityOrder := identityOrder + [who];
        identities := identities[who := Identity(0, at, Some(at), None)];
      } else if identities[who].firstDepositAt.None? {
        identities := identities[who := identities[who].(firstDepositAt := Some(at))];
      }
    }

    /** The created deposit row stays behind when the credit throws. */
    method InsertAndCreditDeposit(input: DepositInput, at: int) returns (r: Outcome<MintResult>)
      requires Valid()
      modifies this
      ensures Valid() && (Model(), r) == InsertAndCredit(old(Model()), input, at)
    {
      var inserted := InsertDepositRow(input);
      if inserted.Duplicate? {
        return Done(MintDuplicate);
      }
      var credited := CreditDeposit(inserted.deposit.id, at);
      if credited.Fault? {
        return Fault;
      }
      r := Done(Minted(inserted.deposit.(creditedAt := Some(at)), credited.value.balanceAfter,
                       credited.value.identityCreated));
    }

    method MarkDepositReorged(id: int, at: int) returns (r: Outcome<MarkResult>)
      requires Valid()
      modifies this
      ensures Valid() && (Model(), r) == MarkReorged(old(Model()), id, at)
    {
      hide Solvent;
      var key := DepositById(id);
      if key.None? {
        return Done(MarkNotFound);
      }
      assert key.value in depositOrder;
      var d := depositsByKey[key.value];
      if d.reorgedAt.Some? {
        return Done(AlreadyReorged);
      }
      PutDeposit(key.value, d.(reorgedAt := Some(at)), id - 1);
      if d.creditedAt.None? || d.identityId !in identities {
        return Done(Marked(None));
      }
      var ok := AssertBalanceInvariant(d.identityId);
      if !ok {
        return Fault;
      }
      Post(d.identityId, -d.amount, ReorgAdjust, Reorg, at, None, Some(d.id));
      r := Done(Marked(Some(identities[d.identityId].balance)));
    }

    // ---------- ledger and listings ----------

    method ListIdentityIds() returns (ids: seq<string>)
      requires Valid()
      ensures Lists(ids, Model().identities.Keys) && ids == identityOrder
    {
      ids := identityOrder;
    }

    method GetIdentity(who: string) returns (r: Option<Identity>)
      requires Valid()
      ensures r == if who in Model().identities then Some(Model().identities[who]) else None
    {
      r := if who in identities then Some(identities[who]) else None;
    }

    method GetLedgerSummary(who: string) returns (r: Summary)
      requires Valid()
      ensures r.sum == LedgerSum(Model(), who)
      ensures r.latest == LastBalance(Model().ledger, who)
      ensures r.entryCount == SumSeq(Model().ledger, RowsOf(who))
    {
      var sum, latest, count, i := 0, None, 0, 0;
      while i < |ledger|
        invariant 0 <= i <= |ledger|
        invariant sum == SumSeq(ledger[..i], LedgerOf(who)) && count == SumSeq(ledger[..i], RowsOf(who))
        invariant latest == LastBalance(ledger[..i], who)
      {
        SumSeqStep(ledger, i, LedgerOf(who));
        SumSeqStep(ledger, i, RowsOf(who));
        assert ledger[..i + 1][..i] == ledger[..i];
        if ledger[i].identityId == who {
          sum := sum + ledger[i].amount;
          latest := Some(ledger[i].balanceAfter);
          count := count + 1;
        }
        i := i + 1;
      }
      assert ledger[..i] == ledger;
      r := Summary(count, sum, latest);
    }

    method GetWatcherCursor(key: string) returns (r: Option<Cursor>)
      requires Valid()
      ensures r == if key in Model().cursors then Some(Model().cursors[key]) else None
    {
      r := if key in cursors then Some(cursors[key]) else None;
    }

    method SetWatcherCursor(key: string, cursor: Cursor)
      requires Valid()
      modifies this`cursors
      ensures Valid() && Model() == old(Model()).(cursors := old(cursors)[key := cursor])
    {
      cursors := cursors[key := cursor];
    }
  }

  /** Once a reap has thrown, visiting more rows changes nothing. */
  lemma {:induction false} FaultSticks(s: Store, order: seq<string>, i: nat, cutoff: int, at: int)
    requires i <= |order| && Reap(s, order[..i], cutoff, at).1.Fault?
    ensures Reap(s, order, cutoff, at) == (Reap(s, order[..i], cutoff, at).0, Fault)
    decreases |order|
  {
    if i < |order| {
      assert order[..|order| - 1][..i] == order[..i];
      FaultSticks(s, order[..|order| - 1], i, cutoff, at);
    } else {
      assert order[..i] == order;
    }
  }
}
