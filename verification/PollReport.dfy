/** What a poll reports, against what it did. */
module PollReport {
  import opened Basics
  import opened Ledger
  import opened Conservation
  import opened Attribution
  import opened WatcherSpec
  import opened WatcherSafety
  import opened WatcherRuns
  import opened WatcherCompleteness
  import opened WatcherSystem
  import opened DeepFork
  import opened Bootstrap
  import L = ListingOrder
  import T = Tables

  // ---------- one output, one marked row, one credited row ----------

  /** The operator is among the addresses of the output. */
  predicate PaysOperator(v: View, out: Vout) {
    exists i | 0 <= i < |out.addresses| :: out.addresses[i] == v.cfg.payTo
  }

  /** What a scan does with one output of the block at `height`: nothing when it does not pay the operator or its row
      carries this very block; a row with another block is moved here; without a row a new one is inserted for the
      sender, or the output is reported with the reason why it has none. */
  lemma ScanOutDoes(p: Progress, tx: Tx, out: Vout, v: View, height: int)
    requires !p.failed && Known(v, height) && WellNumbered(p.s)
    ensures var q := ScanOut(p, tx, out, v, height);
      var hash, depth := v.chain[height].hash, |v.chain| - 1 - height;
      var recorded := T.KnownOutpoint(p.s, tx.txid, out.n);
      && !q.failed
      && (!PaysOperator(v, out) ==> q == p)
      && (forall i | PaysOperator(v, out) && 0 <= i < |p.s.deposits|
                     && p.s.deposits[i].txid == tx.txid && p.s.deposits[i].vout == out.n ::
            q == if p.s.deposits[i].blockHash == hash then p
                 else p.(s := Apply(p.s, OpRemine(tx.txid, out.n, height, hash, depth)),
                         res := p.res.(remined := p.res.remined + 1)))
      && (PaysOperator(v, out) && !recorded ==>
            match Attribute(tx, v.dir, v.cfg.chainName)
            case Unknown(reason) =>
              q == p.(res := p.res.(unattributed := p.res.unattributed + [Skipped(tx.txid, out.n, reason)]))
            case Sender(key, _) =>
              var input := DepositInput(key, out.valueSat, tx.txid, out.n, height, hash, depth, v.now, Real,
                                        Memo(v.cfg.currency, None, None));
              q == p.(s := Apply(p.s, OpInsert(input)), res := p.res.(inserted := p.res.inserted + 1)))
  {
    hide Attribute;
    T.OutpointFound(p.s, tx.txid, out.n);
    assert Pays(v, out) <==> PaysOperator(v, out);
    var f := FindDeposit(p.s.deposits, tx.txid, out.n);
    hide FindDeposit;
    forall i | 0 <= i < |p.s.deposits| && p.s.deposits[i].txid == tx.txid && p.s.deposits[i].vout == out.n
      ensures f == Some(i)
    {
      assert f.Some?;
    }
  }

  /** What marking does with one row whose block is gone: the mark, a count, the negative-balance flag when the account
      it takes the credit from ends below zero, and the alarm below the floor. */
  lemma MarkRowDoes(p: Progress, purged: seq<map<string, Request>>, row: Deposit, v: View, floor: int)
    requires !p.failed && Inv(Audit(p.s, purged)) && HasId(p.s, row.id) && p.s.deposits[row.id - 1] == row
    requires row.reorgedAt.None? && Known(v, row.blockHeight)
    ensures var q := MarkRow(p, row, v, floor);
      var left := Balance(p.s, row.identityId) - row.amount;
      if v.chain[row.blockHeight].hash == row.blockHash then q == p
      else
        q == p.(s := Apply(p.s, OpMark(row.id, v.now)),
                res := p.res.(reorged := p.res.reorged + 1, flags := p.res.flags
                  + (if row.creditedAt.Some? && left < 0 then [NegativeBalance(row.identityId, left, row.id)] else [])
                  + (if row.blockHeight < floor then [DeepReorg(row.blockHeight)] else [])))
  {
    T.MarkAnswers(Audit(p.s, purged), row.id, v.now);
    hide Inv, MarkReorged;
  }

  /** What crediting does with one waiting row: its depth is written; deep enough, it is credited and noted with the
      balance it leaves. */
  lemma CreditRowDoes(p: Progress, purged: seq<map<string, Request>>, row: Deposit, v: View)
    requires !p.failed && Inv(Audit(p.s, purged)) && HasId(p.s, row.id) && p.s.deposits[row.id - 1] == row && Waits(row)
    ensures var q := CreditRow(p, row, v);
      var depth := |v.chain| - 1 - row.blockHeight;
      var confirmed := Apply(p.s, OpConfirm(row.id, depth));
      if depth < v.cfg.minConfirmations then q == p.(s := confirmed)
      else
        q == p.(s := Apply(confirmed, OpCredit(row.id, v.now)),
                res := p.res.(credited := p.res.credited +
                  [CreditNote(row.id, row.identityId, Balance(p.s, row.identityId) + row.amount)]))
  {
    hide Inv, Credit, UpdateConfirmations;
    var depth := Tip(v) - row.blockHeight;
    ConfirmKeeps(Audit(p.s, purged), row.id, depth);
    ConfirmedRow(p.s, row.id, depth);
    ConfirmedMoney(p.s, row.id, depth);
    T.CreditAnswers(Audit(UpdateConfirmations(p.s, row.id, depth), purged), row.id, v.now);
  }

  /** Where the two passes throw: marking at a row above the tip, which changes nothing, and both at a failed solvency
      check, which leaves what the storage wrote before it; after that neither pass does anything. */
  lemma RowThrows(p: Progress, row: Deposit, rows: seq<Deposit>, v: View, floor: int)
    ensures p.failed ==> MarkRow(p, row, v, floor) == p && CreditRow(p, row, v) == p
    ensures !p.failed && !(0 <= row.blockHeight < |v.chain|) ==> MarkRow(p, row, v, floor) == p.(failed := true)
    ensures !p.failed && 0 <= row.blockHeight < |v.chain| && v.chain[row.blockHeight].hash != row.blockHash
            && MarkReorged(p.s, row.id, v.now).1.Fault? ==>
      MarkRow(p, row, v, floor) == p.(s := Apply(p.s, OpMark(row.id, v.now)), failed := true)
    ensures var depth := |v.chain| - 1 - row.blockHeight;
      var confirmed := Apply(p.s, OpConfirm(row.id, depth));
      !p.failed && depth >= v.cfg.minConfirmations && Credit(confirmed, row.id, v.now).1.Fault? ==>
        CreditRow(p, row, v) == p.(s := Apply(confirmed, OpCredit(row.id, v.now)), failed := true)
    ensures p.failed ==> MarkRows(p, rows, v, floor) == p && CreditRows(p, rows, v) == p
  {
    hide MarkReorged, Credit, UpdateConfirmations;
    if p.failed {
      ThrownStays(p, rows, v, floor);
    }
  }

  lemma {:induction false} ThrownStays(p: Progress, rows: seq<Deposit>, v: View, floor: int)
    requires p.failed
    ensures MarkRows(p, rows, v, floor) == p && CreditRows(p, rows, v) == p
  {
    if rows != [] {
      ThrownStays(p, rows[..|rows| - 1], v, floor);
    }
  }

  lemma ConfirmedMoney(s: Store, id: int, depth: int)
    requires HasId(s, id)
    ensures UpdateConfirmations(s, id, depth).identities == s.identities
    ensures Waits(UpdateConfirmations(s, id, depth).deposits[id - 1]) == Waits(s.deposits[id - 1])
  {}

  // ---------- counts ----------

  /** Rows added, and rows marked less rows brought back, since the poll began. */
  ghost predicate Counted(s: Store, p: Progress) {
    && p.res.inserted == |p.s.deposits| - |s.deposits|
    && p.res.reorged - p.res.remined ==
         SumSeq(p.s.deposits, L.IsMarked) - SumSeq(s.deposits, L.IsMarked)
  }

  lemma MarkRowsCount(s: Store, p: Progress, purged: seq<map<string, Request>>, v: View, floor: int, rows: seq<Deposit>)
    requires Counted(s, p) && !p.failed && Inv(Audit(p.s, purged)) && L.Markable(p.s.deposits, rows, v)
    ensures Counted(s, MarkRows(p, rows, v, floor))
  {
    hide Inv, SumSeq, L.SamePosts, L.Alarms, DeepStale, Remark;
    L.MarksReport(p, purged, v, floor, rows);
    L.MarkListed(p, purged, v, floor, rows);
  }

  lemma RemineCounts(p: Progress, purged: seq<map<string, Request>>, v: View, top: int, height: int, t: nat, o: nat)
    requires Sound(p, purged, v, top) && Regular(v.chain, v.dir)
    requires 1 <= height <= top < |v.chain| && t < |v.chain[height].txs| && o < |v.chain[height].txs[t].vouts|
    requires var tx := v.chain[height].txs[t];
      var f := FindDeposit(p.s.deposits, tx.txid, tx.vouts[o].n);
      f.Some? && p.s.deposits[f.value].blockHash != v.chain[height].hash
    ensures var tx := v.chain[height].txs[t];
      var t1 := Remine(p.s, tx.txid, tx.vouts[o].n, height, v.chain[height].hash, Tip(v) - height).0;
      && |t1.deposits| == |p.s.deposits|
      && SumSeq(t1.deposits, L.IsMarked) == SumSeq(p.s.deposits, L.IsMarked) - 1
  {
    var tx := v.chain[height].txs[t];
    var f := FindDeposit(p.s.deposits, tx.txid, tx.vouts[o].n);
    ExistingIsMarked(p, purged, v, top, height, t, f.value);
    hide Sound, Regular, SumSeq;
    var t1 := Remine(p.s, tx.txid, tx.vouts[o].n, height, v.chain[height].hash, Tip(v) - height).0;
    SumSeqUpdate(p.s.deposits, f.value, t1.deposits[f.value], L.IsMarked);
  }

  lemma InsertCounts(s: Store, input: DepositInput)
    requires FindDeposit(s.deposits, input.txid, input.vout).None?
    ensures var t1 := InsertDeposit(s, input).0;
      && |t1.deposits| == |s.deposits| + 1
      && SumSeq(t1.deposits, L.IsMarked) == SumSeq(s.deposits, L.IsMarked)
  {
    SumSeqAppend(s.deposits, NewDeposit(s, input), L.IsMarked);
    hide SumSeq, FindDeposit;
  }

  /** The three things a scan can do with one output. */
  lemma ScanOutCases(p: Progress, tx: Tx, out: Vout, v: View, height: int)
    requires Known(v, height)
    ensures var q := ScanOut(p, tx, out, v, height);
      var f := FindDeposit(p.s.deposits, tx.txid, out.n);
      || (q.s == p.s && q.res.inserted == p.res.inserted && q.res.remined == p.res.remined
          && q.res.reorged == p.res.reorged)
      || (f.Some? && p.s.deposits[f.value].blockHash != v.chain[height].hash
          && q.s == Remine(p.s, tx.txid, out.n, height, v.chain[height].hash, Tip(v) - height).0
          && q.res == p.res.(remined := p.res.remined + 1))
      || (exists key :: f.None? && q.s == InsertDeposit(p.s, Sighting(v, tx, out, height, key)).0
                        && q.res == p.res.(inserted := p.res.inserted + 1))
  {
    hide FindDeposit, Attribute, Remine, InsertDeposit, Sighting;
  }

  lemma ScanOutCounts(s: Store, p: Progress, purged: seq<map<string, Request>>, v: View, top: int, height: int, t: nat,
                      o: nat)
    requires Counted(s, p) && Sound(p, purged, v, top) && Regular(v.chain, v.dir)
    requires 1 <= height <= top < |v.chain| && t < |v.chain[height].txs| && o < |v.chain[height].txs[t].vouts|
    ensures Counted(s, ScanOut(p, v.chain[height].txs[t], v.chain[height].txs[t].vouts[o], v, height))
  {
    var tx := v.chain[height].txs[t];
    var out := tx.vouts[o];
    var f := FindDeposit(p.s.deposits, tx.txid, out.n);
    ScanOutCases(p, tx, out, v, height);
    hide Sound, Regular, SumSeq, FindDeposit, ScanOut, Remine, InsertDeposit;
    var q := ScanOut(p, tx, out, v, height);
    if f.Some? && p.s.deposits[f.value].blockHash != v.chain[height].hash {
      RemineCounts(p, purged, v, top, height, t, o);
    } else if key :| f.None? && q.s == InsertDeposit(p.s, Sighting(v, tx, out, height, key)).0
                     && q.res == p.res.(inserted := p.res.inserted + 1) {
      InsertCounts(p.s, Sighting(v, tx, out, height, key));
    }
  }

  lemma {:induction false} ScanOutsCount(s: Store, p: Progress, purged: seq<map<string, Request>>, v: View, top: int,
                                         height: int, t: nat, k: nat)
    requires Counted(s, p) && Sound(p, purged, v, top) && Regular(v.chain, v.dir)
    requires 1 <= height <= top < |v.chain| && t < |v.chain[height].txs| && k <= |v.chain[height].txs[t].vouts|
    ensures Counted(s, ScanOuts(p, v.chain[height].txs[t], k, v, height))
  {
    hide Sound, Regular, ScanOut, Counted;
    if k > 0 {
      ScanOutsCount(s, p, purged, v, top, height, t, k - 1);
      ScanOutsSound(p, purged, v, top, height, t, k - 1);
      ScanOutCounts(s, ScanOuts(p, v.chain[height].txs[t], k - 1, v, height), purged, v, top, height, t, k - 1);
    }
  }

  lemma {:induction false} ScanTxsCount(s: Store, p: Progress, purged: seq<map<string, Request>>, v: View, top: int,
                                        height: int, k: nat)
    requires Counted(s, p) && Sound(p, purged, v, top) && Regular(v.chain, v.dir)
    requires 1 <= height <= top < |v.chain| && k <= |v.chain[height].txs|
    ensures Counted(s, ScanTxs(p, k, v, height))
  {
    hide Sound, Regular, ScanOuts, Counted;
    if k > 0 {
      ScanTxsCount(s, p, purged, v, top, height, k - 1);
      ScanTxsSound(p, purged, v, top, height, k - 1);
      ScanOutsCount(s, ScanTxs(p, k - 1, v, height), purged, v, top, height, k - 1, |v.chain[height].txs[k - 1].vouts|);
    }
  }

  lemma {:induction false} ScanBlocksCount(s: Store, p: Progress, purged: seq<map<string, Request>>, v: View, top: int,
                                           from: int, end: int)
    requires Counted(s, p) && Sound(p, purged, v, top) && Regular(v.chain, v.dir)
    requires 1 <= from <= end <= top + 1 <= |v.chain|
    ensures Counted(s, ScanBlocks(p, v, from, end))
    decreases end - from
  {
    hide Sound, Regular, ScanTxs, Counted;
    if from < end {
      ScanBlocksCount(s, p, purged, v, top, from, end - 1);
      ScanBlocksSound(p, purged, v, top, from, end - 1);
      ScanTxsCount(s, ScanBlocks(p, v, from, end - 1), purged, v, top, end - 1, |v.chain[end - 1].txs|);
    }
  }

  lemma ScanCounts(s: Store, p: Progress, purged: seq<map<string, Request>>, v: View, cursor: Cursor, from: int)
    requires Counted(s, p) && Sensible(v.cfg) && Regular(v.chain, v.dir) && Sound(p, purged, v, cursor.lastBlock)
    requires Known(v, cursor.lastBlock)
    requires from == cursor.lastBlock + 1 || (cursor.lastBlock > 0 && from == Floor(v, cursor.lastBlock))
    ensures Counted(s, Scan(p, v, from))
  {
    hide Inv, Alien, RowSafe, Regular, ScanBlocks, Sound, SumSeq;
    var last := ScanTo(v, from);
    SoundParts(p, purged, v, cursor.lastBlock);
    if from <= last {
      HigherTop(p.s, v, cursor.lastBlock, last);
      SoundAt(p, purged, v, cursor.lastBlock, last);
      hide Counted;
      ScanBlocksCount(s, p, purged, v, last, from, last + 1);
      CountsLookAtDeposits(s, ScanBlocks(p, v, from, last + 1), Scan(p, v, from));
    }
  }

  lemma CountsLookAtDeposits(s: Store, p: Progress, q: Progress)
    requires Counted(s, p) && q.s.deposits == p.s.deposits
    requires (q.res.inserted, q.res.reorged, q.res.remined) == (p.res.inserted, p.res.reorged, p.res.remined)
    ensures Counted(s, q)
  {}

  lemma CreditRowsCount(s: Store, p: Progress, purged: seq<map<string, Request>>, v: View)
    requires Counted(s, p) && !p.failed && Inv(Audit(p.s, purged))
    ensures Counted(s, CreditRows(p, Uncredited(p.s.deposits), v))
  {
    hide Inv, CreditRows, Uncredited, SumSeq, L.Earns;
    var q := CreditRows(p, Uncredited(p.s.deposits), v);
    L.ListedAreCreditable(p.s, purged);
    L.CreditsReport(p, purged, v, Uncredited(p.s.deposits));
    assert p.s.deposits[..|p.s.deposits|] == p.s.deposits;
    CreditRowsEffect(p, purged, v, |p.s.deposits|);
    SameMarks(p.s.deposits, q.s.deposits, v);
  }

  lemma {:induction false} SameMarks(a: seq<Deposit>, b: seq<Deposit>, v: View)
    requires |a| == |b| && forall i | 0 <= i < |a| :: b[i] == Settle(v, a[i])
    ensures SumSeq(b, L.IsMarked) == SumSeq(a, L.IsMarked)
  {
    if a != [] {
      SameMarks(a[..|a| - 1], b[..|b| - 1], v);
    }
  }

  /** The figures of a poll from a stored cursor: the rows it added, and the marks it set less those it removed, are
      the counts it reports; what remains, and the lag, are the blocks between its cursor and the tip. */
  lemma AdvanceReports(p: Progress, purged: seq<map<string, Request>>, u: View, v: View, cursor: Cursor)
    requires u.cfg == v.cfg && u.dir == v.dir && Successive(u.chain, v.chain)
    requires Sensible(v.cfg) && Regular(v.chain, v.dir) && Alien(p.s, v.chain)
    requires !p.failed && Inv(Audit(p.s, purged)) && Anchor(p.s, u) && p.s.cursors[CURSOR_KEY] == cursor
    requires Known(v, cursor.lastBlock) && p.res == Blank(v)
    ensures var q := Advance(p, v, cursor);
      && Counted(p.s, q)
      && CURSOR_KEY in q.s.cursors
      && q.res.lag == q.res.remaining == |v.chain| - 1 - q.s.cursors[CURSOR_KEY].lastBlock
      && q.res.tip == |v.chain| - 1 && !q.res.bootstrapped
      && (forall n :: ScanCapped(n) in q.res.flags <==> n == q.res.lag && n > 0)
      && (forall h, floor :: ReorgDetected(h, floor) in q.res.flags <==>
            CursorLost(v, cursor) && h == cursor.lastBlock && floor == Max(1, h - v.cfg.lookback))
  {
    hide Inv, Alien, RowSafe, Regular, Safe, Scan, CreditRows, Uncredited, MarkRows, Sound, SettledUpTo, Counted,
         Anchor;
    AnchorSafe(p.s, u);
    NothingCounted(p);
    DetectSound(p, purged, u, v, cursor);
    DetectReports(p, purged, u, v, cursor);
    var (marked, from) := Detect(p, v, cursor);
    SoundParts(marked, purged, v, cursor.lastBlock);
    ScanCounts(p.s, marked, purged, v, cursor, from);
    ScanAnchors(marked, purged, v, cursor, from);
    ScanReports(marked, v, cursor, from);
    var scanned := Scan(marked, v, from);
    CreditRowsCount(p.s, scanned, purged, v);
    CreditRowsReport(scanned, purged, v);
    AdvanceReach(p, purged, u, v, cursor);
    AnchorSafe(Advance(p, v, cursor).s, v);
    CountsLookAtDeposits(p.s, CreditRows(scanned, Uncredited(scanned.s.deposits), v), Advance(p, v, cursor));
  }

  lemma AnchorSafe(s: Store, u: View)
    requires Anchor(s, u)
    ensures CURSOR_KEY in s.cursors &&
      var c := s.cursors[CURSOR_KEY];
      Known(u, c.lastBlock) && u.chain[c.lastBlock].hash == c.lastBlockHash && Safe(s, u, c.lastBlock)
  {}

  lemma NothingCounted(p: Progress)
    requires p.res.inserted == p.res.reorged == p.res.remined == 0
    ensures Counted(p.s, p)
  {}

  lemma CreditRowsReport(p: Progress, purged: seq<map<string, Request>>, v: View)
    requires !p.failed && Inv(Audit(p.s, purged))
    ensures var q := CreditRows(p, Uncredited(p.s.deposits), v);
      q.res == p.res.(credited := q.res.credited) && !q.failed
  {
    hide Inv, CreditRows, Uncredited, L.Earns;
    L.ListedAreCreditable(p.s, purged);
    L.CreditsReport(p, purged, v, Uncredited(p.s.deposits));
    L.CreditListed(p, purged, v, Uncredited(p.s.deposits));
  }

  lemma DetectReports(p: Progress, purged: seq<map<string, Request>>, u: View, v: View, cursor: Cursor)
    requires !p.failed && Inv(Audit(p.s, purged)) && Safe(p.s, u, cursor.lastBlock) && Known(v, cursor.lastBlock)
    requires p.res == Blank(v) && Counted(p.s, p)
    ensures var q := Detect(p, v, cursor).0;
      && Counted(p.s, q) && q.res == Blank(v).(reorged := q.res.reorged, flags := q.res.flags)
      && (forall n :: ScanCapped(n) !in q.res.flags)
      && (forall h, floor :: ReorgDetected(h, floor) in q.res.flags <==>
            CursorLost(v, cursor) && h == cursor.lastBlock && floor == Max(1, h - v.cfg.lookback))
  {
    hide Inv, Safe, MarkRows, AtOrAbove, L.Alarms, SumSeq;
    if CursorLost(v, cursor) {
      var floor := Floor(v, cursor.lastBlock);
      var flagged := p.(res := p.res.(flags := p.res.flags + [ReorgDetected(cursor.lastBlock, floor)]));
      var rows := AtOrAbove(p.s.deposits, 1);
      L.ListedAreMarkable(p.s, purged, u, v, cursor.lastBlock);
      L.MarksReport(flagged, purged, v, floor, rows);
      MarkRowsCount(p.s, flagged, purged, v, floor, rows);
    }
  }

  lemma ScanReports(p: Progress, v: View, cursor: Cursor, from: int)
    requires !p.failed && Known(v, cursor.lastBlock) && Sensible(v.cfg) && p.res.remaining == 0
    requires p.res == Blank(v).(reorged := p.res.reorged, flags := p.res.flags)
    requires from == cursor.lastBlock + 1 || (cursor.lastBlock > 0 && from == Floor(v, cursor.lastBlock))
    requires !Scan(p, v, from).failed
    ensures var q := Scan(p, v, from);
      && q.res.tip == |v.chain| - 1 && !q.res.bootstrapped
      && q.res.remaining == |v.chain| - 1 - Max(ScanTo(v, from), cursor.lastBlock)
      && q.res.flags == p.res.flags + (if q.res.remaining > 0 then [ScanCapped(q.res.remaining)] else [])
  {
    hide ScanBlocks;
    var last := ScanTo(v, from);
    if from <= last {
      ScanBlocksPass(p, v, from, last + 1, "");
      ScanBlocksQuiet(p, v, from, last + 1);
    }
  }

  /** A scan touches only four figures of the report. */
  ghost predicate Quiet(p: Progress, q: Progress) {
    q.res == p.res.(inserted := q.res.inserted, remined := q.res.remined, unattributed := q.res.unattributed)
  }

  lemma ScanOutQuiet(p: Progress, tx: Tx, out: Vout, v: View, height: int)
    requires Known(v, height)
    ensures Quiet(p, ScanOut(p, tx, out, v, height))
  {
    hide Attribute, FindDeposit;
  }

  lemma {:induction false} ScanOutsQuiet(p: Progress, tx: Tx, k: nat, v: View, height: int)
    requires Known(v, height) && k <= |tx.vouts|
    ensures Quiet(p, ScanOuts(p, tx, k, v, height))
  {
    hide ScanOut;
    if k > 0 {
      ScanOutsQuiet(p, tx, k - 1, v, height);
      ScanOutQuiet(ScanOuts(p, tx, k - 1, v, height), tx, tx.vouts[k - 1], v, height);
    }
  }

  lemma {:induction false} ScanTxsQuiet(p: Progress, k: nat, v: View, height: int)
    requires Known(v, height) && k <= |v.chain[height].txs|
    ensures Quiet(p, ScanTxs(p, k, v, height))
  {
    hide ScanOuts;
    if k > 0 {
      ScanTxsQuiet(p, k - 1, v, height);
      var tx := v.chain[height].txs[k - 1];
      ScanOutsQuiet(ScanTxs(p, k - 1, v, height), tx, |tx.vouts|, v, height);
    }
  }

  lemma {:induction false} ScanBlocksQuiet(p: Progress, v: View, from: int, end: int)
    requires 0 <= from <= end <= |v.chain|
    ensures Quiet(p, ScanBlocks(p, v, from, end))
    decreases end - from
  {
    hide ScanTxs;
    if from < end {
      ScanBlocksQuiet(p, v, from, end - 1);
      ScanTxsQuiet(ScanBlocks(p, v, from, end - 1), |v.chain[end - 1].txs|, v, end - 1);
    }
  }

  // ---------- one poll ----------

  /** The report of every poll that completes and does not bootstrap. */
  lemma PollReports(w: World, chain: seq<Block>, now: int, cfg: Config, dir: Directory)
    requires Sensible(cfg) && Watching(w, cfg, dir) && Allowed(w, PollOn(chain, now), cfg, dir)
    requires CURSOR_KEY in w.a.s.cursors && w.a.s.cursors[CURSOR_KEY].lastBlock < |chain|
    ensures var v := View(cfg, chain, dir, now);
      var q := Poll(w.a.s, v);
      var cursor := w.a.s.cursors[CURSOR_KEY];
      && q.res.inserted == |q.s.deposits| - |w.a.s.deposits|
      && q.res.reorged - q.res.remined ==
           SumSeq(q.s.deposits, L.IsMarked) - SumSeq(w.a.s.deposits, L.IsMarked)
      && CURSOR_KEY in q.s.cursors
      && q.res.lag == q.res.remaining == |chain| - 1 - q.s.cursors[CURSOR_KEY].lastBlock
      && q.res.tip == |chain| - 1 && !q.res.bootstrapped
      && (forall n :: ScanCapped(n) in q.res.flags <==> n == q.res.lag && n > 0)
      && (forall h, floor :: ReorgDetected(h, floor) in q.res.flags <==>
            CursorLost(v, cursor) && h == cursor.lastBlock && floor == Max(1, h - cfg.lookback))
  {
    hide Inv, Safe, Regular, HashFixes, Alien, Advance, RowSafe, SumSeq;
    var u, v := View(cfg, w.chain, dir, 0), View(cfg, chain, dir, now);
    AdvanceReports(Progress(w.a.s, Blank(v), false), w.a.purged, u, v, w.a.s.cursors[CURSOR_KEY]);
  }
}
