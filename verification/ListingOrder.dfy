/** A database lists the rows a poll marks and the rows it credits in whatever order it meets them. For one poll
    and over whole runs that order shows in the listing order of ledger rows only. */
module ListingOrder {
  import opened Basics
  import opened Ledger
  import opened Conservation
  import opened Attribution
  import opened WatcherSpec
  import opened WatcherSafety
  import opened WatcherRuns
  import opened WatcherCompleteness
  import opened WatcherSystem
  import opened Refinement
  import opened Tables

  // ---------- the ledger rows a deposit row stands for ----------

  /** Its credit and, once it is marked, the adjustment that takes the credit back, without their positions. */
  ghost function Posts(f: Entry -> int): Deposit -> int {
    (d: Deposit) =>
      if d.creditedAt.None? then 0
      else
        f(Entry(0, d.identityId, DepositKind, DepositCredited, d.amount, 0, d.creditedAt.value, None, Some(d.id))) +
        if d.reorgedAt.None? then 0
        else f(Entry(0, d.identityId, ReorgAdjust, Reorg, -d.amount, 0, d.reorgedAt.value, None, Some(d.id)))
  }

  /** What the ledger holds besides those rows. */
  ghost function Rest(s: Store, f: Entry -> int): int {
    SumSeq(s.ledger, f) - SumSeq(s.deposits, Posts(f))
  }

  ghost predicate SamePosts(s: Store, t: Store) {
    t.requests == s.requests && t.cursors == s.cursors && forall f: Entry -> int | Blind(f) :: Rest(t, f) == Rest(s, f)
  }

  /** A deposit row is rewritten, and the ledger gains the row that the rewritten row stands for in addition. */
  lemma OnePost(s: Store, t: Store, i: nat, d: Deposit, f: Entry -> int)
    requires i < |s.deposits| && t.deposits == s.deposits[i := d] && Blind(f)
    requires
      || (t.ledger == s.ledger && Posts(f)(d) == Posts(f)(s.deposits[i]))
      || (|t.ledger| == |s.ledger| + 1 && t.ledger[..|s.ledger|] == s.ledger &&
          Posts(f)(d) == Posts(f)(s.deposits[i]) + f(Strip(t.ledger[|s.ledger|])))
    ensures Rest(t, f) == Rest(s, f)
  {
    hide SumSeq, Posts;
    SumSeqUpdate(s.deposits, i, d, Posts(f));
    if t.ledger != s.ledger {
      SumSeqAppend(s.ledger, t.ledger[|s.ledger|], f);
      assert t.ledger == s.ledger + [t.ledger[|s.ledger|]];
    }
  }

  lemma MarkPosts(a: Audit, id: int, at: int)
    requires Inv(a)
    ensures var t := MarkReorged(a.s, id, at).0;
      SamePosts(a.s, t) && forall who :: Face(t, who) == Face(a.s, who)
  {
    var s, t := a.s, MarkReorged(a.s, id, at).0;
    hide SumSeq, LastBalance, Balanced;
    if HasId(s, id) && s.deposits[id - 1].reorgedAt.None? {
      var d := s.deposits[id - 1];
      InvIsSolvent(a, d.identityId);
      hide Solvent;
      forall f: Entry -> int | Blind(f) ensures Rest(t, f) == Rest(s, f) {
        hide Rest;
        OnePost(s, t, id - 1, d.(reorgedAt := Some(at)), f);
      }
    }
  }

  lemma CreditPosts(a: Audit, id: int, at: int)
    requires Inv(a) && HasId(a.s, id) && Waits(a.s.deposits[id - 1])
    ensures var t := Credit(a.s, id, at).0;
      && SamePosts(a.s, t)
      && forall who :: Face(t, who) ==
           if who == a.s.deposits[id - 1].identityId then Some(Welcome(Face(a.s, who), at)) else Face(a.s, who)
  {
    var s, t := a.s, Credit(a.s, id, at).0;
    hide SumSeq, LastBalance, Balanced;
    var d := s.deposits[id - 1];
    InvIsSolvent(a, d.identityId);
    hide Solvent;
    forall f: Entry -> int | Blind(f) ensures Rest(t, f) == Rest(s, f) {
      hide Rest;
      OnePost(s, t, id - 1, d.(creditedAt := Some(at)), f);
    }
  }

  lemma ConfirmPosts(s: Store, id: int, confirmations: int)
    ensures var t := UpdateConfirmations(s, id, confirmations);
      SamePosts(s, t) && t.identities == s.identities
  {
    var t := UpdateConfirmations(s, id, confirmations);
    if HasId(s, id) {
      forall f: Entry -> int | Blind(f) ensures Rest(t, f) == Rest(s, f) {
        OnePost(s, t, id - 1, t.deposits[id - 1], f);
      }
    }
  }

  // ---------- marking in any order ----------

  /** The rows in `rows` are marked as the chain says, the others untouched; accounts keep all but their balance. */
  ghost predicate MarkedAmong(s: Store, rows: seq<Deposit>, v: View, t: Store) {
    && |t.deposits| == |s.deposits|
    && (forall i | 0 <= i < |s.deposits| ::
          t.deposits[i] == if s.deposits[i] in rows then Remark(v, s.deposits[i]) else s.deposits[i])
    && SamePosts(s, t)
    && forall who :: Face(t, who) == Face(s, who)
  }

  ghost predicate Markable(ds: seq<Deposit>, rows: seq<Deposit>, v: View) {
    && Distinct(rows)
    && forall d | d in rows :: d in ds && d.reorgedAt.None? && d.blockHeight >= 1 && Known(v, d.blockHeight)
  }

  lemma SamePostsTrans(s: Store, t: Store, u: Store)
    requires SamePosts(s, t) && SamePosts(t, u)
    ensures SamePosts(s, u)
  {
    hide Rest, Blind;
  }

  lemma MarkRowPosts(p: Progress, purged: seq<map<string, Request>>, row: Deposit, v: View, floor: int)
    requires !p.failed && Inv(Audit(p.s, purged)) && Known(v, row.blockHeight)
    ensures var t := MarkRow(p, row, v, floor).s;
      SamePosts(p.s, t) && forall who :: Face(t, who) == Face(p.s, who)
  {
    MarkPosts(Audit(p.s, purged), row.id, v.now);
    hide Inv, MarkReorged, Face, Rest;
  }

  /** Visiting one more row. */
  lemma MarkedOneMore(s: Store, t: Store, u: Store, rows: seq<Deposit>, i: nat, v: View)
    requires MarkedAmong(s, rows, v, t) && i < |s.deposits| && s.deposits[i] !in rows
    requires forall k, l | 0 <= k < l < |s.deposits| :: s.deposits[k] != s.deposits[l]
    requires u.deposits == t.deposits[i := Remark(v, s.deposits[i])]
    requires SamePosts(t, u) && forall who :: Face(u, who) == Face(t, who)
    ensures MarkedAmong(s, rows + [s.deposits[i]], v, u)
  {
    SamePostsTrans(s, t, u);
    hide SamePosts, Remark, Face;
  }

  lemma Numbers(a: Audit)
    requires Inv(a)
    ensures forall i | 0 <= i < |a.s.deposits| :: a.s.deposits[i].id == i + 1
    ensures forall k, l | 0 <= k < l < |a.s.deposits| :: a.s.deposits[k] != a.s.deposits[l]
  {}

  lemma MarkedSpares(s: Store, rows: seq<Deposit>, v: View, t: Store, i: nat)
    requires MarkedAmong(s, rows, v, t) && i < |s.deposits| && s.deposits[i] !in rows
    ensures |t.deposits| == |s.deposits| && t.deposits[i] == s.deposits[i]
  {}

  lemma NextMark(s: Store, purged: seq<map<string, Request>>, q: Progress, rows: seq<Deposit>, i: nat, v: View,
                 floor: int)
    requires Inv(Audit(s, purged)) && !q.failed && Inv(Audit(q.s, purged)) && MarkedAmong(s, rows, v, q.s)
    requires i < |s.deposits| && s.deposits[i] !in rows
    requires var row := s.deposits[i]; row.reorgedAt.None? && row.blockHeight >= 1 && Known(v, row.blockHeight)
    ensures var q' := MarkRow(q, s.deposits[i], v, floor);
      !q'.failed && Inv(Audit(q'.s, purged)) && MarkedAmong(s, rows + [s.deposits[i]], v, q'.s)
  {
    hide Inv, MarkRow, MarkedAmong, Remark, Face, SamePosts;
    Numbers(Audit(s, purged));
    MarkedSpares(s, rows, v, q.s, i);
    MarkRowEffect(q, purged, s.deposits[i], v, floor);
    MarkRowPosts(q, purged, s.deposits[i], v, floor);
    MarkedOneMore(s, q.s, MarkRow(q, s.deposits[i], v, floor).s, rows, i, v);
  }

  lemma {:induction false} MarkListed(p: Progress, purged: seq<map<string, Request>>, v: View, floor: int,
                                      rows: seq<Deposit>)
    requires !p.failed && Inv(Audit(p.s, purged)) && Markable(p.s.deposits, rows, v)
    ensures var q := MarkRows(p, rows, v, floor);
      !q.failed && Inv(Audit(q.s, purged)) && MarkedAmong(p.s, rows, v, q.s)
  {
    hide Inv, MarkRow, Remark, Rest, Face;
    if rows != [] {
      var n := |rows| - 1;
      assert rows == rows[..n] + [rows[n]] && rows[n] in rows && rows[n] !in rows[..n];
      hide MarkedAmong;
      MarkListed(p, purged, v, floor, rows[..n]);
      var i :| 0 <= i < |p.s.deposits| && p.s.deposits[i] == rows[n];
      NextMark(p.s, purged, MarkRows(p, rows[..n], v, floor), rows[..n], i, v, floor);
    }
  }

  // ---------- crediting in any order ----------

  predicate Deep(v: View, d: Deposit) {
    Tip(v) - d.blockHeight >= v.cfg.minConfirmations
  }

  /** One of the rows credits `who`. */
  ghost predicate Paid(rows: seq<Deposit>, v: View, who: string) {
    exists d :: d in rows && Deep(v, d) && d.identityId == who
  }

  /** The rows in `rows` are settled, the others untouched; accounts are welcomed where a row credits them. */
  ghost predicate SettledAmong(s: Store, rows: seq<Deposit>, v: View, t: Store) {
    && |t.deposits| == |s.deposits|
    && (forall i | 0 <= i < |s.deposits| ::
          t.deposits[i] == if s.deposits[i] in rows then Settle(v, s.deposits[i]) else s.deposits[i])
    && SamePosts(s, t)
    && forall who :: Face(t, who) == if Paid(rows, v, who) then Some(Welcome(Face(s, who), v.now)) else Face(s, who)
  }

  ghost predicate Creditable(ds: seq<Deposit>, rows: seq<Deposit>) {
    Distinct(rows) && forall d | d in rows :: d in ds && Waits(d)
  }

  lemma CreditRowPosts(p: Progress, purged: seq<map<string, Request>>, row: Deposit, v: View)
    requires !p.failed && Inv(Audit(p.s, purged)) && HasId(p.s, row.id) && p.s.deposits[row.id - 1] == row && Waits(row)
    ensures var t := CreditRow(p, row, v).s;
      && SamePosts(p.s, t)
      && forall who :: Face(t, who) ==
           if Deep(v, row) && who == row.identityId then Some(Welcome(Face(p.s, who), v.now)) else Face(p.s, who)
  {
    hide Inv, Credit, UpdateConfirmations, Rest, SamePosts;
    var depth := Tip(v) - row.blockHeight;
    var confirmed := UpdateConfirmations(p.s, row.id, depth);
    ConfirmKeeps(Audit(p.s, purged), row.id, depth);
    ConfirmedRow(p.s, row.id, depth);
    ConfirmPosts(p.s, row.id, depth);
    if Deep(v, row) {
      CreditPosts(Audit(confirmed, purged), row.id, v.now);
      SamePostsTrans(p.s, confirmed, Credit(confirmed, row.id, v.now).0);
    }
  }

  lemma PaidNext(rows: seq<Deposit>, row: Deposit, v: View, who: string)
    ensures Paid(rows + [row], v, who) <==> Paid(rows, v, who) || (Deep(v, row) && row.identityId == who)
  {
    hide Deep;
    if Deep(v, row) && row.identityId == who {
      assert row in rows + [row];
    }
    if Paid(rows, v, who) {
      var d :| d in rows && Deep(v, d) && d.identityId == who;
      assert d in rows + [row];
    }
  }

  lemma SettledOneMore(s: Store, t: Store, u: Store, rows: seq<Deposit>, i: nat, v: View)
    requires SettledAmong(s, rows, v, t) && i < |s.deposits| && s.deposits[i] !in rows
    requires forall k, l | 0 <= k < l < |s.deposits| :: s.deposits[k] != s.deposits[l]
    requires u.deposits == t.deposits[i := Settle(v, s.deposits[i])] && SamePosts(t, u)
    requires forall who ::
      Face(u, who) ==
        if Deep(v, s.deposits[i]) && who == s.deposits[i].identityId
        then Some(Welcome(Face(t, who), v.now)) else Face(t, who)
    ensures SettledAmong(s, rows + [s.deposits[i]], v, u)
  {
    SamePostsTrans(s, t, u);
    hide SamePosts, Settle, Face, Paid, Deep;
    forall who
      ensures Face(u, who) ==
        if Paid(rows + [s.deposits[i]], v, who) then Some(Welcome(Face(s, who), v.now)) else Face(s, who)
    {
      PaidNext(rows, s.deposits[i], v, who);
    }
  }

  lemma SettledSpares(s: Store, rows: seq<Deposit>, v: View, t: Store, i: nat)
    requires SettledAmong(s, rows, v, t) && i < |s.deposits| && s.deposits[i] !in rows
    ensures |t.deposits| == |s.deposits| && t.deposits[i] == s.deposits[i]
  {}

  lemma NextCredit(s: Store, purged: seq<map<string, Request>>, q: Progress, rows: seq<Deposit>, i: nat, v: View)
    requires Inv(Audit(s, purged)) && !q.failed && Inv(Audit(q.s, purged)) && SettledAmong(s, rows, v, q.s)
    requires i < |s.deposits| && s.deposits[i] !in rows && Waits(s.deposits[i])
    ensures var q' := CreditRow(q, s.deposits[i], v);
      !q'.failed && Inv(Audit(q'.s, purged)) && SettledAmong(s, rows + [s.deposits[i]], v, q'.s)
  {
    hide Inv, CreditRow, SettledAmong, Settle, Face, SamePosts;
    Numbers(Audit(s, purged));
    SettledSpares(s, rows, v, q.s, i);
    CreditRowEffect(q, purged, s.deposits[i], v);
    CreditRowPosts(q, purged, s.deposits[i], v);
    SettledOneMore(s, q.s, CreditRow(q, s.deposits[i], v).s, rows, i, v);
  }

  lemma {:induction false} CreditListed(p: Progress, purged: seq<map<string, Request>>, v: View, rows: seq<Deposit>)
    requires !p.failed && Inv(Audit(p.s, purged)) && Creditable(p.s.deposits, rows)
    ensures var q := CreditRows(p, rows, v);
      !q.failed && Inv(Audit(q.s, purged)) && SettledAmong(p.s, rows, v, q.s)
  {
    hide Inv, CreditRow, Settle, Rest, Face;
    if rows != [] {
      var n := |rows| - 1;
      assert rows == rows[..n] + [rows[n]] && rows[n] in rows && rows[n] !in rows[..n];
      hide SettledAmong;
      CreditListed(p, purged, v, rows[..n]);
      var i :| 0 <= i < |p.s.deposits| && p.s.deposits[i] == rows[n];
      NextCredit(p.s, purged, CreditRows(p, rows[..n], v), rows[..n], i, v);
    }
  }

  // ---------- two orders ----------

  /** Passes that rewrite the deposits alike and post what the rows say end in agreeing states. */
  lemma SameEnds(s: Store, t: Store, a: Audit, b: Audit)
    requires Agree(s, t) && SamePosts(s, a.s) && SamePosts(t, b.s) && Inv(a) && Inv(b)
    requires a.s.deposits == b.s.deposits && forall who :: Face(a.s, who) == Face(b.s, who)
    ensures Agree(a.s, b.s)
  {
    hide Inv;
    forall f: Entry -> int | Blind(f) ensures SumSeq(a.s.ledger, f) == SumSeq(b.s.ledger, f) {
      assert Rest(a.s, f) == Rest(s, f) == Rest(t, f) == Rest(b.s, f);
    }
    forall who ensures LedgerSum(a.s, who) == LedgerSum(b.s, who) {
      assert Blind(LedgerOf(who));
    }
    FacesMatch(a.s, b.s);
    BooksFixBalances(a, b);
  }

  lemma FacesMatch(s: Store, t: Store)
    requires s.deposits == t.deposits && s.cursors == t.cursors && forall who :: Face(s, who) == Face(t, who)
    ensures OnlyBalancesMoved(s, t)
  {
    assert forall who :: who in s.identities <==> Face(s, who).Some?;
    assert forall who :: who in t.identities <==> Face(t, who).Some?;
  }

  // ---------- what the two passes report ----------

  ghost predicate Noted(notes: seq<CreditNote>, id: nat, who: string) {
    exists n | n in notes :: n.depositId == id && n.identityId == who
  }

  /** The same report, but for running balances and the order of notes and flags. */
  ghost predicate SameReport(r: PollResult, q: PollResult) {
    && q == r.(credited := q.credited, flags := q.flags)
    && (forall id, who :: Noted(r.credited, id, who) <==> Noted(q.credited, id, who))
    && (forall f: Flag | !f.NegativeBalance? :: f in r.flags <==> f in q.flags)
  }

  function IsMarked(d: Deposit): int {
    if d.reorgedAt.Some? then 1 else 0
  }

  /** The reorg count less the marked rows does not change, and the alarms are those of the rows. */
  ghost predicate MarksReported(p: Progress, rows: seq<Deposit>, v: View, floor: int, q: Progress) {
    && q.res == p.res.(reorged := q.res.reorged, flags := q.res.flags)
    && q.res.reorged - SumSeq(q.s.deposits, IsMarked) == p.res.reorged - SumSeq(p.s.deposits, IsMarked)
    && (forall f: Flag | !f.NegativeBalance? ::
          f in q.res.flags <==> f in p.res.flags || (f.DeepReorg? && Alarms(rows, v, floor, f.height)))
  }

  ghost predicate Alarms(rows: seq<Deposit>, v: View, floor: int, h: int) {
    exists d | d in rows :: DeepStale(v, floor, d) && d.blockHeight == h
  }

  lemma AlarmsNext(rows: seq<Deposit>, row: Deposit, v: View, floor: int, h: int)
    ensures Alarms(rows + [row], v, floor, h) <==>
      Alarms(rows, v, floor, h) || (DeepStale(v, floor, row) && row.blockHeight == h)
  {
    hide DeepStale;
    assert forall d :: d in rows + [row] <==> d in rows || d == row;
  }

  lemma MarkRowReports(p: Progress, purged: seq<map<string, Request>>, row: Deposit, v: View, floor: int)
    requires !p.failed && Inv(Audit(p.s, purged)) && HasId(p.s, row.id) && p.s.deposits[row.id - 1] == row
    requires row.reorgedAt.None? && row.blockHeight >= 1 && Known(v, row.blockHeight)
    ensures var q := MarkRow(p, row, v, floor);
      && q.res == p.res.(reorged := q.res.reorged, flags := q.res.flags)
      && q.res.reorged - SumSeq(q.s.deposits, IsMarked) == p.res.reorged - SumSeq(p.s.deposits, IsMarked)
      && (forall f: Flag | !f.NegativeBalance? :: f in q.res.flags <==>
            f in p.res.flags || (f.DeepReorg? && DeepStale(v, floor, row) && row.blockHeight == f.height))
  {
    hide Inv, SumSeq, DeepStale;
    MarkRowEffect(p, purged, row, v, floor);
    SumSeqUpdate(p.s.deposits, row.id - 1, Remark(v, row), IsMarked);
    forall h ensures DeepReorg(h) in MarkRow(p, row, v, floor).res.flags <==>
      DeepReorg(h) in p.res.flags || (DeepStale(v, floor, row) && row.blockHeight == h)
    {
      MarkRowFlags(p, purged, row, v, floor, h);
    }
    hide Solvent;
  }

  lemma MarksReportedNext(p: Progress, rows: seq<Deposit>, row: Deposit, v: View, floor: int, q: Progress, q': Progress)
    requires MarksReported(p, rows, v, floor, q)
    requires q'.res == q.res.(reorged := q'.res.reorged, flags := q'.res.flags)
    requires q'.res.reorged - SumSeq(q'.s.deposits, IsMarked) == q.res.reorged - SumSeq(q.s.deposits, IsMarked)
    requires forall f: Flag | !f.NegativeBalance? :: f in q'.res.flags <==>
      f in q.res.flags || (f.DeepReorg? && DeepStale(v, floor, row) && row.blockHeight == f.height)
    ensures MarksReported(p, rows + [row], v, floor, q')
  {
    hide SumSeq, Alarms, DeepStale;
    forall f: Flag | f.DeepReorg?
      ensures Alarms(rows + [row], v, floor, f.height) <==>
        Alarms(rows, v, floor, f.height) || (DeepStale(v, floor, row) && row.blockHeight == f.height)
    {
      AlarmsNext(rows, row, v, floor, f.height);
    }
  }

  lemma {:induction false} MarksReport(p: Progress, purged: seq<map<string, Request>>, v: View, floor: int,
                                       rows: seq<Deposit>)
    requires !p.failed && Inv(Audit(p.s, purged)) && Markable(p.s.deposits, rows, v)
    ensures MarksReported(p, rows, v, floor, MarkRows(p, rows, v, floor))
  {
    hide Inv, MarkRow, DeepStale, SumSeq, MarkedAmong;
    if rows != [] {
      var n := |rows| - 1;
      assert rows == rows[..n] + [rows[n]] && rows[n] in rows && rows[n] !in rows[..n];
      hide MarksReported;
      MarksReport(p, purged, v, floor, rows[..n]);
      MarkListed(p, purged, v, floor, rows[..n]);
      Numbers(Audit(p.s, purged));
      var i :| 0 <= i < |p.s.deposits| && p.s.deposits[i] == rows[n];
      var q := MarkRows(p, rows[..n], v, floor);
      MarkedSpares(p.s, rows[..n], v, q.s, i);
      MarkRowReports(q, purged, rows[n], v, floor);
      MarksReportedNext(p, rows[..n], rows[n], v, floor, q, MarkRow(q, rows[n], v, floor));
    }
  }

  /** The notes are those of the deep rows. */
  ghost predicate CreditsReported(p: Progress, rows: seq<Deposit>, v: View, q: Progress) {
    && q.res == p.res.(credited := q.res.credited)
    && (forall id, who :: Noted(q.res.credited, id, who) <==> Noted(p.res.credited, id, who) || Earns(rows, v, id, who))
  }

  ghost predicate Earns(rows: seq<Deposit>, v: View, id: nat, who: string) {
    exists d | d in rows :: Deep(v, d) && d.id == id && d.identityId == who
  }

  lemma CreditRowReports(p: Progress, purged: seq<map<string, Request>>, row: Deposit, v: View)
    requires !p.failed && Inv(Audit(p.s, purged)) && HasId(p.s, row.id) && p.s.deposits[row.id - 1] == row && Waits(row)
    ensures var q := CreditRow(p, row, v);
      && q.res == p.res.(credited := q.res.credited)
      && (forall id, who :: Noted(q.res.credited, id, who) <==>
            Noted(p.res.credited, id, who) || (Deep(v, row) && row.id == id && row.identityId == who))
  {
    hide Inv, Solvent;
    var depth := Tip(v) - row.blockHeight;
    var confirmed := UpdateConfirmations(p.s, row.id, depth);
    ConfirmKeeps(Audit(p.s, purged), row.id, depth);
    CreditKeeps(Audit(confirmed, purged), row.id, v.now);
    if Deep(v, row) {
      var r := Credit(confirmed, row.id, v.now).1;
      assert r.value.Credited?;
      hide Credit, UpdateConfirmations;
      var note := CreditNote(row.id, row.identityId, r.value.balanceAfter);
      assert CreditRow(p, row, v).res == p.res.(credited := p.res.credited + [note]);
      assert forall n :: n in p.res.credited + [note] <==> n in p.res.credited || n == note;
    }
  }

  lemma EarnsNext(rows: seq<Deposit>, row: Deposit, v: View, id: nat, who: string)
    ensures Earns(rows + [row], v, id, who) <==>
      Earns(rows, v, id, who) || (Deep(v, row) && row.id == id && row.identityId == who)
  {
    hide Deep;
    assert forall d :: d in rows + [row] <==> d in rows || d == row;
  }

  lemma CreditsReportedNext(p: Progress, rows: seq<Deposit>, row: Deposit, v: View, q: Progress, q': Progress)
    requires CreditsReported(p, rows, v, q) && q'.res == q.res.(credited := q'.res.credited)
    requires forall id, who :: Noted(q'.res.credited, id, who) <==>
      Noted(q.res.credited, id, who) || (Deep(v, row) && row.id == id && row.identityId == who)
    ensures CreditsReported(p, rows + [row], v, q')
  {
    hide Noted, Earns, Deep;
    forall id: nat, who
      ensures Earns(rows + [row], v, id, who) <==>
        Earns(rows, v, id, who) || (Deep(v, row) && row.id == id && row.identityId == who)
    {
      EarnsNext(rows, row, v, id, who);
    }
  }

  lemma {:induction false} CreditsReport(p: Progress, purged: seq<map<string, Request>>, v: View, rows: seq<Deposit>)
    requires !p.failed && Inv(Audit(p.s, purged)) && Creditable(p.s.deposits, rows)
    ensures CreditsReported(p, rows, v, CreditRows(p, rows, v))
  {
    hide Inv, CreditRow, Deep, SettledAmong, Noted;
    if rows != [] {
      var n := |rows| - 1;
      assert rows == rows[..n] + [rows[n]] && rows[n] in rows && rows[n] !in rows[..n];
      hide CreditsReported;
      CreditsReport(p, purged, v, rows[..n]);
      CreditListed(p, purged, v, rows[..n]);
      Numbers(Audit(p.s, purged));
      var i :| 0 <= i < |p.s.deposits| && p.s.deposits[i] == rows[n];
      var q := CreditRows(p, rows[..n], v);
      SettledSpares(p.s, rows[..n], v, q.s, i);
      CreditRowReports(q, purged, rows[n], v);
      CreditsReportedNext(p, rows[..n], rows[n], v, q, CreditRow(q, rows[n], v));
    }
  }

  /** Marking the same rows in two orders, on agreeing states. */
  lemma MarkOrderIrrelevant(p: Progress, q: Progress, a: seq<map<string, Request>>, b: seq<map<string, Request>>,
                            v: View, floor: int, rows: seq<Deposit>, other: seq<Deposit>)
    requires !p.failed && !q.failed && Inv(Audit(p.s, a)) && Inv(Audit(q.s, b)) && Agree(p.s, q.s)
    requires Markable(p.s.deposits, rows, v) && Reorders(other, rows) && SameReport(p.res, q.res)
    ensures var m, n := MarkRows(p, rows, v, floor), MarkRows(q, other, v, floor);
      !m.failed && !n.failed && Agree(m.s, n.s) && Inv(Audit(n.s, b)) && SameReport(m.res, n.res)
  {
    hide Inv, MarkRows, Remark, SamePosts, Face, SameReport, MarksReported;
    MarksReport(p, a, v, floor, rows);
    MarksReport(q, b, v, floor, other);
    MarkListed(p, a, v, floor, rows);
    MarkListed(q, b, v, floor, other);
    AgreeFaces(p.s, q.s);
    var m, n := MarkRows(p, rows, v, floor), MarkRows(q, other, v, floor);
    SameEnds(p.s, q.s, Audit(m.s, a), Audit(n.s, b));
    SameMarkReports(p, q, v, floor, rows, other, m, n);
  }

  lemma SameMarkReports(p: Progress, q: Progress, v: View, floor: int, rows: seq<Deposit>, other: seq<Deposit>,
                        m: Progress, n: Progress)
    requires SameReport(p.res, q.res) && Reorders(other, rows)
    requires MarksReported(p, rows, v, floor, m) && MarksReported(q, other, v, floor, n)
    requires p.s.deposits == q.s.deposits && m.s.deposits == n.s.deposits
    ensures SameReport(m.res, n.res)
  {
    hide SumSeq, DeepStale;
    assert forall h :: Alarms(rows, v, floor, h) <==> Alarms(other, v, floor, h);
  }

  lemma SameCreditReports(p: Progress, q: Progress, v: View, rows: seq<Deposit>, other: seq<Deposit>,
                          m: Progress, n: Progress)
    requires SameReport(p.res, q.res) && Reorders(other, rows)
    requires CreditsReported(p, rows, v, m) && CreditsReported(q, other, v, n)
    ensures SameReport(m.res, n.res)
  {
    hide Noted, Deep;
    assert forall id, who :: Earns(rows, v, id, who) <==> Earns(other, v, id, who);
  }

  lemma AgreeFaces(s: Store, t: Store)
    requires Agree(s, t)
    ensures forall who :: Face(s, who) == Face(t, who)
  {}

  /** Crediting the same rows in two orders, on agreeing states. */
  lemma CreditOrderIrrelevant(p: Progress, q: Progress, a: seq<map<string, Request>>, b: seq<map<string, Request>>,
                              v: View, rows: seq<Deposit>, other: seq<Deposit>)
    requires !p.failed && !q.failed && Inv(Audit(p.s, a)) && Inv(Audit(q.s, b)) && Agree(p.s, q.s)
    requires Creditable(p.s.deposits, rows) && Reorders(other, rows) && SameReport(p.res, q.res)
    ensures var m, n := CreditRows(p, rows, v), CreditRows(q, other, v);
      !m.failed && !n.failed && Agree(m.s, n.s) && Inv(Audit(n.s, b)) && SameReport(m.res, n.res)
  {
    hide Inv, CreditRows, Settle, SamePosts, Face, Deep, SameReport, CreditsReported;
    CreditsReport(p, a, v, rows);
    CreditsReport(q, b, v, other);
    CreditListed(p, a, v, rows);
    CreditListed(q, b, v, other);
    AgreeFaces(p.s, q.s);
    var m, n := CreditRows(p, rows, v), CreditRows(q, other, v);
    forall who ensures Paid(rows, v, who) <==> Paid(other, v, who) {}
    SameEnds(p.s, q.s, Audit(m.s, a), Audit(n.s, b));
    SameCreditReports(p, q, v, rows, other, m, n);
  }

  // ---------- one poll ----------

  /** The orders in which one poll meets the rows to mark and the rows to credit. */
  datatype Listing = Listing(marks: seq<Deposit>, credits: seq<Deposit>)

  /** The cursor check and the scan, with the rows to mark met in the given order. */
  ghost function Scanned(p: Progress, v: View, cursor: Cursor, marks: seq<Deposit>): Progress {
    if CursorLost(v, cursor) then
      var floor := Floor(v, cursor.lastBlock);
      var flagged := p.(res := p.res.(flags := p.res.flags + [ReorgDetected(cursor.lastBlock, floor)]));
      Scan(MarkRows(flagged, marks, v, floor), v, floor)
    else
      var (q, from) := Detect(p, v, cursor);
      Scan(q, v, from)
  }

  ghost function AdvanceListed(p: Progress, v: View, cursor: Cursor, l: Listing): Progress {
    var scanned := Scanned(p, v, cursor, l.marks);
    if scanned.failed then scanned
    else
      var credited := CreditRows(scanned, l.credits, v);
      if credited.failed then credited
      else credited.(res := credited.res.(lag := Tip(v) - Max(ScanTo(v, Detect(p, v, cursor).1), cursor.lastBlock)))
  }

  /** The listing is one the queries can return: the right rows, once each. */
  ghost predicate Listable(p: Progress, v: View, cursor: Cursor, l: Listing) {
    && Reorders(l.marks, AtOrAbove(p.s.deposits, 1))
    && Reorders(l.credits, Uncredited(Scanned(p, v, cursor, l.marks).s.deposits))
  }

  lemma OwnOrder(p: Progress, v: View, cursor: Cursor)
    ensures var l := Listing(AtOrAbove(p.s.deposits, 1),
                             Uncredited(Scanned(p, v, cursor, AtOrAbove(p.s.deposits, 1)).s.deposits));
      AdvanceListed(p, v, cursor, l) == Advance(p, v, cursor)
  {
    hide Scan, MarkRows, AtOrAbove, CreditRows, Uncredited;
  }

  // ---------- scanning does not look at the ledger ----------

  /** The same progress but for the ledgers, which are `l` and `m`. */
  ghost predicate InStep(p: Progress, q: Progress, l: seq<Entry>, m: seq<Entry>) {
    q.failed == p.failed && p.s.ledger == l && q.s == p.s.(ledger := m) && SameReport(p.res, q.res)
  }

  lemma ScanOutInStep(p: Progress, q: Progress, l: seq<Entry>, m: seq<Entry>, tx: Tx, out: Vout, v: View, height: int)
    requires Known(v, height) && InStep(p, q, l, m)
    ensures InStep(ScanOut(p, tx, out, v, height), ScanOut(q, tx, out, v, height), l, m)
  {
    hide Attribute, FindDeposit;
  }

  lemma {:induction false} ScanOutsInStep(p: Progress, q: Progress, l: seq<Entry>, m: seq<Entry>, tx: Tx, k: nat,
                                          v: View, height: int)
    requires Known(v, height) && k <= |tx.vouts| && InStep(p, q, l, m)
    ensures InStep(ScanOuts(p, tx, k, v, height), ScanOuts(q, tx, k, v, height), l, m)
  {
    hide InStep, ScanOut;
    if k > 0 {
      ScanOutsInStep(p, q, l, m, tx, k - 1, v, height);
      ScanOutInStep(ScanOuts(p, tx, k - 1, v, height), ScanOuts(q, tx, k - 1, v, height), l, m, tx, tx.vouts[k - 1], v,
                    height);
    }
  }

  lemma {:induction false} ScanTxsInStep(p: Progress, q: Progress, l: seq<Entry>, m: seq<Entry>, k: nat, v: View,
                                         height: int)
    requires Known(v, height) && k <= |v.chain[height].txs| && InStep(p, q, l, m)
    ensures InStep(ScanTxs(p, k, v, height), ScanTxs(q, k, v, height), l, m)
  {
    hide InStep, ScanOuts;
    if k > 0 {
      ScanTxsInStep(p, q, l, m, k - 1, v, height);
      var tx := v.chain[height].txs[k - 1];
      ScanOutsInStep(ScanTxs(p, k - 1, v, height), ScanTxs(q, k - 1, v, height), l, m, tx, |tx.vouts|, v, height);
    }
  }

  lemma {:induction false} ScanBlocksInStep(p: Progress, q: Progress, l: seq<Entry>, m: seq<Entry>, v: View, from: int,
                                            end: int)
    requires 0 <= from <= end <= |v.chain| && InStep(p, q, l, m)
    ensures InStep(ScanBlocks(p, v, from, end), ScanBlocks(q, v, from, end), l, m)
    decreases end - from
  {
    hide InStep, ScanTxs;
    if from < end {
      ScanBlocksInStep(p, q, l, m, v, from, end - 1);
      ScanTxsInStep(ScanBlocks(p, v, from, end - 1), ScanBlocks(q, v, from, end - 1), l, m,
                    |v.chain[end - 1].txs|, v, end - 1);
    }
  }

  lemma ScanAgrees(p: Progress, q: Progress, v: View, from: int)
    requires p.failed == q.failed && Agree(p.s, q.s) && SameReport(p.res, q.res)
    ensures var m, n := Scan(p, v, from), Scan(q, v, from);
      m.failed == n.failed && Agree(m.s, n.s) && SameReport(m.res, n.res)
  {
    hide SameRows, ScanBlocks;
    var last := ScanTo(v, from);
    if !p.failed && 0 <= from <= last {
      ScanBlocksInStep(p, q, p.s.ledger, q.s.ledger, v, from, last + 1);
    }
  }

  // ---------- one poll in two orders ----------

  lemma AgreeSound(p: Progress, q: Progress, a: seq<map<string, Request>>, b: seq<map<string, Request>>, v: View,
                   top: int)
    requires Sound(p, a, v, top) && Agree(p.s, q.s) && !q.failed && Inv(Audit(q.s, b))
    ensures Sound(q, b, v, top) && q.s.cursors == p.s.cursors && q.s.deposits == p.s.deposits
  {
    hide Inv, RowSafe, HasTx, SameRows;
  }

  /** The rows the reorg query lists can all be marked. */
  lemma ListedAreMarkable(s: Store, purged: seq<map<string, Request>>, v: View, w: View, top: int)
    requires Inv(Audit(s, purged)) && Safe(s, v, top) && top < |w.chain|
    ensures Markable(s.deposits, AtOrAbove(s.deposits, 1), w)
  {
    hide RowSafe, AtOrAbove, Balanced;
    AtOrAboveSelects(s.deposits, 1);
    ListedOnce(s.deposits, 1);
    forall d | d in AtOrAbove(s.deposits, 1) ensures Known(w, d.blockHeight) {
      assert RowSafe(v, top, d);
      RowSafeBounds(v, top, d);
    }
  }

  lemma ListedAreCreditable(s: Store, purged: seq<map<string, Request>>)
    requires Inv(Audit(s, purged))
    ensures Creditable(s.deposits, Uncredited(s.deposits))
  {
    hide Uncredited, Balanced;
    UncreditedSelects(s.deposits);
    ListedOnce(s.deposits, 1);
  }

  /** Up to the end of the scan. */
  lemma ScannedAgrees(p: Progress, q: Progress, a: seq<map<string, Request>>, b: seq<map<string, Request>>, v: View,
                      w: View, cursor: Cursor, marks: seq<Deposit>)
    requires v.cfg == w.cfg && v.dir == w.dir && Successive(v.chain, w.chain)
    requires Sensible(w.cfg) && Regular(w.chain, w.dir) && Alien(p.s, w.chain)
    requires !p.failed && Inv(Audit(p.s, a)) && Anchor(p.s, v) && p.s.cursors[CURSOR_KEY] == cursor
    requires !q.failed && Inv(Audit(q.s, b)) && Agree(p.s, q.s) && Reorders(marks, AtOrAbove(q.s.deposits, 1))
    requires SameReport(p.res, q.res)
    ensures var (marked, from) := Detect(p, w, cursor);
      var m, n := Scan(marked, w, from), Scanned(q, w, cursor, marks);
      && m.failed == n.failed == !Known(w, cursor.lastBlock) && Agree(m.s, n.s) && SameReport(m.res, n.res)
      && Inv(Audit(m.s, a)) && Inv(Audit(n.s, b))
  {
    hide Inv, Alien, RowSafe, Regular, Safe, Scan, MarkRows, Sound, Agree, Markable, AtOrAbove, Reorders;
    var top := cursor.lastBlock;
    DetectSound(p, a, v, w, cursor);
    var (marked, from) := Detect(p, w, cursor);
    AgreeParts(p.s, q.s);
    if !Known(w, top) {
      ScanFailed(marked, w, from);
      ScanFailed(Detect(q, w, cursor).0, w, from);
    } else {
      var other := Detect(q, w, cursor).0;
      if CursorLost(w, cursor) {
        var floor := Floor(w, top);
        var note := [ReorgDetected(top, floor)];
        var p1, q1 := p.(res := p.res.(flags := p.res.flags + note)), q.(res := q.res.(flags := q.res.flags + note));
        SameReportFlagged(p.res, q.res, note);
        ListedAreMarkable(p.s, a, v, w, top);
        MarkOrderIrrelevant(p1, q1, a, b, w, floor, AtOrAbove(p.s.deposits, 1), marks);
        other := MarkRows(q1, marks, w, floor);
      }
      AgreeSound(marked, other, a, b, w, top);
      ScanAgrees(marked, other, w, from);
      ScanAnchors(marked, a, w, cursor, from);
      ScanAnchors(other, b, w, cursor, from);
    }
  }

  lemma SameReportFlagged(r: PollResult, q: PollResult, note: seq<Flag>)
    requires SameReport(r, q)
    ensures SameReport(r.(flags := r.flags + note), q.(flags := q.flags + note))
  {}

  lemma SameStart(p: Progress, q: Progress, v: View, cursor: Cursor)
    ensures Detect(p, v, cursor).1 == Detect(q, v, cursor).1
  {
    hide MarkRows, AtOrAbove;
  }

  lemma AgreeParts(s: Store, t: Store)
    requires Agree(s, t)
    ensures t.deposits == s.deposits && t.cursors == s.cursors
  {}

  lemma AdvanceAgrees(p: Progress, q: Progress, a: seq<map<string, Request>>, b: seq<map<string, Request>>, v: View,
                      w: View, cursor: Cursor, l: Listing)
    requires v.cfg == w.cfg && v.dir == w.dir && Successive(v.chain, w.chain)
    requires Sensible(w.cfg) && Regular(w.chain, w.dir) && Alien(p.s, w.chain)
    requires !p.failed && Inv(Audit(p.s, a)) && Anchor(p.s, v) && p.s.cursors[CURSOR_KEY] == cursor
    requires !q.failed && Inv(Audit(q.s, b)) && Agree(p.s, q.s) && Listable(q, w, cursor, l)
    requires SameReport(p.res, q.res)
    ensures var m, n := Advance(p, w, cursor), AdvanceListed(q, w, cursor, l);
      m.failed == n.failed && Agree(m.s, n.s) && Inv(Audit(n.s, b)) && SameReport(m.res, n.res)
  {
    hide Inv, Alien, Anchor, Regular, Scan, Detect, Scanned, CreditRows, Uncredited, Agree, Creditable, AtOrAbove,
         Reorders;
    ScannedAgrees(p, q, a, b, v, w, cursor, l.marks);
    var (marked, from) := Detect(p, w, cursor);
    var m, n := Scan(marked, w, from), Scanned(q, w, cursor, l.marks);
    AgreeParts(m.s, n.s);
    SameStart(p, q, w, cursor);
    if !m.failed {
      ListedAreCreditable(m.s, a);
      CreditOrderIrrelevant(m, n, a, b, w, Uncredited(m.s.deposits), l.credits);
    }
  }

  /** The store with the cursor placed just below the first height to scan. */
  function Placed(s: Store, v: View, height: int): Progress
    requires Known(v, height)
  {
    Progress(SetCursor(s, v, height), Blank(v), false)
  }

  /** `Poll`, with its listings in the given orders. A poll that stops at the cursor lists nothing. */
  ghost function PollListed(s: Store, v: View, l: Listing): Progress {
    if CURSOR_KEY in s.cursors then AdvanceListed(Progress(s, Blank(v), false), v, s.cursors[CURSOR_KEY], l)
    else if v.cfg.startHeight.None? || !Known(v, v.cfg.startHeight.value - 1) then Poll(s, v)
    else
      var p := Placed(s, v, v.cfg.startHeight.value - 1);
      AdvanceListed(p, v, p.s.cursors[CURSOR_KEY], l)
  }

  ghost predicate PollLists(s: Store, v: View, l: Listing) {
    if CURSOR_KEY in s.cursors then Listable(Progress(s, Blank(v), false), v, s.cursors[CURSOR_KEY], l)
    else
      v.cfg.startHeight.Some? && Known(v, v.cfg.startHeight.value - 1) ==>
        var p := Placed(s, v, v.cfg.startHeight.value - 1);
        Listable(p, v, p.s.cursors[CURSOR_KEY], l)
  }

  lemma CursorsAgree(s: Store, t: Store, cursors: map<string, Cursor>)
    requires Agree(s, t)
    ensures Agree(s.(cursors := cursors), t.(cursors := cursors))
  {
    hide SameRows;
  }

  /** One poll on agreeing stores, whatever orders the second one lists its rows in: both complete or both throw,
      the stores agree again, and the reports are the same but for running balances. */
  lemma PollAgrees(w: World, t: Audit, chain: seq<Block>, now: int, cfg: Config, dir: Directory, l: Listing)
    requires Sensible(cfg) && Watching(w, cfg, dir) && Allowed(w, PollOn(chain, now), cfg, dir)
    requires Agree(w.a.s, t.s) && Inv(t) && PollLists(t.s, View(cfg, chain, dir, now), l)
    ensures var p, q := Poll(w.a.s, View(cfg, chain, dir, now)), PollListed(t.s, View(cfg, chain, dir, now), l);
      p.failed == q.failed && Agree(p.s, q.s) && Inv(Audit(q.s, t.purged)) && SameReport(p.res, q.res)
  {
    hide Inv, Safe, Regular, HashFixes, Alien, Advance, AdvanceListed, RowSafe, Agree, Listable;
    var u, v := View(cfg, w.chain, dir, 0), View(cfg, chain, dir, now);
    var s := w.a.s;
    AgreeParts(s, t.s);
    var p, q := Progress(s, Blank(v), false), Progress(t.s, Blank(v), false);
    if CURSOR_KEY in s.cursors {
      AdvanceAgrees(p, q, w.a.purged, t.purged, u, v, s.cursors[CURSOR_KEY], l);
    } else if Completes(s, v) {
      var height := if cfg.startHeight.Some? then cfg.startHeight.value - 1 else Tip(v);
      FirstAnchor(s, v, height);
      var p1, q1 := Placed(s, v, height), Placed(t.s, v, height);
      CursorsAreAside(w.a, p1.s.cursors);
      CursorsAreAside(t, q1.s.cursors);
      CursorsAgree(s, t.s, p1.s.cursors);
      if cfg.startHeight.Some? {
        SelfSuccessive(chain, dir);
        assert Alien(p1.s, chain) by { SameAliens(s, p1.s, chain); }
        AdvanceAgrees(p1, q1, w.a.purged, t.purged, v, v, p1.s.cursors[CURSOR_KEY], l);
      }
    }
  }

  // ---------- whole runs ----------

  /** An event as the second store meets it. */
  datatype Met = Met(e: Event, l: Listing)

  ghost function HappenListed(t: Audit, m: Met, cfg: Config, dir: Directory): Audit {
    match m.e
    case Pay(op) => Step(t, op)
    case PollOn(chain, now) => t.(s := PollListed(t.s, View(cfg, chain, dir, now), m.l).s)
  }

  ghost function HistoryListed(ms: seq<Met>, cfg: Config, dir: Directory): Audit {
    if ms == [] then Audit(EMPTY, []) else HappenListed(HistoryListed(ms[..|ms| - 1], cfg, dir), ms[|ms| - 1], cfg, dir)
  }

  /** The same event: each reaper visits the rows in its own order, each poll lists them in its own order. */
  ghost predicate SameEvent(w: World, e: Event, t: Audit, m: Met, cfg: Config, dir: Directory) {
    match e
    case Pay(op) => m.e.Pay? && SameCall(w.a.s, op, m.e.op)
    case PollOn(chain, now) => m.e == e && PollLists(t.s, View(cfg, chain, dir, now), m.l)
  }

  ghost predicate SameEvents(es: seq<Event>, ms: seq<Met>, cfg: Config, dir: Directory) {
    |es| == |ms| && forall i | 0 <= i < |es| ::
      SameEvent(History(es[..i], cfg, dir), es[i], HistoryListed(ms[..i], cfg, dir), ms[i], cfg, dir)
  }

  lemma SameEventsPrefix(es: seq<Event>, ms: seq<Met>, cfg: Config, dir: Directory)
    requires SameEvents(es, ms, cfg, dir) && es != []
    ensures var n := |es| - 1;
      && |ms| == |es| && SameEvents(es[..n], ms[..n], cfg, dir)
      && SameEvent(History(es[..n], cfg, dir), es[n], HistoryListed(ms[..n], cfg, dir), ms[n], cfg, dir)
  {
    hide SameEvent, Happen, HappenListed;
    var n := |es| - 1;
    forall i | 0 <= i < n
      ensures SameEvent(History(es[..n][..i], cfg, dir), es[..n][i], HistoryListed(ms[..n][..i], cfg, dir), ms[..n][i],
                        cfg, dir)
    {
      assert es[..n][..i] == es[..i] && ms[..n][..i] == ms[..i];
    }
  }

  lemma EventAgrees(w: World, e: Event, t: Audit, m: Met, cfg: Config, dir: Directory)
    requires Sensible(cfg) && Watching(w, cfg, dir) && Allowed(w, e, cfg, dir)
    requires Agree(w.a.s, t.s) && Inv(t) && SameEvent(w, e, t, m, cfg, dir)
    ensures var w1, t1 := Happen(w, e, cfg, dir), HappenListed(t, m, cfg, dir);
      Agree(w1.a.s, t1.s) && Inv(t1)
  {
    hide Inv, Agree, Apply, Poll, PollListed, PollLists, Regular, Successive, Alien, Anchor;
    match e
    case Pay(op) =>
      SameCallAgrees(w.a, t.s, op, m.e.op);
      StepKeeps(t, m.e.op);
    case PollOn(chain, now) =>
      PollAgrees(w, t, chain, now, cfg, dir, m.l);
  }

  /** Two stores under the same payments, operator credits and polls, each meeting the rows of its reaps and polls
      in its own order, agree after every run: the same accounts, replay rows, deposit rows and cursor, and the
      same ledger rows up to the order they are listed in. */
  lemma {:induction false} RunAgrees(es: seq<Event>, ms: seq<Met>, cfg: Config, dir: Directory)
    requires Sensible(cfg) && Lawful(es, cfg, dir) && SameEvents(es, ms, cfg, dir)
    ensures Agree(History(es, cfg, dir).a.s, HistoryListed(ms, cfg, dir).s) && Inv(HistoryListed(ms, cfg, dir))
    decreases |es|
  {
    hide Allowed, Happen, HappenListed, Watching, Lawful, SameEvent, SameEvents, Agree, Inv;
    if es == [] {
      SameLengths(es, ms, cfg, dir);
      SameStateAgrees(EMPTY);
      InvInit();
    } else {
      var n := |es| - 1;
      LawfulPrefix(es, cfg, dir);
      SameEventsPrefix(es, ms, cfg, dir);
      RunAgrees(es[..n], ms[..n], cfg, dir);
      RunWatches(es[..n], cfg, dir);
      EventAgrees(History(es[..n], cfg, dir), es[n], HistoryListed(ms[..n], cfg, dir), ms[n], cfg, dir);
    }
  }

  lemma SameLengths(es: seq<Event>, ms: seq<Met>, cfg: Config, dir: Directory)
    requires SameEvents(es, ms, cfg, dir)
    ensures |es| == |ms|
  {}
}
