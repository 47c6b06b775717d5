/** A reorg deeper than the lookback: when a poll raises the alarm, and the payments it passes over in silence. */
module DeepFork {
  import opened Basics
  import opened Ledger
  import opened Conservation
  import opened Attribution
  import opened WatcherSpec
  import opened WatcherSafety
  import opened WatcherRuns
  import opened WatcherCompleteness
  import opened WatcherSystem
  import opened ReturningBranch

  // ---------- what a scan leaves alone ----------

  /** No row of the chain records an output of `txid`. */
  predicate Absent(s: Store, txid: string) {
    forall d | d in s.deposits && d.origin == Real :: d.txid != txid
  }

  /** No flag is raised, and unless it is `seen` the absent transaction stays absent. */
  ghost predicate PassesOver(p: Progress, q: Progress, txid: string, seen: bool) {
    q.res.flags == p.res.flags && (Absent(p.s, txid) && !seen ==> Absent(q.s, txid))
  }

  lemma ScanOutPasses(p: Progress, tx: Tx, out: Vout, v: View, height: int, txid: string)
    requires Known(v, height)
    ensures PassesOver(p, ScanOut(p, tx, out, v, height), txid, tx.txid == txid)
  {
    hide Attribute, FindDeposit;
    var q := ScanOut(p, tx, out, v, height);
    if q.s.deposits != p.s.deposits && Absent(p.s, txid) && tx.txid != txid {
      forall d | d in q.s.deposits && d.origin == Real ensures d.txid != txid {
        var i :| 0 <= i < |q.s.deposits| && q.s.deposits[i] == d;
        if i < |p.s.deposits| { assert p.s.deposits[i] in p.s.deposits; }
      }
    }
  }

  lemma {:induction false} ScanOutsPass(p: Progress, tx: Tx, k: nat, v: View, height: int, txid: string)
    requires Known(v, height) && k <= |tx.vouts|
    ensures PassesOver(p, ScanOuts(p, tx, k, v, height), txid, tx.txid == txid)
  {
    hide Absent, ScanOut;
    if k > 0 {
      ScanOutsPass(p, tx, k - 1, v, height, txid);
      ScanOutPasses(ScanOuts(p, tx, k - 1, v, height), tx, tx.vouts[k - 1], v, height, txid);
    }
  }

  lemma {:induction false} ScanTxsPass(p: Progress, k: nat, v: View, height: int, txid: string)
    requires Known(v, height) && k <= |v.chain[height].txs|
    ensures PassesOver(p, ScanTxs(p, k, v, height), txid, HasTx(v.chain, height, txid))
  {
    hide Absent, ScanOuts;
    if k > 0 {
      ScanTxsPass(p, k - 1, v, height, txid);
      var tx := v.chain[height].txs[k - 1];
      ScanOutsPass(ScanTxs(p, k - 1, v, height), tx, |tx.vouts|, v, height, txid);
    }
  }

  ghost predicate Occurs(v: View, from: int, end: int, txid: string) {
    exists h | from <= h < end && Known(v, h) :: HasTx(v.chain, h, txid)
  }

  lemma {:induction false} ScanBlocksPass(p: Progress, v: View, from: int, end: int, txid: string)
    requires 0 <= from <= end <= |v.chain|
    ensures PassesOver(p, ScanBlocks(p, v, from, end), txid, Occurs(v, from, end, txid))
    decreases end - from
  {
    hide Absent, ScanTxs, HasTx;
    if from < end {
      ScanBlocksPass(p, v, from, end - 1, txid);
      ScanTxsPass(ScanBlocks(p, v, from, end - 1), |v.chain[end - 1].txs|, v, end - 1, txid);
    }
  }

  lemma ScanPasses(p: Progress, v: View, from: int, txid: string, h: int)
    ensures var q := Scan(p, v, from);
      && (DeepReorg(h) in q.res.flags <==> DeepReorg(h) in p.res.flags)
      && (Absent(p.s, txid) && !Occurs(v, from, |v.chain|, txid) ==> Absent(q.s, txid))
  {
    hide ScanBlocks, HasTx;
    var last := ScanTo(v, from);
    if 0 <= from <= last {
      ScanBlocksPass(p, v, from, last + 1, txid);
    }
  }

  lemma {:induction false} CreditRowsFlags(p: Progress, rows: seq<Deposit>, v: View)
    ensures CreditRows(p, rows, v).res.flags == p.res.flags
  {
    hide Credit;
    if rows != [] {
      CreditRowsFlags(p, rows[..|rows| - 1], v);
    }
  }

  // ---------- when a poll raises the alarm ----------

  lemma DetectAlarms(p: Progress, purged: seq<map<string, Request>>, u: View, v: View, cursor: Cursor, h: int)
    requires !p.failed && Inv(Audit(p.s, purged)) && Safe(p.s, u, cursor.lastBlock) && p.res.flags == []
    ensures DeepReorg(h) in Detect(p, v, cursor).0.res.flags <==>
      && CursorLost(v, cursor)
      && exists d :: d in p.s.deposits && DeepStale(v, Floor(v, cursor.lastBlock), d) && d.blockHeight == h
  {
    hide Inv, Safe, MarkRows, AtOrAbove, DeepStale;
    if CursorLost(v, cursor) {
      var floor := Floor(v, cursor.lastBlock);
      var flagged := p.(res := p.res.(flags := p.res.flags + [ReorgDetected(cursor.lastBlock, floor)]));
      DeepReorgAlarms(flagged, purged, u, v, cursor.lastBlock, floor, h);
    }
  }

  lemma AdvanceAlarms(p: Progress, purged: seq<map<string, Request>>, u: View, v: View, cursor: Cursor, h: int)
    requires !p.failed && Inv(Audit(p.s, purged)) && Safe(p.s, u, cursor.lastBlock) && p.res.flags == []
    ensures DeepReorg(h) in Advance(p, v, cursor).res.flags <==>
      && CursorLost(v, cursor)
      && exists d :: d in p.s.deposits && DeepStale(v, Floor(v, cursor.lastBlock), d) && d.blockHeight == h
  {
    hide Inv, Safe, Detect, Scan, CreditRows, Uncredited, DeepStale;
    DetectAlarms(p, purged, u, v, cursor, h);
    var (marked, from) := Detect(p, v, cursor);
    ScanPasses(marked, v, from, "", h);
    var scanned := Scan(marked, v, from);
    CreditRowsFlags(scanned, Uncredited(scanned.s.deposits), v);
  }

  /** What the alarm of a poll means: it is raised for a height exactly when the cursor block is gone and a live row
      recorded there, below the lookback floor, has lost its block. */
  lemma PollAlarms(w: World, chain: seq<Block>, now: int, cfg: Config, dir: Directory, h: int)
    requires Watching(w, cfg, dir)
    ensures var v := View(cfg, chain, dir, now);
      DeepReorg(h) in Poll(w.a.s, v).res.flags <==>
        CURSOR_KEY in w.a.s.cursors &&
        var cursor := w.a.s.cursors[CURSOR_KEY];
        && CursorLost(v, cursor)
        && exists d :: d in w.a.s.deposits && DeepStale(v, Floor(v, cursor.lastBlock), d) && d.blockHeight == h
  {
    hide Inv, Safe, Advance, DeepStale;
    var s, v := w.a.s, View(cfg, chain, dir, now);
    var start := Progress(s, Blank(v), false);
    if CURSOR_KEY in s.cursors {
      AdvanceAlarms(start, w.a.purged, View(cfg, w.chain, dir, 0), v, s.cursors[CURSOR_KEY], h);
    } else if Completes(s, v) {
      var height := if cfg.startHeight.Some? then cfg.startHeight.value - 1 else Tip(v);
      FirstAnchor(s, v, height);
      var placed := start.(s := SetCursor(s, v, height));
      CursorsAreAside(w.a, placed.s.cursors);
      if cfg.startHeight.Some? {
        AdvanceAlarms(placed, w.a.purged, v, v, placed.s.cursors[CURSOR_KEY], h);
      }
    }
  }

  // ---------- what a poll passes over ----------

  lemma RemarkedAbsent(s: Store, t: Store, v: View, txid: string)
    requires RemarkedUpTo(s, t, v, |s.deposits|) && Absent(s, txid)
    ensures Absent(t, txid)
  {
    forall d | d in t.deposits && d.origin == Real ensures d.txid != txid {
      var i :| 0 <= i < |t.deposits| && t.deposits[i] == d;
      assert s.deposits[i] in s.deposits;
    }
  }

  lemma SettledAbsent(s: Store, t: Store, v: View, txid: string)
    requires SettledUpTo(s, t, v, |s.deposits|) && Absent(s, txid)
    ensures Absent(t, txid)
  {
    forall d | d in t.deposits && d.origin == Real ensures d.txid != txid {
      var i :| 0 <= i < |t.deposits| && t.deposits[i] == d;
      assert s.deposits[i] in s.deposits;
    }
  }

  lemma DetectAbsent(p: Progress, purged: seq<map<string, Request>>, u: View, v: View, cursor: Cursor, txid: string)
    requires !p.failed && Inv(Audit(p.s, purged)) && Safe(p.s, u, cursor.lastBlock) && Absent(p.s, txid)
    ensures Absent(Detect(p, v, cursor).0.s, txid)
  {
    hide Inv, Safe, MarkRows, AtOrAbove, RemarkedUpTo, Absent;
    if CursorLost(v, cursor) {
      var floor := Floor(v, cursor.lastBlock);
      var flagged := p.(res := p.res.(flags := p.res.flags + [ReorgDetected(cursor.lastBlock, floor)]));
      MarkAll(flagged, purged, u, v, cursor.lastBlock, floor);
      RemarkedAbsent(p.s, MarkRows(flagged, AtOrAbove(p.s.deposits, 1), v, floor).s, v, txid);
    }
  }

  /** Where a poll starts to scan. */
  function ScanStart(v: View, cursor: Cursor): int {
    if CursorLost(v, cursor) then Floor(v, cursor.lastBlock) else cursor.lastBlock + 1
  }

  /** A transaction without a row stays without one unless the chain carries it at or above the scan start. */
  lemma AdvanceAbsent(p: Progress, purged: seq<map<string, Request>>, u: View, v: View, cursor: Cursor, txid: string)
    requires u.cfg == v.cfg && u.dir == v.dir && Successive(u.chain, v.chain)
    requires Sensible(v.cfg) && Regular(v.chain, v.dir) && Alien(p.s, v.chain)
    requires !p.failed && Inv(Audit(p.s, purged)) && Anchor(p.s, u) && p.s.cursors[CURSOR_KEY] == cursor
    requires Known(v, cursor.lastBlock) && Absent(p.s, txid) && !Occurs(v, ScanStart(v, cursor), |v.chain|, txid)
    ensures Absent(Advance(p, v, cursor).s, txid)
  {
    hide Inv, Alien, RowSafe, Regular, Safe, Scan, CreditRows, Uncredited, MarkRows, Sound, SettledUpTo, Absent, Occurs;
    DetectSound(p, purged, u, v, cursor);
    DetectAbsent(p, purged, u, v, cursor, txid);
    var (marked, from) := Detect(p, v, cursor);
    assert from == ScanStart(v, cursor);
    ScanAnchors(marked, purged, v, cursor, from);
    ScanPasses(marked, v, from, txid, 0);
    var scanned := Scan(marked, v, from);
    assert scanned.s.deposits[..|scanned.s.deposits|] == scanned.s.deposits;
    CreditRowsEffect(scanned, purged, v, |scanned.s.deposits|);
    SettledAbsent(scanned.s, CreditRows(scanned, Uncredited(scanned.s.deposits), v).s, v, txid);
  }

  lemma AbsentIsNotBooked(s: Store, v: View, h: int, txid: string, n: int)
    requires Absent(s, txid) && Known(v, h)
    ensures !Booked(s, v, h, txid, n)
  {}

  lemma OccursOnce(v: View, h: int, t: nat, from: int)
    requires Regular(v.chain, v.dir) && Known(v, h) && t < |v.chain[h].txs| && h < from
    ensures !Occurs(v, from, |v.chain|, v.chain[h].txs[t].txid)
  {
    hide HashFixes;
    assert HasTx(v.chain, h, v.chain[h].txs[t].txid);
  }

  lemma DetectNoReturn(p: Progress, purged: seq<map<string, Request>>, u: View, v: View, cursor: Cursor)
    requires HashFixes(u.chain, v.chain) && NoReturn(p.s, v)
    requires !p.failed && Inv(Audit(p.s, purged)) && Safe(p.s, u, cursor.lastBlock)
    ensures NoReturn(Detect(p, v, cursor).0.s, v)
  {
    hide Inv, Safe, HashFixes, MarkRows, AtOrAbove, RemarkedUpTo, NoReturn;
    if CursorLost(v, cursor) {
      var floor := Floor(v, cursor.lastBlock);
      var flagged := p.(res := p.res.(flags := p.res.flags + [ReorgDetected(cursor.lastBlock, floor)]));
      MarkAll(flagged, purged, u, v, cursor.lastBlock, floor);
      MarkedDoNotReturn(p.s, MarkRows(flagged, AtOrAbove(p.s.deposits, 1), v, floor).s, u, v, cursor.lastBlock);
    }
  }

  /** Every attributable payment of the scanned range is booked when the poll completes. */
  lemma AdvanceBooks(p: Progress, purged: seq<map<string, Request>>, u: View, v: View, cursor: Cursor)
    requires u.cfg == v.cfg && u.dir == v.dir && Successive(u.chain, v.chain)
    requires Sensible(v.cfg) && Regular(v.chain, v.dir) && Alien(p.s, v.chain) && NoReturn(p.s, v)
    requires !p.failed && Inv(Audit(p.s, purged)) && Anchor(p.s, u) && p.s.cursors[CURSOR_KEY] == cursor
    requires Known(v, cursor.lastBlock)
    ensures var from := ScanStart(v, cursor);
      Complete(Advance(p, v, cursor).s, v, from, Max(ScanTo(v, from), cursor.lastBlock) + 1)
  {
    hide Inv, Alien, RowSafe, Regular, Safe, Scan, CreditRows, Uncredited, MarkRows, Sound, SettledUpTo, NoReturn,
         TxsBooked, Kept, Mature;
    DetectSound(p, purged, u, v, cursor);
    DetectNoReturn(p, purged, u, v, cursor);
    var (marked, from) := Detect(p, v, cursor);
    assert from == ScanStart(v, cursor) && Complete(marked.s, v, from, from);
    ScanAnchors(marked, purged, v, cursor, from);
    ScanCompletes(marked, purged, v, cursor, from, from);
    var scanned := Scan(marked, v, from);
    assert scanned.s.deposits[..|scanned.s.deposits|] == scanned.s.deposits;
    CreditRowsEffect(scanned, purged, v, |scanned.s.deposits|);
    var credited := CreditRows(scanned, Uncredited(scanned.s.deposits), v);
    SettledKeeps(scanned.s, credited.s, v);
    KeptBlocks(scanned.s, credited.s, v, from, Max(ScanTo(v, from), cursor.lastBlock) + 1);
  }

  lemma CompleteMeans(s: Store, v: View, from: int, end: int, h: int, t: nat, o: nat)
    requires Complete(s, v, from, end) && from <= h < end && Known(v, h)
    requires t < |v.chain[h].txs| && o < |v.chain[h].txs[t].vouts|
    requires Wanted(v, v.chain[h].txs[t], v.chain[h].txs[t].vouts[o])
    ensures Booked(s, v, h, v.chain[h].txs[t].txid, v.chain[h].txs[t].vouts[o].n)
  {
    hide Booked, Wanted;
    assert TxsBooked(s, v, h, |v.chain[h].txs|);
    assert OutsBooked(s, v, h, t, |v.chain[h].txs[t].vouts|);
  }

  lemma BookedIsAnchored(s: Store, v: View, h: int, txid: string, n: int)
    requires Anchor(s, v) && Known(v, h) && Booked(s, v, h, txid, n)
    ensures h <= s.cursors[CURSOR_KEY].lastBlock
  {
    var i :| 0 <= i < |s.deposits| && IsBooking(v, h, txid, n, s.deposits[i]);
    assert s.deposits[i] in s.deposits;
    assert RowSafe(v, s.cursors[CURSOR_KEY].lastBlock, s.deposits[i]);
  }

  /** What one poll brings in, exactly: an attributable payment without a row is booked if and only if its block lies
      in the scanned range. After a lost cursor that range starts at the lookback floor, however deep the fork. */
  lemma BookedExactlyInRange(w: World, chain: seq<Block>, now: int, cfg: Config, dir: Directory, h: int, t: nat, o: nat)
    requires Sensible(cfg) && Watching(w, cfg, dir) && Allowed(w, PollOn(chain, now), cfg, dir)
    requires CURSOR_KEY in w.a.s.cursors
    requires var v := View(cfg, chain, dir, now);
      && Known(v, w.a.s.cursors[CURSOR_KEY].lastBlock) && NoReturn(w.a.s, v) && Known(v, h)
      && t < |chain[h].txs| && o < |chain[h].txs[t].vouts| && Wanted(v, chain[h].txs[t], chain[h].txs[t].vouts[o])
      && Absent(w.a.s, chain[h].txs[t].txid)
    ensures var v := View(cfg, chain, dir, now);
      var from := ScanStart(v, w.a.s.cursors[CURSOR_KEY]);
      Booked(Poll(w.a.s, v).s, v, h, chain[h].txs[t].txid, chain[h].txs[t].vouts[o].n) <==> from <= h <= ScanTo(v, from)
  {
    hide Inv, Safe, Regular, HashFixes, Alien, Advance, RowSafe, Absent, Occurs, NoReturn, Wanted, Booked, TxsBooked;
    var u, v := View(cfg, w.chain, dir, 0), View(cfg, chain, dir, now);
    var cursor := w.a.s.cursors[CURSOR_KEY];
    var p, from := Progress(w.a.s, Blank(v), false), ScanStart(v, cursor);
    var tx := chain[h].txs[t];
    if h < from {
      OccursOnce(v, h, t, from);
      AdvanceAbsent(p, w.a.purged, u, v, cursor, tx.txid);
      AbsentIsNotBooked(Advance(p, v, cursor).s, v, h, tx.txid, tx.vouts[o].n);
    } else {
      AdvanceBooks(p, w.a.purged, u, v, cursor);
      AdvanceReach(p, w.a.purged, u, v, cursor);
      if h <= ScanTo(v, from) {
        CompleteMeans(Advance(p, v, cursor).s, v, from, Max(ScanTo(v, from), cursor.lastBlock) + 1, h, t, o);
      } else if Booked(Advance(p, v, cursor).s, v, h, tx.txid, tx.vouts[o].n) {
        BookedIsAnchored(Advance(p, v, cursor).s, v, h, tx.txid, tx.vouts[o].n);
      }
    }
  }

  /** Where the cursor stands after a poll. */
  lemma AdvanceReach(p: Progress, purged: seq<map<string, Request>>, u: View, v: View, cursor: Cursor)
    requires u.cfg == v.cfg && u.dir == v.dir && Successive(u.chain, v.chain)
    requires Sensible(v.cfg) && Regular(v.chain, v.dir) && Alien(p.s, v.chain)
    requires !p.failed && Inv(Audit(p.s, purged)) && Anchor(p.s, u) && p.s.cursors[CURSOR_KEY] == cursor
    requires Known(v, cursor.lastBlock)
    ensures var q := Advance(p, v, cursor);
      && Anchor(q.s, v)
      && q.s.cursors[CURSOR_KEY].lastBlock == Max(ScanTo(v, ScanStart(v, cursor)), cursor.lastBlock)
  {
    hide Inv, Alien, RowSafe, Regular, Safe, Scan, CreditRows, Uncredited, MarkRows, Sound, SettledUpTo;
    AdvanceSafe(p, purged, u, v, cursor);
    DetectSound(p, purged, u, v, cursor);
    var (marked, from) := Detect(p, v, cursor);
    ScanAnchors(marked, purged, v, cursor, from);
    var scanned := Scan(marked, v, from);
    assert scanned.s.deposits[..|scanned.s.deposits|] == scanned.s.deposits;
    CreditRowsEffect(scanned, purged, v, |scanned.s.deposits|);
    SettledCursors(scanned.s, CreditRows(scanned, Uncredited(scanned.s.deposits), v).s, v, |scanned.s.deposits|);
  }

  /** The failing family: the cursor block is gone, a payment stands below the lookback floor in a block the watcher
      has not seen, and no live row below the floor has lost its block. The poll completes, raises no alarm and does
      not book the payment. */
  lemma DeepForkIsSilent(w: World, chain: seq<Block>, now: int, cfg: Config, dir: Directory, h: int, t: nat, n: int)
    requires Sensible(cfg) && Watching(w, cfg, dir) && Allowed(w, PollOn(chain, now), cfg, dir)
    requires CURSOR_KEY in w.a.s.cursors
    requires var v := View(cfg, chain, dir, now);
      var cursor := w.a.s.cursors[CURSOR_KEY];
      && CursorLost(v, cursor) && 1 <= h < Floor(v, cursor.lastBlock)
      && t < |chain[h].txs| && Absent(w.a.s, chain[h].txs[t].txid)
      && forall d | d in w.a.s.deposits :: !DeepStale(v, Floor(v, cursor.lastBlock), d)
    ensures var v := View(cfg, chain, dir, now);
      var p := Poll(w.a.s, v);
      && !p.failed && (forall g :: DeepReorg(g) !in p.res.flags)
      && Missed(Happen(w, PollOn(chain, now), cfg, dir), h, chain[h].txs[t].txid)
      && !Booked(p.s, v, h, chain[h].txs[t].txid, n)
  {
    PollSafe(w, chain, now, cfg, dir);
    hide Inv, Safe, Regular, HashFixes, Alien, Advance, RowSafe, DeepStale, Absent, Occurs;
    var u, v := View(cfg, w.chain, dir, 0), View(cfg, chain, dir, now);
    var cursor := w.a.s.cursors[CURSOR_KEY];
    forall g ensures DeepReorg(g) !in Poll(w.a.s, v).res.flags {
      PollAlarms(w, chain, now, cfg, dir, g);
    }
    OccursOnce(v, h, t, ScanStart(v, cursor));
    AdvanceAbsent(Progress(w.a.s, Blank(v), false), w.a.purged, u, v, cursor, chain[h].txs[t].txid);
    AdvanceSafe(Progress(w.a.s, Blank(v), false), w.a.purged, u, v, cursor);
    AbsentIsNotBooked(Poll(w.a.s, v).s, v, h, chain[h].txs[t].txid, n);
  }

  // ---------- for ever ----------

  /** The polled chain carries `txid` at a height the cursor has passed, and no row of the chain records it. */
  ghost predicate Missed(w: World, h: int, txid: string) {
    && CURSOR_KEY in w.a.s.cursors && Absent(w.a.s, txid)
    && 0 <= h < |w.chain| && h <= w.a.s.cursors[CURSOR_KEY].lastBlock && HasTx(w.chain, h, txid)
  }

  /** The next poll sees a chain that grew. */
  predicate Grows(w: World, e: Event) {
    e.PollOn? ==> |w.chain| <= |e.chain| && e.chain[..|w.chain|] == w.chain
  }

  lemma PayKeepsAbsent(w: World, op: Op, txid: string)
    requires PayOk(op) && Absent(w.a.s, txid)
    ensures Absent(Step(w.a, op).s, txid)
  {
    hide Apply;
    PayLeavesDeposits(w.a.s, op);
    var s, t := w.a.s, Step(w.a, op).s;
    forall d | d in t.deposits && d.origin == Real ensures d.txid != txid {
      var i :| 0 <= i < |t.deposits| && t.deposits[i] == d;
      assert i < |s.deposits| ==> t.deposits[..|s.deposits|][i] == s.deposits[i] && s.deposits[i] in s.deposits;
    }
  }

  lemma StaysMissed(w: World, e: Event, cfg: Config, dir: Directory, h: int, txid: string)
    requires Sensible(cfg) && Watching(w, cfg, dir) && Allowed(w, e, cfg, dir) && Grows(w, e) && Missed(w, h, txid)
    ensures Missed(Happen(w, e, cfg, dir), h, txid)
  {
    match e
    case Pay(op) =>
      PayKeepsAbsent(w, op, txid);
      hide Apply, Absent;
      PayLeavesDeposits(w.a.s, op);
    case PollOn(chain, now) =>
      hide Inv, Safe, Regular, HashFixes, Alien, Advance, RowSafe, Absent, Occurs;
      var u, v := View(cfg, w.chain, dir, 0), View(cfg, chain, dir, now);
      var cursor := w.a.s.cursors[CURSOR_KEY];
      assert chain[..|w.chain|][cursor.lastBlock] == w.chain[cursor.lastBlock];
      assert chain[..|w.chain|][h] == w.chain[h];
      var t :| 0 <= t < |w.chain[h].txs| && w.chain[h].txs[t].txid == txid;
      OccursOnce(v, h, t, ScanStart(v, cursor));
      AdvanceAbsent(Progress(w.a.s, Blank(v), false), w.a.purged, u, v, cursor, txid);
      AdvanceSafe(Progress(w.a.s, Blank(v), false), w.a.purged, u, v, cursor);
  }

  /** From event `n` on every poll sees the chain of the poll before it, grown. */
  ghost predicate AllGrow(es: seq<Event>, n: nat, cfg: Config, dir: Directory) {
    forall i | n <= i < |es| :: Grows(History(es[..i], cfg, dir), es[i])
  }

  lemma AllGrowPrefix(es: seq<Event>, n: nat, cfg: Config, dir: Directory)
    requires AllGrow(es, n, cfg, dir) && n < |es|
    ensures AllGrow(es[..|es| - 1], n, cfg, dir) && Grows(History(es[..|es| - 1], cfg, dir), es[|es| - 1])
  {
    hide Grows, Happen;
    var head := es[..|es| - 1];
    forall i | n <= i < |head| ensures Grows(History(head[..i], cfg, dir), head[i]) {
      assert head[..i] == es[..i];
    }
  }

  /** And no later poll makes up for it: once passed over, the payment has no row after any further run in which the
      chain only grows, however deep it comes to lie. */
  lemma {:induction false} MissedForEver(es: seq<Event>, n: nat, cfg: Config, dir: Directory, h: int, txid: string)
    requires Sensible(cfg) && Lawful(es, cfg, dir) && n <= |es| && AllGrow(es, n, cfg, dir)
    requires Missed(History(es[..n], cfg, dir), h, txid)
    ensures Missed(History(es, cfg, dir), h, txid)
    decreases |es|
  {
    if n == |es| {
      assert es[..n] == es;
    } else {
      hide Allowed, Happen, Watching, Lawful, Grows, AllGrow, Missed;
      var head := es[..|es| - 1];
      LawfulPrefix(es, cfg, dir);
      AllGrowPrefix(es, n, cfg, dir);
      assert head[..n] == es[..n];
      MissedForEver(head, n, cfg, dir, h, txid);
      RunWatches(head, cfg, dir);
      StaysMissed(History(head, cfg, dir), es[|es| - 1], cfg, dir, h, txid);
    }
  }

  // ---------- a concrete run ----------

  const OLD: seq<Block> := [GENESIS, Block("a1", []), Block("a2", []), Block("a3", [])]
  const NEW: seq<Block> := [GENESIS, Block("b1", [TX]), Block("b2", []), Block("b3", [])]
  const FORK: seq<Event> := [PollOn(OLD, 0), PollOn(NEW, 0)]
  const T1 := EMPTY.(cursors := map[CURSOR_KEY := Cursor(3, "a3", 0)])
  const V1 := World(Audit(T1, []), OLD, 1)
  const ON_OLD := View(CFG, OLD, DIR, 0)
  const ON_NEW := View(CFG, NEW, DIR, 0)

  lemma ForkHashesDiffer()
    ensures forall g, h | 0 <= g < 4 && 0 <= h < 4 && OLD[g].hash == OLD[h].hash :: g == h
    ensures forall g, h | 0 <= g < 4 && 0 <= h < 4 && NEW[g].hash == NEW[h].hash :: g == h
    ensures forall g, h | 0 <= g < 4 && 0 <= h < 4 && OLD[g].hash == NEW[h].hash :: g == h == 0
  {
    assert |"g"| == 1 && |"a1"| == |"a2"| == |"a3"| == |"b1"| == |"b2"| == |"b3"| == 2;
    assert "a1"[1] == "b1"[1] == '1' && "a2"[1] == "b2"[1] == '2' && "a3"[1] == "b3"[1] == '3';
    assert "a1"[0] == "a2"[0] == "a3"[0] == 'a' && "b1"[0] == "b2"[0] == "b3"[0] == 'b';
  }

  lemma ForkIsLawful()
    ensures Sensible(CFG) && Regular(OLD, DIR) && Regular(NEW, DIR) && Successive([], OLD) && Successive(OLD, NEW)
    ensures Alien(EMPTY, OLD) && Alien(T1, NEW)
  {
    ForkHashesDiffer();
    assert OLD[..1] == [GENESIS] == NEW[..1];
    assert forall h | 0 <= h < 4 :: OLD[h].txs == [];
    assert NEW[0].txs == [] && NEW[1].txs == [TX] && NEW[2].txs == [] && NEW[3].txs == [];
    assert forall h, txid | 0 <= h < 4 && HasTx(NEW, h, txid) :: h == 1;
  }

  lemma OldIsEmpty(p: Progress)
    ensures ScanBlocks(p, ON_OLD, 1, 4) == p
  {
    assert ScanBlocks(p, ON_OLD, 1, 1) == p;
    assert ScanTxs(p, 0, ON_OLD, 1) == p && ScanTxs(p, 0, ON_OLD, 2) == p && ScanTxs(p, 0, ON_OLD, 3) == p;
    assert ScanBlocks(p, ON_OLD, 1, 2) == p && ScanBlocks(p, ON_OLD, 1, 3) == p;
  }

  lemma PollOnOld()
    ensures Poll(EMPTY, ON_OLD).s == T1 && !Poll(EMPTY, ON_OLD).failed
  {
    var p := Progress(S0, Blank(ON_OLD), false);
    OldIsEmpty(p);
    assert OLD[3].hash == "a3" && OLD[0].hash == "g";
    hide ScanBlocks;
    var scanned := Scan(p, ON_OLD, 1);
    assert scanned.s == T1 && !scanned.failed;
    assert Detect(p, ON_OLD, Cursor(0, "g", 0)) == (p, 1);
  }

  lemma ForkRuns()
    ensures History(FORK[..1], CFG, DIR) == V1 && History(FORK, CFG, DIR) == Happen(V1, FORK[1], CFG, DIR)
    ensures Sensible(CFG) && Lawful(FORK, CFG, DIR)
  {
    PollOnOld();
    ForkIsLawful();
    hide Poll, Regular, Successive, Alien;
    assert Happen(BEGIN, FORK[0], CFG, DIR) == V1;
    hide Happen;
    assert FORK[..1][..0] == FORK[..0] && FORK[..2] == FORK && FORK[..1] == FORK[..|FORK| - 1];
    assert History(FORK[..0], CFG, DIR) == BEGIN;
    assert Allowed(BEGIN, FORK[0], CFG, DIR) && Allowed(V1, FORK[1], CFG, DIR);
  }

  lemma ForkIsDeep()
    ensures Wanted(ON_NEW, TX, OUT) && NEW[1].txs == [TX] && TX.vouts == [OUT] && TX.txid == "t" && Absent(T1, "t")
    ensures CursorLost(ON_NEW, T1.cursors[CURSOR_KEY]) && Floor(ON_NEW, T1.cursors[CURSOR_KEY].lastBlock) == 2
  {
    PayerIsFound();
    hide Attribute;
    assert "iOperator" in OUT.addresses;
    assert NEW[3].hash == "b3" && "b3"[0] != "a3"[0];
  }

  /** The witness, with a lookback of one block: the watcher has scanned three blocks; all three are replaced, and
      the lowest new one carries an attributable payment. The poll raises no alarm, and the payment stays without a
      row for ever. */
  lemma DeepForkExists()
    ensures Sensible(CFG) && Lawful(FORK, CFG, DIR) && Wanted(ON_NEW, TX, OUT) && NEW[1].txs == [TX]
    ensures TX.vouts == [OUT]
    ensures var p := Poll(History(FORK[..1], CFG, DIR).a.s, ON_NEW);
      && !p.failed && (forall g :: DeepReorg(g) !in p.res.flags)
      && !Booked(p.s, ON_NEW, 1, "t", 0)
      && History(FORK, CFG, DIR).a.s == p.s && Missed(History(FORK, CFG, DIR), 1, "t")
  {
    ForkRuns();
    LawfulPrefix(FORK, CFG, DIR);
    RunWatches(FORK[..1], CFG, DIR);
    ForkIsLawful();
    ForkIsDeep();
    assert CURSOR_KEY in V1.a.s.cursors;
    hide Poll, History, Happen, Lawful, Watching, Regular, Successive, Alien, Wanted, Missed, Booked, CursorLost, Floor,
         Absent, DeepStale;
    DeepForkIsSilent(V1, NEW, 0, CFG, DIR, 1, 0, 0);
  }
}
