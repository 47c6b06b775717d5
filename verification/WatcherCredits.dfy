/** When deposits are credited over whole runs: at a completed poll whose chain buried them deep enough, and not
    later than the first such poll. */
module WatcherCredits {
  import opened Basics
  import opened Ledger
  import opened Conservation
  import opened Attribution
  import opened WatcherSpec
  import opened WatcherSafety
  import opened WatcherRuns
  import opened WatcherCompleteness
  import opened WatcherSystem

  // ---------- where a credit comes from ----------

  /** `e` is `d`, a reorg mark aside. */
  predicate From(e: Deposit, d: Deposit) {
    d.(reorgedAt := e.reorgedAt) == e
  }

  ghost predicate WasCredited(s: Store, e: Deposit) {
    exists i :: 0 <= i < |s.deposits| && From(e, s.deposits[i])
  }

  /** No credit of `t` is new. */
  ghost predicate NoNewCredit(s: Store, t: Store) {
    forall j | 0 <= j < |t.deposits| && t.deposits[j].creditedAt.Some? :: WasCredited(s, t.deposits[j])
  }

  lemma NoNewCreditTrans(s: Store, t: Store, u: Store)
    requires NoNewCredit(s, t) && NoNewCredit(t, u)
    ensures NoNewCredit(s, u)
  {
    forall j | 0 <= j < |u.deposits| && u.deposits[j].creditedAt.Some? ensures WasCredited(s, u.deposits[j]) {
      var i :| 0 <= i < |t.deposits| && From(u.deposits[j], t.deposits[i]);
      var k :| 0 <= k < |s.deposits| && From(t.deposits[i], s.deposits[k]);
      assert From(u.deposits[j], s.deposits[k]);
    }
  }

  lemma SameDepositsNoCredit(s: Store, t: Store)
    requires t.deposits == s.deposits
    ensures NoNewCredit(s, t)
  {
    forall j | 0 <= j < |t.deposits| ensures WasCredited(s, t.deposits[j]) {
      assert From(t.deposits[j], s.deposits[j]);
    }
  }

  lemma MarkingNoCredit(s: Store, t: Store, v: View)
    requires RemarkedUpTo(s, t, v, |s.deposits|)
    ensures NoNewCredit(s, t)
  {
    forall j | 0 <= j < |t.deposits| ensures WasCredited(s, t.deposits[j]) {
      assert From(t.deposits[j], s.deposits[j]);
    }
  }

  lemma ScanOutNoCredit(p: Progress, tx: Tx, out: Vout, v: View, height: int)
    requires Known(v, height)
    ensures NoNewCredit(p.s, ScanOut(p, tx, out, v, height).s)
  {
    hide Attribute;
    var t := ScanOut(p, tx, out, v, height).s;
    forall j | 0 <= j < |t.deposits| && t.deposits[j].creditedAt.Some? ensures WasCredited(p.s, t.deposits[j]) {
      assert j < |p.s.deposits| && From(t.deposits[j], p.s.deposits[j]);
    }
  }

  lemma {:induction false} ScanOutsNoCredit(p: Progress, tx: Tx, k: nat, v: View, height: int)
    requires Known(v, height) && k <= |tx.vouts|
    ensures NoNewCredit(p.s, ScanOuts(p, tx, k, v, height).s)
  {
    hide NoNewCredit, ScanOut;
    if k == 0 {
      SameDepositsNoCredit(p.s, p.s);
    } else {
      ScanOutsNoCredit(p, tx, k - 1, v, height);
      var q := ScanOuts(p, tx, k - 1, v, height);
      ScanOutNoCredit(q, tx, tx.vouts[k - 1], v, height);
      NoNewCreditTrans(p.s, q.s, ScanOuts(p, tx, k, v, height).s);
    }
  }

  lemma {:induction false} ScanTxsNoCredit(p: Progress, k: nat, v: View, height: int)
    requires Known(v, height) && k <= |v.chain[height].txs|
    ensures NoNewCredit(p.s, ScanTxs(p, k, v, height).s)
  {
    hide NoNewCredit, ScanOuts;
    if k == 0 {
      SameDepositsNoCredit(p.s, p.s);
    } else {
      ScanTxsNoCredit(p, k - 1, v, height);
      var q, tx := ScanTxs(p, k - 1, v, height), v.chain[height].txs[k - 1];
      ScanOutsNoCredit(q, tx, |tx.vouts|, v, height);
      NoNewCreditTrans(p.s, q.s, ScanTxs(p, k, v, height).s);
    }
  }

  lemma {:induction false} ScanBlocksNoCredit(p: Progress, v: View, from: int, end: int)
    requires 0 <= from <= end <= |v.chain|
    ensures NoNewCredit(p.s, ScanBlocks(p, v, from, end).s)
    decreases end - from
  {
    hide NoNewCredit, ScanTxs;
    if end == from {
      SameDepositsNoCredit(p.s, p.s);
    } else {
      ScanBlocksNoCredit(p, v, from, end - 1);
      var q := ScanBlocks(p, v, from, end - 1);
      ScanTxsNoCredit(q, |v.chain[end - 1].txs|, v, end - 1);
      NoNewCreditTrans(p.s, q.s, ScanBlocks(p, v, from, end).s);
    }
  }

  lemma ScanNoCredit(p: Progress, v: View, from: int)
    ensures NoNewCredit(p.s, Scan(p, v, from).s)
  {
    hide NoNewCredit, ScanBlocks;
    var last := ScanTo(v, from);
    SameDepositsNoCredit(p.s, p.s);
    if from >= 0 && from <= last {
      var scanned := ScanBlocks(p, v, from, last + 1);
      ScanBlocksNoCredit(p, v, from, last + 1);
      SameDepositsNoCredit(scanned.s, SetCursor(scanned.s, v, last));
      NoNewCreditTrans(p.s, scanned.s, SetCursor(scanned.s, v, last));
    }
  }

  // ---------- one poll ----------

  /** Credited by a poll of this snapshot, which buries its block deep enough. */
  predicate CreditedBy(v: View, d: Deposit) {
    && d.creditedAt == Some(v.now)
    && d.confirmations == Tip(v) - d.blockHeight >= v.cfg.minConfirmations
  }

  /** What a poll ends with: every credit is an old one or made by it, at depth; every live row that is deep
      enough is credited. */
  ghost predicate Settled(s: Store, t: Store, v: View) {
    && Mature(t, v)
    && forall j | 0 <= j < |t.deposits| && t.deposits[j].creditedAt.Some? ::
         WasCredited(s, t.deposits[j]) || (t.deposits[j].reorgedAt.None? && CreditedBy(v, t.deposits[j]))
  }

  lemma SettlingSettles(s: Store, scanned: Store, t: Store, v: View)
    requires NoNewCredit(s, scanned) && SettledUpTo(scanned, t, v, |scanned.deposits|)
    ensures Settled(s, t, v)
  {
    forall j | 0 <= j < |t.deposits| && t.deposits[j].creditedAt.Some?
      ensures WasCredited(s, t.deposits[j]) || (t.deposits[j].reorgedAt.None? && CreditedBy(v, t.deposits[j]))
    {
      assert t.deposits[j] == Settle(v, scanned.deposits[j]);
      assert scanned.deposits[j].creditedAt.Some? ==> WasCredited(s, scanned.deposits[j]);
    }
  }

  lemma DetectNoCredit(p: Progress, purged: seq<map<string, Request>>, v: View, w: View, cursor: Cursor)
    requires !p.failed && Inv(Audit(p.s, purged)) && Safe(p.s, v, cursor.lastBlock) && Known(w, cursor.lastBlock)
    ensures NoNewCredit(p.s, Detect(p, w, cursor).0.s)
  {
    hide Inv, Safe, MarkRows, AtOrAbove, RemarkedUpTo, NoNewCredit;
    SameDepositsNoCredit(p.s, p.s);
    if w.chain[cursor.lastBlock].hash != cursor.lastBlockHash {
      var floor := Floor(w, cursor.lastBlock);
      var flagged := p.(res := p.res.(flags := p.res.flags + [ReorgDetected(cursor.lastBlock, floor)]));
      MarkAll(flagged, purged, v, w, cursor.lastBlock, floor);
      MarkingNoCredit(p.s, Detect(p, w, cursor).0.s, w);
    }
  }

  lemma AdvanceSettles(p: Progress, purged: seq<map<string, Request>>, v: View, w: View, cursor: Cursor)
    requires v.cfg == w.cfg && v.dir == w.dir && Successive(v.chain, w.chain)
    requires Sensible(w.cfg) && Regular(w.chain, w.dir) && Alien(p.s, w.chain)
    requires !p.failed && Inv(Audit(p.s, purged)) && Anchor(p.s, v) && p.s.cursors[CURSOR_KEY] == cursor
    requires Known(w, cursor.lastBlock)
    ensures Settled(p.s, Advance(p, w, cursor).s, w)
  {
    hide Inv, Alien, RowSafe, Regular, Safe, Scan, Detect, CreditRows, Uncredited, MarkRows, Sound, SettledUpTo,
         NoNewCredit, Settled;
    AdvanceSafe(p, purged, v, w, cursor);
    DetectSound(p, purged, v, w, cursor);
    DetectNoCredit(p, purged, v, w, cursor);
    var (marked, from) := Detect(p, w, cursor);
    ScanAnchors(marked, purged, w, cursor, from);
    ScanNoCredit(marked, w, from);
    var scanned := Scan(marked, w, from);
    NoNewCreditTrans(p.s, marked.s, scanned.s);
    assert scanned.s.deposits[..|scanned.s.deposits|] == scanned.s.deposits;
    CreditRowsEffect(scanned, purged, w, |scanned.s.deposits|);
    SettlingSettles(p.s, scanned.s, CreditRows(scanned, Uncredited(scanned.s.deposits), w).s, w);
  }

  /** Before the first poll, and after each, nothing deep enough waits for its credit. */
  ghost predicate Ripe(w: World, cfg: Config, dir: Directory) {
    if CURSOR_KEY in w.a.s.cursors then Mature(w.a.s, View(cfg, w.chain, dir, 0))
    else forall i | 0 <= i < |w.a.s.deposits| :: w.a.s.deposits[i].creditedAt.Some?
  }

  lemma PollSettles(w: World, chain: seq<Block>, now: int, cfg: Config, dir: Directory)
    requires Sensible(cfg) && Watching(w, cfg, dir) && Allowed(w, PollOn(chain, now), cfg, dir) && Ripe(w, cfg, dir)
    requires !Poll(w.a.s, View(cfg, chain, dir, now)).failed
    ensures Settled(w.a.s, Poll(w.a.s, View(cfg, chain, dir, now)).s, View(cfg, chain, dir, now))
  {
    PollSafe(w, chain, now, cfg, dir);
    hide Inv, Safe, Regular, HashFixes, Alien, Advance, RowSafe;
    var s := w.a.s;
    var u, v := View(cfg, w.chain, dir, 0), View(cfg, chain, dir, now);
    var start := Progress(s, Blank(v), false);
    if CURSOR_KEY in s.cursors {
      AdvanceSettles(start, w.a.purged, u, v, s.cursors[CURSOR_KEY]);
    } else {
      var height := if cfg.startHeight.Some? then cfg.startHeight.value - 1 else Tip(v);
      FirstAnchor(s, v, height);
      var placed := start.(s := SetCursor(s, v, height));
      SameDepositsNoCredit(s, placed.s);
      if cfg.startHeight.Some? {
        CursorsAreAside(w.a, placed.s.cursors);
        SelfSuccessive(chain, dir);
        assert Alien(placed.s, chain) by { SameAliens(s, placed.s, chain); }
        AdvanceSettles(placed, w.a.purged, v, v, placed.s.cursors[CURSOR_KEY]);
        assert forall e :: WasCredited(placed.s, e) <==> WasCredited(s, e);
      }
    }
  }

  // ---------- runs ----------

  lemma PayKeepsRipe(w: World, op: Op, cfg: Config, dir: Directory)
    requires Watching(w, cfg, dir) && PayOk(op) && Ripe(w, cfg, dir)
    ensures Ripe(Happen(w, Pay(op), cfg, dir), cfg, dir)
  {
    hide Apply, Inv;
    PayLeavesDeposits(w.a.s, op);
    var s, t := w.a.s, Step(w.a, op).s;
    if t.deposits != s.deposits {
      NewRowIsCredited(w.a, op);
      assert forall i | 0 <= i < |s.deposits| :: t.deposits[..|s.deposits|][i] == s.deposits[i];
    }
  }

  lemma NewRowIsCredited(a: Audit, op: Op)
    requires Inv(a) && PayOk(op) && Step(a, op).s.deposits != a.s.deposits
    ensures |Step(a, op).s.deposits| > |a.s.deposits| && Step(a, op).s.deposits[|a.s.deposits|].creditedAt.Some?
  {
    hide Inv, Solvent, FindDeposit;
    if op.OpMint? {
      MintKeeps(a, op.deposit, op.at);
    } else {
      RequestOpsLeaveDeposits(a.s, op);
    }
  }

  lemma {:induction false} RunRipens(es: seq<Event>, cfg: Config, dir: Directory)
    requires Sensible(cfg) && Lawful(es, cfg, dir)
    ensures Ripe(History(es, cfg, dir), cfg, dir)
    decreases |es|
  {
    if es != [] {
      hide Allowed, Watching, Lawful, Poll, Apply, Mature, Step;
      var head := es[..|es| - 1];
      var w := History(head, cfg, dir);
      LawfulPrefix(es, cfg, dir);
      RunRipens(head, cfg, dir);
      RunWatches(head, cfg, dir);
      match es[|es| - 1]
      case Pay(op) => PayAllowed(w, op, cfg, dir); PayKeepsRipe(w, op, cfg, dir);
      case PollOn(chain, now) => PollKeepsRipe(w, chain, now, cfg, dir);
    }
  }

  lemma PollKeepsRipe(w: World, chain: seq<Block>, now: int, cfg: Config, dir: Directory)
    requires Sensible(cfg) && Watching(w, cfg, dir) && Allowed(w, PollOn(chain, now), cfg, dir) && Ripe(w, cfg, dir)
    ensures Ripe(Happen(w, PollOn(chain, now), cfg, dir), cfg, dir)
  {
    hide Allowed, Watching, Poll;
    var p := Poll(w.a.s, View(cfg, chain, dir, now));
    PollSafe(w, chain, now, cfg, dir);
    if !p.failed {
      PollSettles(w, chain, now, cfg, dir);
    }
  }

  /** Completeness over every run without deep forks and returning branches, payments after the last poll
      included: every attributable payment from the start height to the cursor has its live row, and every live
      row that the last polled chain buries deep enough is credited. */
  lemma RunDelivers(es: seq<Event>, cfg: Config, dir: Directory)
    requires Sensible(cfg) && Lawful(es, cfg, dir) && AllCalm(es, cfg, dir)
    ensures var w := History(es, cfg, dir);
      CURSOR_KEY in w.a.s.cursors ==>
        && Complete(w.a.s, View(cfg, w.chain, dir, 0), w.start, w.a.s.cursors[CURSOR_KEY].lastBlock + 1)
        && Mature(w.a.s, View(cfg, w.chain, dir, 0))
  {
    RunCovers(es, cfg, dir);
    RunRipens(es, cfg, dir);
    hide History, Complete, Mature, Lawful, AllCalm;
  }

  /** One poll of the run credited the row: it completed, its chain carries the row's block and transaction, and
      buries them by the depth the row records, which is enough. */
  ghost predicate CreditedInRun(es: seq<Event>, cfg: Config, dir: Directory, d: Deposit) {
    exists i ::
      && 0 <= i < |es| && es[i].PollOn?
      && CreditedBy(View(cfg, es[i].chain, dir, es[i].now), d) && OnChain(es[i].chain, d)
      && !Poll(History(es[..i], cfg, dir).a.s, View(cfg, es[i].chain, dir, es[i].now)).failed
  }

  lemma CreditedEarlier(es: seq<Event>, e: Event, cfg: Config, dir: Directory, d: Deposit, d': Deposit)
    requires CreditedInRun(es, cfg, dir, d) && From(d', d)
    ensures CreditedInRun(es + [e], cfg, dir, d')
  {
    hide Poll, History;
    var i :| 0 <= i < |es| && es[i].PollOn?
      && CreditedBy(View(cfg, es[i].chain, dir, es[i].now), d) && OnChain(es[i].chain, d)
      && !Poll(History(es[..i], cfg, dir).a.s, View(cfg, es[i].chain, dir, es[i].now)).failed;
    assert (es + [e])[i] == es[i] && (es + [e])[..i] == es[..i];
  }

  ghost predicate AllCreditedInRun(es: seq<Event>, cfg: Config, dir: Directory, s: Store) {
    forall j | 0 <= j < |s.deposits| && s.deposits[j].origin == Real && s.deposits[j].creditedAt.Some? ::
      CreditedInRun(es, cfg, dir, s.deposits[j])
  }

  /** Over every run, every credit of a real deposit was made by a completed poll of that run, on a chain that
      carried its transaction in its recorded block and buried it deep enough. */
  lemma {:induction false} CreditsAreDeep(es: seq<Event>, cfg: Config, dir: Directory)
    requires Sensible(cfg) && Lawful(es, cfg, dir)
    ensures AllCreditedInRun(es, cfg, dir, History(es, cfg, dir).a.s)
    decreases |es|
  {
    hide Allowed, Watching, Lawful, Happen, AllCreditedInRun, Ripe;
    if es == [] {
      NothingCredited(cfg, dir);
    } else {
      var head, e := es[..|es| - 1], es[|es| - 1];
      LawfulPrefix(es, cfg, dir);
      CreditsAreDeep(head, cfg, dir);
      RunWatches(head, cfg, dir);
      RunRipens(head, cfg, dir);
      HistoryStep(es, cfg, dir);
      hide History;
      assert es == head + [e];
      StepKeepsCredits(head, e, cfg, dir);
    }
  }

  lemma NothingCredited(cfg: Config, dir: Directory)
    ensures AllCreditedInRun([], cfg, dir, History([], cfg, dir).a.s)
  {}

  lemma StepKeepsCredits(es: seq<Event>, e: Event, cfg: Config, dir: Directory)
    requires AllCreditedInRun(es, cfg, dir, History(es, cfg, dir).a.s)
    requires var w := History(es, cfg, dir);
      Sensible(cfg) && Watching(w, cfg, dir) && Allowed(w, e, cfg, dir) && Ripe(w, cfg, dir)
    ensures AllCreditedInRun(es + [e], cfg, dir, Happen(History(es, cfg, dir), e, cfg, dir).a.s)
  {
    hide Allowed, Watching, Happen, History, AllCreditedInRun, Ripe;
    match e
    case Pay(op) => PayAllowed(History(es, cfg, dir), op, cfg, dir); PayKeepsCredits(es, op, cfg, dir);
    case PollOn(chain, now) => PollKeepsCredits(es, chain, now, cfg, dir);
  }

  lemma HistoryStep(es: seq<Event>, cfg: Config, dir: Directory)
    requires es != []
    ensures History(es, cfg, dir) == Happen(History(es[..|es| - 1], cfg, dir), es[|es| - 1], cfg, dir)
  {
    hide Happen;
  }

  lemma PayKeepsCredits(es: seq<Event>, op: Op, cfg: Config, dir: Directory)
    requires PayOk(op) && AllCreditedInRun(es, cfg, dir, History(es, cfg, dir).a.s)
    ensures AllCreditedInRun(es + [Pay(op)], cfg, dir, Happen(History(es, cfg, dir), Pay(op), cfg, dir).a.s)
  {
    hide CreditedInRun, Apply, History;
    var s := History(es, cfg, dir).a.s;
    var t := Step(History(es, cfg, dir).a, op).s;
    PayLeavesDeposits(s, op);
    forall j | 0 <= j < |t.deposits| && t.deposits[j].origin == Real && t.deposits[j].creditedAt.Some?
      ensures CreditedInRun(es + [Pay(op)], cfg, dir, t.deposits[j])
    {
      if t.deposits != s.deposits {
        assert t.deposits[..|s.deposits|][j] == s.deposits[j];
      }
      CreditedEarlier(es, Pay(op), cfg, dir, s.deposits[j], t.deposits[j]);
    }
  }

  lemma PollKeepsCredits(es: seq<Event>, chain: seq<Block>, now: int, cfg: Config, dir: Directory)
    requires AllCreditedInRun(es, cfg, dir, History(es, cfg, dir).a.s)
    requires var w := History(es, cfg, dir);
      Sensible(cfg) && Watching(w, cfg, dir) && Allowed(w, PollOn(chain, now), cfg, dir) && Ripe(w, cfg, dir)
    ensures AllCreditedInRun(es + [PollOn(chain, now)], cfg, dir,
                             Happen(History(es, cfg, dir), PollOn(chain, now), cfg, dir).a.s)
  {
    hide Poll, History, Watching, Allowed, Ripe, CreditedInRun, Mature, Anchor, OnChain;
    var w, e, v := History(es, cfg, dir), PollOn(chain, now), View(cfg, chain, dir, now);
    var p := Poll(w.a.s, v);
    PollSafe(w, chain, now, cfg, dir);
    if !p.failed {
      PollSettles(w, chain, now, cfg, dir);
    }
    var t := p.s;
    forall j | 0 <= j < |t.deposits| && t.deposits[j].origin == Real && t.deposits[j].creditedAt.Some?
      ensures CreditedInRun(es + [e], cfg, dir, t.deposits[j])
    {
      var d := t.deposits[j];
      if p.failed {
        CreditedEarlier(es, e, cfg, dir, d, d);
      } else if WasCredited(w.a.s, d) {
        var i :| 0 <= i < |w.a.s.deposits| && From(d, w.a.s.deposits[i]);
        CreditedEarlier(es, e, cfg, dir, w.a.s.deposits[i], d);
      } else {
        LiveIsOnChain(p.s, v, d);
        CreditedLast(es, e, cfg, dir, d);
      }
    }
  }

  lemma LiveIsOnChain(s: Store, v: View, d: Deposit)
    requires Anchor(s, v) && d in s.deposits && d.origin == Real && d.reorgedAt.None?
    ensures OnChain(v.chain, d)
  {
    assert RowSafe(v, s.cursors[CURSOR_KEY].lastBlock, d);
  }

  lemma CreditedLast(es: seq<Event>, e: Event, cfg: Config, dir: Directory, d: Deposit)
    requires e.PollOn? && CreditedBy(View(cfg, e.chain, dir, e.now), d) && OnChain(e.chain, d)
    requires !Poll(History(es, cfg, dir).a.s, View(cfg, e.chain, dir, e.now)).failed
    ensures CreditedInRun(es + [e], cfg, dir, d)
  {
    assert (es + [e])[|es|] == e && (es + [e])[..|es|] == es;
  }
}
