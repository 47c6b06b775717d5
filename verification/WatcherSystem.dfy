/** The whole custody system: payments, operator credits and polls on changing chains, in any order. */
module WatcherSystem {
  import opened Basics
  import opened Ledger
  import opened Conservation
  import opened Attribution
  import opened WatcherSpec
  import opened WatcherSafety
  import opened WatcherRuns
  import opened WatcherCompleteness

  /** The audited store, the chain of the last completed poll, and the first height to be covered. */
  datatype World = World(a: Audit, chain: seq<Block>, start: int)

  datatype Event = Pay(op: Op) | PollOn(chain: seq<Block>, now: int)

  ghost function Happen(w: World, e: Event, cfg: Config, dir: Directory): World {
    match e
    case Pay(op) => w.(a := Step(w.a, op))
    case PollOn(chain, now) =>
      var p := Poll(w.a.s, View(cfg, chain, dir, now));
      if p.failed then w.(a := w.a.(s := p.s))
      else World(w.a.(s := p.s), chain,
                 if CURSOR_KEY in w.a.s.cursors then w.start
                 else if cfg.startHeight.Some? then cfg.startHeight.value else |chain|)
  }

  /** Between polls: payments and maintenance, and operator credits that are marked as such. */
  predicate PayOk(op: Op) {
    match op
    case OpInsert(_) => false
    case OpRemine(_, _, _, _, _) => false
    case OpConfirm(_, _) => false
    case OpCredit(_, _) => false
    case OpMark(_, _) => false
    case OpMint(d, _) => d.origin == Simulated && d.blockHeight <= 0
    case _ => true
  }

  /** The hypotheses about the node at one poll. */
  ghost predicate Allowed(w: World, e: Event, cfg: Config, dir: Directory) {
    match e
    case Pay(op) => PayOk(op)
    case PollOn(chain, now) => Regular(chain, dir) && Successive(w.chain, chain) && Alien(w.a.s, chain)
  }

  ghost predicate Watching(w: World, cfg: Config, dir: Directory) {
    && Inv(w.a)
    && if CURSOR_KEY in w.a.s.cursors then Anchor(w.a.s, View(cfg, w.chain, dir, 0))
       else forall d | d in w.a.s.deposits :: d.origin == Simulated && d.blockHeight <= 0
  }

  // ---------- payments ----------

  lemma PayLeavesDeposits(s: Store, op: Op)
    requires PayOk(op)
    ensures var t := Apply(s, op);
      && t.cursors == s.cursors
      && (t.deposits == s.deposits ||
          (|t.deposits| == |s.deposits| + 1 && t.deposits[..|s.deposits|] == s.deposits &&
           t.deposits[|s.deposits|].origin == Simulated && t.deposits[|s.deposits|].blockHeight <= 0))
  {
    if op.OpMint? {
      DepositOpsLeaveRequests(s, op);
      MintAppends(s, op.deposit, op.at);
    } else {
      hide Apply;
      RequestOpsLeaveDeposits(s, op);
    }
  }

  /** An operator credit changes the deposits only by its own new row. */
  lemma MintAppends(s: Store, d: DepositInput, at: int)
    ensures var t := InsertAndCredit(s, d, at).0;
      || t.deposits == s.deposits
      || (|t.deposits| == |s.deposits| + 1 && t.deposits[..|s.deposits|] == s.deposits &&
          t.deposits[|s.deposits|].origin == d.origin && t.deposits[|s.deposits|].blockHeight == d.blockHeight)
  {
    hide Solvent, FindDeposit;
    var s1 := InsertDeposit(s, d).0;
    if s1 != s {
      assert Credit(s1, |s1.deposits|, at).0.deposits[..|s.deposits|] == s.deposits;
    }
  }

  lemma PaySafe(w: World, op: Op, cfg: Config, dir: Directory)
    requires Watching(w, cfg, dir) && PayOk(op)
    ensures Watching(Happen(w, Pay(op), cfg, dir), cfg, dir)
  {
    hide Inv, RowSafe, Apply;
    PayLeavesDeposits(w.a.s, op);
    StepKeeps(w.a, op);
    var s, t := w.a.s, Step(w.a, op).s;
    var v := View(cfg, w.chain, dir, 0);
    forall d | d in t.deposits ensures d in s.deposits || (d.origin == Simulated && d.blockHeight <= 0) {
      var i :| 0 <= i < |t.deposits| && t.deposits[i] == d;
      if i < |s.deposits| {
        assert t.deposits[..|s.deposits|][i] == s.deposits[i];
      }
    }
    if CURSOR_KEY in s.cursors {
      forall d | d in t.deposits ensures RowSafe(v, s.cursors[CURSOR_KEY].lastBlock, d) {
        if d !in s.deposits { OperatorRowSafe(v, s.cursors[CURSOR_KEY].lastBlock, d); }
      }
    }
  }

  lemma OperatorRowSafe(v: View, top: int, d: Deposit)
    requires d.origin == Simulated && d.blockHeight <= 0
    ensures RowSafe(v, top, d)
  {}

  // ---------- polls ----------

  lemma FirstAnchor(s: Store, v: View, height: int)
    requires Known(v, height) && forall d | d in s.deposits :: d.origin == Simulated && d.blockHeight <= 0
    ensures Anchor(SetCursor(s, v, height), v) && NoReturn(SetCursor(s, v, height), v)
  {}

  /** `Anchor` does not look at the clock. */
  lemma AnchorAnyTime(s: Store, v: View, w: View)
    requires v == w.(now := v.now) && Anchor(s, v)
    ensures Anchor(s, w)
  {
    hide Genuine;
    forall d | d in s.deposits ensures RowSafe(w, s.cursors[CURSOR_KEY].lastBlock, d) {
      assert RowSafe(v, s.cursors[CURSOR_KEY].lastBlock, d);
      if d.origin == Real { GenuineElsewhere(v, w, d); }
    }
  }

  /** A poll completes unless the block it needs first is not on the chain; then it changes nothing. */
  predicate Completes(s: Store, v: View) {
    if CURSOR_KEY in s.cursors then Known(v, s.cursors[CURSOR_KEY].lastBlock)
    else Known(v, if v.cfg.startHeight.Some? then v.cfg.startHeight.value - 1 else Tip(v))
  }

  lemma PollSafe(w: World, chain: seq<Block>, now: int, cfg: Config, dir: Directory)
    requires Sensible(cfg) && Watching(w, cfg, dir) && Allowed(w, PollOn(chain, now), cfg, dir)
    ensures Watching(Happen(w, PollOn(chain, now), cfg, dir), cfg, dir)
    ensures var v := View(cfg, chain, dir, now);
      var p := Poll(w.a.s, v);
      && (p.failed <==> !Completes(w.a.s, v))
      && (p.failed ==> p.s == w.a.s)
      && (!p.failed ==> Anchor(p.s, v))
  {
    hide Inv, Safe, Regular, HashFixes, Alien, Advance, RowSafe;
    var s := w.a.s;
    var u, v := View(cfg, w.chain, dir, 0), View(cfg, chain, dir, now);
    var start := Progress(s, Blank(v), false);
    var p := Poll(s, v);
    if CURSOR_KEY in s.cursors {
      AdvanceSafe(start, w.a.purged, u, v, s.cursors[CURSOR_KEY]);
    } else if Completes(s, v) {
      var height := if cfg.startHeight.Some? then cfg.startHeight.value - 1 else Tip(v);
      FirstAnchor(s, v, height);
      var placed := start.(s := SetCursor(s, v, height));
      CursorsAreAside(w.a, placed.s.cursors);
      if cfg.startHeight.Some? {
        SelfSuccessive(chain, dir);
        assert Alien(placed.s, chain) by { SameAliens(s, placed.s, chain); }
        AdvanceSafe(placed, w.a.purged, v, v, placed.s.cursors[CURSOR_KEY]);
      }
    }
    if !p.failed {
      AnchorAnyTime(p.s, v, v.(now := 0));
    }
  }

  lemma SelfSuccessive(chain: seq<Block>, dir: Directory)
    requires Regular(chain, dir)
    ensures Successive(chain, chain)
  {}

  // ---------- runs ----------

  const BEGIN := World(Audit(EMPTY, []), [], 0)

  ghost function History(es: seq<Event>, cfg: Config, dir: Directory): World {
    if es == [] then BEGIN else Happen(History(es[..|es| - 1], cfg, dir), es[|es| - 1], cfg, dir)
  }

  ghost predicate Lawful(es: seq<Event>, cfg: Config, dir: Directory) {
    forall i | 0 <= i < |es| :: Allowed(History(es[..i], cfg, dir), es[i], cfg, dir)
  }

  lemma LawfulPrefix(es: seq<Event>, cfg: Config, dir: Directory)
    requires Lawful(es, cfg, dir) && es != []
    ensures Lawful(es[..|es| - 1], cfg, dir)
    ensures Allowed(History(es[..|es| - 1], cfg, dir), es[|es| - 1], cfg, dir)
  {
    hide Allowed, Happen;
    var head := es[..|es| - 1];
    forall i | 0 <= i < |head| ensures Allowed(History(head[..i], cfg, dir), head[i], cfg, dir) {
      assert head[..i] == es[..i] && Allowed(History(es[..i], cfg, dir), es[i], cfg, dir);
    }
  }

  lemma {:induction false} RunWatches(es: seq<Event>, cfg: Config, dir: Directory)
    requires Sensible(cfg) && Lawful(es, cfg, dir)
    ensures Watching(History(es, cfg, dir), cfg, dir)
    decreases |es|
  {
    if es == [] {
      InvInit();
    } else {
      hide Allowed, Happen, Watching, Lawful;
      LawfulPrefix(es, cfg, dir);
      RunWatches(es[..|es| - 1], cfg, dir);
      match es[|es| - 1]
      case Pay(op) =>
        PayAllowed(History(es[..|es| - 1], cfg, dir), op, cfg, dir);
        PaySafe(History(es[..|es| - 1], cfg, dir), op, cfg, dir);
      case PollOn(chain, now) => PollSafe(History(es[..|es| - 1], cfg, dir), chain, now, cfg, dir);
    }
  }

  lemma PayAllowed(w: World, op: Op, cfg: Config, dir: Directory)
    requires Allowed(w, Pay(op), cfg, dir)
    ensures PayOk(op)
  {}

  /** The custody guarantee over every run: the books balance for every identity; every live real row is an
      output of the last polled chain, at its recorded height and hash, that pays the operator its recorded
      amount; it is recorded once; and it was credited only at sufficient depth. */
  lemma LiveRowsAreBacked(es: seq<Event>, cfg: Config, dir: Directory)
    requires Sensible(cfg) && Lawful(es, cfg, dir)
    ensures var w := History(es, cfg, dir);
      && (forall who :: Balanced(w.a, who))
      && (forall d | d in w.a.s.deposits && d.origin == Real && d.reorgedAt.None? ::
            && OnChain(w.chain, d)
            && Genuine(View(cfg, w.chain, dir, 0), d)
            && (d.creditedAt.Some? ==> d.confirmations >= cfg.minConfirmations))
      && (forall i, j | 0 <= i < j < |w.a.s.deposits| ::
            (w.a.s.deposits[i].txid, w.a.s.deposits[i].vout) != (w.a.s.deposits[j].txid, w.a.s.deposits[j].vout))
  {
    RunWatches(es, cfg, dir);
    var w := History(es, cfg, dir);
    var v := View(cfg, w.chain, dir, 0);
    forall d | d in w.a.s.deposits && d.origin == Real && d.reorgedAt.None?
      ensures OnChain(w.chain, d) && Genuine(v, d) && (d.creditedAt.Some? ==> d.confirmations >= cfg.minConfirmations)
    {
      assert RowSafe(v, w.a.s.cursors[CURSOR_KEY].lastBlock, d);
    }
  }

  // ---------- completeness over runs ----------

  /** No reorg forks below the lookback floor, and no abandoned branch returns. */
  ghost predicate Calm(w: World, e: Event, cfg: Config, dir: Directory) {
    e.PollOn? ==>
      var u, v := View(cfg, w.chain, dir, 0), View(cfg, e.chain, dir, e.now);
      && NoReturn(w.a.s, v)
      && (CURSOR_KEY in w.a.s.cursors ==> ShallowFork(u, v, w.a.s.cursors[CURSOR_KEY]))
  }

  ghost predicate Covered(w: World, cfg: Config, dir: Directory) {
    CURSOR_KEY in w.a.s.cursors ==>
      Complete(w.a.s, View(cfg, w.chain, dir, 0), w.start, w.a.s.cursors[CURSOR_KEY].lastBlock + 1)
  }

  lemma CompleteAnyTime(s: Store, v: View, w: View, from: int, end: int)
    requires v == w.(now := v.now) && Complete(s, v, from, end)
    ensures Complete(s, w, from, end)
  {
    hide Attribute, Booked;
    forall h | from <= h < end && Known(w, h) ensures TxsBooked(s, w, h, |w.chain[h].txs|) {
      assert TxsBooked(s, v, h, |v.chain[h].txs|);
      forall t | 0 <= t < |w.chain[h].txs| ensures OutsBooked(s, w, h, t, |w.chain[h].txs[t].vouts|) {
        var tx := w.chain[h].txs[t];
        assert OutsBooked(s, v, h, t, |tx.vouts|);
        forall o | 0 <= o < |tx.vouts| && Wanted(w, tx, tx.vouts[o]) ensures Booked(s, w, h, tx.txid, tx.vouts[o].n) {
          assert Wanted(v, tx, tx.vouts[o]);
          BookedAnyTime(s, v, w, h, tx.txid, tx.vouts[o].n);
        }
      }
    }
  }

  lemma BookedAnyTime(s: Store, v: View, w: View, h: int, txid: string, n: int)
    requires v == w.(now := v.now) && Known(v, h) && Booked(s, v, h, txid, n)
    ensures Booked(s, w, h, txid, n)
  {
    var i :| 0 <= i < |s.deposits| && IsBooking(v, h, txid, n, s.deposits[i]);
    assert IsBooking(w, h, txid, n, s.deposits[i]);
  }

  lemma PollCovers(w: World, chain: seq<Block>, now: int, cfg: Config, dir: Directory)
    requires Sensible(cfg) && Watching(w, cfg, dir) && Allowed(w, PollOn(chain, now), cfg, dir)
    requires Calm(w, PollOn(chain, now), cfg, dir) && Covered(w, cfg, dir)
    ensures Covered(Happen(w, PollOn(chain, now), cfg, dir), cfg, dir)
    ensures var p := Poll(w.a.s, View(cfg, chain, dir, now));
      !p.failed && !p.res.bootstrapped ==> Mature(p.s, View(cfg, chain, dir, now))
  {
    PollSafe(w, chain, now, cfg, dir);
    hide Inv, Safe, Regular, HashFixes, Alien, Advance, RowSafe, TxsBooked, NoReturn, Mature;
    var s := w.a.s;
    var u, v := View(cfg, w.chain, dir, 0), View(cfg, chain, dir, now);
    var start := Progress(s, Blank(v), false);
    var p := Poll(s, v);
    if !p.failed {
      if CURSOR_KEY in s.cursors {
        AdvanceComplete(start, w.a.purged, u, v, s.cursors[CURSOR_KEY], w.start);
        CompleteAnyTime(p.s, v, v.(now := 0), w.start, p.s.cursors[CURSOR_KEY].lastBlock + 1);
      } else {
        var height := if cfg.startHeight.Some? then cfg.startHeight.value - 1 else Tip(v);
        FirstAnchor(s, v, height);
        var placed := start.(s := SetCursor(s, v, height));
        if cfg.startHeight.Some? {
          CursorsAreAside(w.a, placed.s.cursors);
          SelfSuccessive(chain, dir);
          assert Alien(placed.s, chain) by { SameAliens(s, placed.s, chain); }
          AdvanceComplete(placed, w.a.purged, v, v, placed.s.cursors[CURSOR_KEY], height + 1);
          CompleteAnyTime(p.s, v, v.(now := 0), height + 1, p.s.cursors[CURSOR_KEY].lastBlock + 1);
        }
      }
    }
  }

  lemma PayCovers(w: World, op: Op, cfg: Config, dir: Directory)
    requires PayOk(op) && Covered(w, cfg, dir)
    ensures Covered(Happen(w, Pay(op), cfg, dir), cfg, dir)
  {
    hide Apply, Kept, TxsBooked;
    PayLeavesDeposits(w.a.s, op);
    if CURSOR_KEY in w.a.s.cursors {
      var v := View(cfg, w.chain, dir, 0);
      var t := Step(w.a, op).s;
      if t.deposits == w.a.s.deposits {
        assert t.deposits[..|w.a.s.deposits|] == w.a.s.deposits;
      }
      AppendKeeps(w.a.s, t, v);
      KeptBlocks(w.a.s, t, v, w.start, w.a.s.cursors[CURSOR_KEY].lastBlock + 1);
    }
  }

  ghost predicate AllCalm(es: seq<Event>, cfg: Config, dir: Directory) {
    forall i | 0 <= i < |es| :: Calm(History(es[..i], cfg, dir), es[i], cfg, dir)
  }

  lemma AllCalmPrefix(es: seq<Event>, cfg: Config, dir: Directory)
    requires AllCalm(es, cfg, dir) && es != []
    ensures AllCalm(es[..|es| - 1], cfg, dir)
    ensures Calm(History(es[..|es| - 1], cfg, dir), es[|es| - 1], cfg, dir)
  {
    hide Calm, Happen;
    var head := es[..|es| - 1];
    forall i | 0 <= i < |head| ensures Calm(History(head[..i], cfg, dir), head[i], cfg, dir) {
      assert head[..i] == es[..i] && Calm(History(es[..i], cfg, dir), es[i], cfg, dir);
    }
  }

  /** Completeness over every run without deep forks and returning branches: every attributable output that
      pays the operator in the blocks from the start height up to the cursor has its live row. */
  lemma {:induction false} RunCovers(es: seq<Event>, cfg: Config, dir: Directory)
    requires Sensible(cfg) && Lawful(es, cfg, dir) && AllCalm(es, cfg, dir)
    ensures Covered(History(es, cfg, dir), cfg, dir)
    decreases |es|
  {
    if es != [] {
      hide Allowed, Happen, Watching, Lawful, Calm, AllCalm, Covered;
      var head := es[..|es| - 1];
      LawfulPrefix(es, cfg, dir);
      AllCalmPrefix(es, cfg, dir);
      RunCovers(head, cfg, dir);
      RunWatches(head, cfg, dir);
      match es[|es| - 1]
      case Pay(op) =>
        PayAllowed(History(head, cfg, dir), op, cfg, dir);
        PayCovers(History(head, cfg, dir), op, cfg, dir);
      case PollOn(chain, now) => PollCovers(History(head, cfg, dir), chain, now, cfg, dir);
    }
  }

  // ---------- catching up ----------

  ghost function PollTimes(s: Store, v: View, k: nat): Progress {
    if k == 0 then Progress(s, Blank(v), false)
    else
      var p := PollTimes(s, v, k - 1);
      if p.failed then p else Poll(p.s, v)
  }

  /** Where the cursor stands after `k` capped scans. */
  function Reach(tip: int, from: int, k: nat, cap: int): int {
    Min(tip, from + k * cap)
  }

  /** A state on which polls of the snapshot are sure to complete, with its cursor at `height`. */
  ghost predicate Standing(s: Store, purged: seq<map<string, Request>>, v: View, height: int) {
    && Inv(Audit(s, purged)) && Anchor(s, v) && Alien(s, v.chain)
    && s.cursors[CURSOR_KEY].lastBlock == height
  }

  /** On a fixed tip each poll completes and moves the cursor up by the block cap, until it stands at the tip. */
  lemma CatchesUp(a: Audit, v: View, k: nat)
    requires Sensible(v.cfg) && Regular(v.chain, v.dir) && Inv(a) && Anchor(a.s, v) && Alien(a.s, v.chain)
    ensures var p := PollTimes(a.s, v, k);
      && !p.failed && Inv(Audit(p.s, a.purged)) && Anchor(p.s, v) && Alien(p.s, v.chain)
      && p.s.cursors[CURSOR_KEY].lastBlock == Min(Tip(v), a.s.cursors[CURSOR_KEY].lastBlock + k * v.cfg.maxBlocks)
  {
    hide PollTimes, Inv, Alien, Regular, Safe;
    CatchUpSteps(a.s, a.purged, v, a.s.cursors[CURSOR_KEY].lastBlock, k);
  }

  lemma {:induction false} CatchUpSteps(s: Store, purged: seq<map<string, Request>>, v: View, c: int, k: nat)
    requires Sensible(v.cfg) && Regular(v.chain, v.dir) && Standing(s, purged, v, c)
    ensures var p := PollTimes(s, v, k);
      !p.failed && Standing(p.s, purged, v, Reach(Tip(v), c, k, v.cfg.maxBlocks))
  {
    hide Regular, Poll, Reach, Standing;
    if k == 0 {
      ReachStarts(s, purged, v, c);
    } else {
      CatchUpSteps(s, purged, v, c, k - 1);
      ReachNext(Tip(v), c, k, v.cfg.maxBlocks);
      OnePollAdvances(PollTimes(s, v, k - 1).s, purged, v, Reach(Tip(v), c, k - 1, v.cfg.maxBlocks));
    }
  }

  lemma ReachStarts(s: Store, purged: seq<map<string, Request>>, v: View, c: int)
    requires Standing(s, purged, v, c)
    ensures Reach(Tip(v), c, 0, v.cfg.maxBlocks) == c
  {
    assert 0 * v.cfg.maxBlocks == 0;
  }

  lemma ReachNext(tip: int, c: int, k: nat, m: int)
    requires k > 0 && m > 0
    ensures Min(tip, Reach(tip, c, k - 1, m) + m) == Reach(tip, c, k, m)
  {
    assert k * m == (k - 1) * m + m;
  }

  lemma OnePollAdvances(s: Store, purged: seq<map<string, Request>>, v: View, height: int)
    requires Sensible(v.cfg) && Regular(v.chain, v.dir) && Standing(s, purged, v, height)
    ensures var p := Poll(s, v);
      !p.failed && Standing(p.s, purged, v, Min(Tip(v), height + v.cfg.maxBlocks))
  {
    hide Inv, Safe, Regular, Alien, RowSafe, Scan, CreditRows, Uncredited, Sound, SettledUpTo, MarkRows;
    var start := Progress(s, Blank(v), false);
    var cursor := s.cursors[CURSOR_KEY];
    SelfSuccessive(v.chain, v.dir);
    AdvanceSafe(start, purged, v, v, cursor);
    DetectSound(start, purged, v, v, cursor);
    ScanAnchors(start, purged, v, cursor, cursor.lastBlock + 1);
    var scanned := Scan(start, v, cursor.lastBlock + 1);
    ScanAliens(start, purged, v, cursor);
    assert scanned.s.deposits[..|scanned.s.deposits|] == scanned.s.deposits;
    CreditRowsEffect(scanned, purged, v, |scanned.s.deposits|);
    var credited := CreditRows(scanned, Uncredited(scanned.s.deposits), v);
    SettledCursors(scanned.s, credited.s, v, |scanned.s.deposits|);
    SettledAliens(scanned.s, credited.s, v);
  }

  lemma SettledAliens(s: Store, s1: Store, v: View)
    requires SettledUpTo(s, s1, v, |s.deposits|) && Alien(s, v.chain)
    ensures Alien(s1, v.chain)
  {
    SameAliens(s, s1, v.chain);
  }

  lemma ScanAliens(p: Progress, purged: seq<map<string, Request>>, v: View, cursor: Cursor)
    requires Sensible(v.cfg) && Regular(v.chain, v.dir) && Sound(p, purged, v, cursor.lastBlock)
    requires Known(v, cursor.lastBlock)
    ensures Alien(Scan(p, v, cursor.lastBlock + 1).s, v.chain)
  {
    hide Inv, RowSafe, Regular, ScanBlocks, Sound, Alien;
    var from := cursor.lastBlock + 1;
    var last := ScanTo(v, from);
    SoundParts(p, purged, v, cursor.lastBlock);
    if from <= last {
      HigherTop(p.s, v, cursor.lastBlock, last);
      SoundAt(p, purged, v, cursor.lastBlock, last);
      ScanBlocksSound(p, purged, v, last, from, last + 1);
      var scanned := ScanBlocks(p, v, from, last + 1);
      SoundParts(scanned, purged, v, last);
      SameAliens(scanned.s, SetCursor(scanned.s, v, last), v.chain);
    }
  }
}
