/** A branch that is abandoned and comes back: its payments stay marked as reorged. */
module ReturningBranch {
  import opened Basics
  import opened Ledger
  import opened Conservation
  import opened Attribution
  import opened WatcherSpec
  import opened WatcherSafety
  import opened WatcherRuns
  import opened WatcherCompleteness
  import opened WatcherSystem

  /** On this chain the row's transaction occurs nowhere, or only in a block with the recorded hash. */
  ghost predicate Untouched(v: View, d: Deposit) {
    forall h, t | Known(v, h) && 0 <= t < |v.chain[h].txs| && v.chain[h].txs[t].txid == d.txid ::
      v.chain[h].hash == d.blockHash
  }

  /** The same output, recorded in the same block. */
  predicate SamePlace(d: Deposit, e: Deposit) {
    && d.txid == e.txid && d.vout == e.vout && d.origin == e.origin
    && d.blockHeight == e.blockHeight && d.blockHash == e.blockHash
  }

  // ---------- one poll leaves such a row alone ----------

  ghost predicate Holds(s: Store, i: nat, d: Deposit) {
    i < |s.deposits| && s.deposits[i] == d
  }

  lemma ScanOutHolds(p: Progress, v: View, height: int, t: nat, o: nat, i: nat, d: Deposit)
    requires Known(v, height) && t < |v.chain[height].txs| && o < |v.chain[height].txs[t].vouts|
    requires Holds(p.s, i, d) && Untouched(v, d)
    ensures Holds(ScanOut(p, v.chain[height].txs[t], v.chain[height].txs[t].vouts[o], v, height).s, i, d)
  {
    hide Attribute, FindDeposit;
  }

  lemma {:induction false} ScanOutsHolds(p: Progress, v: View, height: int, t: nat, k: nat, i: nat, d: Deposit)
    requires Known(v, height) && t < |v.chain[height].txs| && k <= |v.chain[height].txs[t].vouts|
    requires Holds(p.s, i, d) && Untouched(v, d)
    ensures Holds(ScanOuts(p, v.chain[height].txs[t], k, v, height).s, i, d)
  {
    hide Holds, Untouched, ScanOut;
    if k > 0 {
      ScanOutsHolds(p, v, height, t, k - 1, i, d);
      ScanOutHolds(ScanOuts(p, v.chain[height].txs[t], k - 1, v, height), v, height, t, k - 1, i, d);
    }
  }

  lemma {:induction false} ScanTxsHolds(p: Progress, v: View, height: int, k: nat, i: nat, d: Deposit)
    requires Known(v, height) && k <= |v.chain[height].txs| && Holds(p.s, i, d) && Untouched(v, d)
    ensures Holds(ScanTxs(p, k, v, height).s, i, d)
  {
    hide Holds, Untouched, ScanOuts;
    if k > 0 {
      ScanTxsHolds(p, v, height, k - 1, i, d);
      ScanOutsHolds(ScanTxs(p, k - 1, v, height), v, height, k - 1, |v.chain[height].txs[k - 1].vouts|, i, d);
    }
  }

  lemma {:induction false} ScanBlocksHolds(p: Progress, v: View, from: int, end: int, i: nat, d: Deposit)
    requires 0 <= from <= end <= |v.chain| && Holds(p.s, i, d) && Untouched(v, d)
    ensures Holds(ScanBlocks(p, v, from, end).s, i, d)
    decreases end - from
  {
    hide Holds, Untouched, ScanTxs;
    if from < end {
      ScanBlocksHolds(p, v, from, end - 1, i, d);
      ScanTxsHolds(ScanBlocks(p, v, from, end - 1), v, end - 1, |v.chain[end - 1].txs|, i, d);
    }
  }

  lemma ScanHolds(p: Progress, v: View, from: int, i: nat, d: Deposit)
    requires Holds(p.s, i, d) && Untouched(v, d)
    ensures Holds(Scan(p, v, from).s, i, d)
  {
    hide Untouched, ScanBlocks;
    var last := ScanTo(v, from);
    if from >= 0 && from <= last {
      ScanBlocksHolds(p, v, from, last + 1, i, d);
    }
  }

  lemma DetectHolds(p: Progress, purged: seq<map<string, Request>>, v: View, w: View, cursor: Cursor, i: nat,
                    d: Deposit)
    requires !p.failed && Inv(Audit(p.s, purged)) && Safe(p.s, v, cursor.lastBlock) && Known(w, cursor.lastBlock)
    requires Holds(p.s, i, d)
    ensures Holds(Detect(p, w, cursor).0.s, i, d) || Holds(Detect(p, w, cursor).0.s, i, Remark(w, d))
  {
    hide Inv, Safe, MarkRows, AtOrAbove, Remark;
    if w.chain[cursor.lastBlock].hash != cursor.lastBlockHash {
      var floor := Floor(w, cursor.lastBlock);
      var flagged := p.(res := p.res.(flags := p.res.flags + [ReorgDetected(cursor.lastBlock, floor)]));
      MarkAll(flagged, purged, v, w, cursor.lastBlock, floor);
    }
  }

  lemma AdvanceHolds(p: Progress, purged: seq<map<string, Request>>, v: View, w: View, cursor: Cursor, i: nat,
                     d: Deposit)
    requires v.cfg == w.cfg && v.dir == w.dir && Successive(v.chain, w.chain)
    requires Sensible(w.cfg) && Regular(w.chain, w.dir) && Alien(p.s, w.chain)
    requires !p.failed && Inv(Audit(p.s, purged)) && Anchor(p.s, v) && p.s.cursors[CURSOR_KEY] == cursor
    requires Known(w, cursor.lastBlock) && Holds(p.s, i, d) && Untouched(w, d)
    ensures var t := Advance(p, w, cursor).s;
      i < |t.deposits| && SamePlace(d, t.deposits[i]) && (d.reorgedAt.Some? ==> t.deposits[i] == d)
  {
    hide Inv, Alien, RowSafe, Regular, Safe, Scan, Detect, CreditRows, Uncredited, MarkRows, Sound, Untouched;
    AdvanceSafe(p, purged, v, w, cursor);
    DetectSound(p, purged, v, w, cursor);
    DetectHolds(p, purged, v, w, cursor, i, d);
    var (marked, from) := Detect(p, w, cursor);
    ScanAnchors(marked, purged, w, cursor, from);
    var kept := marked.s.deposits[i];
    StillUntouched(w, d);
    ScanHolds(marked, w, from, i, kept);
    var scanned := Scan(marked, w, from);
    assert scanned.s.deposits[..|scanned.s.deposits|] == scanned.s.deposits;
    CreditRowsEffect(scanned, purged, w, |scanned.s.deposits|);
  }

  lemma StillUntouched(v: View, d: Deposit)
    requires Untouched(v, d)
    ensures Untouched(v, Remark(v, d))
  {}

  // ---------- the failing family ----------

  lemma PollHolds(w: World, chain: seq<Block>, now: int, cfg: Config, dir: Directory, i: nat, d: Deposit)
    requires Sensible(cfg) && Watching(w, cfg, dir) && Allowed(w, PollOn(chain, now), cfg, dir)
    requires CURSOR_KEY in w.a.s.cursors && w.a.s.cursors[CURSOR_KEY].lastBlock < |chain|
    requires Holds(w.a.s, i, d) && Untouched(View(cfg, chain, dir, now), d)
    ensures var w1 := Happen(w, PollOn(chain, now), cfg, dir);
      && w1.chain == chain && Watching(w1, cfg, dir) && CURSOR_KEY in w1.a.s.cursors
      && Anchor(w1.a.s, View(cfg, chain, dir, now))
      && i < |w1.a.s.deposits| && SamePlace(d, w1.a.s.deposits[i])
      && (d.reorgedAt.Some? ==> w1.a.s.deposits[i] == d)
  {
    PollSafe(w, chain, now, cfg, dir);
    hide Inv, Regular, HashFixes, Alien, Advance, RowSafe, Untouched, Holds, Safe;
    var v := View(cfg, chain, dir, now);
    AdvanceHolds(Progress(w.a.s, Blank(v), false), w.a.purged, View(cfg, w.chain, dir, 0), v, w.a.s.cursors[CURSOR_KEY],
                 i, d);
  }

  /** The block of the row is not on this chain. */
  predicate Gone(chain: seq<Block>, d: Deposit) {
    !(0 <= d.blockHeight < |chain|) || chain[d.blockHeight].hash != d.blockHash
  }

  /** Every such case: a live real row loses its block to a chain without its transaction; whatever chain is
      polled next, if it brings the very block back, the payment stands on it at its recorded height and hash,
      and has no live row. */
  lemma ReturningBranchIsMissed(w: World, away: seq<Block>, back: seq<Block>, now: int, later: int, cfg: Config,
                                dir: Directory, i: nat, d: Deposit)
    requires Sensible(cfg) && Watching(w, cfg, dir) && CURSOR_KEY in w.a.s.cursors && Holds(w.a.s, i, d)
    requires d.origin == Real && d.reorgedAt.None?
    requires Allowed(w, PollOn(away, now), cfg, dir) && w.a.s.cursors[CURSOR_KEY].lastBlock < |away|
    requires Gone(away, d) && Untouched(View(cfg, away, dir, now), d)
    requires var w1 := Happen(w, PollOn(away, now), cfg, dir);
      && Allowed(w1, PollOn(back, later), cfg, dir)
      && (CURSOR_KEY in w1.a.s.cursors ==> w1.a.s.cursors[CURSOR_KEY].lastBlock < |back|)
    requires !Gone(back, d) && Untouched(View(cfg, back, dir, later), d)
    ensures var w2 := Happen(Happen(w, PollOn(away, now), cfg, dir), PollOn(back, later), cfg, dir);
      && i < |w2.a.s.deposits| && SamePlace(d, w2.a.s.deposits[i]) && w2.a.s.deposits[i].reorgedAt.Some?
      && w2.chain == back
      && !Booked(w2.a.s, View(cfg, back, dir, later), d.blockHeight, d.txid, d.vout)
  {
    PollHolds(w, away, now, cfg, dir, i, d);
    var w1 := Happen(w, PollOn(away, now), cfg, dir);
    var e := w1.a.s.deposits[i];
    hide Allowed, Watching, Happen, Inv, Anchor, Untouched;
    LostRowIsMarked(w1.a.s, View(cfg, away, dir, now), e);
    PlaceUntouched(View(cfg, back, dir, later), d, e);
    PollHolds(w1, back, later, cfg, dir, i, e);
    var w2 := Happen(w1, PollOn(back, later), cfg, dir);
    WatchingInv(w2, cfg, dir);
    MarkedIsNotBooked(w2.a, View(cfg, back, dir, later), d.blockHeight, i);
  }

  lemma LostRowIsMarked(s: Store, v: View, e: Deposit)
    requires Anchor(s, v) && e in s.deposits && e.origin == Real && Gone(v.chain, e)
    ensures e.reorgedAt.Some?
  {
    assert RowSafe(v, s.cursors[CURSOR_KEY].lastBlock, e);
  }

  lemma PlaceUntouched(v: View, d: Deposit, e: Deposit)
    requires Untouched(v, d) && SamePlace(d, e)
    ensures Untouched(v, e)
  {}

  lemma WatchingInv(w: World, cfg: Config, dir: Directory)
    requires Watching(w, cfg, dir)
    ensures Inv(w.a)
  {}

  lemma MarkedIsNotBooked(a: Audit, v: View, height: int, i: nat)
    requires Inv(a) && i < |a.s.deposits| && a.s.deposits[i].reorgedAt.Some? && Known(v, height)
    ensures !Booked(a.s, v, height, a.s.deposits[i].txid, a.s.deposits[i].vout)
  {
    assert WellNumbered(a.s);
    hide Inv;
  }

  // ---------- a concrete run ----------

  const CFG := Config("iOperator", "VRSC", "VRSC", 1000, 1, 10, Some(1))
  const OUT := Vout(0, 5, ["iOperator"])
  const TX := Tx("t", [Vin(false, Some("iPayer"), None, None, None)], [OUT])
  const REPLY := IdentityReply(None, "payer")
  const DIR := Directory((txid: string) => TX, (address: string) => REPLY)
  const GENESIS := Block("g", [])
  const HOME: seq<Block> := [GENESIS, Block("a1", [TX]), Block("a2", [])]
  const AWAY: seq<Block> := [GENESIS, Block("b1", []), Block("b2", [])]

  const ROW := Deposit(1, KeyOf(REPLY, "VRSC"), 5, "t", 0, 1, "a1", 1, 0, None, None, Real, Memo("VRSC", None, None))
  const S0 := EMPTY.(cursors := map[CURSOR_KEY := Cursor(0, "g", 0)])
  const S1 := EMPTY.(deposits := [ROW], cursors := map[CURSOR_KEY := Cursor(2, "a2", 0)])
  const S2 := EMPTY.(deposits := [ROW.(reorgedAt := Some(0))], cursors := map[CURSOR_KEY := Cursor(2, "b2", 0)])

  const S3 := S2.(cursors := map[CURSOR_KEY := Cursor(2, "a2", 0)])

  const AT_HOME := View(CFG, HOME, DIR, 0)
  const ASTRAY := View(CFG, AWAY, DIR, 0)

  lemma PayerIsFound()
    ensures Attribute(TX, DIR, "VRSC") == Sender(KeyOf(REPLY, "VRSC"), "iPayer")
  {
    var senders := Senders(TX, DIR.txOf);
    assert VinAddresses(TX.vins[0], DIR.txOf) == ["iPayer"];
    assert "iPayer" in VinAddresses(TX.vins[0], DIR.txOf);
    assert senders == {"iPayer"};
    assert IdentitySenders(TX, DIR.txOf) == {"iPayer"};
  }

  lemma ScanHome(p: Progress)
    requires p == Progress(S0, Blank(AT_HOME), false)
    ensures var q := ScanBlocks(p, AT_HOME, 1, 3);
      q == p.(s := S0.(deposits := [ROW]), res := p.res.(inserted := 1))
  {
    hide Attribute, KeyOf;
    PayerIsFound();
    assert ScanOuts(p, TX, 0, AT_HOME, 1) == p;
    var q := ScanOut(p, TX, OUT, AT_HOME, 1);
    assert TX.vouts[0] == OUT && "iOperator" in OUT.addresses;
    assert q == p.(s := S0.(deposits := [ROW]), res := p.res.(inserted := 1));
    assert ScanOuts(p, TX, 1, AT_HOME, 1) == q;
    assert HOME[1].txs == [TX] && HOME[2].txs == [];
    assert ScanTxs(p, 0, AT_HOME, 1) == p && ScanTxs(p, 1, AT_HOME, 1) == q;
    assert ScanBlocks(p, AT_HOME, 1, 1) == p;
    assert ScanBlocks(p, AT_HOME, 1, 2) == q;
    assert ScanTxs(q, 0, AT_HOME, 2) == q;
  }

  lemma FirstPoll()
    ensures Poll(EMPTY, AT_HOME).s == S1 && !Poll(EMPTY, AT_HOME).failed
  {
    hide KeyOf, ScanBlocks;
    var p := Progress(S0, Blank(AT_HOME), false);
    ScanHome(p);
    var scanned := Scan(p, AT_HOME, 1);
    assert HOME[2].hash == "a2" && HOME[0].hash == "g";
    assert scanned.s == S1 && !scanned.failed;
    OneWaiting(scanned);
    assert Detect(p, AT_HOME, Cursor(0, "g", 0)) == (p, 1);
  }

  /** The row waits: the chain is not deep enough. */
  lemma OneWaiting(p: Progress)
    requires p.s == S1 && !p.failed
    ensures CreditRows(p, Uncredited(p.s.deposits), AT_HOME) == p
  {
    hide KeyOf;
    assert [ROW][..0] == [];
    assert Uncredited([]) == [];
    assert Uncredited([ROW]) == [ROW];
    assert CreditRows(p, [], AT_HOME) == p;
    assert UpdateConfirmations(S1, 1, 1) == S1;
  }

  lemma SecondPoll()
    ensures Poll(S1, ASTRAY).s == S2 && !Poll(S1, ASTRAY).failed
  {
    hide KeyOf;
    var p := Progress(S1, Blank(ASTRAY), false);
    var cursor := Cursor(2, "a2", 0);
    assert "b2"[0] != "a2"[0] && "b1"[0] != "a1"[0];
    assert AWAY[2].hash == "b2" && AWAY[1].hash == "b1";
    assert [ROW][..0] == [] && AtOrAbove([], 1) == [] && AtOrAbove([ROW], 1) == [ROW];
    var flagged := p.(res := p.res.(flags := p.res.flags + [ReorgDetected(2, 1)]));
    assert MarkRows(flagged, [], ASTRAY, 1) == flagged;
    var marked := MarkRow(flagged, ROW, ASTRAY, 1);
    assert marked.s == S1.(deposits := [ROW.(reorgedAt := Some(0))]) && !marked.failed;
    assert Detect(p, ASTRAY, cursor) == (marked, 1);
    NothingThere(marked);
    var scanned := Scan(marked, ASTRAY, 1);
    assert scanned.s == S2 && !scanned.failed;
    assert Uncredited(S2.deposits[..0]) == [] && Uncredited(S2.deposits) == [];
  }

  lemma NothingThere(p: Progress)
    ensures ScanBlocks(p, ASTRAY, 1, 3) == p
  {
    assert ScanBlocks(p, ASTRAY, 1, 1) == p;
    assert ScanTxs(p, 0, ASTRAY, 1) == p && ScanTxs(p, 0, ASTRAY, 2) == p;
    assert ScanBlocks(p, ASTRAY, 1, 2) == p;
  }

  const RUN: seq<Event> := [PollOn(HOME, 0), PollOn(AWAY, 0), PollOn(HOME, 0)]
  const W1 := World(Audit(S1, []), HOME, 1)
  const W2 := World(Audit(S2, []), AWAY, 1)

  lemma NodeIsLawful()
    ensures Sensible(CFG) && Regular(HOME, DIR) && Regular(AWAY, DIR)
    ensures Successive([], HOME) && Successive(HOME, AWAY) && Successive(AWAY, HOME)
    ensures Alien(EMPTY, HOME) && Alien(S1, AWAY) && Alien(S2, HOME)
  {
    HashesDiffer();
    assert HOME[..1] == [GENESIS] == AWAY[..1];
    forall h, txid | 0 <= h < 3 && HasTx(HOME, h, txid) ensures h == 1 {
      assert HOME[0].txs == [] && HOME[2].txs == [];
    }
    assert forall h | 0 <= h < 3 :: AWAY[h].txs == [];
  }

  lemma HashesDiffer()
    ensures forall g, h | 0 <= g < 3 && 0 <= h < 3 && HOME[g].hash == HOME[h].hash :: g == h
    ensures forall g, h | 0 <= g < 3 && 0 <= h < 3 && AWAY[g].hash == AWAY[h].hash :: g == h
    ensures forall g, h | 0 <= g < 3 && 0 <= h < 3 && HOME[g].hash == AWAY[h].hash :: g == h == 0
  {
    assert |"g"| == 1 && |"a1"| == |"a2"| == |"b1"| == |"b2"| == 2;
    assert "a1"[1] != "a2"[1] && "b1"[1] != "b2"[1];
    assert "a1"[0] != "b1"[0] && "a1"[0] != "b2"[0] && "a2"[0] != "b1"[0] && "a2"[0] != "b2"[0];
  }

  lemma TwoPolls()
    ensures History(RUN[..0], CFG, DIR) == BEGIN && History(RUN[..1], CFG, DIR) == W1
    ensures History(RUN[..2], CFG, DIR) == W2
    ensures Happen(BEGIN, RUN[0], CFG, DIR) == W1 && Happen(W1, RUN[1], CFG, DIR) == W2
    ensures History(RUN, CFG, DIR) == Happen(W2, RUN[2], CFG, DIR)
  {
    FirstPoll();
    SecondPoll();
    hide Poll;
    assert Happen(BEGIN, RUN[0], CFG, DIR) == W1 && Happen(W1, RUN[1], CFG, DIR) == W2;
    hide Happen;
    assert RUN[..1][..0] == RUN[..0] && RUN[..2][..1] == RUN[..1] && RUN[..3] == RUN && RUN[..2] == RUN[..|RUN| - 1];
  }

  lemma RunIsLawful()
    ensures Sensible(CFG) && Lawful(RUN, CFG, DIR)
  {
    NodeIsLawful();
    TwoPolls();
    hide Happen, History, Regular, Successive, Alien;
    assert Allowed(BEGIN, RUN[0], CFG, DIR) && Allowed(W1, RUN[1], CFG, DIR) && Allowed(W2, RUN[2], CFG, DIR);
    forall k | 0 <= k < |RUN| ensures Allowed(History(RUN[..k], CFG, DIR), RUN[k], CFG, DIR) {
      assert k == 0 || k == 1 || k == 2;
    }
  }

  lemma ThirdPoll()
    ensures Poll(S2, AT_HOME).s == S3 && !Poll(S2, AT_HOME).failed
  {
    hide KeyOf, Attribute;
    var marked := Progress(S2, Blank(AT_HOME).(flags := [ReorgDetected(2, 1)]), false);
    assert "b2"[0] != "a2"[0] && HOME[2].hash == "a2" && HOME[1].hash == "a1" == ROW.blockHash;
    assert S2.deposits[..0] == [] && AtOrAbove([], 1) == [] && AtOrAbove(S2.deposits, 1) == [];
    assert Blank(AT_HOME).flags + [ReorgDetected(2, 1)] == [ReorgDetected(2, 1)];
    assert Detect(Progress(S2, Blank(AT_HOME), false), AT_HOME, Cursor(2, "b2", 0)) == (marked, 1);
    RescanSkips(marked);
    var scanned := Scan(marked, AT_HOME, 1);
    assert scanned.s == S3 && !scanned.failed;
    assert Uncredited([]) == [] && Uncredited(S3.deposits) == [];
  }

  lemma RescanSkips(p: Progress)
    requires p.s == S2 && !p.failed
    ensures ScanBlocks(p, AT_HOME, 1, 3) == p
  {
    hide KeyOf, Attribute;
    assert HOME[1].txs == [TX] && HOME[2].txs == [] && HOME[1].hash == "a1" == ROW.blockHash;
    FirstRowIsFound(S2);
    assert TX.vouts[0] == OUT;
    assert ScanOuts(p, TX, 0, AT_HOME, 1) == p && ScanOuts(p, TX, 1, AT_HOME, 1) == p;
    assert ScanTxs(p, 0, AT_HOME, 1) == p && ScanTxs(p, 1, AT_HOME, 1) == p && ScanTxs(p, 0, AT_HOME, 2) == p;
    assert ScanBlocks(p, AT_HOME, 1, 1) == p;
    assert ScanBlocks(p, AT_HOME, 1, 2) == p;
  }

  lemma FirstRowIsFound(s: Store)
    requires |s.deposits| == 1 && s.deposits[0].txid == "t" && s.deposits[0].vout == 0
    ensures FindDeposit(s.deposits, "t", 0) == Some(0)
  {}

  lemma EndIsSound()
    ensures Sound(Progress(S3, Blank(AT_HOME), false), [], AT_HOME, 2)
  {
    RunIsLawful();
    RunWatches(RUN, CFG, DIR);
    WholeRun();
    hide Lawful, History, Happen;
    WatchingInv(History(RUN, CFG, DIR), CFG, DIR);
    hide Watching, Inv, Attribute, KeyOf;
    PayerIsFound();
    assert "iOperator" in OUT.addresses && TX.vouts[0] == OUT;
    assert DIR.txOf("t") == TX;
    assert Genuine(AT_HOME, S3.deposits[0]);
  }

  lemma WholeRun()
    ensures History(RUN, CFG, DIR) == World(Audit(S3, []), HOME, 1)
  {
    TwoPolls();
    ThirdPoll();
    hide Poll, History;
  }

  /** The witness: three polls from the empty store, on a chain, on a competing one and on the first again. The
      run is lawful and its state sound; the payment stands on the polled chain; its row is marked reorged with
      the hash of the block it stands in; and nothing books it, nor would scanning it again. */
  lemma ReturningBranchExists()
    ensures Sensible(CFG) && Lawful(RUN, CFG, DIR)
    ensures var w := History(RUN, CFG, DIR);
      && w.chain == HOME && HOME[1].txs == [TX] && Wanted(AT_HOME, TX, OUT)
      && Sound(Progress(w.a.s, Blank(AT_HOME), false), w.a.purged, AT_HOME, 2) && Regular(HOME, DIR)
      && |w.a.s.deposits| > 0 && w.a.s.deposits[0].reorgedAt.Some? && w.a.s.deposits[0].blockHash == HOME[1].hash
      && !Booked(w.a.s, AT_HOME, 1, "t", 0)
      && !Booked(ScanOut(Progress(w.a.s, Blank(AT_HOME), false), TX, OUT, AT_HOME, 1).s, AT_HOME, 1, "t", 0)
  {
    RunIsLawful();
    WholeRun();
    EndIsSound();
    NodeIsLawful();
    PayerIsFound();
    assert "iOperator" in OUT.addresses;
    assert HOME[1].txs == [TX] && TX.vouts[0] == OUT && HOME[1].hash == "a1";
    FirstRowIsFound(S3);
    hide History, Lawful, Regular, Successive, Alien, Sound, Attribute, Booked, KeyOf, ScanOut;
    BookedExactlyWhen(Progress(S3, Blank(AT_HOME), false), [], AT_HOME, 2, 1, 0, 0);
    NotBooked();
  }

  lemma NotBooked()
    ensures !Booked(S3, AT_HOME, 1, "t", 0)
  {}
}
