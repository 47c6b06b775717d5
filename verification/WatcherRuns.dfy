/** Safety over whole runs: payments, operator credits and polls on changing chains in any order. */
module WatcherRuns {
  import opened Basics
  import opened Ledger
  import opened Conservation
  import opened Attribution
  import opened WatcherSpec
  import opened WatcherSafety

  // ---------- one poll ----------

  /** The scan of one poll reaches past the part of the chain it rescans. */
  predicate Sensible(cfg: Config) {
    0 <= cfg.lookback < cfg.maxBlocks
  }

  /** Why: the rescan after a reorg reaches the old cursor again exactly when the cap exceeds the part it goes
      back over. With a smaller cap the cursor would end below rows it has already recorded. */
  lemma RescanReachesCursor(v: View, c: int)
    requires v.cfg.lookback >= 0 && 1 <= c <= Tip(v)
    ensures ScanTo(v, Floor(v, c)) >= c <==> v.cfg.maxBlocks > Min(v.cfg.lookback, c - 1)
  {}

  /** The cursor names a block of `v.chain`, and every live row lies at or below it. */
  ghost predicate Anchor(s: Store, v: View) {
    && CURSOR_KEY in s.cursors
    && var c := s.cursors[CURSOR_KEY];
       Known(v, c.lastBlock) && v.chain[c.lastBlock].hash == c.lastBlockHash && Safe(s, v, c.lastBlock)
  }

  /** Between two snapshots: hashes fix ancestors, and the genesis block is shared. */
  ghost predicate Successive(c: seq<Block>, d: seq<Block>) {
    HashFixes(c, d) && (c != [] && d != [] ==> c[0] == d[0])
  }

  lemma GenuineElsewhere(v: View, w: View, d: Deposit)
    requires v.cfg == w.cfg && v.dir == w.dir && Genuine(v, d)
    ensures Genuine(w, d)
  {
    hide Attribute;
    var tx := v.dir.txOf(d.txid);
    var o :| 0 <= o < |tx.vouts| && tx.vouts[o].n == d.vout && tx.vouts[o].valueSat == d.amount && Pays(v, tx.vouts[o]);
    assert Pays(w, tx.vouts[o]);
  }

  /** A row backed by the old chain whose recorded block is still there is backed by the new chain. */
  lemma RowSurvives(v: View, w: View, top: int, d: Deposit)
    requires v.cfg == w.cfg && v.dir == w.dir && HashFixes(v.chain, w.chain) && RowSafe(v, top, d)
    requires d.origin == Real && d.reorgedAt.None? ==>
      Known(w, d.blockHeight) && w.chain[d.blockHeight].hash == d.blockHash
    ensures RowSafe(w, top, d)
  {
    hide Genuine;
    if d.origin == Real {
      GenuineElsewhere(v, w, d);
      if d.reorgedAt.None? {
        var h := d.blockHeight;
        assert v.chain[h].hash == w.chain[h].hash;
        assert v.chain[..h + 1][h] == w.chain[..h + 1][h];
        assert v.chain[h] == w.chain[h];
      }
    }
  }

  /** The cursor block is still there: so is everything below it. */
  lemma AllSurvive(s: Store, v: View, w: View, top: int)
    requires v.cfg == w.cfg && v.dir == w.dir && HashFixes(v.chain, w.chain) && Safe(s, v, top)
    requires Known(v, top) && Known(w, top) && v.chain[top].hash == w.chain[top].hash
    ensures Safe(s, w, top)
  {
    hide RowSafe;
    assert v.chain[..top + 1] == w.chain[..top + 1];
    forall d | d in s.deposits ensures RowSafe(w, top, d) {
      assert RowSafe(v, top, d);
      if d.origin == Real && d.reorgedAt.None? {
        RowSafeBounds(v, top, d);
        assert v.chain[..top + 1][d.blockHeight] == w.chain[..top + 1][d.blockHeight];
      }
      RowSurvives(v, w, top, d);
    }
  }

  lemma RowSafeBounds(v: View, top: int, d: Deposit)
    requires RowSafe(v, top, d)
    ensures d.origin == Simulated ==> d.blockHeight <= 0
    ensures d.origin == Real && d.reorgedAt.None? ==>
      1 <= d.blockHeight <= top && Known(v, d.blockHeight) && v.chain[d.blockHeight].hash == d.blockHash
  {}

  /** Marking leaves exactly the rows the new chain backs. */
  lemma MarkedSurvive(s: Store, s1: Store, v: View, w: View, top: int)
    requires v.cfg == w.cfg && v.dir == w.dir && HashFixes(v.chain, w.chain) && Safe(s, v, top) && top < |w.chain|
    requires RemarkedUpTo(s, s1, w, |s.deposits|)
    ensures Safe(s1, w, top)
  {
    hide RowSafe;
    forall d | d in s1.deposits ensures RowSafe(w, top, d) {
      var i :| 0 <= i < |s1.deposits| && s1.deposits[i] == d;
      var d0 := s.deposits[i];
      assert d0 in s.deposits && RowSafe(v, top, d0) && d == Remark(w, d0);
      RowSafeBounds(v, top, d0);
      MarkedRowSafe(v, top, d0, w.now);
      RowSurvives(v, w, top, d);
    }
  }

  lemma MarkedRowSafe(v: View, top: int, d: Deposit, at: int)
    requires RowSafe(v, top, d)
    ensures RowSafe(v, top, d.(reorgedAt := Some(at)))
  {
    hide Attribute;
    if d.origin == Real {
      assert Genuine(v, d.(reorgedAt := Some(at)));
    }
  }

  lemma SameAliens(s: Store, s1: Store, chain: seq<Block>)
    requires Alien(s, chain) && |s1.deposits| == |s.deposits|
    requires forall i | 0 <= i < |s.deposits| ::
      s1.deposits[i].origin == s.deposits[i].origin && s1.deposits[i].txid == s.deposits[i].txid
    ensures Alien(s1, chain)
  {
    forall d, h | d in s1.deposits && d.origin == Simulated && 0 <= h < |chain| ensures !HasTx(chain, h, d.txid) {
      var i :| 0 <= i < |s1.deposits| && s1.deposits[i] == d;
      assert s.deposits[i] in s.deposits;
    }
  }

  /** Marking all listed rows: no throw, and every row is treated as `Remark` says. */
  lemma MarkAll(p: Progress, purged: seq<map<string, Request>>, v: View, w: View, top: int, floor: int)
    requires !p.failed && Inv(Audit(p.s, purged)) && Safe(p.s, v, top) && top < |w.chain|
    ensures var q := MarkRows(p, AtOrAbove(p.s.deposits, 1), w, floor);
      !q.failed && Inv(Audit(q.s, purged)) && RemarkedUpTo(p.s, q.s, w, |p.s.deposits|)
  {
    hide Inv, RowSafe, RemarkedUpTo, MarkRows, AtOrAbove;
    forall d | d in p.s.deposits && d.reorgedAt.None? && d.blockHeight >= 1 ensures Known(w, d.blockHeight) {
      assert RowSafe(v, top, d);
      RowSafeBounds(v, top, d);
    }
    assert p.s.deposits[..|p.s.deposits|] == p.s.deposits;
    MarkRowsEffect(p, purged, w, floor, |p.s.deposits|);
  }

  /** After the cursor check (and the marking it may trigger) every live row is backed by the new chain. */
  lemma DetectSound(p: Progress, purged: seq<map<string, Request>>, v: View, w: View, cursor: Cursor)
    requires v.cfg == w.cfg && v.dir == w.dir && Successive(v.chain, w.chain)
    requires !p.failed && Inv(Audit(p.s, purged)) && Alien(p.s, w.chain)
    requires Known(v, cursor.lastBlock) && v.chain[cursor.lastBlock].hash == cursor.lastBlockHash
    requires Safe(p.s, v, cursor.lastBlock)
    ensures var (q, from) := Detect(p, w, cursor);
      if Known(w, cursor.lastBlock) then
        && Sound(q, purged, w, cursor.lastBlock) && q.s.cursors == p.s.cursors
        && ((from == cursor.lastBlock + 1 && w.chain[cursor.lastBlock].hash == cursor.lastBlockHash)
            || (cursor.lastBlock > 0 && from == Floor(w, cursor.lastBlock)))
      else q == p.(failed := true)
  {
    hide Inv, Alien, RowSafe, MarkRows, AtOrAbove;
    var top := cursor.lastBlock;
    if Known(w, top) {
      if w.chain[top].hash == cursor.lastBlockHash {
        AllSurvive(p.s, v, w, top);
      } else {
        var floor := Floor(w, top);
        var flagged := p.(res := p.res.(flags := p.res.flags + [ReorgDetected(top, floor)]));
        MarkAll(flagged, purged, v, w, top, floor);
        var q := MarkRows(flagged, AtOrAbove(p.s.deposits, 1), w, floor);
        MarkedSurvive(p.s, q.s, v, w, top);
        SameAliens(p.s, q.s, w.chain);
      }
    }
  }

  lemma HigherTop(s: Store, v: View, low: int, top: int)
    requires Safe(s, v, low) && low <= top
    ensures Safe(s, v, top)
  {
    forall d | d in s.deposits ensures RowSafe(v, top, d) {
      assert RowSafe(v, low, d);
    }
  }

  lemma SettledSound(s: Store, s1: Store, v: View, top: int)
    requires Safe(s, v, top) && SettledUpTo(s, s1, v, |s.deposits|)
    ensures Safe(s1, v, top)
  {
    hide RowSafe;
    forall d | d in s1.deposits ensures RowSafe(v, top, d) {
      var i :| 0 <= i < |s1.deposits| && s1.deposits[i] == d;
      assert s.deposits[i] in s.deposits;
      SettledRowSafe(v, top, s.deposits[i]);
    }
  }

  lemma SettledRowSafe(v: View, top: int, d: Deposit)
    requires RowSafe(v, top, d)
    ensures RowSafe(v, top, Settle(v, d))
  {
    hide Attribute;
    if d.origin == Real {
      assert Genuine(v, Settle(v, d));
    }
  }

  lemma CursorsAreAside(a: Audit, cursors: map<string, Cursor>)
    requires Inv(a)
    ensures Inv(Audit(a.s.(cursors := cursors), a.purged))
  {
    forall who ensures Balanced(Audit(a.s.(cursors := cursors), a.purged), who) {
      assert Balanced(a, who);
    }
  }

  /** Scanning moves the cursor forward over blocks it has booked. */
  lemma ScanAnchors(p: Progress, purged: seq<map<string, Request>>, v: View, cursor: Cursor, from: int)
    requires Sensible(v.cfg) && Regular(v.chain, v.dir) && Sound(p, purged, v, cursor.lastBlock)
    requires CURSOR_KEY in p.s.cursors && p.s.cursors[CURSOR_KEY] == cursor && Known(v, cursor.lastBlock)
    requires (from == cursor.lastBlock + 1 && v.chain[cursor.lastBlock].hash == cursor.lastBlockHash)
             || (cursor.lastBlock > 0 && from == Floor(v, cursor.lastBlock))
    ensures var q := Scan(p, v, from);
      && !q.failed && Inv(Audit(q.s, purged)) && Anchor(q.s, v)
      && cursor.lastBlock <= q.s.cursors[CURSOR_KEY].lastBlock == Max(ScanTo(v, from), cursor.lastBlock)
  {
    hide Inv, Alien, RowSafe, Regular, ScanBlocks, Sound;
    var last := ScanTo(v, from);
    SoundParts(p, purged, v, cursor.lastBlock);
    if from <= last {
      HigherTop(p.s, v, cursor.lastBlock, last);
      SoundAt(p, purged, v, cursor.lastBlock, last);
      ScanBlocksSound(p, purged, v, last, from, last + 1);
      var scanned := ScanBlocks(p, v, from, last + 1);
      SoundParts(scanned, purged, v, last);
      CursorsAreAside(Audit(scanned.s, purged), SetCursor(scanned.s, v, last).cursors);
    }
  }

  lemma SoundParts(p: Progress, purged: seq<map<string, Request>>, v: View, top: int)
    requires Sound(p, purged, v, top)
    ensures !p.failed && Inv(Audit(p.s, purged)) && Safe(p.s, v, top) && Alien(p.s, v.chain)
  {}

  lemma SoundAt(p: Progress, purged: seq<map<string, Request>>, v: View, low: int, top: int)
    requires Sound(p, purged, v, low) && Safe(p.s, v, top)
    ensures Sound(p, purged, v, top)
  {}

  /** A poll from an anchored state throws exactly when the chain has become shorter than the cursor, and then
      changes nothing; otherwise it ends anchored in the new chain with its books balanced. */
  lemma AdvanceSafe(p: Progress, purged: seq<map<string, Request>>, v: View, w: View, cursor: Cursor)
    requires v.cfg == w.cfg && v.dir == w.dir && Successive(v.chain, w.chain)
    requires Sensible(w.cfg) && Regular(w.chain, w.dir) && Alien(p.s, w.chain)
    requires !p.failed && Inv(Audit(p.s, purged)) && Anchor(p.s, v) && p.s.cursors[CURSOR_KEY] == cursor
    ensures var q := Advance(p, w, cursor);
      if Known(w, cursor.lastBlock) then
        && !q.failed && Inv(Audit(q.s, purged)) && Anchor(q.s, w)
        && q.s.cursors[CURSOR_KEY].lastBlock >= cursor.lastBlock
      else q == p.(failed := true)
  {
    hide Inv, Alien, RowSafe, Regular, Safe, Scan, Detect, CreditRows, Uncredited, MarkRows, Sound, SettledUpTo;
    DetectSound(p, purged, v, w, cursor);
    var (marked, from) := Detect(p, w, cursor);
    if Known(w, cursor.lastBlock) {
      ScanAnchors(marked, purged, w, cursor, from);
      var scanned := Scan(marked, w, from);
      assert scanned.s.deposits[..|scanned.s.deposits|] == scanned.s.deposits;
      CreditRowsEffect(scanned, purged, w, |scanned.s.deposits|);
      var credited := CreditRows(scanned, Uncredited(scanned.s.deposits), w);
      SettledSound(scanned.s, credited.s, w, scanned.s.cursors[CURSOR_KEY].lastBlock);
      SettledCursors(scanned.s, credited.s, w, |scanned.s.deposits|);
    } else {
      assert Scan(marked, w, from) == marked by { ScanFailed(marked, w, from); }
    }
  }

  lemma SettledCursors(s: Store, s1: Store, v: View, n: nat)
    requires SettledUpTo(s, s1, v, n)
    ensures s1.cursors == s.cursors
  {}
}
