/** Completeness of the watcher: under the stated hypotheses no attributable payment in the scanned range is
    missing a live row, and rows that are deep enough are credited. */
module WatcherCompleteness {
  import opened Basics
  import opened Ledger
  import opened Conservation
  import opened Attribution
  import opened WatcherSpec
  import opened WatcherSafety
  import opened WatcherRuns

  /** An output that must become a deposit. */
  ghost predicate Wanted(v: View, tx: Tx, out: Vout) {
    Pays(v, out) && Attribute(tx, v.dir, v.cfg.chainName).Sender?
  }

  ghost predicate IsBooking(v: View, height: int, txid: string, n: int, d: Deposit)
    requires Known(v, height)
  {
    && d.txid == txid && d.vout == n && d.origin == Real && d.reorgedAt.None?
    && d.blockHeight == height && d.blockHash == v.chain[height].hash
  }

  /** A live row records output `n` of `txid` in the block at `height`. */
  ghost predicate Booked(s: Store, v: View, height: int, txid: string, n: int)
    requires Known(v, height)
  {
    exists i | 0 <= i < |s.deposits| :: IsBooking(v, height, txid, n, s.deposits[i])
  }

  ghost predicate OutsBooked(s: Store, v: View, height: int, t: int, k: int)
    requires Known(v, height) && 0 <= t < |v.chain[height].txs| && 0 <= k <= |v.chain[height].txs[t].vouts|
  {
    var tx := v.chain[height].txs[t];
    forall o | 0 <= o < k && Wanted(v, tx, tx.vouts[o]) :: Booked(s, v, height, tx.txid, tx.vouts[o].n)
  }

  ghost predicate TxsBooked(s: Store, v: View, height: int, k: int)
    requires Known(v, height) && 0 <= k <= |v.chain[height].txs|
  {
    forall t | 0 <= t < k :: OutsBooked(s, v, height, t, |v.chain[height].txs[t].vouts|)
  }

  /** Every attributable payment in the blocks from `from` up to and excluding `end` has its live row. */
  ghost predicate Complete(s: Store, v: View, from: int, end: int) {
    forall h | from <= h < end && Known(v, h) :: TxsBooked(s, v, h, |v.chain[h].txs|)
  }

  /** No abandoned branch came back: the block of a reorged row is not on the chain. */
  ghost predicate NoReturn(s: Store, v: View) {
    forall d, h | d in s.deposits && d.origin == Real && d.reorgedAt.Some? && Known(v, h) ::
      v.chain[h].hash != d.blockHash
  }

  /** Bookings of transactions on the chain are never lost. */
  ghost predicate Kept(s: Store, s1: Store, v: View) {
    forall h, txid, n | Known(v, h) && HasTx(v.chain, h, txid) && Booked(s, v, h, txid, n) :: Booked(s1, v, h, txid, n)
  }

  /** Rows deep enough are credited. */
  ghost predicate Mature(s: Store, v: View) {
    forall d | d in s.deposits && d.reorgedAt.None? && Tip(v) - d.blockHeight >= v.cfg.minConfirmations ::
      d.creditedAt.Some?
  }

  // ---------- scanning ----------

  lemma KeptRefl(s: Store, v: View)
    ensures Kept(s, s, v)
  {}

  lemma KeptTrans(s: Store, s1: Store, s2: Store, v: View)
    requires Kept(s, s1, v) && Kept(s1, s2, v)
    ensures Kept(s, s2, v)
  {}

  lemma KeptOuts(s: Store, s1: Store, v: View, height: int, t: int, k: int)
    requires Known(v, height) && 0 <= t < |v.chain[height].txs| && 0 <= k <= |v.chain[height].txs[t].vouts|
    requires Kept(s, s1, v) && OutsBooked(s, v, height, t, k)
    ensures OutsBooked(s1, v, height, t, k)
  {
    hide Booked, Wanted;
    assert HasTx(v.chain, height, v.chain[height].txs[t].txid);
  }

  lemma KeptTxs(s: Store, s1: Store, v: View, height: int, k: int)
    requires Known(v, height) && 0 <= k <= |v.chain[height].txs|
    requires Kept(s, s1, v) && TxsBooked(s, v, height, k)
    ensures TxsBooked(s1, v, height, k)
  {
    hide OutsBooked, Kept;
    forall t | 0 <= t < k ensures OutsBooked(s1, v, height, t, |v.chain[height].txs[t].vouts|) {
      KeptOuts(s, s1, v, height, t, |v.chain[height].txs[t].vouts|);
    }
  }

  lemma KeptBlocks(s: Store, s1: Store, v: View, from: int, end: int)
    requires Kept(s, s1, v) && Complete(s, v, from, end)
    ensures Complete(s1, v, from, end)
  {
    hide TxsBooked, Kept;
    forall h | from <= h < end && Known(v, h) ensures TxsBooked(s1, v, h, |v.chain[h].txs|) {
      KeptTxs(s, s1, v, h, |v.chain[h].txs|);
    }
  }

  /** Appending a row keeps every booking. */
  lemma AppendKeeps(s: Store, s1: Store, v: View)
    requires |s1.deposits| >= |s.deposits| && s1.deposits[..|s.deposits|] == s.deposits
    ensures Kept(s, s1, v)
  {
    hide HasTx;
    forall h, txid, n | Known(v, h) && HasTx(v.chain, h, txid) && Booked(s, v, h, txid, n)
      ensures Booked(s1, v, h, txid, n)
    {
      var i :| 0 <= i < |s.deposits| && IsBooking(v, h, txid, n, s.deposits[i]);
      assert s1.deposits[i] == s.deposits[i];
    }
  }

  /** Rewriting one marked row keeps every booking. */
  lemma RewriteKeeps(s: Store, s1: Store, v: View, i: nat)
    requires i < |s.deposits| == |s1.deposits| && s1 == SetDeposit(s, i, s1.deposits[i])
    requires s.deposits[i].reorgedAt.Some?
    ensures Kept(s, s1, v)
  {
    hide HasTx;
    forall h, txid, n | Known(v, h) && HasTx(v.chain, h, txid) && Booked(s, v, h, txid, n)
      ensures Booked(s1, v, h, txid, n)
    {
      var j :| 0 <= j < |s.deposits| && IsBooking(v, h, txid, n, s.deposits[j]);
      assert s1.deposits[j] == s.deposits[j];
    }
  }

  lemma RemineBooks(p: Progress, purged: seq<map<string, Request>>, v: View, top: int, height: int, t: nat, o: nat,
                    i: nat)
    requires Sound(p, purged, v, top) && Regular(v.chain, v.dir) && NoReturn(p.s, v)
    requires 1 <= height <= top < |v.chain| && t < |v.chain[height].txs| && o < |v.chain[height].txs[t].vouts|
    requires var tx := v.chain[height].txs[t];
      && FindDeposit(p.s.deposits, tx.txid, tx.vouts[o].n) == Some(i)
      && p.s.deposits[i].blockHash != v.chain[height].hash
    ensures var tx := v.chain[height].txs[t];
      var s1 := Remine(p.s, tx.txid, tx.vouts[o].n, height, v.chain[height].hash, Tip(v) - height).0;
      Kept(p.s, s1, v) && NoReturn(s1, v) && Booked(s1, v, height, tx.txid, tx.vouts[o].n)
  {
    var tx := v.chain[height].txs[t];
    var s1 := Remine(p.s, tx.txid, tx.vouts[o].n, height, v.chain[height].hash, Tip(v) - height).0;
    ExistingIsMarked(p, purged, v, top, height, t, i);
    hide Sound, Regular, Kept;
    RewriteKeeps(p.s, s1, v, i);
    assert IsBooking(v, height, tx.txid, tx.vouts[o].n, s1.deposits[i]);
    forall d, h | d in s1.deposits && d.origin == Real && d.reorgedAt.Some? && Known(v, h)
      ensures v.chain[h].hash != d.blockHash
    {
      var j :| 0 <= j < |s1.deposits| && s1.deposits[j] == d;
      assert s1.deposits[j] == p.s.deposits[j];
      assert d in p.s.deposits;
    }
  }

  lemma InsertBooks(p: Progress, v: View, height: int, tx: Tx, out: Vout, key: string)
    requires Known(v, height) && NoReturn(p.s, v) && FindDeposit(p.s.deposits, tx.txid, out.n).None?
    ensures var s1 := InsertDeposit(p.s, Sighting(v, tx, out, height, key)).0;
      Kept(p.s, s1, v) && NoReturn(s1, v) && Booked(s1, v, height, tx.txid, out.n)
  {
    hide Kept;
    var s1 := InsertDeposit(p.s, Sighting(v, tx, out, height, key)).0;
    AppendKeeps(p.s, s1, v);
    assert IsBooking(v, height, tx.txid, out.n, s1.deposits[|p.s.deposits|]);
  }

  /** The row is there with this very block: it must be live, since no abandoned branch came back. */
  lemma SeenIsBooked(p: Progress, purged: seq<map<string, Request>>, v: View, top: int, height: int, t: nat, o: nat,
                     i: nat)
    requires Sound(p, purged, v, top) && Regular(v.chain, v.dir) && NoReturn(p.s, v)
    requires 1 <= height <= top < |v.chain| && t < |v.chain[height].txs| && o < |v.chain[height].txs[t].vouts|
    requires var tx := v.chain[height].txs[t];
      && FindDeposit(p.s.deposits, tx.txid, tx.vouts[o].n) == Some(i)
      && p.s.deposits[i].blockHash == v.chain[height].hash
    ensures var tx := v.chain[height].txs[t];
      Booked(p.s, v, height, tx.txid, tx.vouts[o].n)
  {
    var tx := v.chain[height].txs[t];
    var d := p.s.deposits[i];
    ExistingIsMarked(p, purged, v, top, height, t, i);
    assert d in p.s.deposits;
    assert IsBooking(v, height, tx.txid, tx.vouts[o].n, d);
  }

  /** The output already has a row. */
  lemma KnownOutBooks(p: Progress, purged: seq<map<string, Request>>, v: View, top: int, height: int, t: nat, o: nat)
    requires Sound(p, purged, v, top) && Regular(v.chain, v.dir) && NoReturn(p.s, v)
    requires 1 <= height <= top < |v.chain| && t < |v.chain[height].txs| && o < |v.chain[height].txs[t].vouts|
    requires var tx := v.chain[height].txs[t];
      Pays(v, tx.vouts[o]) && FindDeposit(p.s.deposits, tx.txid, tx.vouts[o].n).Some?
    ensures var tx := v.chain[height].txs[t];
      var q := ScanOut(p, tx, tx.vouts[o], v, height);
      Kept(p.s, q.s, v) && NoReturn(q.s, v) && Booked(q.s, v, height, tx.txid, tx.vouts[o].n)
  {
    NotFailed(p, purged, v, top);
    hide Sound, Regular, Remine, Kept, Booked, NoReturn, FindDeposit, HasTx, Attribute, InsertDeposit;
    var tx := v.chain[height].txs[t];
    var i := FindDeposit(p.s.deposits, tx.txid, tx.vouts[o].n).value;
    var q := ScanOut(p, tx, tx.vouts[o], v, height);
    if p.s.deposits[i].blockHash != v.chain[height].hash {
      assert q.s == Remine(p.s, tx.txid, tx.vouts[o].n, height, v.chain[height].hash, Tip(v) - height).0;
      hide ScanOut;
      RemineBooks(p, purged, v, top, height, t, o, i);
    } else {
      assert q == p;
      hide ScanOut;
      SeenIsBooked(p, purged, v, top, height, t, o, i);
      KeptRefl(p.s, v);
    }
  }

  /** The output has no row yet. */
  lemma NewOutBooks(p: Progress, v: View, height: int, tx: Tx, out: Vout)
    requires !p.failed && Known(v, height) && NoReturn(p.s, v)
    requires Pays(v, out) && FindDeposit(p.s.deposits, tx.txid, out.n).None?
    ensures var q := ScanOut(p, tx, out, v, height);
      Kept(p.s, q.s, v) && NoReturn(q.s, v) && (Wanted(v, tx, out) ==> Booked(q.s, v, height, tx.txid, out.n))
  {
    hide Kept, Booked, NoReturn, FindDeposit, Attribute, InsertDeposit, Remine;
    KeptRefl(p.s, v);
    if Attribute(tx, v.dir, v.cfg.chainName).Sender? {
      InsertBooks(p, v, height, tx, out, Attribute(tx, v.dir, v.cfg.chainName).identityKey);
    }
  }

  lemma ScanOutBooks(p: Progress, purged: seq<map<string, Request>>, v: View, top: int, height: int, t: nat, o: nat)
    requires Sound(p, purged, v, top) && Regular(v.chain, v.dir) && NoReturn(p.s, v)
    requires 1 <= height <= top < |v.chain| && t < |v.chain[height].txs| && o < |v.chain[height].txs[t].vouts|
    ensures var tx := v.chain[height].txs[t];
      var q := ScanOut(p, tx, tx.vouts[o], v, height);
      && Kept(p.s, q.s, v) && NoReturn(q.s, v)
      && (Wanted(v, tx, tx.vouts[o]) ==> Booked(q.s, v, height, tx.txid, tx.vouts[o].n))
  {
    NotFailed(p, purged, v, top);
    var tx := v.chain[height].txs[t];
    var out := tx.vouts[o];
    if !Pays(v, out) {
      KeptRefl(p.s, v);
    } else {
      hide Sound, Regular, Kept, Booked, NoReturn, FindDeposit, ScanOut;
      if FindDeposit(p.s.deposits, tx.txid, out.n).Some? {
        KnownOutBooks(p, purged, v, top, height, t, o);
      } else {
        NewOutBooks(p, v, height, tx, out);
      }
    }
  }

  /** Exactly when scanning an attributable payment books it: unless its row is marked reorged and carries this
      very block hash, which is what a returning abandoned branch looks like. */
  lemma BookedExactlyWhen(p: Progress, purged: seq<map<string, Request>>, v: View, top: int, height: int, t: nat,
                          o: nat)
    requires Sound(p, purged, v, top) && Regular(v.chain, v.dir)
    requires 1 <= height <= top < |v.chain| && t < |v.chain[height].txs| && o < |v.chain[height].txs[t].vouts|
    requires Wanted(v, v.chain[height].txs[t], v.chain[height].txs[t].vouts[o])
    ensures var tx := v.chain[height].txs[t];
      var found := FindDeposit(p.s.deposits, tx.txid, tx.vouts[o].n);
      Booked(ScanOut(p, tx, tx.vouts[o], v, height).s, v, height, tx.txid, tx.vouts[o].n) <==>
        !(found.Some? && p.s.deposits[found.value].reorgedAt.Some?
          && p.s.deposits[found.value].blockHash == v.chain[height].hash)
  {
    NotFailed(p, purged, v, top);
    OutpointsDiffer(p, purged, v, top);
    var tx := v.chain[height].txs[t];
    var out := tx.vouts[o];
    var q := ScanOut(p, tx, out, v, height);
    var found := FindDeposit(p.s.deposits, tx.txid, out.n);
    if found.Some? {
      ExistingIsMarked(p, purged, v, top, height, t, found.value);
      hide Sound, Regular, Attribute;
      if p.s.deposits[found.value].blockHash != v.chain[height].hash || p.s.deposits[found.value].reorgedAt.None? {
        assert IsBooking(v, height, tx.txid, out.n, q.s.deposits[found.value]);
      }
    } else {
      hide Sound, Regular, Attribute;
      assert IsBooking(v, height, tx.txid, out.n, q.s.deposits[|p.s.deposits|]);
    }
  }

  lemma OutpointsDiffer(p: Progress, purged: seq<map<string, Request>>, v: View, top: int)
    requires Sound(p, purged, v, top)
    ensures forall i, j | 0 <= i < j < |p.s.deposits| ::
      p.s.deposits[i].txid != p.s.deposits[j].txid || p.s.deposits[i].vout != p.s.deposits[j].vout
  {}

  lemma NotFailed(p: Progress, purged: seq<map<string, Request>>, v: View, top: int)
    requires Sound(p, purged, v, top)
    ensures !p.failed
  {}

  lemma {:induction false} ScanOutsBooks(p: Progress, purged: seq<map<string, Request>>, v: View, top: int, height: int,
                                         t: nat, k: nat)
    requires Sound(p, purged, v, top) && Regular(v.chain, v.dir) && NoReturn(p.s, v)
    requires 1 <= height <= top < |v.chain| && t < |v.chain[height].txs| && k <= |v.chain[height].txs[t].vouts|
    ensures var q := ScanOuts(p, v.chain[height].txs[t], k, v, height);
      Kept(p.s, q.s, v) && NoReturn(q.s, v) && OutsBooked(q.s, v, height, t, k)
  {
    hide Sound, Regular, ScanOut, Kept, NoReturn, Booked, Wanted;
    if k == 0 {
      KeptRefl(p.s, v);
    } else {
      var tx := v.chain[height].txs[t];
      var q := ScanOuts(p, tx, k - 1, v, height);
      ScanOutsBooks(p, purged, v, top, height, t, k - 1);
      ScanOutsSound(p, purged, v, top, height, t, k - 1);
      ScanOutBooks(q, purged, v, top, height, t, k - 1);
      var r := ScanOut(q, tx, tx.vouts[k - 1], v, height);
      KeptTrans(p.s, q.s, r.s, v);
      KeptOuts(q.s, r.s, v, height, t, k - 1);
    }
  }

  lemma {:induction false} ScanTxsBooks(p: Progress, purged: seq<map<string, Request>>, v: View, top: int, height: int,
                                        k: nat)
    requires Sound(p, purged, v, top) && Regular(v.chain, v.dir) && NoReturn(p.s, v)
    requires 1 <= height <= top < |v.chain| && k <= |v.chain[height].txs|
    ensures var q := ScanTxs(p, k, v, height);
      Kept(p.s, q.s, v) && NoReturn(q.s, v) && TxsBooked(q.s, v, height, k)
  {
    hide Sound, Regular, ScanOuts, Kept, NoReturn, OutsBooked;
    if k == 0 {
      KeptRefl(p.s, v);
    } else {
      var tx := v.chain[height].txs[k - 1];
      var q := ScanTxs(p, k - 1, v, height);
      ScanTxsBooks(p, purged, v, top, height, k - 1);
      ScanTxsSound(p, purged, v, top, height, k - 1);
      ScanOutsBooks(q, purged, v, top, height, k - 1, |tx.vouts|);
      var r := ScanOuts(q, tx, |tx.vouts|, v, height);
      KeptTrans(p.s, q.s, r.s, v);
      KeptTxs(q.s, r.s, v, height, k - 1);
    }
  }

  lemma {:induction false} ScanBlocksBooks(p: Progress, purged: seq<map<string, Request>>, v: View, top: int, from: int,
                                           end: int)
    requires Sound(p, purged, v, top) && Regular(v.chain, v.dir) && NoReturn(p.s, v)
    requires 1 <= from <= end <= top + 1 <= |v.chain|
    ensures var q := ScanBlocks(p, v, from, end);
      Kept(p.s, q.s, v) && NoReturn(q.s, v) && Complete(q.s, v, from, end)
    decreases end - from
  {
    hide Sound, Regular, ScanTxs, Kept, NoReturn, TxsBooked;
    if from == end {
      KeptRefl(p.s, v);
    } else {
      var q := ScanBlocks(p, v, from, end - 1);
      ScanBlocksBooks(p, purged, v, top, from, end - 1);
      ScanBlocksSound(p, purged, v, top, from, end - 1);
      ScanTxsBooks(q, purged, v, top, end - 1, |v.chain[end - 1].txs|);
      var r := ScanBlock(q, v, end - 1);
      KeptTrans(p.s, q.s, r.s, v);
      KeptBlocks(q.s, r.s, v, from, end - 1);
    }
  }

  // ---------- from one chain to the next ----------

  /** A booking whose block both chains share survives the cursor check. */
  lemma BookingSurvives(s: Store, s1: Store, v: View, w: View, h: int, txid: string, n: int)
    requires Known(v, h) && Known(w, h) && v.chain[h] == w.chain[h]
    requires s1.deposits == s.deposits || RemarkedUpTo(s, s1, w, |s.deposits|)
    requires Booked(s, v, h, txid, n)
    ensures Booked(s1, w, h, txid, n)
  {
    var i :| 0 <= i < |s.deposits| && IsBooking(v, h, txid, n, s.deposits[i]);
    assert s1.deposits[i] == s.deposits[i];
    assert IsBooking(w, h, txid, n, s1.deposits[i]);
  }

  lemma CompleteSurvives(s: Store, s1: Store, v: View, w: View, from: int, end: int)
    requires v.cfg == w.cfg && v.dir == w.dir && 0 <= end <= |v.chain| && end <= |w.chain|
    requires v.chain[..end] == w.chain[..end]
    requires s1.deposits == s.deposits || RemarkedUpTo(s, s1, w, |s.deposits|)
    requires Complete(s, v, from, end)
    ensures Complete(s1, w, from, end)
  {
    hide Attribute, RemarkedUpTo, Booked;
    forall h | from <= h < end && Known(w, h) ensures TxsBooked(s1, w, h, |w.chain[h].txs|) {
      assert v.chain[..end][h] == w.chain[..end][h];
      assert TxsBooked(s, v, h, |v.chain[h].txs|);
      forall t | 0 <= t < |w.chain[h].txs| ensures OutsBooked(s1, w, h, t, |w.chain[h].txs[t].vouts|) {
        var tx := w.chain[h].txs[t];
        assert OutsBooked(s, v, h, t, |tx.vouts|);
        forall o | 0 <= o < |tx.vouts| && Wanted(w, tx, tx.vouts[o]) ensures Booked(s1, w, h, tx.txid, tx.vouts[o].n) {
          assert Wanted(v, tx, tx.vouts[o]);
          BookingSurvives(s, s1, v, w, h, tx.txid, tx.vouts[o].n);
        }
      }
    }
  }

  /** Rows marked in this poll are not on the new chain either: their hash would fix their height. */
  lemma MarkedDoNotReturn(s: Store, s1: Store, v: View, w: View, top: int)
    requires HashFixes(v.chain, w.chain) && Safe(s, v, top) && NoReturn(s, w)
    requires RemarkedUpTo(s, s1, w, |s.deposits|)
    ensures NoReturn(s1, w)
  {
    hide Genuine;
    forall d, h | d in s1.deposits && d.origin == Real && d.reorgedAt.Some? && Known(w, h)
      ensures w.chain[h].hash != d.blockHash
    {
      var i :| 0 <= i < |s1.deposits| && s1.deposits[i] == d;
      var d0 := s.deposits[i];
      assert d0 in s.deposits && RowSafe(v, top, d0) && d == Remark(w, d0);
      if d0.reorgedAt.None? {
        assert v.chain[d0.blockHeight].hash == d0.blockHash;
      }
    }
  }

  /** Blocks below the lookback floor did not change if the cursor block did. */
  predicate ShallowFork(v: View, w: View, cursor: Cursor) {
    Known(w, cursor.lastBlock) && w.chain[cursor.lastBlock].hash != cursor.lastBlockHash ==>
      var floor := Floor(w, cursor.lastBlock);
      floor <= |v.chain| && floor <= |w.chain| && v.chain[..floor] == w.chain[..floor]
  }

  lemma DetectComplete(p: Progress, purged: seq<map<string, Request>>, v: View, w: View, cursor: Cursor, start: int)
    requires v.cfg == w.cfg && v.dir == w.dir && Successive(v.chain, w.chain)
    requires !p.failed && Inv(Audit(p.s, purged)) && Alien(p.s, w.chain)
    requires Known(v, cursor.lastBlock) && v.chain[cursor.lastBlock].hash == cursor.lastBlockHash
    requires Safe(p.s, v, cursor.lastBlock) && Known(w, cursor.lastBlock)
    requires Complete(p.s, v, start, cursor.lastBlock + 1) && NoReturn(p.s, w) && ShallowFork(v, w, cursor)
    ensures var (q, from) := Detect(p, w, cursor);
      Complete(q.s, w, start, from) && NoReturn(q.s, w)
  {
    hide Inv, Alien, Safe, TxsBooked, NoReturn, RemarkedUpTo, MarkRows, AtOrAbove;
    var top := cursor.lastBlock;
    if w.chain[top].hash == cursor.lastBlockHash {
      assert v.chain[..top + 1] == w.chain[..top + 1];
      CompleteSurvives(p.s, p.s, v, w, start, top + 1);
    } else {
      var floor := Floor(w, top);
      var flagged := p.(res := p.res.(flags := p.res.flags + [ReorgDetected(top, floor)]));
      MarkAll(flagged, purged, v, w, top, floor);
      var q := MarkRows(flagged, AtOrAbove(p.s.deposits, 1), w, floor);
      MarkedDoNotReturn(p.s, q.s, v, w, top);
      assert v.chain[..floor] == w.chain[..floor];
      assert Complete(p.s, v, start, floor);
      CompleteSurvives(p.s, q.s, v, w, start, floor);
    }
  }

  lemma SettledKeeps(s: Store, s1: Store, v: View)
    requires SettledUpTo(s, s1, v, |s.deposits|)
    ensures Kept(s, s1, v) && Mature(s1, v)
  {
    hide HasTx;
    forall h, txid, n | Known(v, h) && HasTx(v.chain, h, txid) && Booked(s, v, h, txid, n)
      ensures Booked(s1, v, h, txid, n)
    {
      var i :| 0 <= i < |s.deposits| && IsBooking(v, h, txid, n, s.deposits[i]);
      assert IsBooking(v, h, txid, n, s1.deposits[i]);
    }
  }

  // ---------- one poll ----------

  lemma ScanCompletes(p: Progress, purged: seq<map<string, Request>>, v: View, cursor: Cursor, from: int, start: int)
    requires Sensible(v.cfg) && Regular(v.chain, v.dir) && Sound(p, purged, v, cursor.lastBlock)
    requires CURSOR_KEY in p.s.cursors && p.s.cursors[CURSOR_KEY] == cursor && Known(v, cursor.lastBlock)
    requires from == cursor.lastBlock + 1 || (cursor.lastBlock > 0 && from == Floor(v, cursor.lastBlock))
    requires Complete(p.s, v, start, from) && NoReturn(p.s, v)
    ensures Complete(Scan(p, v, from).s, v, start, Max(ScanTo(v, from), cursor.lastBlock) + 1)
  {
    hide Inv, Alien, RowSafe, Regular, ScanBlocks, Sound, TxsBooked, Kept, NoReturn;
    var last := ScanTo(v, from);
    SoundParts(p, purged, v, cursor.lastBlock);
    if from <= last {
      HigherTop(p.s, v, cursor.lastBlock, last);
      SoundAt(p, purged, v, cursor.lastBlock, last);
      ScanBlocksSound(p, purged, v, last, from, last + 1);
      ScanBlocksBooks(p, purged, v, last, from, last + 1);
      var scanned := ScanBlocks(p, v, from, last + 1);
      SoundParts(scanned, purged, v, last);
      KeptBlocks(p.s, scanned.s, v, start, from);
      assert Complete(scanned.s, v, start, last + 1);
      CursorIsAside(scanned.s, v, last, start);
    }
  }

  lemma CursorIsAside(s: Store, v: View, last: int, start: int)
    requires Known(v, last) && Complete(s, v, start, last + 1)
    ensures Complete(SetCursor(s, v, last), v, start, last + 1)
  {
    hide HasTx;
    AppendKeeps(s, SetCursor(s, v, last), v);
    KeptBlocks(s, SetCursor(s, v, last), v, start, last + 1);
  }

  /** A poll that completes carries completeness from the old cursor to the new one, and leaves no deep row
      uncredited. */
  lemma AdvanceComplete(p: Progress, purged: seq<map<string, Request>>, v: View, w: View, cursor: Cursor, start: int)
    requires v.cfg == w.cfg && v.dir == w.dir && Successive(v.chain, w.chain)
    requires Sensible(w.cfg) && Regular(w.chain, w.dir) && Alien(p.s, w.chain)
    requires !p.failed && Inv(Audit(p.s, purged)) && Anchor(p.s, v) && p.s.cursors[CURSOR_KEY] == cursor
    requires Complete(p.s, v, start, cursor.lastBlock + 1) && NoReturn(p.s, w) && ShallowFork(v, w, cursor)
    requires Known(w, cursor.lastBlock)
    ensures var q := Advance(p, w, cursor);
      && CURSOR_KEY in q.s.cursors
      && Complete(q.s, w, start, q.s.cursors[CURSOR_KEY].lastBlock + 1)
      && Mature(q.s, w)
  {
    hide Inv, Alien, RowSafe, Regular, Safe, Scan, Detect, CreditRows, Uncredited, MarkRows, Sound, SettledUpTo,
         Kept, NoReturn, Mature, TxsBooked;
    AdvanceSafe(p, purged, v, w, cursor);
    DetectSound(p, purged, v, w, cursor);
    DetectComplete(p, purged, v, w, cursor, start);
    var (marked, from) := Detect(p, w, cursor);
    ScanAnchors(marked, purged, w, cursor, from);
    ScanCompletes(marked, purged, w, cursor, from, start);
    var scanned := Scan(marked, w, from);
    assert scanned.s.deposits[..|scanned.s.deposits|] == scanned.s.deposits;
    CreditRowsEffect(scanned, purged, w, |scanned.s.deposits|);
    var credited := CreditRows(scanned, Uncredited(scanned.s.deposits), w);
    SettledKeeps(scanned.s, credited.s, w);
    SettledCursors(scanned.s, credited.s, w, |scanned.s.deposits|);
    KeptBlocks(scanned.s, credited.s, w, start, scanned.s.cursors[CURSOR_KEY].lastBlock + 1);
  }

  // ---------- the alarm ----------

  /** A live row below the lookback floor whose block is gone. */
  predicate DeepStale(v: View, floor: int, d: Deposit) {
    1 <= d.blockHeight < floor && Remark(v, d) != d
  }

  lemma {:induction false} AlarmsUpTo(p: Progress, purged: seq<map<string, Request>>, v: View, floor: int, n: nat,
                                      h: int)
    requires !p.failed && Inv(Audit(p.s, purged)) && n <= |p.s.deposits|
    requires forall d | d in p.s.deposits && d.reorgedAt.None? && d.blockHeight >= 1 :: Known(v, d.blockHeight)
    ensures DeepReorg(h) in MarkRows(p, AtOrAbove(p.s.deposits[..n], 1), v, floor).res.flags <==>
      || DeepReorg(h) in p.res.flags
      || exists i | 0 <= i < n :: DeepStale(v, floor, p.s.deposits[i]) && p.s.deposits[i].blockHeight == h
  {
    if n == 0 {
      assert p.s.deposits[..0] == [];
    } else {
      hide Inv, MarkRows, AtOrAbove, RemarkedUpTo, DeepStale;
      AlarmsUpTo(p, purged, v, floor, n - 1, h);
      MarkRowsEffect(p, purged, v, floor, n - 1);
      assert p.s.deposits[n - 1] in p.s.deposits;
      NextRowAlarms(p, purged, v, floor, n - 1, h);
    }
  }

  /** What the next visited row adds to the alarms. */
  lemma NextRowAlarms(p: Progress, purged: seq<map<string, Request>>, v: View, floor: int, n: nat, h: int)
    requires Inv(Audit(p.s, purged)) && n < |p.s.deposits|
    requires var d := p.s.deposits[n]; d.reorgedAt.None? && d.blockHeight >= 1 ==> Known(v, d.blockHeight)
    requires var q := MarkRows(p, AtOrAbove(p.s.deposits[..n], 1), v, floor);
      !q.failed && Inv(Audit(q.s, purged)) && RemarkedUpTo(p.s, q.s, v, n)
    ensures DeepReorg(h) in MarkRows(p, AtOrAbove(p.s.deposits[..n + 1], 1), v, floor).res.flags <==>
      || DeepReorg(h) in MarkRows(p, AtOrAbove(p.s.deposits[..n], 1), v, floor).res.flags
      || (DeepStale(v, floor, p.s.deposits[n]) && p.s.deposits[n].blockHeight == h)
  {
    hide Inv, MarkRow, MarkRows, AtOrAbove, RemarkedUpTo, DeepStale, Remark;
    AtOrAboveStep(p.s.deposits, n);
    var row, before := p.s.deposits[n], AtOrAbove(p.s.deposits[..n], 1);
    var q := MarkRows(p, before, v, floor);
    RemarkedNext(p.s, q.s, v, n);
    if row.blockHeight >= 1 && row.reorgedAt.None? {
      InvNumbers(Audit(p.s, purged), n);
      MarkRowsStep(p, before, row, v, floor);
      MarkRowFlags(q, purged, row, v, floor, h);
    } else {
      NotDeepStale(v, floor, row);
    }
  }

  lemma NotDeepStale(v: View, floor: int, row: Deposit)
    requires row.blockHeight < 1 || row.reorgedAt.Some?
    ensures !DeepStale(v, floor, row)
  {}

  lemma MarkRowFlags(p: Progress, purged: seq<map<string, Request>>, row: Deposit, v: View, floor: int, h: int)
    requires !p.failed && Inv(Audit(p.s, purged)) && HasId(p.s, row.id) && p.s.deposits[row.id - 1] == row
    requires row.reorgedAt.None? && row.blockHeight >= 1 && Known(v, row.blockHeight)
    ensures DeepReorg(h) in MarkRow(p, row, v, floor).res.flags <==>
      DeepReorg(h) in p.res.flags || (DeepStale(v, floor, row) && row.blockHeight == h)
  {
    MarkKeeps(Audit(p.s, purged), row.id, v.now);
  }

  /** When a reorg deeper than the lookback raises an alarm: for a height exactly when a live row recorded there,
      below the floor, has lost its block. A deep reorg that takes no such row with it raises none. */
  lemma DeepReorgAlarms(p: Progress, purged: seq<map<string, Request>>, v: View, w: View, top: int, floor: int, h: int)
    requires !p.failed && Inv(Audit(p.s, purged)) && Safe(p.s, v, top) && top < |w.chain|
    requires DeepReorg(h) !in p.res.flags
    ensures DeepReorg(h) in MarkRows(p, AtOrAbove(p.s.deposits, 1), w, floor).res.flags <==>
      exists d :: d in p.s.deposits && DeepStale(w, floor, d) && d.blockHeight == h
  {
    hide Inv, RowSafe, MarkRows, AtOrAbove, DeepStale;
    forall d | d in p.s.deposits && d.reorgedAt.None? && d.blockHeight >= 1 ensures Known(w, d.blockHeight) {
      assert RowSafe(v, top, d);
      RowSafeBounds(v, top, d);
    }
    assert p.s.deposits[..|p.s.deposits|] == p.s.deposits;
    AlarmsUpTo(p, purged, w, floor, |p.s.deposits|, h);
  }
}
