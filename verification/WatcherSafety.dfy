/** Safety of the watcher: whatever chains the polls see, a live deposit row is always backed by the chain,
    and no poll re-mines a row that is still live. */
module WatcherSafety {
  import opened Basics
  import opened Ledger
  import opened Conservation
  import opened Attribution
  import opened WatcherSpec

  // ---------- hypotheses about the node ----------

  /** A block hash fixes its height and its ancestors, across two chains. */
  ghost predicate HashFixes(c: seq<Block>, d: seq<Block>) {
    forall g, h | 0 <= g < |c| && 0 <= h < |d| && c[g].hash == d[h].hash :: g == h && c[..g + 1] == d[..g + 1]
  }

  predicate HasTx(chain: seq<Block>, height: int, txid: string)
    requires 0 <= height < |chain|
  {
    exists t | 0 <= t < |chain[height].txs| :: chain[height].txs[t].txid == txid
  }

  /** A block hash fixes its place on a chain; a txid fixes its transaction and occurs in at most one block. */
  ghost predicate Regular(chain: seq<Block>, dir: Directory) {
    && HashFixes(chain, chain)
    && (forall h, t | 0 <= h < |chain| && 0 <= t < |chain[h].txs| ::
          chain[h].txs[t] == dir.txOf(chain[h].txs[t].txid))
    && (forall g, h, txid | 0 <= g < |chain| && 0 <= h < |chain| && HasTx(chain, g, txid) && HasTx(chain, h, txid) ::
        g == h)
  }

  /** Operator rows reuse no txid of the chain. */
  ghost predicate Alien(s: Store, chain: seq<Block>) {
    forall d, h | d in s.deposits && d.origin == Simulated && 0 <= h < |chain| :: !HasTx(chain, h, d.txid)
  }

  // ---------- what a row must satisfy ----------

  ghost predicate OnChain(chain: seq<Block>, d: Deposit) {
    && 1 <= d.blockHeight < |chain|
    && chain[d.blockHeight].hash == d.blockHash
    && HasTx(chain, d.blockHeight, d.txid)
  }

  /** The row records an output of its transaction that pays the operator, for its sender, at its value. */
  ghost predicate Genuine(v: View, d: Deposit) {
    var tx := v.dir.txOf(d.txid);
    var sender := Attribute(tx, v.dir, v.cfg.chainName);
    && sender.Sender? && sender.identityKey == d.identityId
    && exists o | 0 <= o < |tx.vouts| ::
        tx.vouts[o].n == d.vout && tx.vouts[o].valueSat == d.amount && Pays(v, tx.vouts[o])
  }

  ghost predicate RowSafe(v: View, top: int, d: Deposit) {
    if d.origin == Simulated then d.blockHeight <= 0
    else
      && Genuine(v, d)
      && (d.reorgedAt.None? ==> OnChain(v.chain, d) && d.blockHeight <= top)
      && (d.creditedAt.Some? ==> d.confirmations >= v.cfg.minConfirmations)
  }

  ghost predicate Safe(s: Store, v: View, top: int) {
    forall d | d in s.deposits :: RowSafe(v, top, d)
  }

  /** A poll under way that has not thrown, with its books in order. */
  ghost predicate Sound(p: Progress, purged: seq<map<string, Request>>, v: View, top: int) {
    && !p.failed
    && Inv(Audit(p.s, purged))
    && Safe(p.s, v, top)
    && Alien(p.s, v.chain)
  }

  // ---------- scanning ----------

  /** The row an output finds during a scan is already marked reorged, or is this very sighting. */
  lemma ExistingIsMarked(p: Progress, purged: seq<map<string, Request>>, v: View, top: int, height: int, t: nat, i: nat)
    requires Sound(p, purged, v, top) && Regular(v.chain, v.dir)
    requires Known(v, height) && t < |v.chain[height].txs| && i < |p.s.deposits|
    requires p.s.deposits[i].txid == v.chain[height].txs[t].txid
    ensures p.s.deposits[i].origin == Real
    ensures p.s.deposits[i].reorgedAt.None? ==>
      p.s.deposits[i].blockHeight == height && p.s.deposits[i].blockHash == v.chain[height].hash
  {
    var e := p.s.deposits[i];
    assert e in p.s.deposits && RowSafe(v, top, e);
    assert HasTx(v.chain, height, e.txid);
  }

  /** A real row moved to the block that carries its transaction is safe there. */
  lemma MovedRowSafe(v: View, top: int, e: Deposit, height: int, t: nat, confirmations: int)
    requires RowSafe(v, top, e) && e.origin == Real
    requires 1 <= height <= top < |v.chain| && t < |v.chain[height].txs| && v.chain[height].txs[t].txid == e.txid
    ensures RowSafe(v, top, e.(blockHeight := height, blockHash := v.chain[height].hash, confirmations := confirmations,
                               reorgedAt := None, creditedAt := None))
  {
    hide Attribute;
    var e' := e.(blockHeight := height, blockHash := v.chain[height].hash, confirmations := confirmations,
                 reorgedAt := None, creditedAt := None);
    assert HasTx(v.chain, height, e.txid);
    assert Genuine(v, e');
  }

  lemma RemineSound(p: Progress, purged: seq<map<string, Request>>, v: View, top: int, height: int, t: nat, o: nat,
                    i: nat)
    requires Sound(p, purged, v, top) && Regular(v.chain, v.dir)
    requires 1 <= height <= top < |v.chain| && t < |v.chain[height].txs| && o < |v.chain[height].txs[t].vouts|
    requires var tx := v.chain[height].txs[t];
      && FindDeposit(p.s.deposits, tx.txid, tx.vouts[o].n) == Some(i)
      && p.s.deposits[i].blockHash != v.chain[height].hash
    ensures var tx := v.chain[height].txs[t];
      var op := OpRemine(tx.txid, tx.vouts[o].n, height, v.chain[height].hash, Tip(v) - height);
      && !Overcredits(p.s, op)
      && Sound(p.(s := Apply(p.s, op)), purged, v, top)
  {
    hide Inv, RowSafe, Alien, Regular;
    var tx := v.chain[height].txs[t];
    var e := p.s.deposits[i];
    ExistingIsMarked(p, purged, v, top, height, t, i);
    assert RowSafe(v, top, e);
    RemineKeeps(Audit(p.s, purged), tx.txid, tx.vouts[o].n, height, v.chain[height].hash, Tip(v) - height);
    var s1 := Remine(p.s, tx.txid, tx.vouts[o].n, height, v.chain[height].hash, Tip(v) - height).0;
    MovedRowSafe(v, top, e, height, t, Tip(v) - height);
    RowsAfterUpdate(p.s, s1, v, top, i);
  }

  lemma InsertSound(p: Progress, purged: seq<map<string, Request>>, v: View, top: int, height: int, t: nat, o: nat,
                    key: string)
    requires Sound(p, purged, v, top) && Regular(v.chain, v.dir)
    requires 1 <= height <= top < |v.chain| && t < |v.chain[height].txs| && o < |v.chain[height].txs[t].vouts|
    requires var tx := v.chain[height].txs[t];
      && Pays(v, tx.vouts[o])
      && Attribute(tx, v.dir, v.cfg.chainName).Sender? && Attribute(tx, v.dir, v.cfg.chainName).identityKey == key
    ensures var tx := v.chain[height].txs[t];
      Sound(p.(s := InsertDeposit(p.s, Sighting(v, tx, tx.vouts[o], height, key)).0), purged, v, top)
  {
    var tx := v.chain[height].txs[t];
    var input := Sighting(v, tx, tx.vouts[o], height, key);
    InsertKeeps(Audit(p.s, purged), input);
    var d := NewDeposit(p.s, input);
    assert v.dir.txOf(tx.txid) == tx;
    assert tx.vouts[o].n == d.vout;
    assert HasTx(v.chain, height, tx.txid);
    assert RowSafe(v, top, d);
  }

  lemma ScanOutSound(p: Progress, purged: seq<map<string, Request>>, v: View, top: int, height: int, t: nat, o: nat)
    requires Sound(p, purged, v, top) && Regular(v.chain, v.dir)
    requires 1 <= height <= top < |v.chain| && t < |v.chain[height].txs| && o < |v.chain[height].txs[t].vouts|
    ensures var tx := v.chain[height].txs[t];
      Sound(ScanOut(p, tx, tx.vouts[o], v, height), purged, v, top)
  {
    hide Inv, Safe, Alien, Regular, Remine, InsertDeposit, Attribute;
    var tx := v.chain[height].txs[t];
    var out := tx.vouts[o];
    var found := FindDeposit(p.s.deposits, tx.txid, out.n);
    if Pays(v, out) {
      if found.Some? {
        if p.s.deposits[found.value].blockHash != v.chain[height].hash {
          RemineSound(p, purged, v, top, height, t, o, found.value);
        }
      } else if Attribute(tx, v.dir, v.cfg.chainName).Sender? {
        InsertSound(p, purged, v, top, height, t, o, Attribute(tx, v.dir, v.cfg.chainName).identityKey);
      }
    }
  }

  /** Replacing one row by a safe real one keeps all rows safe. */
  lemma RowsAfterUpdate(s: Store, s1: Store, v: View, top: int, i: nat)
    requires i < |s.deposits| == |s1.deposits| && s1 == SetDeposit(s, i, s1.deposits[i])
    requires Safe(s, v, top) && Alien(s, v.chain)
    requires s1.deposits[i].origin == Real && RowSafe(v, top, s1.deposits[i])
    ensures Safe(s1, v, top) && Alien(s1, v.chain)
  {
    forall d | d in s1.deposits ensures d in s.deposits || d == s1.deposits[i] {
      var j :| 0 <= j < |s1.deposits| && s1.deposits[j] == d;
      if j != i { assert s.deposits[j] == d; }
    }
  }

  lemma {:induction false} ScanOutsSound(p: Progress, purged: seq<map<string, Request>>, v: View, top: int, height: int,
                                         t: nat, k: nat)
    requires Sound(p, purged, v, top) && Regular(v.chain, v.dir)
    requires 1 <= height <= top < |v.chain| && t < |v.chain[height].txs| && k <= |v.chain[height].txs[t].vouts|
    ensures Sound(ScanOuts(p, v.chain[height].txs[t], k, v, height), purged, v, top)
  {
    hide Sound, Regular, ScanOut;
    if k > 0 {
      ScanOutsSound(p, purged, v, top, height, t, k - 1);
      ScanOutSound(ScanOuts(p, v.chain[height].txs[t], k - 1, v, height), purged, v, top, height, t, k - 1);
    }
  }

  lemma {:induction false} ScanTxsSound(p: Progress, purged: seq<map<string, Request>>, v: View, top: int, height: int,
                                        k: nat)
    requires Sound(p, purged, v, top) && Regular(v.chain, v.dir)
    requires 1 <= height <= top < |v.chain| && k <= |v.chain[height].txs|
    ensures Sound(ScanTxs(p, k, v, height), purged, v, top)
  {
    hide Sound, Regular, ScanOuts;
    if k > 0 {
      ScanTxsSound(p, purged, v, top, height, k - 1);
      ScanOutsSound(ScanTxs(p, k - 1, v, height), purged, v, top, height, k - 1, |v.chain[height].txs[k - 1].vouts|);
    }
  }

  lemma {:induction false} ScanBlocksSound(p: Progress, purged: seq<map<string, Request>>, v: View, top: int, from: int,
                                           end: int)
    requires Sound(p, purged, v, top) && Regular(v.chain, v.dir)
    requires 1 <= from <= end <= top + 1 <= |v.chain|
    ensures Sound(ScanBlocks(p, v, from, end), purged, v, top)
    decreases end - from
  {
    hide Sound, Regular, ScanTxs;
    if from < end {
      ScanBlocksSound(p, purged, v, top, from, end - 1);
      ScanTxsSound(ScanBlocks(p, v, from, end - 1), purged, v, top, end - 1, |v.chain[end - 1].txs|);
    }
  }

  // ---------- marking ----------

  /** What marking does to a row: a live listed row whose block is gone is marked, nothing else changes. */
  function Remark(v: View, d: Deposit): Deposit {
    if d.blockHeight >= 1 && d.reorgedAt.None? && Known(v, d.blockHeight) && v.chain[d.blockHeight].hash != d.blockHash
    then d.(reorgedAt := Some(v.now)) else d
  }

  ghost predicate RemarkedUpTo(s: Store, s1: Store, v: View, n: nat) {
    && |s1.deposits| == |s.deposits| && n <= |s.deposits|
    && (forall i | 0 <= i < n :: s1.deposits[i] == Remark(v, s.deposits[i]))
    && (forall i | n <= i < |s.deposits| :: s1.deposits[i] == s.deposits[i])
    && s1.cursors == s.cursors
  }

  lemma MarkRowEffect(p: Progress, purged: seq<map<string, Request>>, row: Deposit, v: View, floor: int)
    requires !p.failed && Inv(Audit(p.s, purged)) && HasId(p.s, row.id) && p.s.deposits[row.id - 1] == row
    requires row.reorgedAt.None? && row.blockHeight >= 1 && Known(v, row.blockHeight)
    ensures var q := MarkRow(p, row, v, floor);
      && !q.failed && Inv(Audit(q.s, purged))
      && q.s.deposits == p.s.deposits[row.id - 1 := Remark(v, row)] && q.s.cursors == p.s.cursors
  {
    MarkKeeps(Audit(p.s, purged), row.id, v.now);
  }

  lemma RemarkSpares(v: View, d: Deposit)
    requires d.blockHeight < 1 || d.reorgedAt.Some?
    ensures Remark(v, d) == d
  {}

  lemma AtOrAboveStep(ds: seq<Deposit>, n: nat)
    requires n < |ds|
    ensures AtOrAbove(ds[..n + 1], 1) ==
      if ds[n].blockHeight >= 1 && ds[n].reorgedAt.None? then AtOrAbove(ds[..n], 1) + [ds[n]] else AtOrAbove(ds[..n], 1)
  {
    assert ds[..n + 1][..n] == ds[..n];
  }

  lemma RemarkedNext(s: Store, s1: Store, v: View, n: nat)
    requires RemarkedUpTo(s, s1, v, n) && n < |s.deposits|
    ensures |s1.deposits| == |s.deposits| && s1.deposits[n] == s.deposits[n]
  {}

  lemma RemarkExtends(s: Store, s1: Store, s2: Store, v: View, n: nat)
    requires RemarkedUpTo(s, s1, v, n) && n < |s.deposits|
    requires s2.deposits == s1.deposits[n := Remark(v, s.deposits[n])] && s2.cursors == s1.cursors
    ensures RemarkedUpTo(s, s2, v, n + 1)
  {}

  lemma MarkRowsStep(p: Progress, rows: seq<Deposit>, row: Deposit, v: View, floor: int)
    ensures MarkRows(p, rows + [row], v, floor) == MarkRow(MarkRows(p, rows, v, floor), row, v, floor)
  {
    assert (rows + [row])[..|rows|] == rows;
  }

  lemma {:induction false} MarkRowsEffect(p: Progress, purged: seq<map<string, Request>>, v: View, floor: int, n: nat)
    requires !p.failed && Inv(Audit(p.s, purged)) && n <= |p.s.deposits|
    requires forall d | d in p.s.deposits && d.reorgedAt.None? && d.blockHeight >= 1 :: Known(v, d.blockHeight)
    ensures var q := MarkRows(p, AtOrAbove(p.s.deposits[..n], 1), v, floor);
      !q.failed && Inv(Audit(q.s, purged)) && RemarkedUpTo(p.s, q.s, v, n)
  {
    if n == 0 {
      assert p.s.deposits[..0] == [];
    } else {
      hide Inv, MarkRows, AtOrAbove, RemarkedUpTo;
      MarkRowsEffect(p, purged, v, floor, n - 1);
      assert p.s.deposits[n - 1] in p.s.deposits;
      NextRowMarked(p, purged, v, floor, n - 1);
    }
  }

  /** One more row is visited. */
  lemma NextRowMarked(p: Progress, purged: seq<map<string, Request>>, v: View, floor: int, n: nat)
    requires Inv(Audit(p.s, purged)) && n < |p.s.deposits|
    requires var d := p.s.deposits[n]; d.reorgedAt.None? && d.blockHeight >= 1 ==> Known(v, d.blockHeight)
    requires var q := MarkRows(p, AtOrAbove(p.s.deposits[..n], 1), v, floor);
      !q.failed && Inv(Audit(q.s, purged)) && RemarkedUpTo(p.s, q.s, v, n)
    ensures var q := MarkRows(p, AtOrAbove(p.s.deposits[..n + 1], 1), v, floor);
      !q.failed && Inv(Audit(q.s, purged)) && RemarkedUpTo(p.s, q.s, v, n + 1)
  {
    hide Inv, MarkRow, MarkRows, AtOrAbove, RemarkedUpTo, Remark;
    AtOrAboveStep(p.s.deposits, n);
    var row, before := p.s.deposits[n], AtOrAbove(p.s.deposits[..n], 1);
    var q := MarkRows(p, before, v, floor);
    RemarkedNext(p.s, q.s, v, n);
    if row.blockHeight >= 1 && row.reorgedAt.None? {
      InvNumbers(Audit(p.s, purged), n);
      MarkRowEffect(q, purged, row, v, floor);
      MarkRowsStep(p, before, row, v, floor);
      RemarkExtends(p.s, q.s, MarkRow(q, row, v, floor).s, v, n);
    } else {
      RemarkSpares(v, row);
      RemarkExtends(p.s, q.s, q.s, v, n);
    }
  }

  lemma InvNumbers(a: Audit, i: nat)
    requires Inv(a) && i < |a.s.deposits|
    ensures a.s.deposits[i].id == i + 1
  {}

  // ---------- crediting ----------

  /** What the confirmation pass does to a row: a waiting row gets its depth, and its credit when deep enough. */
  function Settle(v: View, d: Deposit): Deposit {
    if d.creditedAt.None? && d.reorgedAt.None? then
      var depth := Tip(v) - d.blockHeight;
      d.(confirmations := depth, creditedAt := if depth >= v.cfg.minConfirmations then Some(v.now) else None)
    else d
  }

  ghost predicate SettledUpTo(s: Store, s1: Store, v: View, n: nat) {
    && |s1.deposits| == |s.deposits| && n <= |s.deposits|
    && (forall i | 0 <= i < n :: s1.deposits[i] == Settle(v, s.deposits[i]))
    && (forall i | n <= i < |s.deposits| :: s1.deposits[i] == s.deposits[i])
    && s1.cursors == s.cursors
  }

  lemma SettleSpares(v: View, d: Deposit)
    requires d.creditedAt.Some? || d.reorgedAt.Some?
    ensures Settle(v, d) == d
  {}

  lemma CreditRowEffect(p: Progress, purged: seq<map<string, Request>>, row: Deposit, v: View)
    requires !p.failed && Inv(Audit(p.s, purged)) && HasId(p.s, row.id) && p.s.deposits[row.id - 1] == row
    requires row.reorgedAt.None? && row.creditedAt.None?
    ensures var q := CreditRow(p, row, v);
      && !q.failed && Inv(Audit(q.s, purged))
      && q.s.deposits == p.s.deposits[row.id - 1 := Settle(v, row)] && q.s.cursors == p.s.cursors
  {
    hide Inv, Credit, UpdateConfirmations;
    var depth := Tip(v) - row.blockHeight;
    var confirmed := UpdateConfirmations(p.s, row.id, depth);
    ConfirmKeeps(Audit(p.s, purged), row.id, depth);
    ConfirmedRow(p.s, row.id, depth);
    CreditKeeps(Audit(confirmed, purged), row.id, v.now);
    CreditedRow(confirmed, row.id, v.now);
  }

  lemma ConfirmedRow(s: Store, id: int, depth: int)
    requires HasId(s, id)
    ensures var t := UpdateConfirmations(s, id, depth);
      t.deposits == s.deposits[id - 1 := s.deposits[id - 1].(confirmations := depth)] && t.cursors == s.cursors
  {}

  lemma CreditedRow(s: Store, id: int, at: int)
    requires HasId(s, id) && s.deposits[id - 1].reorgedAt.None? && s.deposits[id - 1].creditedAt.None?
    requires Credit(s, id, at).1.Done?
    ensures var t := Credit(s, id, at).0;
      t.deposits == s.deposits[id - 1 := s.deposits[id - 1].(creditedAt := Some(at))] && t.cursors == s.cursors
  {
    hide Solvent;
  }

  lemma UncreditedStep(ds: seq<Deposit>, n: nat)
    requires n < |ds|
    ensures Uncredited(ds[..n + 1]) ==
      if ds[n].creditedAt.None? && ds[n].reorgedAt.None? then Uncredited(ds[..n]) + [ds[n]] else Uncredited(ds[..n])
  {
    assert ds[..n + 1][..n] == ds[..n];
  }

  lemma SettledNext(s: Store, s1: Store, v: View, n: nat)
    requires SettledUpTo(s, s1, v, n) && n < |s.deposits|
    ensures |s1.deposits| == |s.deposits| && s1.deposits[n] == s.deposits[n]
  {}

  lemma SettleExtends(s: Store, s1: Store, s2: Store, v: View, n: nat)
    requires SettledUpTo(s, s1, v, n) && n < |s.deposits|
    requires s2.deposits == s1.deposits[n := Settle(v, s.deposits[n])] && s2.cursors == s1.cursors
    ensures SettledUpTo(s, s2, v, n + 1)
  {}

  lemma CreditRowsStep(p: Progress, rows: seq<Deposit>, row: Deposit, v: View)
    ensures CreditRows(p, rows + [row], v) == CreditRow(CreditRows(p, rows, v), row, v)
  {
    assert (rows + [row])[..|rows|] == rows;
  }

  lemma {:induction false} CreditRowsEffect(p: Progress, purged: seq<map<string, Request>>, v: View, n: nat)
    requires !p.failed && Inv(Audit(p.s, purged)) && n <= |p.s.deposits|
    ensures var q := CreditRows(p, Uncredited(p.s.deposits[..n]), v);
      !q.failed && Inv(Audit(q.s, purged)) && SettledUpTo(p.s, q.s, v, n)
  {
    if n == 0 {
      assert p.s.deposits[..0] == [];
    } else {
      hide Inv, CreditRows, Uncredited, SettledUpTo;
      CreditRowsEffect(p, purged, v, n - 1);
      NextRowSettles(p, purged, v, n - 1);
    }
  }

  /** One more row settles. */
  lemma NextRowSettles(p: Progress, purged: seq<map<string, Request>>, v: View, n: nat)
    requires Inv(Audit(p.s, purged)) && n < |p.s.deposits|
    requires var q := CreditRows(p, Uncredited(p.s.deposits[..n]), v);
      !q.failed && Inv(Audit(q.s, purged)) && SettledUpTo(p.s, q.s, v, n)
    ensures var q := CreditRows(p, Uncredited(p.s.deposits[..n + 1]), v);
      !q.failed && Inv(Audit(q.s, purged)) && SettledUpTo(p.s, q.s, v, n + 1)
  {
    hide Inv, CreditRow, CreditRows, Uncredited, SettledUpTo, Settle;
    UncreditedStep(p.s.deposits, n);
    var row, before := p.s.deposits[n], Uncredited(p.s.deposits[..n]);
    var q := CreditRows(p, before, v);
    SettledNext(p.s, q.s, v, n);
    if row.creditedAt.None? && row.reorgedAt.None? {
      InvNumbers(Audit(p.s, purged), n);
      CreditRowEffect(q, purged, row, v);
      CreditRowsStep(p, before, row, v);
      SettleExtends(p.s, q.s, CreditRow(q, row, v).s, v, n);
    } else {
      SettleSpares(v, row);
      SettleExtends(p.s, q.s, q.s, v, n);
    }
  }
}
