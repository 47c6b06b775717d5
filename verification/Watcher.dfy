/** The production watcher: one poll drives the storage step by step, as `WatcherSpec.Poll` prescribes. */
module Watcher {
  import opened Basics
  import opened Ledger
  import opened MemoryStorage
  import opened Attribution
  import opened WatcherSpec

  class RealDepositWatcher {
    const cfg: Config
    const storage: InMemoryStorage
    var lagBlocks: Option<int>

    constructor (cfg: Config, storage: InMemoryStorage)
      ensures this.cfg == cfg && this.storage == storage && lagBlocks == None
    {
      this.cfg, this.storage := cfg, storage;
      lagBlocks := None;
    }

    /** One poll against a fixed snapshot; `done` is false where the source throws. */
    method PollOnce(chain: seq<Block>, dir: Directory, now: int) returns (done: bool, res: PollResult)
      requires storage.Valid()
      modifies this, storage
      ensures storage.Valid()
      ensures var p := Poll(old(storage.Model()), View(cfg, chain, dir, now));
        && storage.Model() == p.s && done == !p.failed && res == p.res
        && lagBlocks == if done then Some(res.lag) else old(lagBlocks)
    {
      hide Advance, Reap;
      var v := View(cfg, chain, dir, now);
      res := Blank(v);
      var cursor := storage.GetWatcherCursor(CURSOR_KEY);
      if cursor.None? {
        var height := if cfg.startHeight.Some? then cfg.startHeight.value - 1 else |chain| - 1;
        if !Known(v, height) {
          return false, res;
        }
        cursor := Some(Cursor(height, chain[height].hash, now));
        storage.SetWatcherCursor(CURSOR_KEY, cursor.value);
        if cfg.startHeight.None? {
          res := res.(bootstrapped := true);
          lagBlocks := Some(0);
          return true, res;
        }
      }
      done, res := Continue(v, cursor.value, res);
      if done {
        lagBlocks := Some(res.lag);
      }
    }

    method Continue(v: View, cursor: Cursor, res0: PollResult) returns (done: bool, res: PollResult)
      requires storage.Valid() && v.cfg == cfg
      modifies storage
      ensures storage.Valid()
      ensures var p := Advance(Progress(old(storage.Model()), res0, false), v, cursor);
        storage.Model() == p.s && done == !p.failed && res == p.res
    {
      hide Detect, Scan, CreditRows, Uncredited;
      hide storage.Model, storage.Valid;
      var scanFrom;
      ghost var detected := Detect(Progress(storage.Model(), res0, false), v, cursor);
      done, res, scanFrom := DetectReorg(v, cursor, res0);
      if !done {
        ScanFailed(detected.0, v, detected.1);
        return;
      }
      done, res := ScanForward(v, scanFrom, res);
      if !done {
        return;
      }
      var waiting := storage.ListUncreditedDeposits();
      done, res := CreditDeep(waiting, v, res);
      if done {
        res := res.(lag := |v.chain| - 1 - Max(ScanTo(v, scanFrom), cursor.lastBlock));
      }
    }

    /** Compares the cursor's hash with the chain; on a mismatch marks what lost its block and backs up. */
    method DetectReorg(v: View, cursor: Cursor, res0: PollResult) returns (done: bool, res: PollResult, scanFrom: int)
      requires storage.Valid() && v.cfg == cfg
      modifies storage
      ensures storage.Valid()
      ensures var (p, from) := Detect(Progress(old(storage.Model()), res0, false), v, cursor);
        storage.Model() == p.s && done == !p.failed && res == p.res && scanFrom == from
      ensures done ==> scanFrom >= 0
    {
      hide MarkRows, AtOrAbove;
      hide storage.Model, storage.Valid;
      done, res, scanFrom := true, res0, cursor.lastBlock + 1;
      if !Known(v, cursor.lastBlock) {
        done := false;
        return;
      }
      if v.chain[cursor.lastBlock].hash != cursor.lastBlockHash {
        var floor := Max(1, cursor.lastBlock - cfg.lookback);
        res := res.(flags := res.flags + [ReorgDetected(cursor.lastBlock, floor)]);
        var rows := storage.ListDepositsAtOrAbove(1);
        done, res := MarkStale(rows, v, floor, res);
        scanFrom := floor;
      }
    }

    /** Scans at most `maxBlocks` blocks and moves the cursor to the last one. */
    method ScanForward(v: View, scanFrom: int, res0: PollResult) returns (done: bool, res: PollResult)
      requires storage.Valid() && v.cfg == cfg && scanFrom >= 0
      modifies storage
      ensures storage.Valid()
      ensures var p := Scan(Progress(old(storage.Model()), res0, false), v, scanFrom);
        storage.Model() == p.s && done == !p.failed && res == p.res
    {
      hide ScanBlocks;
      hide storage.Valid;
      done, res := true, res0;
      var scanTo := Min(|v.chain| - 1, scanFrom + cfg.maxBlocks - 1);
      if scanFrom <= scanTo {
        done, res := ScanRange(v, scanFrom, scanTo + 1, res);
        if !done {
          return;
        }
        storage.SetWatcherCursor(CURSOR_KEY, Cursor(scanTo, v.chain[scanTo].hash, v.now));
        var remaining := |v.chain| - 1 - scanTo;
        res := res.(remaining := remaining,
                    flags := res.flags + (if remaining > 0 then [ScanCapped(remaining)] else []));
      }
    }

    /** Checks every live row against the chain and marks those whose block is gone. */
    method MarkStale(rows: seq<Deposit>, v: View, floor: int, res0: PollResult) returns (done: bool, res: PollResult)
      requires storage.Valid()
      modifies storage
      ensures storage.Valid()
      ensures var p := MarkRows(Progress(old(storage.Model()), res0, false), rows, v, floor);
        storage.Model() == p.s && done == !p.failed && res == p.res
    {
      hide MarkReorged;
      res := res0;
      ghost var start := Progress(storage.Model(), res0, false);
      var i := 0;
      while i < |rows|
        invariant 0 <= i <= |rows| && storage.Valid()
        invariant MarkRows(start, rows[..i], v, floor) == Progress(storage.Model(), res, false)
      {
        var row := rows[i];
        assert rows[..i + 1][..i] == rows[..i];
        if !Known(v, row.blockHeight) {
          MarkFailed(start, rows, i + 1, v, floor);
          return false, res;
        }
        if v.chain[row.blockHeight].hash != row.blockHash {
          var marked := storage.MarkDepositReorged(row.id, v.now);
          if marked.Fault? {
            MarkFailed(start, rows, i + 1, v, floor);
            return false, res;
          }
          if marked.value.Marked? {
            res := res.(reorged := res.reorged + 1);
            var adjusted := marked.value.adjusted;
            var negative := [];
            if adjusted.Some? && adjusted.value < 0 {
              negative := [NegativeBalance(row.identityId, adjusted.value, row.id)];
            }
            var deep := [];
            if row.blockHeight < floor {
              deep := [DeepReorg(row.blockHeight)];
            }
            res := res.(flags := res.flags + negative + deep);
          }
        }
        i := i + 1;
      }
      assert rows[..i] == rows;
      done := true;
    }

    method ScanRange(v: View, from: int, end: int, res0: PollResult) returns (done: bool, res: PollResult)
      requires storage.Valid() && 0 <= from <= end <= |v.chain| && v.cfg == cfg
      modifies storage
      ensures storage.Valid()
      ensures var p := ScanBlocks(Progress(old(storage.Model()), res0, false), v, from, end);
        storage.Model() == p.s && done == !p.failed && res == p.res
    {
      hide ScanBlock;
      res := res0;
      ghost var start := Progress(storage.Model(), res0, false);
      var caches := new Caches();
      var height := from;
      while height < end
        invariant from <= height <= end && storage.Valid() && fresh(caches) && caches.Truthful(v.dir, cfg.chainName)
        invariant ScanBlocks(start, v, from, height) == Progress(storage.Model(), res, false)
      {
        res := ScanOneBlock(v, height, caches, res);
        height := height + 1;
      }
      done := true;
    }

    method ScanOneBlock(v: View, height: int, caches: Caches, res0: PollResult) returns (res: PollResult)
      requires storage.Valid() && Known(v, height) && caches.Truthful(v.dir, cfg.chainName) && v.cfg == cfg
      modifies storage, caches
      ensures storage.Valid() && caches.Truthful(v.dir, cfg.chainName)
      ensures ScanBlock(Progress(old(storage.Model()), res0, false), v, height) == Progress(storage.Model(), res, false)
    {
      hide ScanOut;
      res := res0;
      ghost var start := Progress(storage.Model(), res0, false);
      var txs := v.chain[height].txs;
      var t := 0;
      while t < |txs|
        invariant 0 <= t <= |txs| && storage.Valid() && caches.Truthful(v.dir, cfg.chainName)
        invariant ScanTxs(start, t, v, height) == Progress(storage.Model(), res, false)
      {
        ghost var before := Progress(storage.Model(), res, false);
        var o := 0;
        while o < |txs[t].vouts|
          invariant 0 <= o <= |txs[t].vouts| && storage.Valid() && caches.Truthful(v.dir, cfg.chainName)
          invariant ScanOuts(before, txs[t], o, v, height) == Progress(storage.Model(), res, false)
        {
          res := ScanOneOutput(v, txs[t], txs[t].vouts[o], height, caches, res);
          o := o + 1;
        }
        t := t + 1;
      }
    }

    method ScanOneOutput(v: View, tx: Tx, out: Vout, height: int, caches: Caches, res0: PollResult)
      returns (res: PollResult)
      requires storage.Valid() && Known(v, height) && caches.Truthful(v.dir, cfg.chainName) && v.cfg == cfg
      modifies storage, caches
      ensures storage.Valid() && caches.Truthful(v.dir, cfg.chainName)
      ensures ScanOut(Progress(old(storage.Model()), res0, false), tx, out, v, height) ==
        Progress(storage.Model(), res, false)
    {
      hide Attribute, NewDeposit, SetDeposit;
      hide storage.Model, storage.Valid, caches.Truthful;
      res := res0;
      if cfg.payTo !in out.addresses {
        return;
      }
      var hash := v.chain[height].hash;
      var existing := storage.GetDeposit(tx.txid, out.n);
      if existing.Some? {
        if existing.value.blockHash == hash {
          return;
        }
        var remined := storage.RemineDeposit(tx.txid, out.n, height, hash, |v.chain| - 1 - height);
        if remined.Some? {
          res := res.(remined := res.remined + 1);
        }
        return;
      }
      var attribution := AttributeSender(tx, v.dir, cfg.chainName, caches);
      if attribution.Unknown? {
        res := res.(unattributed := res.unattributed + [Skipped(tx.txid, out.n, attribution.reason)]);
        return;
      }
      var inserted := storage.InsertDepositRow(
        DepositInput(attribution.identityKey, out.valueSat, tx.txid, out.n, height, hash, |v.chain| - 1 - height, v.now,
                     Real, Memo(cfg.currency, None, None)));
      if inserted.Inserted? {
        res := res.(inserted := res.inserted + 1);
      }
    }

    /** Writes the depth of every waiting row and credits those deep enough. */
    method CreditDeep(rows: seq<Deposit>, v: View, res0: PollResult) returns (done: bool, res: PollResult)
      requires storage.Valid() && v.cfg == cfg
      modifies storage
      ensures storage.Valid()
      ensures var p := CreditRows(Progress(old(storage.Model()), res0, false), rows, v);
        storage.Model() == p.s && done == !p.failed && res == p.res
    {
      hide Credit, UpdateConfirmations;
      res := res0;
      ghost var start := Progress(storage.Model(), res0, false);
      var i := 0;
      while i < |rows|
        invariant 0 <= i <= |rows| && storage.Valid()
        invariant CreditRows(start, rows[..i], v) == Progress(storage.Model(), res, false)
      {
        var row := rows[i];
        assert rows[..i + 1][..i] == rows[..i];
        var confirmations := |v.chain| - 1 - row.blockHeight;
        storage.UpdateDepositConfirmations(row.id, confirmations);
        if confirmations >= cfg.minConfirmations {
          var credited := storage.CreditDeposit(row.id, v.now);
          if credited.Fault? {
            CreditFailed(start, rows, i + 1, v);
            return false, res;
          }
          if credited.value.Credited? {
            res := res.(credited := res.credited + [CreditNote(row.id, row.identityId, credited.value.balanceAfter)]);
          }
        }
        i := i + 1;
      }
      assert rows[..i] == rows;
      done := true;
    }
  }

  /** Once a poll has thrown, the remaining rows are not visited. */
  lemma {:induction false} MarkFailed(p: Progress, rows: seq<Deposit>, i: nat, v: View, floor: int)
    requires i <= |rows| && MarkRows(p, rows[..i], v, floor).failed
    ensures MarkRows(p, rows, v, floor) == MarkRows(p, rows[..i], v, floor)
    decreases |rows|
  {
    if i < |rows| {
      assert rows[..|rows| - 1][..i] == rows[..i];
      MarkFailed(p, rows[..|rows| - 1], i, v, floor);
    } else {
      assert rows[..i] == rows;
    }
  }

  lemma {:induction false} CreditFailed(p: Progress, rows: seq<Deposit>, i: nat, v: View)
    requires i <= |rows| && CreditRows(p, rows[..i], v).failed
    ensures CreditRows(p, rows, v) == CreditRows(p, rows[..i], v)
    decreases |rows|
  {
    if i < |rows| {
      assert rows[..|rows| - 1][..i] == rows[..i];
      CreditFailed(p, rows[..|rows| - 1], i, v);
    } else {
      assert rows[..i] == rows;
    }
  }
}
