/** One poll of the deposit watcher as a function of the store and a chain snapshot. */
module WatcherSpec {
  import opened Basics
  import opened Ledger
  import opened Attribution

  datatype Config = Config(
    payTo: string, chainName: string, currency: string,
    minConfirmations: int, lookback: int, maxBlocks: int, startHeight: Option<int>)

  /** Everything a poll reads besides the store. The chain does not change during the poll. */
  datatype View = View(cfg: Config, chain: seq<Block>, dir: Directory, now: int)

  const CURSOR_KEY := "deposits"

  datatype Flag =
    | ReorgDetected(height: int, floor: int)
    | NegativeBalance(identityId: string, balance: int, depositId: nat)
    | DeepReorg(height: int)
    | ScanCapped(remaining: int)

  datatype CreditNote = CreditNote(depositId: nat, identityId: string, balanceAfter: int)
  datatype Skipped = Skipped(txid: string, vout: int, reason: Attribution.Reason)

  datatype PollResult = PollResult(
    bootstrapped: bool, tip: int, inserted: nat, remined: nat, reorged: nat,
    credited: seq<CreditNote>, unattributed: seq<Skipped>, remaining: int, flags: seq<Flag>, lag: int)

  /** A poll under way: the store, the result so far, and whether the poll has thrown. */
  datatype Progress = Progress(s: Store, res: PollResult, failed: bool)

  function Tip(v: View): int {
    |v.chain| - 1
  }

  /** getBlock answers. */
  predicate Known(v: View, height: int) {
    0 <= height < |v.chain|
  }

  function Max(a: int, b: int): int {
    if a >= b then a else b
  }

  function Min(a: int, b: int): int {
    if a <= b then a else b
  }

  // ---------- marking after a reorg ----------

  function Floor(v: View, cursorHeight: int): int {
    Max(1, cursorHeight - v.cfg.lookback)
  }

  function MarkRow(p: Progress, row: Deposit, v: View, floor: int): Progress {
    if p.failed then p
    else if !Known(v, row.blockHeight) then p.(failed := true)
    else if v.chain[row.blockHeight].hash == row.blockHash then p
    else
      var (s, r) := MarkReorged(p.s, row.id, v.now);
      match r
      case Fault => p.(s := s, failed := true)
      case Done(Marked(adjusted)) =>
        var negative :=
          if adjusted.Some? && adjusted.value < 0
          then [NegativeBalance(row.identityId, adjusted.value, row.id)] else [];
        var deep := if row.blockHeight < floor then [DeepReorg(row.blockHeight)] else [];
        p.(s := s, res := p.res.(reorged := p.res.reorged + 1, flags := p.res.flags + negative + deep))
      case Done(_) => p.(s := s)
  }

  function MarkRows(p: Progress, rows: seq<Deposit>, v: View, floor: int): Progress {
    if rows == [] then p else MarkRow(MarkRows(p, rows[..|rows| - 1], v, floor), rows[|rows| - 1], v, floor)
  }

  // ---------- scanning ----------

  predicate Pays(v: View, out: Vout) {
    v.cfg.payTo in out.addresses
  }

  function Sighting(v: View, tx: Tx, out: Vout, height: int, key: string): DepositInput
    requires Known(v, height)
  {
    DepositInput(key, out.valueSat, tx.txid, out.n, height, v.chain[height].hash, Tip(v) - height, v.now, Real,
                 Memo(v.cfg.currency, None, None))
  }

  ghost function ScanOut(p: Progress, tx: Tx, out: Vout, v: View, height: int): Progress
    requires Known(v, height)
  {
    if p.failed || !Pays(v, out) then p
    else
      var hash := v.chain[height].hash;
      var existing := FindDeposit(p.s.deposits, tx.txid, out.n);
      if existing.Some? then
        if p.s.deposits[existing.value].blockHash == hash then p
        else
          p.(s := Remine(p.s, tx.txid, out.n, height, hash, Tip(v) - height).0,
             res := p.res.(remined := p.res.remined + 1))
      else
        match Attribute(tx, v.dir, v.cfg.chainName)
        case Unknown(reason) =>
          p.(res := p.res.(unattributed := p.res.unattributed + [Skipped(tx.txid, out.n, reason)]))
        case Sender(key, _) =>
          p.(s := InsertDeposit(p.s, Sighting(v, tx, out, height, key)).0,
             res := p.res.(inserted := p.res.inserted + 1))
  }

  ghost function ScanOuts(p: Progress, tx: Tx, k: nat, v: View, height: int): Progress
    requires Known(v, height) && k <= |tx.vouts|
  {
    if k == 0 then p else ScanOut(ScanOuts(p, tx, k - 1, v, height), tx, tx.vouts[k - 1], v, height)
  }

  ghost function ScanTxs(p: Progress, k: nat, v: View, height: int): Progress
    requires Known(v, height) && k <= |v.chain[height].txs|
  {
    if k == 0 then p
    else
      var tx := v.chain[height].txs[k - 1];
      ScanOuts(ScanTxs(p, k - 1, v, height), tx, |tx.vouts|, v, height)
  }

  ghost function ScanBlock(p: Progress, v: View, height: int): Progress
    requires Known(v, height)
  {
    ScanTxs(p, |v.chain[height].txs|, v, height)
  }

  /** The blocks from `from` up to and excluding `end`. */
  ghost function ScanBlocks(p: Progress, v: View, from: int, end: int): Progress
    requires 0 <= from <= end <= |v.chain|
    decreases end - from
  {
    if end == from then p else ScanBlock(ScanBlocks(p, v, from, end - 1), v, end - 1)
  }

  // ---------- crediting ----------

  function CreditRow(p: Progress, row: Deposit, v: View): Progress {
    if p.failed then p
    else
      var depth := Tip(v) - row.blockHeight;
      var s := UpdateConfirmations(p.s, row.id, depth);
      if depth < v.cfg.minConfirmations then p.(s := s)
      else
        var (s', r) := Credit(s, row.id, v.now);
        match r
        case Fault => p.(s := s', failed := true)
        case Done(Credited(balance, _)) =>
          p.(s := s', res := p.res.(credited := p.res.credited + [CreditNote(row.id, row.identityId, balance)]))
        case Done(_) => p.(s := s')
  }

  function CreditRows(p: Progress, rows: seq<Deposit>, v: View): Progress {
    if rows == [] then p else CreditRow(CreditRows(p, rows[..|rows| - 1], v), rows[|rows| - 1], v)
  }

  // ---------- the poll ----------

  function Blank(v: View): PollResult {
    PollResult(false, Tip(v), 0, 0, 0, [], [], 0, [], 0)
  }

  function SetCursor(s: Store, v: View, height: int): Store
    requires Known(v, height)
  {
    s.(cursors := s.cursors[CURSOR_KEY := Cursor(height, v.chain[height].hash, v.now)])
  }

  /** The chain carries another block where the cursor stands. */
  predicate CursorLost(v: View, cursor: Cursor) {
    Known(v, cursor.lastBlock) && v.chain[cursor.lastBlock].hash != cursor.lastBlockHash
  }

  /** First height to scan, and the rows marked on the way when the cursor block is gone. */
  function Detect(p: Progress, v: View, cursor: Cursor): (Progress, int) {
    if !Known(v, cursor.lastBlock) then (p.(failed := true), cursor.lastBlock + 1)
    else if v.chain[cursor.lastBlock].hash == cursor.lastBlockHash then (p, cursor.lastBlock + 1)
    else
      var floor := Floor(v, cursor.lastBlock);
      var flagged := p.(res := p.res.(flags := p.res.flags + [ReorgDetected(cursor.lastBlock, floor)]));
      (MarkRows(flagged, AtOrAbove(p.s.deposits, 1), v, floor), floor)
  }

  function ScanTo(v: View, from: int): int {
    Min(Tip(v), from + v.cfg.maxBlocks - 1)
  }

  ghost function Scan(p: Progress, v: View, from: int): Progress {
    var last := ScanTo(v, from);
    if p.failed || from < 0 || last < from then p
    else
      var scanned := ScanBlocks(p, v, from, last + 1);
      if scanned.failed then scanned
      else
        var remaining := Tip(v) - last;
        var flags := scanned.res.flags + (if remaining > 0 then [ScanCapped(remaining)] else []);
        scanned.(s := SetCursor(scanned.s, v, last), res := scanned.res.(remaining := remaining, flags := flags))
  }

  /** Once a poll has thrown, nothing is scanned. */
  lemma ScanFailed(p: Progress, v: View, from: int)
    requires p.failed
    ensures Scan(p, v, from) == p
  {}

  ghost function Advance(p: Progress, v: View, cursor: Cursor): Progress {
    var (marked, from) := Detect(p, v, cursor);
    var scanned := Scan(marked, v, from);
    if scanned.failed then scanned
    else
      var credited := CreditRows(scanned, Uncredited(scanned.s.deposits), v);
      if credited.failed then credited
      else credited.(res := credited.res.(lag := Tip(v) - Max(ScanTo(v, from), cursor.lastBlock)))
  }

  ghost function Poll(s: Store, v: View): Progress {
    var start := Progress(s, Blank(v), false);
    if CURSOR_KEY in s.cursors then Advance(start, v, s.cursors[CURSOR_KEY])
    else
      var height := if v.cfg.startHeight.Some? then v.cfg.startHeight.value - 1 else Tip(v);
      if !Known(v, height) then start.(failed := true)
      else
        var placed := start.(s := SetCursor(s, v, height));
        if v.cfg.startHeight.None? then placed.(res := placed.res.(bootstrapped := true))
        else Advance(placed, v, placed.s.cursors[CURSOR_KEY])
  }
}
