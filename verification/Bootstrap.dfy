/** The first poll: where the watcher begins, and that what lies before is never booked. */
module Bootstrap {
  import opened Basics
  import opened Ledger
  import opened Conservation
  import opened Attribution
  import opened WatcherSpec
  import opened WatcherSafety
  import opened WatcherRuns
  import opened WatcherSystem
  import opened DeepFork

  /** Without a start height the first poll places the cursor on the tip and does nothing else. */
  lemma BootstrapsAtTip(s: Store, v: View)
    requires CURSOR_KEY !in s.cursors && v.cfg.startHeight.None? && v.chain != []
    ensures var p := Poll(s, v);
      var tip := |v.chain| - 1;
      && !p.failed && p.res == Blank(v).(bootstrapped := true)
      && p.s == s.(cursors := s.cursors["deposits" := Cursor(tip, v.chain[tip].hash, v.now)])
  {}

  /** With one it goes on as if the cursor stood on the block below; it scans that height first. */
  lemma StartsAtHeight(s: Store, v: View)
    requires CURSOR_KEY !in s.cursors && v.cfg.startHeight.Some? && 1 <= v.cfg.startHeight.value <= |v.chain|
    ensures var first := v.cfg.startHeight.value;
      var placed := s.(cursors := s.cursors[CURSOR_KEY := Cursor(first - 1, v.chain[first - 1].hash, v.now)]);
      Poll(s, v) == Poll(placed, v) && ScanStart(v, placed.cursors[CURSOR_KEY]) == first
  {
    hide Advance;
  }

  /** It throws exactly when the block to start from is not there, and then changes nothing. */
  lemma FirstPollThrows(s: Store, v: View)
    requires CURSOR_KEY !in s.cursors
    requires if v.cfg.startHeight.Some? then !(1 <= v.cfg.startHeight.value <= |v.chain|) else v.chain == []
    ensures Poll(s, v).failed && Poll(s, v).s == s
  {}

  // ---------- what lies before is ignored ----------

  /** The first height a first poll covers. */
  function FirstHeight(chain: seq<Block>, cfg: Config): int {
    if cfg.startHeight.Some? then cfg.startHeight.value else |chain|
  }

  /** The first poll gives no row to a transaction below that height. */
  lemma FirstPollIgnores(w: World, chain: seq<Block>, now: int, cfg: Config, dir: Directory, h: int, txid: string)
    requires Sensible(cfg) && Watching(w, cfg, dir) && Allowed(w, PollOn(chain, now), cfg, dir)
    requires CURSOR_KEY !in w.a.s.cursors && 1 <= FirstHeight(chain, cfg) <= |chain|
    requires 0 <= h < FirstHeight(chain, cfg) && HasTx(chain, h, txid)
    ensures Missed(Happen(w, PollOn(chain, now), cfg, dir), h, txid)
  {
    hide Inv, Safe, Regular, HashFixes, Alien, Advance, RowSafe, Absent, Occurs;
    var v, first := View(cfg, chain, dir, now), FirstHeight(chain, cfg);
    NoRealRows(w.a.s, txid);
    FirstAnchor(w.a.s, v, first - 1);
    var placed := Progress(SetCursor(w.a.s, v, first - 1), Blank(v), false);
    CursorsAbsent(w.a.s, placed.s, txid);
    if cfg.startHeight.Some? {
      var cursor := placed.s.cursors[CURSOR_KEY];
      CursorsAreAside(w.a, placed.s.cursors);
      SelfSuccessive(chain, dir);
      assert Alien(placed.s, chain) by { SameAliens(w.a.s, placed.s, chain); }
      var t :| 0 <= t < |chain[h].txs| && chain[h].txs[t].txid == txid;
      OccursOnce(v, h, t, first);
      AdvanceAbsent(placed, w.a.purged, v, v, cursor, txid);
      AdvanceSafe(placed, w.a.purged, v, v, cursor);
    }
  }

  lemma NoRealRows(s: Store, txid: string)
    requires forall d | d in s.deposits :: d.origin == Simulated && d.blockHeight <= 0
    ensures Absent(s, txid)
  {}

  lemma CursorsAbsent(s: Store, t: Store, txid: string)
    requires t.deposits == s.deposits && Absent(s, txid)
    ensures Absent(t, txid)
  {}

  /** History is ignored: no transaction below the first height, and without a start height none up to the tip of
      the first poll, has a row after any run in which the chain only grows. */
  lemma HistoryIsIgnored(es: seq<Event>, n: nat, cfg: Config, dir: Directory, h: int, txid: string)
    requires Sensible(cfg) && Lawful(es, cfg, dir) && n < |es| && es[n].PollOn? && AllGrow(es, n + 1, cfg, dir)
    requires var chain := es[n].chain;
      && CURSOR_KEY !in History(es[..n], cfg, dir).a.s.cursors && 1 <= FirstHeight(chain, cfg) <= |chain|
      && 0 <= h < FirstHeight(chain, cfg) && HasTx(chain, h, txid)
    ensures Absent(History(es, cfg, dir).a.s, txid)
  {
    hide Allowed, Happen, Watching, Absent, HasTx;
    LawfulUpTo(es, n, cfg, dir);
    RunWatches(es[..n], cfg, dir);
    assert es[..n + 1][..n] == es[..n];
    FirstPollIgnores(History(es[..n], cfg, dir), es[n].chain, es[n].now, cfg, dir, h, txid);
    MissedForEver(es, n + 1, cfg, dir, h, txid);
  }

  lemma LawfulUpTo(es: seq<Event>, n: nat, cfg: Config, dir: Directory)
    requires Lawful(es, cfg, dir) && n < |es|
    ensures Lawful(es[..n], cfg, dir) && Allowed(History(es[..n], cfg, dir), es[n], cfg, dir)
  {
    hide Allowed, Happen;
    forall i | 0 <= i < n ensures Allowed(History(es[..n][..i], cfg, dir), es[..n][i], cfg, dir) {
      assert es[..n][..i] == es[..i];
    }
  }
}
