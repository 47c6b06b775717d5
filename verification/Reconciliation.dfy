/** The reconciliation run: per identity, balance against ledger sum and last running balance. */
module Reconciliation {
  import opened Basics
  import opened Ledger
  import C = Conservation
  import R = Runs
  import M = MemoryStorage

  datatype Mismatch = Mismatch(identityHash: string, balance: int, ledgerSum: int, latest: Option<int>)
  datatype Report = Report(identitiesChecked: nat, mismatches: nat, detail: seq<Mismatch>)

  /** An account whose three figures do not agree. */
  ghost predicate Bad(s: Store, who: string) {
    && who in s.identities
    && (LedgerSum(s, who) != s.identities[who].balance || LastBalance(s.ledger, who) != Some(s.identities[who].balance))
  }

  ghost function Figures(s: Store, who: string, hash: string -> string): Mismatch {
    Mismatch(hash(who), Balance(s, who), LedgerSum(s, who), LastBalance(s.ledger, who))
  }

  /** The bad accounts among `ids`, in their order. */
  ghost function BadOnes(s: Store, ids: seq<string>): (r: seq<string>)
    ensures forall who :: who in r <==> who in ids && Bad(s, who)
    ensures |r| <= |ids|
  {
    if ids == [] then []
    else
      var n := |ids| - 1;
      BadOnes(s, ids[..n]) + (if Bad(s, ids[n]) then [ids[n]] else [])
  }

  ghost function Details(s: Store, bad: seq<string>, hash: string -> string): (r: seq<Mismatch>)
    ensures |r| == |bad| && forall i | 0 <= i < |r| :: r[i] == Figures(s, bad[i], hash)
  {
    if bad == [] then []
    else
      var n := |bad| - 1;
      Details(s, bad[..n], hash) + [Figures(s, bad[n], hash)]
  }

  /** The check loop over an arbitrary store, corrupted or not: it reports exactly the bad accounts, each once,
      with its three figures. */
  method Run(storage: M.InMemoryStorage, hash: string -> string) returns (r: Report)
    requires storage.Valid()
    ensures var s := storage.Model();
      var bad := BadOnes(s, storage.identityOrder);
      && r.detail == Details(s, bad, hash) && r.mismatches == |bad| && r.identitiesChecked == |s.identities|
      && Distinct(bad) && forall who :: who in bad <==> Bad(s, who)
  {
    hide LedgerSum, LastBalance, Bad, Figures, Details, BadOnes, M.Lists, Distinct;
    hide storage.Model, storage.Valid;
    ghost var s := storage.Model();
    var ids := storage.ListIdentityIds();
    var detail: seq<Mismatch> := [];
    NoDetails(s, ids, hash);
    for i := 0 to |ids|
      invariant detail == Details(s, BadOnes(s, ids[..i]), hash)
    {
      BadStep(s, ids, i, hash);
      var mismatch := CheckIdentity(storage, ids[i], hash);
      if mismatch.Some? {
        detail := detail + [mismatch.value];
      }
    }
    assert ids[..|ids|] == ids;
    WholeList(s, ids);
    r := Report(|ids|, |detail|, detail);
  }

  /** The check of one identity. */
  method CheckIdentity(storage: M.InMemoryStorage, who: string, hash: string -> string) returns (r: Option<Mismatch>)
    requires storage.Valid()
    ensures r == if Bad(storage.Model(), who) then Some(Figures(storage.Model(), who, hash)) else None
  {
    hide LedgerSum, LastBalance;
    hide storage.Model, storage.Valid;
    var identity := storage.GetIdentity(who);
    if identity.None? {
      return None;
    }
    var summary := storage.GetLedgerSummary(who);
    if summary.sum != identity.value.balance || summary.latest != Some(identity.value.balance) {
      return Some(Mismatch(hash(who), identity.value.balance, summary.sum, summary.latest));
    }
    r := None;
  }

  lemma NoDetails(s: Store, ids: seq<string>, hash: string -> string)
    ensures Details(s, BadOnes(s, ids[..0]), hash) == []
  {}

  lemma WholeList(s: Store, ids: seq<string>)
    requires M.Lists(ids, s.identities.Keys)
    ensures |ids| == |s.identities| && Distinct(BadOnes(s, ids))
    ensures forall who :: who in BadOnes(s, ids) <==> Bad(s, who)
  {
    hide LedgerSum, LastBalance;
    DistinctCount(ids, s.identities.Keys);
    BadDistinct(s, ids);
  }

  /** One more identity, one more detail entry or none. */
  lemma BadStep(s: Store, ids: seq<string>, i: nat, hash: string -> string)
    requires i < |ids|
    ensures var before, after := BadOnes(s, ids[..i]), BadOnes(s, ids[..i + 1]);
      Details(s, after, hash) == Details(s, before, hash) + (if Bad(s, ids[i]) then [Figures(s, ids[i], hash)] else [])
  {
    hide LedgerSum, LastBalance;
    var before, after := BadOnes(s, ids[..i]), BadOnes(s, ids[..i + 1]);
    assert ids[..i + 1][..i] == ids[..i];
    if Bad(s, ids[i]) {
      assert after == before + [ids[i]] && after[..|after| - 1] == before;
    } else {
      assert after == before;
    }
  }

  lemma {:induction false} BadDistinct(s: Store, ids: seq<string>)
    requires Distinct(ids)
    ensures Distinct(BadOnes(s, ids))
  {
    hide Bad;
    if ids != [] {
      var n := |ids| - 1;
      BadDistinct(s, ids[..n]);
      assert ids[n] !in ids[..n];
    }
  }

  /** What an unreported identity can rely on, and what a report shows: its three figures. */
  lemma ReportMeans(s: Store, who: string, hash: string -> string)
    requires who in s.identities
    ensures !Bad(s, who) <==>
      && SumSeq(s.ledger, LedgerOf(who)) == s.identities[who].balance
      && LastBalance(s.ledger, who) == Some(s.identities[who].balance)
    ensures Figures(s, who, hash) ==
      Mismatch(hash(who), s.identities[who].balance, SumSeq(s.ledger, LedgerOf(who)), LastBalance(s.ledger, who))
  {}

  /** In every state reached from the empty store without the over-crediting re-mine, there is nothing to report. */
  lemma ReachableStatesAreClean(ops: seq<C.Op>, who: string)
    requires R.Careful(ops)
    ensures !Bad(R.Exec(ops).s, who)
  {
    R.RunConserves(ops);
    assert C.Balanced(R.Exec(ops), who);
  }
}
