/** What may be signed, and what a signed query says. */
module SignedText {
  import opened Basics
  import opened Decimal
  import opened Text
  import opened Canonical
  import opened Grammar
  import X = Extensions
  import Amount

  /** A payment is canonicalized exactly when every core field matches its grammar and its extensions serialize;
      otherwise the core is reported first. */
  lemma PaymentAnswers(p: Payload)
    ensures var good :=
        && Matches(DASHED, p.scheme) && Matches(SCHEME_VERSION, p.schemeVersion)
        && Matches(LINE_SAFE, p.canonicalDomain)
        && Matches(METHOD, p.verb) && Path(p.path) && Matches(NETWORK, p.network) && Matches(LINE_SAFE, p.asset)
        && Matches(AMOUNT, p.amount) && Matches(IDENTITY, p.payer) && Matches(IDENTITY, p.payTo)
        && Matches(ULID, p.requestId) && 0 <= p.issuedAt <= 9007199254740991;
      var r := Canonicalize(p);
      if !good then r == Err(InvalidField)
      else
        match X.Serialize(p.extensions)
        case Err(e) => r == Err(BadExtensions(e))
        case Ok(_) => r.Ok?
  {
    DashedGrammar(p.scheme);
    SchemeVersionGrammar(p.schemeVersion);
    LineSafeGrammar(p.canonicalDomain);
    MethodGrammar(p.verb);
    NetworkGrammar(p.network);
    LineSafeGrammar(p.asset);
    AmountGrammar(p.amount);
    IdentityGrammar(p.payer);
    IdentityGrammar(p.payTo);
    UlidGrammar(p.requestId);
    assert X.Wellformed([]);
    X.SerializesExactly([]);
    hide *;
    CanonicalCases(p);
    CoreIsChecked(p);
  }

  lemma CoreIsChecked(p: Payload)
    ensures CoreValid(p) <==>
      && DashedWords(p.scheme) && Canonical.SchemeVersion(p.schemeVersion) && LineSafe(p.canonicalDomain)
      && Method(p.verb) && Path(p.path) && Network(p.network) && LineSafe(p.asset)
      && Amount.IsValidHumanAmount(p.amount) && IdentityName(p.payer) && IdentityName(p.payTo) && Ulid(p.requestId)
      && 0 <= p.issuedAt <= 9007199254740991
  {}

  lemma CanonicalCases(p: Payload)
    requires X.Serialize([]).Ok?
    ensures !CoreValid(p) ==> Canonicalize(p) == Err(InvalidField)
    ensures CoreValid(p) ==>
      match X.Serialize(p.extensions)
      case Err(e) => Canonicalize(p) == Err(BadExtensions(e))
      case Ok(_) => Canonicalize(p).Ok?
  {
    hide CoreValid, X.Serialize, Digits;
  }

  /** A signed query is six lines: its own context, then every field under its label. */
  lemma QuerySays(q: Query)
    requires QueryValid(q)
    ensures QueryLinesSay(CanonicalizeBalanceQuery(q), "v402-balance-query/0.1", q)
    ensures QueryLinesSay(CanonicalizeLedgerQuery(q), "v402-ledger-query/0.1", q)
  {
    ContextsDiffer();
    QueryLabels("v402-balance-query/0.1", q);
    QueryLabels("v402-ledger-query/0.1", q);
  }

  predicate QueryLinesSay(r: Result<string, Error>, context: string, q: Query) {
    r.Ok? &&
    var lines := Split(r.value, '\n');
    && |lines| == 6 && lines[0] == context
    && Labelled(lines[1], "canonicalDomain: ") == Some(q.canonicalDomain)
    && Labelled(lines[2], "network: ") == Some(q.network) && Labelled(lines[3], "payer: ") == Some(q.payer)
    && Labelled(lines[4], "requestId: ") == Some(q.requestId)
    && q.issuedAt >= 0 && Labelled(lines[5], "issuedAt: ") == Some(Digits(q.issuedAt))
  }

  lemma QueryLabels(context: string, q: Query)
    requires QueryValid(q) && '\n' !in context
    ensures QueryLinesSay(CanonicalizeQuery(context, q), context, q)
  {
    QueryIsLines(context, q);
    QueryText(context, q);
    assert q.issuedAt >= 0;
    hide Split, QueryValid, CanonicalizeQuery, Labelled, Digits;
    LabelRead("canonicalDomain: ", q.canonicalDomain);
    LabelRead("network: ", q.network);
    LabelRead("payer: ", q.payer);
    LabelRead("requestId: ", q.requestId);
    LabelRead("issuedAt: ", Digits(q.issuedAt));
  }

  /** A query is refused exactly when one of its fields does not match. */
  lemma QueryAnswers(q: Query)
    ensures CanonicalizeBalanceQuery(q).Ok? <==>
      && Matches(LINE_SAFE, q.canonicalDomain) && Matches(NETWORK, q.network) && Matches(IDENTITY, q.payer)
      && Matches(ULID, q.requestId) && 0 <= q.issuedAt <= 9007199254740991
    ensures CanonicalizeLedgerQuery(q).Ok? <==> CanonicalizeBalanceQuery(q).Ok?
  {
    LineSafeGrammar(q.canonicalDomain);
    NetworkGrammar(q.network);
    IdentityGrammar(q.payer);
    UlidGrammar(q.requestId);
    hide *;
    QueryIsChecked(q);
  }

  lemma QueryIsChecked(q: Query)
    ensures CanonicalizeBalanceQuery(q).Ok? <==>
      && LineSafe(q.canonicalDomain) && Network(q.network) && IdentityName(q.payer) && Ulid(q.requestId)
      && 0 <= q.issuedAt <= 9007199254740991
    ensures CanonicalizeLedgerQuery(q).Ok? <==> CanonicalizeBalanceQuery(q).Ok?
  {
    hide LineSafe, Network, IdentityName, Ulid, Join, QueryLines;
  }
}
