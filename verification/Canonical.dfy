/** The exact string that is signed: one line per core field, then the extension block; and the two signed
    queries with their own context lines. */
module Canonical {
  import opened Basics
  import opened Decimal
  import opened Text
  import Amount
  import Extensions

  const MAX_SAFE_INTEGER := 9_007_199_254_740_991
  const BALANCE_QUERY_CONTEXT := "v402-balance-query/0.1"
  const LEDGER_QUERY_CONTEXT := "v402-ledger-query/0.1"

  // ---------- field grammars ----------

  /** Whitespace and control characters. */
  predicate Breaks(c: char) {
    || c <= ' ' || c == '\U{7f}' || c == '\U{a0}' || c == '\U{1680}' || '\U{2000}' <= c <= '\U{200a}'
    || c == '\U{2028}' || c == '\U{2029}' || c == '\U{202f}' || c == '\U{205f}' || c == '\U{3000}' || c == '\U{feff}'
  }

  predicate LineSafe(s: string) {
    s != "" && forall c | c in s :: !Breaks(c)
  }

  predicate SchemeVersion(s: string) {
    var parts := Split(s, '.');
    |parts| == 2 && forall p | p in parts :: p != "" && AllDigits(p)
  }

  predicate Method(s: string) {
    s != "" && forall c | c in s :: IsUpper(c)
  }

  predicate Network(s: string) {
    s != "" && forall c | c in s :: IsLower(c) || IsDigit(c)
  }

  /** A friendly name: something line-safe before a final `@`. */
  predicate IdentityName(s: string) {
    LineSafe(s) && |s| >= 2 && s[|s| - 1] == '@'
  }

  predicate NoDoubleSlash(s: string) {
    forall i | 0 <= i < |s| - 1 :: s[i] != '/' || s[i + 1] != '/'
  }

  predicate Path(s: string) {
    && LineSafe(s) && s[0] == '/'
    && var pathPart := Split(s, '?')[0];
       NoDoubleSlash(pathPart) && "." !in Split(pathPart, '/') && ".." !in Split(pathPart, '/')
  }

  predicate Crockford(c: char) {
    IsDigit(c) || (IsUpper(c) && c != 'I' && c != 'L' && c != 'O' && c != 'U')
  }

  predicate Ulid(s: string) {
    |s| == 26 && '0' <= s[0] <= '7' && forall c | c in s :: Crockford(c)
  }

  predicate UnixSeconds(n: int) {
    0 <= n <= MAX_SAFE_INTEGER
  }

  // ---------- payloads ----------

  datatype Payload = Payload(
    scheme: string, schemeVersion: string, canonicalDomain: string, verb: string, path: string, network: string,
    asset: string, amount: string, payer: string, payTo: string, requestId: string, issuedAt: int,
    extensions: seq<Extensions.Field>)

  datatype Query = Query(canonicalDomain: string, network: string, payer: string, requestId: string, issuedAt: int)

  datatype Error = InvalidField | BadExtensions(error: Extensions.Error)

  predicate CoreValid(p: Payload) {
    && DashedWords(p.scheme) && SchemeVersion(p.schemeVersion) && LineSafe(p.canonicalDomain) && Method(p.verb)
    && Path(p.path) && Network(p.network) && LineSafe(p.asset) && Amount.IsValidHumanAmount(p.amount)
    && IdentityName(p.payer) && IdentityName(p.payTo) && Ulid(p.requestId) && UnixSeconds(p.issuedAt)
  }

  function ContextLine(scheme: string, version: string): string {
    scheme + "/" + version
  }

  function CoreLines(p: Payload): (r: seq<string>)
    requires p.issuedAt >= 0
    ensures |r| == 12
  {
    [ContextLine(p.scheme, p.schemeVersion),
     "canonicalDomain: " + p.canonicalDomain,
     "method: " + p.verb,
     "path: " + p.path,
     "scheme: " + p.scheme,
     "network: " + p.network,
     "asset: " + p.asset,
     "amount: " + p.amount,
     "payer: " + p.payer,
     "payTo: " + p.payTo,
     "requestId: " + p.requestId,
     "issuedAt: " + Digits(p.issuedAt)]
  }

  function Canonicalize(p: Payload): Result<string, Error> {
    if !CoreValid(p) then Err(InvalidField)
    else
      var lines := Join(CoreLines(p), '\n');
      if p.extensions == [] then Ok(lines)
      else
        match Extensions.Serialize(p.extensions)
        case Err(e) => Err(BadExtensions(e))
        case Ok(block) => Ok(lines + "\n" + block)
  }

  predicate QueryValid(q: Query) {
    && LineSafe(q.canonicalDomain) && Network(q.network) && IdentityName(q.payer) && Ulid(q.requestId)
    && UnixSeconds(q.issuedAt)
  }

  function QueryLines(context: string, q: Query): (r: seq<string>)
    requires q.issuedAt >= 0
    ensures |r| == 6
  {
    [context,
     "canonicalDomain: " + q.canonicalDomain,
     "network: " + q.network,
     "payer: " + q.payer,
     "requestId: " + q.requestId,
     "issuedAt: " + Digits(q.issuedAt)]
  }

  function CanonicalizeQuery(context: string, q: Query): Result<string, Error> {
    if !QueryValid(q) then Err(InvalidField) else Ok(Join(QueryLines(context, q), '\n'))
  }

  function CanonicalizeBalanceQuery(q: Query): Result<string, Error> {
    CanonicalizeQuery(BALANCE_QUERY_CONTEXT, q)
  }

  function CanonicalizeLedgerQuery(q: Query): Result<string, Error> {
    CanonicalizeQuery(LEDGER_QUERY_CONTEXT, q)
  }

  // ---------- the lines of a canonical string ----------

  lemma AmountChars(amount: string)
    requires Amount.IsValidHumanAmount(amount)
    ensures '\n' !in amount
  {
    var parts := Split(amount, '.');
    JoinSplit(amount, '.');
    JoinChars(parts, '.');
    assert parts[0] in parts;
  }

  lemma VersionChars(version: string)
    requires SchemeVersion(version)
    ensures '\n' !in version
  {
    JoinSplit(version, '.');
    JoinChars(Split(version, '.'), '.');
  }

  /** No core field can hold a line break, so the core is twelve lines. */
  lemma CoreIsLines(p: Payload)
    requires CoreValid(p)
    ensures forall l | l in CoreLines(p) :: '\n' !in l
  {
    CoreFieldsUnbroken(p);
    hide CoreValid, Digits;
  }

  lemma CoreFieldsUnbroken(p: Payload)
    requires CoreValid(p)
    ensures '\n' !in p.scheme && '\n' !in p.schemeVersion && '\n' !in p.canonicalDomain && '\n' !in p.verb
    ensures '\n' !in p.path && '\n' !in p.network && '\n' !in p.asset && '\n' !in p.amount
    ensures '\n' !in p.payer && '\n' !in p.payTo && '\n' !in p.requestId && '\n' !in Digits(p.issuedAt)
  {
    AmountChars(p.amount);
    VersionChars(p.schemeVersion);
    DashedChars(p.scheme);
    PathIsLineSafe(p.path);
    assert Breaks('\n');
    hide Amount.IsValidHumanAmount, SchemeVersion, DashedWords, Breaks, Path, Digits;
  }

  lemma PathIsLineSafe(s: string)
    requires Path(s)
    ensures LineSafe(s)
  {}

  /** All lines of an accepted payload, extensions included. */
  function AllLines(p: Payload): seq<string>
    requires p.issuedAt >= 0
  {
    CoreLines(p) + Extensions.Lines(Extensions.Sort(p.extensions))
  }

  lemma CanonicalLines(p: Payload)
    requires Canonicalize(p).Ok?
    ensures Split(Canonicalize(p).value, '\n') == AllLines(p)
    ensures Extensions.Wellformed(p.extensions)
  {
    var sorted := Extensions.Sort(p.extensions);
    CoreIsLines(p);
    if p.extensions == [] {
      assert AllLines(p) == CoreLines(p);
      SplitJoin(CoreLines(p), '\n');
    } else {
      Extensions.SerializesExactly(p.extensions);
      Extensions.SortSorts(p.extensions);
      assert |multiset(sorted)| == |multiset(p.extensions)|;
      Extensions.BlockLines(sorted);
      JoinAppend(CoreLines(p), Extensions.Lines(sorted), '\n');
      SplitJoin(AllLines(p), '\n');
    }
  }

  lemma QueryText(context: string, q: Query)
    requires QueryValid(q)
    ensures CanonicalizeQuery(context, q) == Ok(Join(QueryLines(context, q), '\n'))
  {}

  lemma QueryFieldsUnbroken(q: Query)
    requires QueryValid(q)
    ensures '\n' !in q.canonicalDomain && '\n' !in q.network && '\n' !in q.payer && '\n' !in q.requestId
    ensures '\n' !in Digits(q.issuedAt)
  {
    assert Breaks('\n');
    assert LineSafe(q.canonicalDomain) && LineSafe(q.payer);
    hide Breaks, Digits;
  }

  lemma QueryUnbroken(context: string, q: Query)
    requires QueryValid(q) && '\n' !in context
    ensures QueryLines(context, q) != [] && forall l | l in QueryLines(context, q) :: '\n' !in l
  {
    QueryFieldsUnbroken(q);
    hide Digits, QueryValid;
  }

  lemma QueryIsLines(context: string, q: Query)
    requires QueryValid(q) && '\n' !in context
    ensures Split(CanonicalizeQuery(context, q).value, '\n') == QueryLines(context, q)
  {
    QueryUnbroken(context, q);
    QueryText(context, q);
    hide *;
    SplitJoin(QueryLines(context, q), '\n');
  }

  lemma SuffixEqual(name: string, a: string, b: string)
    requires name + a == name + b
    ensures a == b
  {
    assert (name + a)[|name|..] == a && (name + b)[|name|..] == b;
  }

  lemma DigitsInjective(m: nat, n: nat)
    requires Digits(m) == Digits(n)
    ensures m == n
  {
    ValueOfDigits(m);
    ValueOfDigits(n);
  }

  // ---------- reading a signed string ----------

  /** The value of a `name: value` line. */
  function Labelled(line: string, name: string): Option<string> {
    if |line| >= |name| && line[..|name|] == name then Some(line[|name|..]) else None
  }

  /** Whether every line bears its label. */
  predicate HasLabels(lines: seq<string>, names: seq<string>) {
    |lines| >= |names| && forall i | 0 <= i < |names| :: Labelled(lines[i], names[i]).Some?
  }

  function At(lines: seq<string>, names: seq<string>, i: nat): string
    requires HasLabels(lines, names) && i < |names|
  {
    Labelled(lines[i], names[i]).value
  }

  const LABELS: seq<string> := ["", "canonicalDomain: ", "method: ", "path: ", "scheme: ", "network: ", "asset: ",
                                "amount: ", "payer: ", "payTo: ", "requestId: ", "issuedAt: "]

  /** What a signed payment string says: label by label, the version being what follows the scheme on line 1,
      every line after the twelfth an extension. */
  function ReadPayment(text: string): Option<Payload> {
    var lines := Split(text, '\n');
    if !HasLabels(lines, LABELS) then None
    else
      var scheme := At(lines, LABELS, 4);
      var version := Labelled(lines[0], scheme + "/");
      var seconds := At(lines, LABELS, 11);
      var fields := Extensions.ParseLines(lines, 12, []);
      if version.None? || !AllDigits(seconds) || fields.Err? then None
      else
        Some(Payload(scheme, version.value, At(lines, LABELS, 1), At(lines, LABELS, 2), At(lines, LABELS, 3),
                     At(lines, LABELS, 5), At(lines, LABELS, 6), At(lines, LABELS, 7), At(lines, LABELS, 8),
                     At(lines, LABELS, 9), At(lines, LABELS, 10), ValueOf(seconds), fields.value))
  }

  lemma LabelRead(name: string, value: string)
    ensures Labelled(name + value, name) == Some(value)
  {}

  lemma CoreLabels(p: Payload, lines: seq<string>)
    requires p.issuedAt >= 0 && |lines| >= 12 && lines[..12] == CoreLines(p)
    ensures HasLabels(lines, LABELS)
    ensures At(lines, LABELS, 1) == p.canonicalDomain && At(lines, LABELS, 2) == p.verb
    ensures At(lines, LABELS, 3) == p.path
    ensures At(lines, LABELS, 4) == p.scheme && At(lines, LABELS, 5) == p.network && At(lines, LABELS, 6) == p.asset
    ensures At(lines, LABELS, 7) == p.amount && At(lines, LABELS, 8) == p.payer && At(lines, LABELS, 9) == p.payTo
    ensures At(lines, LABELS, 10) == p.requestId && At(lines, LABELS, 11) == Digits(p.issuedAt)
    ensures Labelled(lines[0], p.scheme + "/") == Some(p.schemeVersion)
  {
    hide Labelled, Digits;
    var c := CoreLines(p);
    assert forall i | 0 <= i < 12 :: lines[i] == lines[..12][i] == c[i];
    LabelRead("", c[0]);
    LabelRead("canonicalDomain: ", p.canonicalDomain);
    LabelRead("method: ", p.verb);
    LabelRead("path: ", p.path);
    LabelRead("scheme: ", p.scheme);
    LabelRead("network: ", p.network);
    LabelRead("asset: ", p.asset);
    LabelRead("amount: ", p.amount);
    LabelRead("payer: ", p.payer);
    LabelRead("payTo: ", p.payTo);
    LabelRead("requestId: ", p.requestId);
    LabelRead("issuedAt: ", Digits(p.issuedAt));
    LabelRead(p.scheme + "/", p.schemeVersion);
    assert "" + c[0] == c[0];
    assert c[0] == p.scheme + "/" + p.schemeVersion;
  }

  // ---------- main results ----------

  /** A signed string says exactly what was put into it: every field under its own label, and the extensions in
      key order. */
  lemma CanonicalReads(p: Payload)
    requires Canonicalize(p).Ok?
    ensures ReadPayment(Canonicalize(p).value) == Some(p.(extensions := Extensions.Sort(p.extensions)))
    ensures Extensions.Wellformed(p.extensions)
  {
    CanonicalLines(p);
    Extensions.SortSorts(p.extensions);
    var lines := AllLines(p);
    assert lines[..12] == CoreLines(p);
    CoreLabels(p, lines);
    ValueOfDigits(p.issuedAt);
    ExtensionLines(CoreLines(p), Extensions.Sort(p.extensions));
    hide Canonicalize, Digits, ValueOf, Split, HasLabels, At, Labelled, Extensions.ParseLines, Extensions.Sort,
         Extensions.ValidField;
  }

  lemma ExtensionLines(core: seq<string>, sorted: seq<Extensions.Field>)
    requires Extensions.Ascending(sorted) && forall f | f in sorted :: Extensions.ValidField(f)
    ensures Extensions.ParseLines(core + Extensions.Lines(sorted), |core|, []) == Result.Ok(sorted)
  {
    Extensions.ParsesLines(sorted, 0);
    ParseShift(core, Extensions.Lines(sorted), 0, []);
    assert sorted[..0] == [];
  }

  lemma {:induction false} ParseShift(core: seq<string>, lines: seq<string>, i: nat, fields: seq<Extensions.Field>)
    requires i <= |lines|
    ensures Extensions.ParseLines(core + lines, |core| + i, fields) == Extensions.ParseLines(lines, i, fields)
    decreases |lines| - i
  {
    if i < |lines| {
      assert (core + lines)[|core| + i] == lines[i];
      var read := Extensions.ReadLine(lines[i]);
      if read.Ok? {
        ParseShift(core, lines, i + 1, fields + [read.value]);
      }
    }
  }

  /** Two accepted payloads give the same string exactly when all twelve core fields agree and they hold the
      same extensions in whatever order. */
  lemma CanonicalIsInjective(p: Payload, q: Payload)
    requires Canonicalize(p).Ok? && Canonicalize(q).Ok?
    ensures Canonicalize(p) == Canonicalize(q) <==>
      p.(extensions := []) == q.(extensions := []) && multiset(p.extensions) == multiset(q.extensions)
  {
    CanonicalReads(p);
    CanonicalReads(q);
    CanonicalLines(p);
    CanonicalLines(q);
    Extensions.SortSorts(p.extensions);
    Extensions.SortSorts(q.extensions);
    hide Extensions.ValidField, Extensions.Sort, CoreValid, Split, ReadPayment, Canonicalize;
    if p.(extensions := []) == q.(extensions := []) && multiset(p.extensions) == multiset(q.extensions) {
      assert CoreLines(p) == CoreLines(q);
      Extensions.SortIsUnique(Extensions.Sort(p.extensions), Extensions.Sort(q.extensions));
      JoinSplit(Canonicalize(p).value, '\n');
      JoinSplit(Canonicalize(q).value, '\n');
    }
  }

  /** No payment string is a query string, whatever the scheme is called. */
  lemma PaymentIsNoQuery(p: Payload, context: string, q: Query)
    requires Canonicalize(p).Ok? && QueryValid(q) && '\n' !in context
    ensures Canonicalize(p) != CanonicalizeQuery(context, q)
  {
    CanonicalLines(p);
    QueryIsLines(context, q);
    assert |AllLines(p)| >= 12;
  }

  /** Query strings are injective too, context line included. */
  lemma QueryIsInjective(c: string, q: Query, d: string, r: Query)
    requires QueryValid(q) && QueryValid(r) && '\n' !in c && '\n' !in d
    ensures CanonicalizeQuery(c, q) == CanonicalizeQuery(d, r) <==> c == d && q == r
  {
    QueryIsLines(c, q);
    QueryIsLines(d, r);
    if CanonicalizeQuery(c, q) == CanonicalizeQuery(d, r) {
      var a, b := QueryLines(c, q), QueryLines(d, r);
      hide Digits, QueryValid;
      assert a == b;
      SuffixEqual("canonicalDomain: ", q.canonicalDomain, r.canonicalDomain) by { assert a[1] == b[1]; }
      SuffixEqual("network: ", q.network, r.network) by { assert a[2] == b[2]; }
      SuffixEqual("payer: ", q.payer, r.payer) by { assert a[3] == b[3]; }
      SuffixEqual("requestId: ", q.requestId, r.requestId) by { assert a[4] == b[4]; }
      SuffixEqual("issuedAt: ", Digits(q.issuedAt), Digits(r.issuedAt)) by { assert a[5] == b[5]; }
      DigitsInjective(q.issuedAt, r.issuedAt);
      assert a[0] == b[0];
    }
  }

  lemma ContextsDiffer()
    ensures '\n' !in BALANCE_QUERY_CONTEXT && '\n' !in LEDGER_QUERY_CONTEXT
    ensures BALANCE_QUERY_CONTEXT != LEDGER_QUERY_CONTEXT
  {
    assert BALANCE_QUERY_CONTEXT[5] != LEDGER_QUERY_CONTEXT[5];
  }

  /** Payment, balance-query and ledger-query strings never coincide. */
  lemma DomainsAreSeparate(p: Payload, q: Query, r: Query)
    requires Canonicalize(p).Ok? && QueryValid(q) && QueryValid(r)
    ensures Canonicalize(p) != CanonicalizeBalanceQuery(q)
    ensures Canonicalize(p) != CanonicalizeLedgerQuery(q)
    ensures CanonicalizeBalanceQuery(q) != CanonicalizeLedgerQuery(r)
  {
    ContextsDiffer();
    hide Canonicalize, QueryValid, CanonicalizeQuery;
    PaymentIsNoQuery(p, BALANCE_QUERY_CONTEXT, q);
    PaymentIsNoQuery(p, LEDGER_QUERY_CONTEXT, q);
    QueryIsInjective(BALANCE_QUERY_CONTEXT, q, LEDGER_QUERY_CONTEXT, r);
  }

  lemma WordsCons(w: string, rest: string)
    requires w != "" && (forall c | c in w :: IsLower(c) || IsDigit(c)) && DashedWords(rest)
    ensures DashedWords(w + "-" + rest)
  {
    SplitCons(w, rest, '-');
  }

  lemma OneWord(w: string)
    requires w != "" && (forall c | c in w :: IsLower(c) || IsDigit(c))
    ensures DashedWords(w)
  {
    SplitPart(w, '-');
  }

  lemma VersionOf(major: string, minor: string)
    requires major != "" && AllDigits(major) && minor != "" && AllDigits(minor)
    ensures SchemeVersion(major + "." + minor)
  {
    SplitPart(minor, '.');
    SplitCons(major, minor, '.');
  }

  lemma SlashSplits(a: string, b: string, c: string, d: string)
    requires '/' !in a && '/' !in c && a + "/" + b == c + "/" + d
    ensures a == c && b == d
  {
    var s := a + "/" + b;
    assert s[|a|] == '/' && s[|c|] == '/';
    assert forall i | 0 <= i < |a| :: a[i] in a && s[i] == a[i];
    assert forall i | 0 <= i < |c| :: c[i] in c && s[i] == c[i];
    assert |a| == |c|;
    assert a == s[..|a|] == c && b == s[|a| + 1..] == d;
  }

  const BALANCE_SCHEME := "v402-balance-query"
  const LEDGER_SCHEME := "v402-ledger-query"

  /** The first line alone does not separate the domains: among all accepted schemes and versions exactly one
      pair gives the context line of each query, and both pairs are accepted. */
  lemma ContextLineAloneIsAmbiguous(scheme: string, version: string)
    requires DashedWords(scheme) && SchemeVersion(version)
    ensures ContextLine(scheme, version) == BALANCE_QUERY_CONTEXT <==> scheme == BALANCE_SCHEME && version == "0.1"
    ensures ContextLine(scheme, version) == LEDGER_QUERY_CONTEXT <==> scheme == LEDGER_SCHEME && version == "0.1"
    ensures DashedWords(BALANCE_SCHEME) && DashedWords(LEDGER_SCHEME) && SchemeVersion("0.1")
  {
    QueryNamesAreSchemes();
    DashedChars(scheme);
    DashedChars(BALANCE_SCHEME);
    DashedChars(LEDGER_SCHEME);
    hide DashedWords, SchemeVersion;
    QueryContexts();
    if ContextLine(scheme, version) == BALANCE_QUERY_CONTEXT {
      SlashSplits(scheme, version, BALANCE_SCHEME, "0.1");
    }
    if ContextLine(scheme, version) == LEDGER_QUERY_CONTEXT {
      SlashSplits(scheme, version, LEDGER_SCHEME, "0.1");
    }
  }

  lemma QueryContexts()
    ensures BALANCE_QUERY_CONTEXT == BALANCE_SCHEME + "/" + "0.1"
    ensures LEDGER_QUERY_CONTEXT == LEDGER_SCHEME + "/" + "0.1"
  {}

  lemma QueryNamesAreSchemes()
    ensures DashedWords(BALANCE_SCHEME) && DashedWords(LEDGER_SCHEME) && SchemeVersion("0.1")
  {
    hide DashedWords, SchemeVersion, Split;
    OneWord("query");
    WordsCons("balance", "query");
    assert "balance" + "-" + "query" == "balance-query";
    WordsCons("v402", "balance-query");
    assert "v402" + "-" + "balance-query" == BALANCE_SCHEME;
    WordsCons("ledger", "query");
    assert "ledger" + "-" + "query" == "ledger-query";
    WordsCons("v402", "ledger-query");
    assert "v402" + "-" + "ledger-query" == LEDGER_SCHEME;
    VersionOf("0", "1");
    assert "0" + "." + "1" == "0.1";
  }
}
