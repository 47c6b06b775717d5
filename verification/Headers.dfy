/** The payment headers: extracting and validating the claim of a paid request. */
module Headers {
  import opened Basics
  import opened Text
  import opened Decimal
  import opened Names
  import Amount
  import Base64
  import Canonical

  const SCHEME := "X-V402-Scheme"
  const PAYER := "X-V402-Payer"
  const AMOUNT := "X-V402-Amount"
  const REQUEST_ID := "X-V402-Request-Id"
  const ISSUED_AT := "X-V402-Issued-At"
  const SIGNATURE := "X-V402-Signature"
  const EXTENSIONS := "X-V402-Extensions"

  const REQUIRED: seq<string> := [SCHEME, PAYER, AMOUNT, REQUEST_ID, ISSUED_AT, SIGNATURE]

  datatype Value = Undefined | One(text: string) | Many(texts: seq<string>)
  datatype Header = Header(name: string, value: Value)

  datatype Claim = Claim(
    scheme: string, payer: string, amount: string, requestId: string, issuedAt: int, signature: string,
    extensionsRaw: Option<string>)

  datatype HeaderError = Missing(name: string) | Repeated(name: string) | Malformed(name: string)

  /** The value of a name, letter case aside: the last defined entry. */
  function Lookup(headers: seq<Header>, name: string): Option<Value> {
    if headers == [] then None
    else
      var h := headers[|headers| - 1];
      if h.value != Undefined && Lower(h.name) == Lower(name) then Some(h.value)
      else Lookup(headers[..|headers| - 1], name)
  }

  function Single(headers: seq<Header>, name: string): Result<string, HeaderError> {
    match Lookup(headers, name)
    case None => Err(Missing(name))
    case Some(Undefined) => Err(Missing(name))
    case Some(One(text)) => Ok(text)
    case Some(Many(texts)) => if |texts| == 1 then Ok(texts[0]) else Err(Repeated(name))
  }

  /** The first required header, in order, that is missing or repeated. */
  function FirstMissing(headers: seq<Header>, i: nat): Option<HeaderError>
    requires i <= |REQUIRED|
    decreases |REQUIRED| - i
  {
    if i == |REQUIRED| then None
    else
      match Single(headers, REQUIRED[i])
      case Err(e) => Some(e)
      case Ok(_) => FirstMissing(headers, i + 1)
  }

  predicate IssuedAt(s: string) {
    && s != "" && AllDigits(s) && (s[0] == '0' ==> |s| == 1)
    && ValueOf(s) <= Canonical.MAX_SAFE_INTEGER
  }

  /** The checks on the six values, in the order they are made. */
  function FieldError(read: map<string, string>): Option<HeaderError>
    requires forall name | name in REQUIRED :: name in read
  {
    assert PAYER == REQUIRED[1] && AMOUNT == REQUIRED[2] && REQUEST_ID == REQUIRED[3];
    assert ISSUED_AT == REQUIRED[4] && SIGNATURE == REQUIRED[5] && SCHEME == REQUIRED[0];
    if !Canonical.IdentityName(read[PAYER]) then Some(Malformed(PAYER))
    else if !Amount.IsValidHumanAmount(read[AMOUNT]) then Some(Malformed(AMOUNT))
    else if !Canonical.Ulid(read[REQUEST_ID]) then Some(Malformed(REQUEST_ID))
    else if !IssuedAt(read[ISSUED_AT]) then Some(Malformed(ISSUED_AT))
    else if !Base64.IsBase64(read[SIGNATURE]) then Some(Malformed(SIGNATURE))
    else if read[SCHEME] == "" then Some(Malformed(SCHEME))
    else None
  }

  /** What the optional extensions header contributes. */
  function Extension(headers: seq<Header>): Result<Option<string>, HeaderError> {
    match Lookup(headers, EXTENSIONS)
    case None => Ok(None)
    case Some(Undefined) => Ok(None)
    case Some(One(text)) => Ok(Some(text))
    case Some(Many(texts)) => if |texts| == 1 then Ok(Some(texts[0])) else Err(Repeated(EXTENSIONS))
  }

  function ReadAll(headers: seq<Header>): (read: map<string, string>)
    requires FirstMissing(headers, 0).None?
    ensures forall name | name in REQUIRED :: name in read && Single(headers, name) == Ok(read[name])
  {
    NoneMissing(headers, 0);
    map name | name in REQUIRED :: Single(headers, name).value
  }

  lemma {:induction false} NoneMissing(headers: seq<Header>, i: nat)
    requires i <= |REQUIRED|
    ensures FirstMissing(headers, i).None? <==> forall k | i <= k < |REQUIRED| :: Single(headers, REQUIRED[k]).Ok?
    decreases |REQUIRED| - i
  {
    if i < |REQUIRED| {
      NoneMissing(headers, i + 1);
    }
  }

  function Parse(headers: seq<Header>): Result<Claim, HeaderError> {
    match FirstMissing(headers, 0)
    case Some(e) => Err(e)
    case None =>
      var read := ReadAll(headers);
      match FieldError(read)
      case Some(e) => Err(e)
      case None =>
        match Extension(headers)
        case Err(e) => Err(e)
        case Ok(raw) =>
          Ok(Claim(read[SCHEME], read[PAYER], read[AMOUNT], read[REQUEST_ID], ValueOf(read[ISSUED_AT]), read[SIGNATURE],
                   raw))
  }

  /** The entries by lower-case name: what the first loop builds. */
  ghost predicate Indexes(byName: map<string, Value>, headers: seq<Header>) {
    && (forall name :: Lookup(headers, name) == if Lower(name) in byName then Some(byName[Lower(name)]) else None)
    && (forall k | k in byName :: byName[k] != Undefined)
  }

  method IndexByName(headers: seq<Header>) returns (byName: map<string, Value>)
    ensures Indexes(byName, headers)
  {
    hide Lower;
    byName := map[];
    for i := 0 to |headers|
      invariant Indexes(byName, headers[..i])
    {
      assert headers[..i + 1][..i] == headers[..i];
      if headers[i].value != Undefined {
        byName := byName[Lower(headers[i].name) := headers[i].value];
      }
    }
    assert headers[..|headers|] == headers;
  }

  method ReadRequired(byName: map<string, Value>, ghost headers: seq<Header>)
    returns (r: Result<map<string, string>, HeaderError>)
    requires Indexes(byName, headers)
    ensures match r
      case Err(e) => FirstMissing(headers, 0) == Some(e)
      case Ok(read) =>
        && FirstMissing(headers, 0) == None
        && forall name | name in REQUIRED :: name in read && Single(headers, name) == Ok(read[name])
  {
    hide Lower, Lookup;
    var read: map<string, string> := map[];
    for i := 0 to |REQUIRED|
      invariant FirstMissing(headers, 0) == FirstMissing(headers, i)
      invariant forall k | 0 <= k < i :: REQUIRED[k] in read && Single(headers, REQUIRED[k]) == Ok(read[REQUIRED[k]])
    {
      var name := REQUIRED[i];
      assert Lookup(headers, name) == if Lower(name) in byName then Some(byName[Lower(name)]) else None;
      if Lower(name) !in byName {
        return Err(Missing(name));
      }
      var value := byName[Lower(name)];
      if value.Many? && |value.texts| != 1 {
        return Err(Repeated(name));
      }
      read := read[name := if value.Many? then value.texts[0] else value.text];
    }
    r := Ok(read);
  }

  lemma ReadIsUnique(headers: seq<Header>, read: map<string, string>)
    requires FirstMissing(headers, 0).None?
    requires forall name | name in REQUIRED :: name in read && Single(headers, name) == Ok(read[name])
    ensures forall name | name in REQUIRED :: ReadAll(headers)[name] == read[name]
  {}

  /** The parser: index, read the required values, check them, add the extensions. */
  method ParsePaymentHeaders(headers: seq<Header>) returns (r: Result<Claim, HeaderError>)
    ensures r == Parse(headers)
  {
    hide Lookup, Lower, FirstMissing, Single, Canonical.IdentityName, Amount.IsValidHumanAmount, Canonical.Ulid,
         Base64.IsBase64, ValueOf;
    var byName := IndexByName(headers);
    var required := ReadRequired(byName, headers);
    if required.Err? {
      return Err(required.error);
    }
    var read := required.value;
    ReadIsUnique(headers, read);
    SixNames();

    if !Canonical.IdentityName(read[PAYER]) {
      return Err(Malformed(PAYER));
    }
    if !Amount.IsValidHumanAmount(read[AMOUNT]) {
      return Err(Malformed(AMOUNT));
    }
    if !Canonical.Ulid(read[REQUEST_ID]) {
      return Err(Malformed(REQUEST_ID));
    }
    if !IssuedAt(read[ISSUED_AT]) {
      return Err(Malformed(ISSUED_AT));
    }
    if !Base64.IsBase64(read[SIGNATURE]) {
      return Err(Malformed(SIGNATURE));
    }
    if read[SCHEME] == "" {
      return Err(Malformed(SCHEME));
    }
    var claim := Claim(read[SCHEME], read[PAYER], read[AMOUNT], read[REQUEST_ID], ValueOf(read[ISSUED_AT]),
                       read[SIGNATURE], None);
    assert Lookup(headers, EXTENSIONS) == if Lower(EXTENSIONS) in byName then Some(byName[Lower(EXTENSIONS)]) else None;
    if Lower(EXTENSIONS) in byName {
      var value := byName[Lower(EXTENSIONS)];
      if value.Many? && |value.texts| != 1 {
        return Err(Repeated(EXTENSIONS));
      }
      claim := claim.(extensionsRaw := Some(if value.Many? then value.texts[0] else value.text));
    }
    r := Ok(claim);
  }

  lemma SixNames()
    ensures SCHEME in REQUIRED && PAYER in REQUIRED && AMOUNT in REQUIRED
    ensures REQUEST_ID in REQUIRED && ISSUED_AT in REQUIRED && SIGNATURE in REQUIRED
  {
    assert REQUIRED[0] == SCHEME && REQUIRED[1] == PAYER && REQUIRED[2] == AMOUNT;
    assert REQUIRED[3] == REQUEST_ID && REQUIRED[4] == ISSUED_AT && REQUIRED[5] == SIGNATURE;
  }

  // ---------- what a request carries ----------

  /** Exactly one defined entry has this name, in whatever letter case and position. */
  ghost predicate Carries(headers: seq<Header>, name: string, text: string) {
    exists i ::
      && 0 <= i < |headers| && Lower(headers[i].name) == Lower(name) && headers[i].value == One(text)
      && forall j | 0 <= j < |headers| && j != i && headers[j].value != Undefined ::
          Lower(headers[j].name) != Lower(name)
  }

  lemma {:induction false} NotCarried(headers: seq<Header>, name: string)
    requires forall h | h in headers && h.value != Undefined :: Lower(h.name) != Lower(name)
    ensures Lookup(headers, name) == None
  {
    if headers != [] {
      assert headers[|headers| - 1] in headers;
      NotCarried(headers[..|headers| - 1], name);
    }
  }

  lemma {:induction false} CarriedIsFound(headers: seq<Header>, name: string, text: string)
    requires Carries(headers, name, text)
    ensures Single(headers, name) == Ok(text) && Lookup(headers, name) == Some(One(text))
  {
    var i :| 0 <= i < |headers| && Lower(headers[i].name) == Lower(name) && headers[i].value == One(text)
      && forall j | 0 <= j < |headers| && j != i && headers[j].value != Undefined ::
          Lower(headers[j].name) != Lower(name);
    var n := |headers| - 1;
    if i < n {
      assert headers[n].value != Undefined ==> Lower(headers[n].name) != Lower(name);
      assert Carries(headers[..n], name, text) by {
        assert headers[..n][i] == headers[i];
      }
      CarriedIsFound(headers[..n], name, text);
    }
  }

  ghost predicate CarriesExtensions(headers: seq<Header>, raw: Option<string>) {
    match raw
    case Some(text) => Carries(headers, EXTENSIONS, text)
    case None => forall h | h in headers && h.value != Undefined :: Lower(h.name) != Lower(EXTENSIONS)
  }

  predicate ClaimValid(c: Claim) {
    && Canonical.IdentityName(c.payer) && Amount.IsValidHumanAmount(c.amount) && Canonical.Ulid(c.requestId)
    && Canonical.UnixSeconds(c.issuedAt) && Base64.IsBase64(c.signature) && c.scheme != ""
  }

  /** A request that carries the six values once each, and the extensions once or not at all, among any other
      headers in any order and any letter case, is read back exactly, the decimal timestamp included. */
  lemma ParseCarried(headers: seq<Header>, c: Claim)
    requires ClaimValid(c)
    requires Carries(headers, SCHEME, c.scheme) && Carries(headers, PAYER, c.payer)
    requires Carries(headers, AMOUNT, c.amount)
    requires Carries(headers, REQUEST_ID, c.requestId) && Carries(headers, ISSUED_AT, Digits(c.issuedAt))
    requires Carries(headers, SIGNATURE, c.signature) && CarriesExtensions(headers, c.extensionsRaw)
    ensures Parse(headers) == Ok(c)
  {
    CarriedIsFound(headers, SCHEME, c.scheme);
    CarriedIsFound(headers, PAYER, c.payer);
    CarriedIsFound(headers, AMOUNT, c.amount);
    CarriedIsFound(headers, REQUEST_ID, c.requestId);
    CarriedIsFound(headers, ISSUED_AT, Digits(c.issuedAt));
    CarriedIsFound(headers, SIGNATURE, c.signature);
    if c.extensionsRaw.Some? {
      CarriedIsFound(headers, EXTENSIONS, c.extensionsRaw.value);
    } else {
      NotCarried(headers, EXTENSIONS);
    }
    hide Carries, Lookup, Lower, Single, ClaimValid, FieldError, FirstMissing;
    NothingMissing(headers);
    SixNames();
    var read := ReadAll(headers);
    SoundFields(read, c);
  }

  lemma NothingMissing(headers: seq<Header>)
    requires Single(headers, SCHEME).Ok? && Single(headers, PAYER).Ok? && Single(headers, AMOUNT).Ok?
    requires Single(headers, REQUEST_ID).Ok? && Single(headers, ISSUED_AT).Ok? && Single(headers, SIGNATURE).Ok?
    ensures FirstMissing(headers, 0) == None
  {
    hide Lookup, Lower, Single;
    NoneMissing(headers, 0);
  }

  lemma SoundFields(read: map<string, string>, c: Claim)
    requires ClaimValid(c) && forall name | name in REQUIRED :: name in read
    requires SCHEME in read && PAYER in read && AMOUNT in read && REQUEST_ID in read && ISSUED_AT in read
    requires SIGNATURE in read
    requires read[SCHEME] == c.scheme && read[PAYER] == c.payer && read[AMOUNT] == c.amount
    requires read[REQUEST_ID] == c.requestId && read[ISSUED_AT] == Digits(c.issuedAt) && read[SIGNATURE] == c.signature
    ensures FieldError(read) == None && AllDigits(read[ISSUED_AT]) && ValueOf(read[ISSUED_AT]) == c.issuedAt
  {
    hide Canonical.IdentityName, Amount.IsValidHumanAmount, Canonical.Ulid, Base64.IsBase64, Digits, ValueOf;
    ValueOfDigits(c.issuedAt);
  }

  /** Every accepted claim satisfies the grammar of each of its fields. */
  lemma AcceptedIsValid(headers: seq<Header>)
    requires Parse(headers).Ok?
    ensures ClaimValid(Parse(headers).value)
  {
    SixNames();
  }

  // ---------- repeated headers ----------

  const PAYMENT: seq<string> := REQUIRED + [EXTENSIONS]

  /** A defined entry of this name, letter case aside. */
  predicate Bears(h: Header, name: string) {
    h.value != Undefined && Lower(h.name) == Lower(name)
  }

  /** Wherever they stand, the last defined entry of a name is the one read. */
  lemma {:induction false} LastEntryWins(headers: seq<Header>, name: string, i: nat)
    requires i < |headers| && Bears(headers[i], name)
    requires forall j | i < j < |headers| :: !Bears(headers[j], name)
    ensures Lookup(headers, name) == Some(headers[i].value)
  {
    hide Lower;
    if i < |headers| - 1 {
      LastEntryWins(headers[..|headers| - 1], name, i);
    }
  }

  function Without(headers: seq<Header>, i: nat): seq<Header>
    requires i < |headers|
  {
    headers[..i] + headers[i + 1..]
  }

  lemma {:induction false} LookupWithout(headers: seq<Header>, i: nat, name: string)
    requires i < |headers|
    requires Bears(headers[i], name) ==> exists j :: i < j < |headers| && Bears(headers[j], name)
    ensures Lookup(Without(headers, i), name) == Lookup(headers, name)
  {
    hide Lower;
    var n := |headers| - 1;
    var rest := Without(headers, i);
    if i == n {
      assert rest == headers[..n];
    } else {
      assert rest[|rest| - 1] == headers[n] && rest[..|rest| - 1] == Without(headers[..n], i);
      if !Bears(headers[n], name) {
        LookupWithout(headers[..n], i, name);
      }
    }
  }

  lemma LookupsFixParse(a: seq<Header>, b: seq<Header>)
    requires forall name | name in PAYMENT :: Lookup(a, name) == Lookup(b, name)
    ensures Parse(a) == Parse(b)
  {
    PaymentNames();
    hide Lookup, Lower, FirstMissing, FieldError, PAYMENT, REQUIRED;
    SinglesFixMissing(a, b, 0);
    if FirstMissing(a, 0).None? {
      ReadsFixed(a, b);
    }
    hide ReadAll;
  }

  lemma PaymentNames()
    ensures EXTENSIONS in PAYMENT && forall name | name in REQUIRED :: name in PAYMENT
  {
    assert PAYMENT[6] == EXTENSIONS;
  }

  lemma ReadsFixed(a: seq<Header>, b: seq<Header>)
    requires FirstMissing(a, 0).None? && FirstMissing(b, 0).None?
    requires forall name | name in REQUIRED :: Single(a, name) == Single(b, name)
    ensures ReadAll(a) == ReadAll(b)
  {
    hide Single, FirstMissing, REQUIRED;
  }

  lemma {:induction false} SinglesFixMissing(a: seq<Header>, b: seq<Header>, i: nat)
    requires i <= |REQUIRED| && forall name | name in REQUIRED :: Single(a, name) == Single(b, name)
    ensures FirstMissing(a, i) == FirstMissing(b, i)
    decreases |REQUIRED| - i
  {
    hide Single;
    if i < |REQUIRED| {
      assert REQUIRED[i] in REQUIRED;
      SinglesFixMissing(a, b, i + 1);
    }
  }

  /** A value given under a payment name was passed over: without its entry the list reads the same. */
  ghost predicate PassedOver(headers: seq<Header>, i: nat) {
    && i < |headers| && (exists name :: name in PAYMENT && Bears(headers[i], name))
    && Parse(Without(headers, i)) == Parse(headers)
  }

  /** Some payment name is borne by two defined entries. */
  ghost predicate Repeats(headers: seq<Header>) {
    exists name, i, j :: name in PAYMENT && 0 <= i < j < |headers| && Bears(headers[i], name) && Bears(headers[j], name)
  }

  /** When the promise to reject repeated payment headers is broken: an accepted list picked one of several
      values exactly when two of its defined entries bear one payment name, wherever they stand. */
  lemma PicksExactlyWhenRepeated(headers: seq<Header>)
    requires Parse(headers).Ok?
    ensures (exists i: nat :: PassedOver(headers, i)) <==> Repeats(headers)
  {
    hide Parse, Lookup, Lower, PAYMENT;
    if Repeats(headers) {
      var name, i: nat, j: nat :|
        name in PAYMENT && i < j < |headers| && Bears(headers[i], name) && Bears(headers[j], name);
      forall other | other in PAYMENT ensures Lookup(Without(headers, i), other) == Lookup(headers, other) {
        if Bears(headers[i], other) {
          assert Bears(headers[j], other);
        }
        LookupWithout(headers, i, other);
      }
      LookupsFixParse(Without(headers, i), headers);
      assert PassedOver(headers, i);
    }
    forall i: nat | PassedOver(headers, i) ensures Repeats(headers) {
      var name :| name in PAYMENT && Bears(headers[i], name);
      if forall j | 0 <= j < |headers| && j != i :: !Bears(headers[j], name) {
        LoneEntryCounts(headers, i, name);
        assert false;
      }
      var j :| 0 <= j < |headers| && j != i && Bears(headers[j], name);
      assert Bears(headers[i], name) && Bears(headers[j], name);
    }
  }

  /** The only entry of a payment name cannot be dropped unnoticed. */
  lemma LoneEntryCounts(headers: seq<Header>, i: nat, name: string)
    requires i < |headers| && name in PAYMENT && Bears(headers[i], name) && Parse(headers).Ok?
    requires forall j | 0 <= j < |headers| && j != i :: !Bears(headers[j], name)
    ensures Parse(Without(headers, i)) != Parse(headers)
  {
    var rest := Without(headers, i);
    NotCarried(rest, name);
    LastEntryWins(headers, name, i);
    hide Lookup, Lower, FieldError;
    if name in REQUIRED {
      NoneMissing(rest, 0);
      var k :| 0 <= k < |REQUIRED| && REQUIRED[k] == name;
      assert Single(rest, REQUIRED[k]).Err?;
    } else {
      assert name == EXTENSIONS;
    }
  }

  // ---------- an accepted list with two values for one name ----------

  const SAMPLE: seq<Header> := [
    Header("x-v402-payer", One("mallory@")),
    Header(SCHEME, One("verus-prepaid-sig/0.1")),
    Header(PAYER, One("alice@")),
    Header(AMOUNT, One("1")),
    Header(REQUEST_ID, One(Zeros(26))),
    Header(ISSUED_AT, One("0")),
    Header(SIGNATURE, One("AAAA"))]

  /** Names of different length or eighth letter differ in every letter case. */
  predicate Apart(s: string, t: string) {
    |s| != |t| || (|s| > 7 && LowerChar(s[7]) != LowerChar(t[7]))
  }

  lemma ApartNames(s: string, t: string)
    requires Apart(s, t)
    ensures Lower(s) != Lower(t)
  {
    if |s| == |t| {
      assert Lower(s)[7] == LowerChar(s[7]) && Lower(t)[7] == LowerChar(t[7]);
    }
  }

  lemma SampleReads(k: nat)
    requires 1 <= k < 7
    ensures Lookup(SAMPLE, SAMPLE[k].name) == Some(SAMPLE[k].value)
  {
    hide Lower, Lookup;
    forall j | k < j < 7 ensures !Bears(SAMPLE[j], SAMPLE[k].name) {
      assert Apart(SAMPLE[j].name, SAMPLE[k].name);
      ApartNames(SAMPLE[j].name, SAMPLE[k].name);
    }
    LastEntryWins(SAMPLE, SAMPLE[k].name, k);
  }

  lemma SampleHasNoExtensions()
    ensures Lookup(SAMPLE, EXTENSIONS) == None
  {
    hide Lower, Lookup;
    forall h | h in SAMPLE ensures Lower(h.name) != Lower(EXTENSIONS) {
      assert Apart(h.name, EXTENSIONS);
      ApartNames(h.name, EXTENSIONS);
    }
    NotCarried(SAMPLE, EXTENSIONS);
  }

  const SAMPLE_CLAIM := Claim("verus-prepaid-sig/0.1", "alice@", "1", Zeros(26), 0, "AAAA", None)

  lemma SampleClaimIsValid()
    ensures ClaimValid(SAMPLE_CLAIM) && Digits(SAMPLE_CLAIM.issuedAt) == "0"
  {
    SplitPart("1", '.');
    hide Split;
    assert Canonical.IdentityName("alice@");
    assert Amount.IsValidHumanAmount("1");
    assert Base64.IsBase64("AAAA");
    assert Digits(0) == ['0'];
  }

  /** The failing input: two entries bear one payment name with different values, and the list is accepted with
      the later value. */
  lemma TwoPayersAccepted()
    ensures Parse(SAMPLE) == Ok(SAMPLE_CLAIM)
    ensures Bears(SAMPLE[0], PAYER) && Bears(SAMPLE[2], PAYER)
    ensures SAMPLE[0].value != SAMPLE[2].value == One(SAMPLE_CLAIM.payer)
  {
    SampleTwins();
    SampleParses();
    hide *;
  }

  lemma SampleTwins()
    ensures Bears(SAMPLE[0], PAYER) && Bears(SAMPLE[2], PAYER)
    ensures SAMPLE[0].value != SAMPLE[2].value == One(SAMPLE_CLAIM.payer)
  {
    var s, t := Lower("x-v402-payer"), Lower(PAYER);
    hide Lower;
    assert |s| == |t|;
    assert "mallory@"[0] != "alice@"[0];
    SamePayerName();
  }

  lemma SamePayerName()
    ensures Lower("x-v402-payer") == Lower(PAYER)
  {
    var s, t := "x-v402-payer", PAYER;
    forall i | 0 <= i < 12 ensures LowerChar(s[i]) == LowerChar(t[i]) {}
  }

  lemma SampleParses()
    ensures Parse(SAMPLE) == Ok(SAMPLE_CLAIM)
  {
    SampleClaimIsValid();
    SampleHasNoExtensions();
    forall k | 1 <= k < 7 ensures Lookup(SAMPLE, SAMPLE[k].name) == Some(SAMPLE[k].value) {
      SampleReads(k);
    }
    hide Lookup, Lower, ClaimValid, FieldError, FirstMissing, Digits, Single;
    SampleSingles();
    NothingMissing(SAMPLE);
    SixNames();
    SoundFields(ReadAll(SAMPLE), SAMPLE_CLAIM);
  }

  lemma SampleSingles()
    requires forall k | 1 <= k < 7 :: Lookup(SAMPLE, SAMPLE[k].name) == Some(SAMPLE[k].value)
    ensures Single(SAMPLE, SCHEME) == Ok(SAMPLE_CLAIM.scheme) && Single(SAMPLE, PAYER) == Ok(SAMPLE_CLAIM.payer)
    ensures Single(SAMPLE, AMOUNT) == Ok(SAMPLE_CLAIM.amount)
    ensures Single(SAMPLE, REQUEST_ID) == Ok(SAMPLE_CLAIM.requestId)
    ensures Single(SAMPLE, ISSUED_AT) == Ok("0") && Single(SAMPLE, SIGNATURE) == Ok(SAMPLE_CLAIM.signature)
  {
    hide Lookup, Lower;
    assert SAMPLE[1].name == SCHEME && SAMPLE[2].name == PAYER && SAMPLE[3].name == AMOUNT;
    assert SAMPLE[4].name == REQUEST_ID && SAMPLE[5].name == ISSUED_AT && SAMPLE[6].name == SIGNATURE;
  }
}
