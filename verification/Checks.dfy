/** The verifier's check pipeline, and its agreement with the client: the string it rebuilds is the string the
    client signed. */
module Checks {
  import opened Basics
  import opened Text
  import opened Decimal
  import opened Names
  import Amount
  import Base64
  import X = Extensions
  import N = Canonical
  import H = Headers
  import AcceptsCache

  const SCHEME := "verus-prepaid-sig"
  const BODY_HASH := "scheme.bodyHash"

  datatype Config = Config(
    network: string, asset: string, payTo: string, canonicalDomain: string, tolerance: int,
    maxExtensionsBytes: int, schemeVersions: seq<string>)

  datatype BodyHashPolicy = Required | Optional | Ignored
  datatype Policy = Policy(priceHuman: string, bodyHash: BodyHashPolicy)
  datatype Incoming = Incoming(verb: string, path: string, headers: seq<H.Header>, rawBody: Option<seq<Base64.Byte>>)

  datatype Answer = Valid | Invalid | Unavailable

  /** What lies outside: UTF-8 decoding, SHA-256 in hex, the blocklist, and signature verification. */
  datatype Outside = Outside(
    utf8: seq<Base64.Byte> -> string, sha256: seq<Base64.Byte> -> string, blocked: string -> bool,
    verify: (string, string, string) -> Answer)

  datatype Code =
    | InvalidHeaders | UnsupportedScheme | UnsupportedSchemeVersion | PriceMismatch | ExtensionsTooLarge
    | InvalidExtensions | UnknownSchemeExtension | ReservedExtension | BodyHashRequired | BodyHashMismatch
    | InvalidBodyHash | TimestampOutOfWindow | InvalidRequest | IsBlocked | InvalidSignature | VerifyUnavailable
    | Replay | InsufficientBalance | NoBalance

  datatype Failure = Failure(status: int, code: Code)
  datatype Checked = Checked(claim: H.Claim, identityKey: string, receivedAt: int)

  // ---------- the scheme header ----------

  function FirstSlash(s: string): (r: int)
    ensures -1 <= r < |s|
  {
    if s == "" then -1
    else if s[0] == '/' then 0
    else
      var r := FirstSlash(s[1..]);
      if r < 0 then -1 else r + 1
  }

  function SchemeName(value: string): string {
    var slash := FirstSlash(value);
    if slash < 0 then value else value[..slash]
  }

  function SchemeVersion(value: string): Option<string> {
    var slash := FirstSlash(value);
    if slash < 0 then None else Some(value[slash + 1..])
  }

  lemma {:induction false} SlashAfterName(name: string, rest: string)
    requires '/' !in name
    ensures FirstSlash(name + "/" + rest) == |name|
  {
    if name != "" {
      assert (name + "/" + rest)[1..] == name[1..] + "/" + rest;
      SlashAfterName(name[1..], rest);
    }
  }

  /** Header and context line agree: what the client writes splits into the scheme and version it signed. */
  lemma SchemeHeaderSplits(name: string, version: string)
    requires '/' !in name
    ensures SchemeName(N.ContextLine(name, version)) == name
    ensures SchemeVersion(N.ContextLine(name, version)) == Some(version)
  {
    SlashAfterName(name, version);
    var line := N.ContextLine(name, version);
    assert line[..|name|] == name && line[|name| + 1..] == version;
  }

  // ---------- extensions ----------

  predicate StartsWith(s: string, prefix: string) {
    |prefix| <= |s| && s[..|prefix|] == prefix
  }

  /** The first field this verifier must not accept. */
  function Forbidden(fields: seq<X.Field>): Option<Code> {
    if fields == [] then None
    else if StartsWith(fields[0].key, "scheme.") && fields[0].key != BODY_HASH then Some(UnknownSchemeExtension)
    else if StartsWith(fields[0].key, "iana.") then Some(ReservedExtension)
    else Forbidden(fields[1..])
  }

  function FindField(fields: seq<X.Field>, key: string): (r: Option<X.Field>)
    ensures r.Some? ==> r.value in fields && r.value.key == key
    ensures r.None? ==> forall f | f in fields :: f.key != key
  {
    if fields == [] then None
    else if fields[0].key == key then Some(fields[0])
    else FindField(fields[1..], key)
  }

  predicate IsHex64(s: string) {
    |s| == 64 && forall c | c in s :: IsDigit(c) || 'a' <= c <= 'f'
  }

  predicate BodyHashForm(value: string) {
    StartsWith(value, "sha256:") && IsHex64(value[7..])
  }

  function BodyOf(r: Incoming): seq<Base64.Byte> {
    if r.rawBody.Some? then r.rawBody.value else []
  }

  function ReadExtensions(cfg: Config, raw: string, outside: Outside): Result<seq<X.Field>, Code> {
    if !Base64.IsBase64(raw) then Err(InvalidExtensions)
    else
      var decoded := Base64.Decode(raw);
      if |decoded| > cfg.maxExtensionsBytes then Err(ExtensionsTooLarge)
      else
        match X.Parse(outside.utf8(decoded))
        case Err(_) => Err(InvalidExtensions)
        case Ok(fields) =>
          match Forbidden(fields)
          case Some(code) => Err(code)
          case None => Ok(fields)
  }

  function BodyHashError(fields: seq<X.Field>, r: Incoming, policy: Policy, outside: Outside): Option<Code> {
    var found := FindField(fields, BODY_HASH);
    if policy.bodyHash.Ignored? then None
    else if found.None? then
      if policy.bodyHash.Required? && BodyOf(r) != [] then Some(BodyHashRequired) else None
    else if !BodyHashForm(found.value.value) then Some(InvalidBodyHash)
    else if found.value.value != "sha256:" + outside.sha256(BodyOf(r)) then Some(BodyHashMismatch)
    else None
  }

  function DecodeExtensions(cfg: Config, claim: H.Claim, r: Incoming, policy: Policy, outside: Outside)
    : Result<seq<X.Field>, Code>
  {
    var read := if claim.extensionsRaw.None? then Ok([]) else ReadExtensions(cfg, claim.extensionsRaw.value, outside);
    match read
    case Err(code) => Err(code)
    case Ok(fields) =>
      match BodyHashError(fields, r, policy, outside)
      case Some(code) => Err(code)
      case None => Ok(fields)
  }

  // ---------- the pipeline ----------

  /** The payload rebuilt from server truth and the four values that come from the client. */
  function ServerPayload(cfg: Config, r: Incoming, policy: Policy, claim: H.Claim, version: string,
                         fields: seq<X.Field>): N.Payload {
    N.Payload(SCHEME, version, cfg.canonicalDomain, r.verb, r.path, cfg.network, cfg.asset, policy.priceHuman,
              claim.payer, cfg.payTo, claim.requestId, claim.issuedAt, fields)
  }

  function ClaimedVersion(cfg: Config, claim: H.Claim): string {
    match SchemeVersion(claim.scheme)
    case Some(version) => version
    case None => if cfg.schemeVersions == [] then "" else cfg.schemeVersions[0]
  }

  function Verdict(answer: Answer, checked: Checked): Result<Checked, Failure> {
    match answer
    case Valid => Ok(checked)
    case Invalid => Err(Failure(402, InvalidSignature))
    case Unavailable => Err(Failure(503, VerifyUnavailable))
  }

  predicate OutOfWindow(cfg: Config, issuedAt: int, now: int) {
    now - issuedAt > cfg.tolerance || issuedAt - now > cfg.tolerance
  }

  /** Headers, scheme, version, price, extensions, clock, blocklist, signature: the first failure is the answer. */
  function RunChecks(cfg: Config, r: Incoming, policy: Policy, now: int, outside: Outside): Result<Checked, Failure> {
    match H.Parse(r.headers)
    case Err(_) => Err(Failure(400, InvalidHeaders))
    case Ok(claim) =>
      if SchemeName(claim.scheme) != SCHEME then Err(Failure(402, UnsupportedScheme))
      else if ClaimedVersion(cfg, claim) !in cfg.schemeVersions then Err(Failure(400, UnsupportedSchemeVersion))
      else if claim.amount != policy.priceHuman then Err(Failure(402, PriceMismatch))
      else
        match DecodeExtensions(cfg, claim, r, policy, outside)
        case Err(code) => Err(Failure(400, code))
        case Ok(fields) =>
          var key := NormalizeIdentityKey(claim.payer);
          if OutOfWindow(cfg, claim.issuedAt, now) then Err(Failure(400, TimestampOutOfWindow))
          else if outside.blocked(key) then Err(Failure(403, IsBlocked))
          else
            match N.Canonicalize(ServerPayload(cfg, r, policy, claim, ClaimedVersion(cfg, claim), fields))
            case Err(_) => Err(Failure(400, InvalidRequest))
            case Ok(text) => Verdict(outside.verify(claim.payer, claim.signature, text), Checked(claim, key, now))
  }

  // ---------- what each answer means ----------

  /** The scheme header names this scheme: alone, or followed by a slash and a version. */
  ghost predicate NamesScheme(value: string) {
    value == "verus-prepaid-sig" || exists version :: value == "verus-prepaid-sig" + "/" + version
  }

  /** The version meant: the one behind the first slash, else the first one configured. */
  ghost predicate MeansVersion(cfg: Config, value: string, version: string) {
    if value == "verus-prepaid-sig" then version == (if cfg.schemeVersions == [] then "" else cfg.schemeVersions[0])
    else value == "verus-prepaid-sig" + "/" + version
  }

  lemma SchemeIsNamed(cfg: Config, claim: H.Claim)
    ensures SchemeName(claim.scheme) == SCHEME <==> NamesScheme(claim.scheme)
    ensures NamesScheme(claim.scheme) ==> forall version ::
      MeansVersion(cfg, claim.scheme, version) <==> ClaimedVersion(cfg, claim) == version
  {
    var value := claim.scheme;
    BareScheme(value);
    forall version ensures value == SCHEME + "/" + version <==>
      SchemeName(value) == SCHEME && SchemeVersion(value) == Some(version)
    {
      VersionedScheme(value, version);
    }
    hide SchemeName, SchemeVersion;
  }

  lemma BareScheme(value: string)
    ensures value == SCHEME <==> SchemeName(value) == SCHEME && SchemeVersion(value) == None
  {
    FirstSlashIsFirst(value);
    assert '/' !in SCHEME;
  }

  lemma VersionedScheme(value: string, version: string)
    ensures value == SCHEME + "/" + version <==> SchemeName(value) == SCHEME && SchemeVersion(value) == Some(version)
  {
    if value == SCHEME + "/" + version {
      assert '/' !in SCHEME;
      SchemeHeaderSplits(SCHEME, version);
    } else if SchemeVersion(value) == Some(version) {
      var slash := FirstSlash(value);
      FirstSlashIsFirst(value);
      assert value == value[..slash] + "/" + value[slash + 1..];
    }
  }

  lemma {:induction false} FirstSlashIsFirst(s: string)
    ensures var r := FirstSlash(s); if r < 0 then '/' !in s else s[r] == '/' && '/' !in s[..r]
  {
    if s != "" && s[0] != '/' {
      FirstSlashIsFirst(s[1..]);
      var r := FirstSlash(s);
      if r > 0 {
        assert s[..r] == [s[0]] + s[1..][..r - 1];
      }
    }
  }

  /** The gates before the extensions: headers, scheme, version, price. */
  ghost predicate PriceAgreed(cfg: Config, r: Incoming, policy: Policy, claim: H.Claim, version: string) {
    && H.Parse(r.headers) == Ok(claim) && NamesScheme(claim.scheme) && MeansVersion(cfg, claim.scheme, version)
    && version in cfg.schemeVersions && claim.amount == policy.priceHuman
  }

  /** Why a request is refused for its headers, scheme, version or price: each answer has one cause, and the cause
      has that answer. */
  lemma EarlyRefusals(cfg: Config, r: Incoming, policy: Policy, now: int, outside: Outside)
    ensures H.Parse(r.headers).Err? ==> RunChecks(cfg, r, policy, now, outside) == Err(Failure(400, InvalidHeaders))
    ensures H.Parse(r.headers).Ok? && !NamesScheme(H.Parse(r.headers).value.scheme) ==>
      RunChecks(cfg, r, policy, now, outside) == Err(Failure(402, UnsupportedScheme))
  {
    if H.Parse(r.headers).Ok? {
      SchemeIsNamed(cfg, H.Parse(r.headers).value);
    }
    hide H.Parse, DecodeExtensions, N.Canonicalize, SchemeName, ClaimedVersion, NamesScheme, OutOfWindow, Verdict,
         NormalizeIdentityKey;
  }

  lemma VersionAndPrice(cfg: Config, r: Incoming, policy: Policy, now: int, outside: Outside, claim: H.Claim,
                        version: string)
    requires H.Parse(r.headers) == Ok(claim) && NamesScheme(claim.scheme) && MeansVersion(cfg, claim.scheme, version)
    ensures version !in cfg.schemeVersions ==>
      RunChecks(cfg, r, policy, now, outside) == Err(Failure(400, UnsupportedSchemeVersion))
    ensures version in cfg.schemeVersions ==>
      (RunChecks(cfg, r, policy, now, outside) == Err(Failure(402, PriceMismatch)) <==>
       claim.amount != policy.priceHuman)
  {
    SchemeIsNamed(cfg, claim);
    hide H.Parse, DecodeExtensions, N.Canonicalize, SchemeName, ClaimedVersion, NamesScheme, MeansVersion, OutOfWindow,
         NormalizeIdentityKey;
    if version in cfg.schemeVersions && claim.amount == policy.priceHuman {
      ExtensionCodes(cfg, claim, r, policy, outside);
    }
  }

  /** No extension error is taken for a price mismatch: their answers have another status. */
  lemma ExtensionCodes(cfg: Config, claim: H.Claim, r: Incoming, policy: Policy, outside: Outside)
    ensures var result := DecodeExtensions(cfg, claim, r, policy, outside);
      result.Err? ==> Failure(400, result.error) != Failure(402, PriceMismatch)
  {
    hide DecodeExtensions;
  }

  /** Past those gates: the extension errors, then the clock, the blocklist, and the node's word on the signature. */
  lemma LateRefusals(cfg: Config, r: Incoming, policy: Policy, now: int, outside: Outside, claim: H.Claim,
                     version: string)
    requires PriceAgreed(cfg, r, policy, claim, version)
    ensures var result := RunChecks(cfg, r, policy, now, outside);
      match DecodeExtensions(cfg, claim, r, policy, outside)
      case Err(code) => result == Err(Failure(400, code))
      case Ok(fields) =>
        if !(-cfg.tolerance <= now - claim.issuedAt <= cfg.tolerance) then
          result == Err(Failure(400, TimestampOutOfWindow))
        else if outside.blocked(NormalizeIdentityKey(claim.payer)) then result == Err(Failure(403, IsBlocked))
        else
          match N.Canonicalize(ServerPayload(cfg, r, policy, claim, version, fields))
          case Err(_) => result == Err(Failure(400, InvalidRequest))
          case Ok(text) =>
            match outside.verify(claim.payer, claim.signature, text)
            case Valid => result == Ok(Checked(claim, NormalizeIdentityKey(claim.payer), now))
            case Invalid => result == Err(Failure(402, InvalidSignature))
            case Unavailable => result == Err(Failure(503, VerifyUnavailable))
  {
    SchemeIsNamed(cfg, claim);
    hide H.Parse, DecodeExtensions, N.Canonicalize, SchemeName, ClaimedVersion, NamesScheme, MeansVersion;
  }

  /** No check answers for the replay protection. */
  lemma NoReplayCode(cfg: Config, r: Incoming, policy: Policy, now: int, outside: Outside)
    ensures var result := RunChecks(cfg, r, policy, now, outside); result.Err? ==> result.error.status != 409
  {
    hide H.Parse, DecodeExtensions, N.Canonicalize, SchemeName, ClaimedVersion, NormalizeIdentityKey;
  }

  /** A field the verifier must not accept: one of this scheme it does not know, or a reserved one. */
  predicate Foreign(f: X.Field) {
    || (|f.key| >= 7 && f.key[..7] == "scheme." && f.key != "scheme.bodyHash")
    || (|f.key| >= 5 && f.key[..5] == "iana.")
  }

  function ForeignCode(f: X.Field): Code {
    if |f.key| >= 7 && f.key[..7] == "scheme." then UnknownSchemeExtension else ReservedExtension
  }

  lemma {:induction false} ForbiddenExactly(fields: seq<X.Field>)
    ensures Forbidden(fields).None? <==> forall f | f in fields :: !Foreign(f)
    ensures Forbidden(fields) in {None, Some(UnknownSchemeExtension), Some(ReservedExtension)}
  {
    if fields != [] {
      ForbiddenExactly(fields[1..]);
      assert fields == [fields[0]] + fields[1..];
      ForeignHead(fields[0]);
      hide Foreign, StartsWith;
    }
  }

  /** The first foreign field names the error. */
  lemma {:induction false} FirstForeignAnswers(fields: seq<X.Field>, i: nat)
    requires i < |fields| && Foreign(fields[i]) && forall j | 0 <= j < i :: !Foreign(fields[j])
    ensures Forbidden(fields) == Some(ForeignCode(fields[i]))
  {
    ForeignHead(fields[0]);
    hide Foreign, StartsWith, ForeignCode;
    if i > 0 {
      assert !Foreign(fields[0]) && forall j | 0 <= j < i - 1 :: fields[1..][j] == fields[j + 1];
      FirstForeignAnswers(fields[1..], i - 1);
    }
  }

  lemma ForeignHead(f: X.Field)
    ensures Foreign(f) <==> (StartsWith(f.key, "scheme.") && f.key != BODY_HASH) || StartsWith(f.key, "iana.")
    ensures ForeignCode(f) == if StartsWith(f.key, "scheme.") then UnknownSchemeExtension else ReservedExtension
    ensures !(StartsWith(f.key, "scheme.") && StartsWith(f.key, "iana."))
  {
    if StartsWith(f.key, "scheme.") {
      assert f.key[0] == f.key[..7][0] == 's';
    } else if StartsWith(f.key, "iana.") {
      assert f.key[0] == f.key[..5][0] == 'i';
    }
  }

  /** When the extensions are accepted, and why not: unreadable, too long, not a block, a foreign field; then, unless
      the route ignores body hashes, a missing hash where one is required, a malformed one, or another body's. */
  lemma ExtensionAnswers(cfg: Config, claim: H.Claim, r: Incoming, policy: Policy, outside: Outside)
    ensures var result := DecodeExtensions(cfg, claim, r, policy, outside);
      match claim.extensionsRaw
      case None => result == BodyHashAnswer([], r, policy, outside)
      case Some(raw) =>
        if !Base64.IsBase64(raw) then result == Err(InvalidExtensions)
        else if |Base64.Decode(raw)| > cfg.maxExtensionsBytes then result == Err(ExtensionsTooLarge)
        else
          match X.Parse(outside.utf8(Base64.Decode(raw)))
          case Err(_) => result == Err(InvalidExtensions)
          case Ok(fields) =>
            if exists f :: f in fields && Foreign(f)
            then result == Err(UnknownSchemeExtension) || result == Err(ReservedExtension)
            else result == BodyHashAnswer(fields, r, policy, outside)
  {
    hide Base64.IsBase64, Base64.Decode, X.Parse, BodyHashForm, Foreign, Forbidden;
    if claim.extensionsRaw.Some? && Base64.IsBase64(claim.extensionsRaw.value) {
      var parsed := X.Parse(outside.utf8(Base64.Decode(claim.extensionsRaw.value)));
      if parsed.Ok? {
        ForbiddenExactly(parsed.value);
      }
    }
  }

  /** The body-hash rule, in the terms of its three settings. */
  function BodyHashAnswer(fields: seq<X.Field>, r: Incoming, policy: Policy,
                          outside: Outside): Result<seq<X.Field>, Code> {
    var body := match r.rawBody case Some(bytes) => bytes case None => [];
    match (policy.bodyHash, FindField(fields, "scheme.bodyHash"))
    case (Ignored, _) => Ok(fields)
    case (Required, None) => if body == [] then Ok(fields) else Err(BodyHashRequired)
    case (Optional, None) => Ok(fields)
    case (_, Some(f)) =>
      if f.value == "sha256:" + outside.sha256(body) && BodyHashForm(f.value) then Ok(fields)
      else if BodyHashForm(f.value) then Err(BodyHashMismatch)
      else Err(InvalidBodyHash)
  }

  /** A body hash is the word sha256, a colon, and 64 small hex digits. */
  lemma BodyHashFormExactly(value: string)
    ensures BodyHashForm(value) <==>
      |value| == 71 && value[..7] == "sha256:" && forall i | 7 <= i < 71 ::
        value[i] in "0123456789" || value[i] in "abcdef"
  {
    if |value| == 71 {
      forall c ensures IsDigit(c) || 'a' <= c <= 'f' <==> c in "0123456789" || c in "abcdef" {
        NumeralsFixDigits(c, 0);
        if 'a' <= c <= 'f' {
          assert c in {'a', 'b', 'c', 'd', 'e', 'f'};
        }
      }
      forall i | 7 <= i < 71 ensures value[i] == value[7..][i - 7] {}
      assert forall c | c in value[7..] :: exists i :: 7 <= i < 71 && value[i] == c;
      hide IsDigit;
    }
  }

  // ---------- what passing means ----------

  /** The payload names the configured receiver, domain, network and asset, the route's price, the request's method
      and path, and the payer, requestId and time of the claim. */
  predicate ThisPayment(cfg: Config, r: Incoming, policy: Policy, claim: H.Claim, p: N.Payload) {
    && p.scheme == "verus-prepaid-sig"
    && p.canonicalDomain == cfg.canonicalDomain
    && p.verb == r.verb
    && p.path == r.path
    && p.network == cfg.network
    && p.asset == cfg.asset
    && p.amount == policy.priceHuman
    && p.payer == claim.payer
    && p.payTo == cfg.payTo
    && p.requestId == claim.requestId
    && p.issuedAt == claim.issuedAt
  }

  /** A request passes only if the payer's signature is valid for a string that names this very payment: the
      configured receiver, domain, network and asset, this price, this method and path, a requestId and time
      within the window, and, unless the route ignores body hashes, the hash of this body if a hash is signed. */
  lemma PassingIsSigned(cfg: Config, r: Incoming, policy: Policy, now: int, outside: Outside)
    returns (p: N.Payload, text: string)
    requires RunChecks(cfg, r, policy, now, outside).Ok?
    ensures var c := RunChecks(cfg, r, policy, now, outside).value;
      && H.Parse(r.headers) == Ok(c.claim)
      && N.Canonicalize(p) == Ok(text) && outside.verify(c.claim.payer, c.claim.signature, text) == Valid
      && ThisPayment(cfg, r, policy, c.claim, p)
      && p.schemeVersion in cfg.schemeVersions && c.claim.amount == policy.priceHuman
      && -cfg.tolerance <= now - c.claim.issuedAt <= cfg.tolerance && c.receivedAt == now
      && c.identityKey == NormalizeIdentityKey(c.claim.payer) && !outside.blocked(c.identityKey)
      && Amount.HumanToSats(policy.priceHuman).Ok?
      && (forall f | f in p.extensions && f.key == BODY_HASH && !policy.bodyHash.Ignored? ::
            f.value == "sha256:" + outside.sha256(BodyOf(r)))
  {
    hide H.Parse, Amount.IsValidHumanAmount, DecodeExtensions, N.CoreValid, OutOfWindow, SchemeName, SchemeVersion;
    var claim := H.Parse(r.headers).value;
    var fields := DecodeExtensions(cfg, claim, r, policy, outside).value;
    p := ServerPayload(cfg, r, policy, claim, ClaimedVersion(cfg, claim), fields);
    text := N.Canonicalize(p).value;
    PriceIsValid(r.headers);
    N.CanonicalLines(p);
    BodyHashIsChecked(cfg, claim, r, policy, outside);
    Window(cfg, claim.issuedAt, now);
  }

  lemma Window(cfg: Config, issuedAt: int, now: int)
    requires !OutOfWindow(cfg, issuedAt, now)
    ensures -cfg.tolerance <= now - issuedAt <= cfg.tolerance
  {}

  lemma PriceIsValid(headers: seq<H.Header>)
    requires H.Parse(headers).Ok?
    ensures Amount.HumanToSats(H.Parse(headers).value.amount).Ok?
  {
    H.AcceptedIsValid(headers);
  }

  lemma BodyHashIsChecked(cfg: Config, claim: H.Claim, r: Incoming, policy: Policy, outside: Outside)
    requires var read := DecodeExtensions(cfg, claim, r, policy, outside); read.Ok? && X.Wellformed(read.value)
    ensures forall f | f in DecodeExtensions(cfg, claim, r, policy, outside).value &&
                       f.key == BODY_HASH && !policy.bodyHash.Ignored? ::
      f.value == "sha256:" + outside.sha256(BodyOf(r))
  {
    hide ReadExtensions, X.ValidField, BodyHashForm;
    var fields := DecodeExtensions(cfg, claim, r, policy, outside).value;
    forall f | f in fields && f.key == BODY_HASH && !policy.bodyHash.Ignored?
      ensures f.value == "sha256:" + outside.sha256(BodyOf(r))
    {
      UniqueKey(fields, f, FindField(fields, BODY_HASH).value);
    }
  }

  lemma UniqueKey(fields: seq<X.Field>, f: X.Field, g: X.Field)
    requires X.Wellformed(fields) && f in fields && g in fields && f.key == g.key
    ensures f == g
  {
    var i, j :| 0 <= i < |fields| && fields[i] == f && 0 <= j < |fields| && fields[j] == g;
    assert i == j;
  }

  /** Whatever payload the payer produced the signed string from, it was this payment: no signature over another
      price, path, receiver, requestId or time can make a request pass. */
  lemma SignedForThisPayment(cfg: Config, r: Incoming, policy: Policy, now: int, outside: Outside, text: string,
                             q: N.Payload)
    requires RunChecks(cfg, r, policy, now, outside).Ok?
    requires var claim := RunChecks(cfg, r, policy, now, outside).value.claim;
      forall other :: outside.verify(claim.payer, claim.signature, other) == Valid ==> other == text
    requires N.Canonicalize(q) == Ok(text)
    ensures var claim := RunChecks(cfg, r, policy, now, outside).value.claim;
      ThisPayment(cfg, r, policy, claim, q)
  {
    hide N.Canonicalize, RunChecks;
    var p, found := PassingIsSigned(cfg, r, policy, now, outside);
    N.CanonicalIsInjective(p, q);
  }

  // ---------- the client ----------

  /** What a paid call signs besides the server's requirement. */
  datatype Call = Call(verb: string, path: string, body: Option<seq<Base64.Byte>>, payer: string, requestId: string,
                       issuedAt: int)

  function ClientFields(call: Call, hashBody: bool, sha256: seq<Base64.Byte> -> string): seq<X.Field> {
    if hashBody && call.body.Some? && call.body.value != []
    then [X.Field(BODY_HASH, "sha256:" + sha256(call.body.value))]
    else []
  }

  function ClientPayload(q: AcceptsCache.Requirement, call: Call, fields: seq<X.Field>): N.Payload {
    N.Payload(q.scheme, q.schemeVersion, q.canonicalDomain, call.verb, call.path, q.network, q.asset, q.amount,
              call.payer, q.payTo, call.requestId, call.issuedAt, fields)
  }

  predicate Ascii(s: string) {
    forall c | c in s :: c < '\U{80}'
  }

  function ByteOf(c: char): Base64.Byte
    requires c < '\U{80}'
  {
    c as int
  }

  function Bytes(s: string): (b: seq<Base64.Byte>)
    requires Ascii(s)
    ensures |b| == |s|
  {
    assert forall i | 0 <= i < |s| :: s[i] in s;
    seq(|s|, i requires 0 <= i < |s| => ByteOf(s[i]))
  }

  ghost predicate DecodesAscii(utf8: seq<Base64.Byte> -> string) {
    forall s | Ascii(s) :: utf8(Bytes(s)) == s
  }

  /** The claim the client's headers carry. */
  function SentClaim(q: AcceptsCache.Requirement, call: Call, fields: seq<X.Field>, signature: string): H.Claim
    requires fields != [] ==> X.Serialize(fields).Ok? && Ascii(X.Serialize(fields).value)
  {
    H.Claim(N.ContextLine(q.scheme, q.schemeVersion), call.payer, q.amount, call.requestId, call.issuedAt, signature,
            if fields == [] then None else Some(Base64.Encode(Bytes(X.Serialize(fields).value))))
  }

  /** The server is configured as it advertised. */
  predicate Advertised(cfg: Config, policy: Policy, q: AcceptsCache.Requirement) {
    && q.scheme == SCHEME && q.schemeVersion in cfg.schemeVersions
    && q.network == cfg.network && q.asset == cfg.asset && q.payTo == cfg.payTo
    && q.canonicalDomain == cfg.canonicalDomain && q.amount == policy.priceHuman
  }

  const BODY_HASH_BLOCK_BYTES := 88

  lemma BodyHashKeyIsValid()
    ensures X.ValidKey(BODY_HASH)
  {
    X.KeyOfParts("scheme", "bodyHash");
    hide X.ValidKey;
    assert "scheme" + "." + "bodyHash" == BODY_HASH;
  }

  lemma HashFieldIsValid(f: X.Field, hash: string)
    requires f == X.Field(BODY_HASH, "sha256:" + hash) && IsHex64(hash)
    ensures X.ValidField(f) && BodyHashForm(f.value)
    ensures |X.Render(f)| == BODY_HASH_BLOCK_BYTES && Ascii(X.Render(f))
  {
    BodyHashKeyIsValid();
    HashText(hash);
    hide X.ValidKey, IsHex64, Ascii;
    assert f.value[7..] == hash && f.value[..7] == "sha256:";
    assert X.Render(f) == BODY_HASH + ": " + ("sha256:" + hash);
    AsciiConcat(BODY_HASH, ": ");
    AsciiConcat(BODY_HASH + ": ", "sha256:" + hash);
  }

  lemma HashText(hash: string)
    requires IsHex64(hash)
    ensures X.ValidValue("sha256:" + hash) && Ascii("sha256:" + hash) && Ascii(BODY_HASH) && Ascii(": ")
  {
    var v := "sha256:" + hash;
    assert v[0] == 's';
    forall c | c in v ensures c != '\r' && c != '\n' && c < '\U{80}' {
      assert c in "sha256:" || c in hash;
    }
  }

  lemma AsciiConcat(s: string, t: string)
    requires Ascii(s) && Ascii(t)
    ensures Ascii(s + t)
  {}

  lemma OneFieldBlock(f: X.Field)
    requires X.ValidField(f)
    ensures X.Serialize([f]) == Ok(X.Render(f)) && X.Parse(X.Render(f)) == Ok([f])
  {
    hide X.ValidField, X.Parse;
    assert X.Wellformed([f]);
    X.SerializesExactly([f]);
    hide X.Check;
    assert X.Sort([]) == [];
    assert X.Sort([f]) == [f];
    assert X.Lines([f]) == [X.Render(f)];
    X.ParseBlock([f]);
  }

  /** The extensions the server reads are the ones the client signed, through serialization, UTF-8 and Base64. */
  lemma ExtensionsTravel(cfg: Config, q: AcceptsCache.Requirement, call: Call, hashBody: bool, signature: string,
                         r: Incoming, policy: Policy, outside: Outside)
    requires DecodesAscii(outside.utf8) && forall b :: IsHex64(outside.sha256(b))
    requires cfg.maxExtensionsBytes >= BODY_HASH_BLOCK_BYTES
    requires r.rawBody == call.body
    requires policy.bodyHash.Required? ==> hashBody
    ensures var fields := ClientFields(call, hashBody, outside.sha256);
      && (fields != [] ==> X.Serialize(fields).Ok? && Ascii(X.Serialize(fields).value))
      && DecodeExtensions(cfg, SentClaim(q, call, fields, signature), r, policy, outside) == Ok(fields)
      && (if hashBody && BodyOf(r) != []
          then fields == [X.Field("scheme.bodyHash", "sha256:" + outside.sha256(BodyOf(r)))]
          else fields == [])
  {
    var fields := ClientFields(call, hashBody, outside.sha256);
    if fields != [] {
      var f, hash := fields[0], outside.sha256(call.body.value);
      assert fields == [f];
      HashFieldIsValid(f, hash);
      OneFieldBlock(f);
      SentBlockIsRead(cfg, f, outside);
      hide X.Serialize, X.ValidField, BodyHashForm, ReadExtensions, Ascii;
      assert FindField([f], BODY_HASH) == Some(f);
      assert BodyOf(r) == call.body.value;
    }
  }

  lemma SentBlockIsRead(cfg: Config, f: X.Field, outside: Outside)
    requires DecodesAscii(outside.utf8) && X.ValidField(f) && f.key == BODY_HASH
    requires Ascii(X.Render(f)) && 0 < |X.Render(f)| <= cfg.maxExtensionsBytes
    ensures ReadExtensions(cfg, Base64.Encode(Bytes(X.Render(f))), outside) == Ok([f])
  {
    OneFieldBlock(f);
    NothingForbidden(f);
    var block := X.Render(f);
    hide X.Parse, X.ValidField, X.Render, Base64.IsBase64, Base64.Encode, Base64.Decode, Forbidden, Bytes;
    Base64.DecodeEncode(Bytes(block));
    assert outside.utf8(Bytes(block)) == block;
  }

  lemma NothingForbidden(f: X.Field)
    requires f.key == BODY_HASH
    ensures Forbidden([f]) == None
  {
    assert f.key[..5] != "iana." by {
      assert f.key[0] != 'i';
    }
    assert [f][1..] == [];
  }

  /** What is left to check once the claim and its extensions are accepted and the string is written. */
  lemma PastTheGates(cfg: Config, r: Incoming, policy: Policy, now: int, outside: Outside, claim: H.Claim,
                     fields: seq<X.Field>, text: string)
    requires H.Parse(r.headers) == Ok(claim) && SchemeName(claim.scheme) == SCHEME
    requires ClaimedVersion(cfg, claim) in cfg.schemeVersions && claim.amount == policy.priceHuman
    requires DecodeExtensions(cfg, claim, r, policy, outside) == Ok(fields)
    requires N.Canonicalize(ServerPayload(cfg, r, policy, claim, ClaimedVersion(cfg, claim), fields)) == Ok(text)
    ensures RunChecks(cfg, r, policy, now, outside) ==
      var key := NormalizeIdentityKey(claim.payer);
      if OutOfWindow(cfg, claim.issuedAt, now) then Err(Failure(400, TimestampOutOfWindow))
      else if outside.blocked(key) then Err(Failure(403, IsBlocked))
      else Verdict(outside.verify(claim.payer, claim.signature, text), Checked(claim, key, now))
  {
    hide DecodeExtensions, H.Parse, SchemeName, ClaimedVersion, N.Canonicalize, ServerPayload;
  }

  /** The claim passes the scheme and price gates, and the server rebuilds the payload the client signed. */
  lemma SamePayload(cfg: Config, q: AcceptsCache.Requirement, call: Call, signature: string, r: Incoming,
                    policy: Policy, fields: seq<X.Field>)
    requires Advertised(cfg, policy, q) && r.verb == call.verb && r.path == call.path && r.rawBody == call.body
    requires fields != [] ==> X.Serialize(fields).Ok? && Ascii(X.Serialize(fields).value)
    ensures var claim := SentClaim(q, call, fields, signature);
      && SchemeName(claim.scheme) == SCHEME && ClaimedVersion(cfg, claim) in cfg.schemeVersions
      && claim.amount == policy.priceHuman && claim.payer == call.payer && claim.issuedAt == call.issuedAt
      && claim.signature == signature
      && ServerPayload(cfg, r, policy, claim, ClaimedVersion(cfg, claim), fields) == ClientPayload(q, call, fields)
  {
    assert '/' !in SCHEME;
    SchemeHeaderSplits(q.scheme, q.schemeVersion);
    hide SchemeName, SchemeVersion, X.Serialize, Ascii, Base64.Encode, Bytes;
  }

  /** Byte for byte: when the server is configured as advertised, the string it asks the node about is exactly
      the string the client signed; only the clock, the blocklist and the signature itself can still refuse. */
  lemma ClientServerAgree(cfg: Config, q: AcceptsCache.Requirement, call: Call, hashBody: bool, signature: string,
                          text: string, r: Incoming, policy: Policy, now: int, outside: Outside)
    requires DecodesAscii(outside.utf8) && (forall b :: IsHex64(outside.sha256(b)))
    requires cfg.maxExtensionsBytes >= BODY_HASH_BLOCK_BYTES && Advertised(cfg, policy, q)
    requires policy.bodyHash.Required? ==> hashBody
    requires N.Canonicalize(ClientPayload(q, call, ClientFields(call, hashBody, outside.sha256))) == Ok(text)
    requires Base64.IsBase64(signature)
    requires r.verb == call.verb && r.path == call.path && r.rawBody == call.body
    requires var fields := ClientFields(call, hashBody, outside.sha256);
      (fields != [] ==> X.Serialize(fields).Ok? && Ascii(X.Serialize(fields).value)) &&
      H.Parse(r.headers) == Ok(SentClaim(q, call, fields, signature))
    ensures RunChecks(cfg, r, policy, now, outside) ==
      var key := NormalizeIdentityKey(call.payer);
      if OutOfWindow(cfg, call.issuedAt, now) then Err(Failure(400, TimestampOutOfWindow))
      else if outside.blocked(key) then Err(Failure(403, IsBlocked))
      else Verdict(outside.verify(call.payer, signature, text), Checked(H.Parse(r.headers).value, key, now))
  {
    var fields := ClientFields(call, hashBody, outside.sha256);
    var claim := SentClaim(q, call, fields, signature);
    ExtensionsTravel(cfg, q, call, hashBody, signature, r, policy, outside);
    SamePayload(cfg, q, call, signature, r, policy, fields);
    hide *;
    PastTheGates(cfg, r, policy, now, outside, claim, fields, text);
  }

  /** The headers the client sends carry that claim, so the hypothesis above is met by any transport that
      delivers each header once, whatever it does to their order and letter case. */
  lemma SentHeadersParse(q: AcceptsCache.Requirement, call: Call, fields: seq<X.Field>, signature: string,
                         headers: seq<H.Header>)
    requires fields != [] ==> X.Serialize(fields).Ok? && Ascii(X.Serialize(fields).value)
    requires N.Canonicalize(ClientPayload(q, call, fields)).Ok? && Base64.IsBase64(signature)
    requires var c := SentClaim(q, call, fields, signature);
      && H.Carries(headers, H.SCHEME, c.scheme) && H.Carries(headers, H.PAYER, c.payer)
      && H.Carries(headers, H.AMOUNT, c.amount) && H.Carries(headers, H.REQUEST_ID, c.requestId)
      && H.Carries(headers, H.ISSUED_AT, Digits(c.issuedAt)) && H.Carries(headers, H.SIGNATURE, c.signature)
      && H.CarriesExtensions(headers, c.extensionsRaw)
    ensures H.Parse(headers) == Ok(SentClaim(q, call, fields, signature))
  {
    hide H.Parse, H.Carries, H.CarriesExtensions, X.Serialize, Base64.IsBase64, Amount.IsValidHumanAmount, Digits,
         Base64.Encode;
    H.ParseCarried(headers, SentClaim(q, call, fields, signature));
  }
}
