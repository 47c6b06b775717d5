/** What the header parser and the extension parser answer, error by error. */
module Rejections {
  import opened Basics
  import opened Decimal
  import opened Text
  import opened Names
  import opened Grammar
  import X = Extensions
  import H = Headers
  import Canonical
  import Base64
  import Amount

  // ---------- which value a header name has ----------

  /** The same name but for letter case. */
  predicate SameName(a: string, b: string) {
    |a| == |b| && forall i | 0 <= i < |a| :: SameLetter(a[i], b[i])
  }

  lemma SameNameMeans(a: string, b: string)
    ensures SameName(a, b) <==> Lower(a) == Lower(b)
  {
    hide SameLetter;
    forall i | 0 <= i < |a| && i < |b| ensures Lower(a)[i] == Lower(b)[i] <==> SameLetter(a[i], b[i]) {
      LowerAgrees(a[i], b[i]);
    }
    hide Lower;
  }

  /** Entry `i` has a value and this name, and no later entry has. */
  ghost predicate LastOf(headers: seq<H.Header>, name: string, i: int) {
    && 0 <= i < |headers| && headers[i].value != H.Undefined && SameName(headers[i].name, name)
    && forall j | i < j < |headers| :: headers[j].value == H.Undefined || !SameName(headers[j].name, name)
  }

  /** The name is read as this text: one value, or a list of one. */
  ghost predicate Reads(headers: seq<H.Header>, name: string, text: string) {
    exists i :: LastOf(headers, name, i) && headers[i].value in {H.One(text), H.Many([text])}
  }

  ghost predicate Lacks(headers: seq<H.Header>, name: string) {
    forall i | 0 <= i < |headers| :: headers[i].value == H.Undefined || !SameName(headers[i].name, name)
  }

  /** The last entry of a list is the last of its name, or changes nothing. */
  lemma LastOfOneMore(headers: seq<H.Header>, name: string, i: int)
    requires headers != []
    ensures var n := |headers| - 1;
      LastOf(headers, name, i) <==>
        if headers[n].value != H.Undefined && SameName(headers[n].name, name) then i == n
        else LastOf(headers[..n], name, i)
  {
    hide SameName;
  }

  lemma {:induction false} LookupMeans(headers: seq<H.Header>, name: string)
    ensures Lacks(headers, name) <==> H.Lookup(headers, name).None?
    ensures forall i | LastOf(headers, name, i) :: H.Lookup(headers, name) == Some(headers[i].value)
    ensures H.Lookup(headers, name).Some? ==> exists i :: LastOf(headers, name, i)
  {
    hide SameName, Lower;
    if headers != [] {
      var n := |headers| - 1;
      LookupMeans(headers[..n], name);
      SameNameMeans(headers[n].name, name);
      forall i ensures LastOf(headers, name, i) <==>
        if headers[n].value != H.Undefined && SameName(headers[n].name, name) then i == n
        else LastOf(headers[..n], name, i)
      {
        LastOfOneMore(headers, name, i);
      }
      hide LastOf;
      assert LastOf(headers, name, n) || Lacks(headers, name) == Lacks(headers[..n], name);
    }
  }

  lemma SingleMeans(headers: seq<H.Header>, name: string)
    ensures forall text :: H.Single(headers, name) == Ok(text) <==> Reads(headers, name, text)
    ensures H.Single(headers, name) == Err(H.Missing(name)) <==> Lacks(headers, name)
    ensures H.Single(headers, name) == Err(H.Repeated(name)) <==>
      !Lacks(headers, name) && forall text :: !Reads(headers, name, text)
  {
    LookupMeans(headers, name);
    hide H.Lookup, Lacks, LastOf;
    if H.Lookup(headers, name).Some? {
      var i :| LastOf(headers, name, i);
      LastIsDefined(headers, name, i);
      if headers[i].value.Many? && |headers[i].value.texts| == 1 {
        assert headers[i].value.texts == [headers[i].value.texts[0]];
      }
    }
  }

  lemma LastIsDefined(headers: seq<H.Header>, name: string, i: int)
    requires LastOf(headers, name, i)
    ensures 0 <= i < |headers| && headers[i].value != H.Undefined
    ensures forall j | LastOf(headers, name, j) :: j == i
  {}

  // ---------- the answers of the header parser ----------

  const NAMES: seq<string> := [
    "X-V402-Scheme", "X-V402-Payer", "X-V402-Amount", "X-V402-Request-Id", "X-V402-Issued-At", "X-V402-Signature"]

  lemma NamesRequired(k: nat)
    requires k < 6
    ensures |H.REQUIRED| == 6 && H.REQUIRED[k] == NAMES[k]
  {}

  /** The first required header, in the order of the list, that is absent or has several values is reported. */
  lemma FirstProblemAnswers(headers: seq<H.Header>, k: nat)
    requires k < 6 && forall j | 0 <= j < k :: exists text :: Reads(headers, NAMES[j], text)
    ensures Lacks(headers, NAMES[k]) ==> H.Parse(headers) == Err(H.Missing(NAMES[k]))
    ensures !Lacks(headers, NAMES[k]) && (forall text :: !Reads(headers, NAMES[k], text)) ==>
      H.Parse(headers) == Err(H.Repeated(NAMES[k]))
  {
    hide Reads, Lacks, H.Single;
    SingleMeans(headers, NAMES[k]);
    forall j | 0 <= j < k ensures H.Single(headers, NAMES[j]).Ok? {
      SingleMeans(headers, NAMES[j]);
    }
    if H.Single(headers, NAMES[k]).Err? {
      FirstFailing(headers, 0, k);
    }
    hide NAMES;
  }

  lemma {:induction false} FirstFailing(headers: seq<H.Header>, i: nat, k: nat)
    requires i <= k < 6 && H.Single(headers, NAMES[k]).Err?
    requires forall j | i <= j < k :: H.Single(headers, NAMES[j]).Ok?
    ensures |H.REQUIRED| == 6 && H.FirstMissing(headers, i) == Some(H.Single(headers, NAMES[k]).error)
    decreases k - i
  {
    hide H.Single;
    NamesRequired(i);
    NamesRequired(k);
    if i < k {
      FirstFailing(headers, i + 1, k);
    }
  }

  /** Once all six are read, each is checked in turn against its grammar: payer, amount, requestId, time, signature,
      scheme; then the optional extensions, which must not repeat. What passes is the claim of exactly these texts. */
  lemma FieldsAnswer(headers: seq<H.Header>, scheme: string, payer: string, amount: string, requestId: string,
                     issuedAt: string, signature: string)
    requires Reads(headers, "X-V402-Scheme", scheme) && Reads(headers, "X-V402-Payer", payer)
    requires Reads(headers, "X-V402-Amount", amount) && Reads(headers, "X-V402-Request-Id", requestId)
    requires Reads(headers, "X-V402-Issued-At", issuedAt) && Reads(headers, "X-V402-Signature", signature)
    ensures var r := H.Parse(headers);
      if !Matches(IDENTITY, payer) then r == Err(H.Malformed("X-V402-Payer"))
      else if !Matches(AMOUNT, amount) then r == Err(H.Malformed("X-V402-Amount"))
      else if !Matches(ULID, requestId) then r == Err(H.Malformed("X-V402-Request-Id"))
      else if !Matches(NUMBER, issuedAt) || !H.IssuedAt(issuedAt) then r == Err(H.Malformed("X-V402-Issued-At"))
      else if !Matches(BASE64, signature) then r == Err(H.Malformed("X-V402-Signature"))
      else if scheme == "" then r == Err(H.Malformed("X-V402-Scheme"))
      else
        && AllDigits(issuedAt)
        && (Lacks(headers, "X-V402-Extensions") ==>
              r == Ok(H.Claim(scheme, payer, amount, requestId, ValueOf(issuedAt), signature, None)))
        && (forall raw | Reads(headers, "X-V402-Extensions", raw) ::
              r == Ok(H.Claim(scheme, payer, amount, requestId, ValueOf(issuedAt), signature, Some(raw))))
        && (!Lacks(headers, "X-V402-Extensions") && (forall raw :: !Reads(headers, "X-V402-Extensions", raw)) ==>
              r == Err(H.Repeated("X-V402-Extensions")))
  {
    IdentityGrammar(payer);
    AmountGrammar(amount);
    UlidGrammar(requestId);
    IssuedAtGrammar(issuedAt);
    Base64Grammar(signature);
    SingleMeans(headers, H.SCHEME);
    SingleMeans(headers, H.PAYER);
    SingleMeans(headers, H.AMOUNT);
    SingleMeans(headers, H.REQUEST_ID);
    SingleMeans(headers, H.ISSUED_AT);
    SingleMeans(headers, H.SIGNATURE);
    SingleMeans(headers, H.EXTENSIONS);
    hide Matches, Reads, Lacks, Canonical.IdentityName, Amount.IsValidHumanAmount, Canonical.Ulid, Base64.IsBase64;
    ExtensionMeans(headers);
    hide H.Single, H.Lookup, H.FirstMissing, H.IssuedAt, H.Extension;
    H.NothingMissing(headers);
    H.SixNames();
    assert H.ReadAll(headers)[H.ISSUED_AT] == issuedAt;
  }

  lemma ExtensionMeans(headers: seq<H.Header>)
    ensures H.Extension(headers) ==
      match H.Single(headers, H.EXTENSIONS)
      case Ok(text) => Ok(Some(text))
      case Err(Missing(_)) => Ok(None)
      case Err(e) => Err(e)
  {
    LookupMeans(headers, H.EXTENSIONS);
    hide Lower, H.Lookup;
    if H.Lookup(headers, H.EXTENSIONS).Some? {
      var i :| LastOf(headers, H.EXTENSIONS, i);
    }
  }

  // ---------- the answers of the extension parser ----------

  predicate ColonAt(line: string, i: int) {
    0 <= i < |line| - 1 && line[i] == ':' && line[i + 1] == ' '
  }

  /** The line holds a key and a value: they meet at its first colon followed by a space. */
  predicate Parts(line: string, key: string, value: string) {
    line == key + ": " + value && forall i | 0 <= i < |key| :: !ColonAt(line, i)
  }

  lemma ColonShifts(line: string)
    requires line != ""
    ensures forall i | i >= 0 :: ColonAt(line[1..], i) <==> ColonAt(line, i + 1)
  {}

  lemma {:induction false} SeparatorIsFirst(line: string, key: string, value: string)
    requires Parts(line, key, value)
    ensures X.Separator(line) == |key|
  {
    if key != "" {
      ColonShifts(line);
      assert line[0] == key[0] && line[1..] == key[1..] + ": " + value;
      assert !ColonAt(line, 0) && forall i | 0 <= i < |key| - 1 :: ColonAt(line[1..], i) <==> ColonAt(line, i + 1);
      SeparatorIsFirst(line[1..], key[1..], value);
    }
  }

  lemma {:induction false} NoSeparator(line: string)
    requires forall i :: !ColonAt(line, i)
    ensures X.Separator(line) == -1
  {
    if |line| >= 2 {
      ColonShifts(line);
      assert !ColonAt(line, 0);
      assert forall i :: ColonAt(line[1..], i) ==> ColonAt(line, i + 1);
      NoSeparator(line[1..]);
    }
  }

  /** Why a line is not accepted after the fields before it. */
  function Problem(before: seq<X.Field>, key: string, value: string): Option<X.Error> {
    if !X.ValidKey(key) then Some(X.InvalidKey)
    else if !X.ValidValue(value) then Some(X.InvalidValue)
    else if before == [] || Less(before[|before| - 1].key, key) then None
    else if before[|before| - 1].key == key then Some(X.DuplicateKey)
    else Some(X.Unsorted)
  }

  lemma {:induction false} ReachesLine(before: seq<X.Field>, line: string, rest: seq<string>, i: nat)
    requires i <= |before| && X.Ascending(before) && forall f | f in before :: X.ValidField(f)
    ensures var lines := X.Lines(before) + [line] + rest;
      X.ParseLines(lines, i, before[..i]) == X.ParseLines(lines, |before|, before)
    decreases |before| - i
  {
    hide X.ValidField, X.Render, X.ReadLine;
    if i < |before| {
      X.ReadRender(before[i]);
      assert before[..i] + [before[i]] == before[..i + 1];
      ReachesLine(before, line, rest, i + 1);
    } else {
      assert before[..i] == before;
    }
  }

  /** The text of a block: lines without line breaks, no carriage return, and no line break at the end. */
  predicate BlockOf(block: string, lines: seq<string>) {
    && lines != [] && block == Join(lines, '\n') && (forall l | l in lines :: '\n' !in l)
    && block != "" && '\r' !in block && block[|block| - 1] != '\n'
  }

  lemma ReadParts(line: string, key: string, value: string)
    requires Parts(line, key, value)
    ensures X.ReadLine(line) ==
      if key == "" then Err(X.InvalidBlock)
      else if !X.ValidKey(key) then Err(X.InvalidKey)
      else if !X.ValidValue(value) then Err(X.InvalidValue)
      else Ok(X.Field(key, value))
  {
    SeparatorIsFirst(line, key, value);
    assert line[..|key|] == key && line[|key| + 2..] == value;
    hide X.ValidKey, X.ValidValue;
  }

  /** The first line with a problem is reported with that problem, whatever follows it; a line without a key and a
      value is a problem, too. */
  lemma BlockAnswers(block: string, before: seq<X.Field>, line: string, rest: seq<string>)
    requires X.Ascending(before) && forall f | f in before :: X.ValidField(f)
    requires BlockOf(block, X.Lines(before) + [line] + rest)
    ensures forall key, value | Parts(line, key, value) ::
      if key == "" then X.Parse(block) == Err(X.InvalidBlock)
      else Problem(before, key, value).Some? ==> X.Parse(block) == Err(Problem(before, key, value).value)
    ensures (forall i :: !ColonAt(line, i)) ==> X.Parse(block) == Err(X.InvalidBlock)
  {
    var lines := X.Lines(before) + [line] + rest;
    SplitJoin(lines, '\n');
    ReachesLine(before, line, rest, 0);
    assert before[..0] == [] && lines[|before|] == line;
    hide Join, Split, X.ValidKey, X.ValidValue, X.ReadLine, Parts, ColonAt, Less;
    assert X.Parse(block) == X.ParseLines(lines, |before|, before);
    hide X.Parse, X.Lines;
    forall key, value | Parts(line, key, value)
      ensures if key == "" then X.Parse(block) == Err(X.InvalidBlock)
              else Problem(before, key, value).Some? ==> X.Parse(block) == Err(Problem(before, key, value).value)
    {
      ReadParts(line, key, value);
    }
    if forall i :: !ColonAt(line, i) {
      UnreadLine(line);
    }
  }

  lemma UnreadLine(line: string)
    requires forall i :: !ColonAt(line, i)
    ensures X.ReadLine(line) == Err(X.InvalidBlock)
  {
    NoSeparator(line);
  }

  /** A block with a carriage return or a line break at its end is none, and the empty block has no fields. */
  lemma OtherBlocksAnswer(block: string)
    ensures X.Parse("") == Ok([])
    ensures block != "" && ('\r' in block || block[|block| - 1] == '\n') ==> X.Parse(block) == Err(X.InvalidBlock)
  {}

  /** The serializer reports the first field that is invalid, or repeats a key. */
  lemma SerializerAnswers(fields: seq<X.Field>, k: nat)
    requires k < |fields| && X.Wellformed(fields[..k])
    ensures !X.ValidKey(fields[k].key) ==> X.Serialize(fields) == Err(X.InvalidKey)
    ensures X.ValidKey(fields[k].key) && !X.ValidValue(fields[k].value) ==> X.Serialize(fields) == Err(X.InvalidValue)
    ensures X.ValidField(fields[k]) && (exists j :: 0 <= j < k && fields[j].key == fields[k].key) ==>
      X.Serialize(fields) == Err(X.DuplicateKey)
  {
    hide X.ValidKey, X.ValidValue;
    assert forall j | 0 <= j < k :: fields[..k][j] == fields[j] && fields[j] in fields[..k];
    CheckReaches(fields, 0, k, {});
  }

  lemma {:induction false} CheckReaches(fields: seq<X.Field>, i: nat, k: nat, seen: set<string>)
    requires i <= k < |fields| && (forall j | i <= j < k :: X.ValidField(fields[j]) && fields[j].key !in seen)
    requires forall j, l | i <= j < l < k :: fields[j].key != fields[l].key
    ensures X.Check(fields, i, seen) ==
      X.Check(fields, k, seen + KeysOf(fields[i..k]))
    decreases k - i
  {
    hide X.ValidField;
    if i < k {
      var more := seen + {fields[i].key};
      CheckReaches(fields, i + 1, k, more);
      assert fields[i..k] == [fields[i]] + fields[i + 1..k];
      assert more + KeysOf(fields[i + 1..k]) == seen + KeysOf(fields[i..k]);
    } else {
      assert seen + KeysOf(fields[i..k]) == seen;
    }
  }

  function KeysOf(fields: seq<X.Field>): set<string> {
    set f | f in fields :: f.key
  }
}
