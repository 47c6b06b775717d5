/** The signed extension block: `key: value` lines in ascending key order. */
module Extensions {
  import opened Decimal
  import opened Basics
  import opened Text

  const MAX_EXTENSIONS_BYTES := 4096

  datatype Field = Field(key: string, value: string)
  datatype Error = InvalidKey | InvalidValue | DuplicateKey | InvalidBlock | Unsorted

  // ---------- one field ----------

  predicate ValidName(s: string) {
    && s != "" && (IsLower(s[0]) || IsUpper(s[0]))
    && forall c | c in s :: IsLower(c) || IsUpper(c) || IsDigit(c)
  }

  predicate ValidPrefix(s: string) {
    s == "scheme" || s == "iana" || (|s| > 2 && s[..2] == "x-" && DashedWords(s[2..]))
  }

  /** `<prefix>.<name>`, the prefix being `scheme`, `iana` or `x-<vendor>`. */
  predicate ValidKey(key: string) {
    var parts := Split(key, '.');
    |parts| == 2 && ValidPrefix(parts[0]) && ValidName(parts[1])
  }

  predicate ValidValue(value: string) {
    value != "" && '\r' !in value && '\n' !in value && value[0] != ' '
  }

  predicate ValidField(f: Field) {
    ValidKey(f.key) && ValidValue(f.value)
  }

  function FieldError(f: Field): Error
    requires !ValidField(f)
  {
    if !ValidKey(f.key) then InvalidKey else InvalidValue
  }

  /** A valid key holds only letters, digits, dots and dashes. */
  lemma KeyChars(key: string)
    requires ValidKey(key)
    ensures key != "" && ':' !in key && '\n' !in key && '\r' !in key && ' ' !in key
  {
    var parts := Split(key, '.');
    JoinSplit(key, '.');
    assert parts[1..] == [parts[1]];
    PrefixChars(parts[0]);
    hide Split, ValidPrefix;
    assert key == parts[0] + "." + parts[1];
  }

  lemma PrefixChars(prefix: string)
    requires ValidPrefix(prefix)
    ensures forall c | c in prefix :: IsLower(c) || IsDigit(c) || c == '-'
  {
    hide DashedWords;
    if |prefix| > 2 && prefix[..2] == "x-" {
      assert prefix[..2][0] == prefix[0] == 'x';
      DashedChars(prefix[2..]);
      assert prefix == "x-" + prefix[2..];
    }
  }

  lemma KeyOfParts(prefix: string, name: string)
    requires ValidPrefix(prefix) && '.' !in prefix && ValidName(name)
    ensures ValidKey(prefix + "." + name)
  {
    SplitPart(name, '.');
    SplitCons(prefix, name, '.');
  }

  function Render(f: Field): string {
    f.key + ": " + f.value
  }

  /** The first place where `: ` occurs. */
  function Separator(line: string): (r: int)
    ensures -1 <= r && (r >= 0 ==> r + 2 <= |line| && line[r] == ':' && line[r + 1] == ' ')
  {
    if |line| < 2 then -1
    else if line[0] == ':' && line[1] == ' ' then 0
    else
      var r := Separator(line[1..]);
      if r < 0 then -1 else r + 1
  }

  lemma {:induction false} SeparatorAfterKey(key: string, rest: string)
    requires ':' !in key
    ensures Separator(key + ": " + rest) == |key|
  {
    var line := key + ": " + rest;
    if key != "" {
      assert line[1..] == key[1..] + ": " + rest;
      SeparatorAfterKey(key[1..], rest);
    }
  }

  /** The field a line holds. */
  function ReadLine(line: string): Result<Field, Error> {
    var at := Separator(line);
    if at <= 0 then Err(InvalidBlock)
    else
      var f := Field(line[..at], line[at + 2..]);
      if ValidField(f) then Ok(f) else Err(FieldError(f))
  }

  lemma ReadRender(f: Field)
    requires ValidField(f)
    ensures ReadLine(Render(f)) == Ok(f) && '\n' !in Render(f) && '\r' !in Render(f)
  {
    KeyChars(f.key);
    SeparatorAfterKey(f.key, f.value);
    var line := Render(f);
    assert line[..|f.key|] == f.key && line[|f.key| + 2..] == f.value;
  }

  lemma RenderRead(line: string)
    requires ReadLine(line).Ok?
    ensures ValidField(ReadLine(line).value) && Render(ReadLine(line).value) == line
  {
    var at := Separator(line);
    assert line == line[..at] + ": " + line[at + 2..];
  }

  // ---------- serializing ----------

  /** Ascending keys, which also makes them distinct. */
  predicate Ascending(fields: seq<Field>) {
    forall i, j | 0 <= i < j < |fields| :: Less(fields[i].key, fields[j].key)
  }

  function Insert(f: Field, sorted: seq<Field>): seq<Field> {
    if sorted == [] || Less(f.key, sorted[0].key) then [f] + sorted
    else [sorted[0]] + Insert(f, sorted[1..])
  }

  /** Any sort by key gives this list when keys are distinct (see `SortIsUnique`). */
  function Sort(fields: seq<Field>): seq<Field> {
    if fields == [] then [] else Insert(fields[0], Sort(fields[1..]))
  }

  function Lines(fields: seq<Field>): (r: seq<string>)
    ensures |r| == |fields|
    ensures forall i | 0 <= i < |fields| :: r[i] == Render(fields[i])
  {
    if fields == [] then [] else [Render(fields[0])] + Lines(fields[1..])
  }

  function Block(fields: seq<Field>): string {
    Join(Lines(fields), '\n')
  }

  /** The validation pass: fields `i..` against the keys already seen. */
  function Check(fields: seq<Field>, i: nat, seen: set<string>): Result<(), Error>
    requires i <= |fields|
    decreases |fields| - i
  {
    if i == |fields| then Ok(())
    else if !ValidField(fields[i]) then Err(FieldError(fields[i]))
    else if fields[i].key in seen then Err(DuplicateKey)
    else Check(fields, i + 1, seen + {fields[i].key})
  }

  function Serialize(fields: seq<Field>): Result<string, Error> {
    match Check(fields, 0, {})
    case Err(e) => Err(e)
    case Ok(_) => Ok(Block(Sort(fields)))
  }

  /** The serializer with its loop. */
  method SerializeExtensionBlock(fields: seq<Field>) returns (r: Result<string, Error>)
    ensures r == Serialize(fields)
  {
    var seen: set<string> := {};
    for i := 0 to |fields|
      invariant Check(fields, 0, {}) == Check(fields, i, seen)
    {
      if !ValidField(fields[i]) {
        return Err(FieldError(fields[i]));
      }
      if fields[i].key in seen {
        return Err(DuplicateKey);
      }
      seen := seen + {fields[i].key};
    }
    r := Ok(Block(Sort(fields)));
  }

  predicate Wellformed(fields: seq<Field>) {
    && (forall f | f in fields :: ValidField(f))
    && forall i, j | 0 <= i < j < |fields| :: fields[i].key != fields[j].key
  }

  lemma {:induction false} CheckExact(fields: seq<Field>, i: nat, seen: set<string>)
    requires i <= |fields|
    ensures Check(fields, i, seen).Ok? <==>
      && (forall k | i <= k < |fields| :: ValidField(fields[k]) && fields[k].key !in seen)
      && (forall j, k | i <= j < k < |fields| :: fields[j].key != fields[k].key)
    decreases |fields| - i
  {
    if i < |fields| {
      CheckExact(fields, i + 1, seen + {fields[i].key});
    }
  }

  /** A list is serialized exactly when its fields are valid and its keys distinct. */
  lemma SerializesExactly(fields: seq<Field>)
    ensures Serialize(fields).Ok? <==> Wellformed(fields)
  {
    CheckExact(fields, 0, {});
    assert (forall f | f in fields :: ValidField(f)) <==> forall k | 0 <= k < |fields| :: ValidField(fields[k]);
  }

  // ---------- sorting ----------

  lemma {:induction false} InsertSorts(f: Field, sorted: seq<Field>)
    requires Ascending(sorted) && forall g | g in sorted :: g.key != f.key
    ensures Ascending(Insert(f, sorted))
    ensures multiset(Insert(f, sorted)) == multiset(sorted) + multiset{f}
  {
    hide Less, Ascending;
    if sorted == [] {
      FirstAscends(f, sorted);
    } else {
      assert sorted == [sorted[0]] + sorted[1..];
      TailAscends(sorted);
      if Less(f.key, sorted[0].key) {
        forall g | g in sorted ensures Less(f.key, g.key) {
          if g != sorted[0] {
            LessTransitive(f.key, sorted[0].key, g.key);
          }
        }
        FirstAscends(f, sorted);
      } else {
        var tail := Insert(f, sorted[1..]);
        InsertSorts(f, sorted[1..]);
        LessTotal(f.key, sorted[0].key);
        forall g | g in tail ensures Less(sorted[0].key, g.key) {
          assert g in multiset(tail);
        }
        FirstAscends(sorted[0], tail);
      }
    }
  }

  lemma FirstAscends(f: Field, rest: seq<Field>)
    requires Ascending(rest) && forall g | g in rest :: Less(f.key, g.key)
    ensures Ascending([f] + rest)
  {}

  lemma TailAscends(sorted: seq<Field>)
    requires Ascending(sorted) && sorted != []
    ensures Ascending(sorted[1..]) && forall g | g in sorted[1..] :: Less(sorted[0].key, g.key)
  {}

  lemma {:induction false} SortSorts(fields: seq<Field>)
    requires Wellformed(fields)
    ensures Ascending(Sort(fields)) && multiset(Sort(fields)) == multiset(fields)
    ensures forall f | f in Sort(fields) :: ValidField(f)
  {
    hide ValidField, Less, Insert;
    if fields != [] {
      var tail := fields[1..];
      assert fields == [fields[0]] + tail;
      SortSorts(tail);
      forall g | g in Sort(tail) ensures g.key != fields[0].key {
        assert g in multiset(tail);
      }
      InsertSorts(fields[0], Sort(tail));
    }
    assert multiset(Sort(fields)) == multiset(fields);
    forall f | f in Sort(fields) ensures ValidField(f) {
      assert f in multiset(Sort(fields));
    }
  }

  /** Two ascending lists with the same fields are the same list. */
  lemma {:induction false} SortIsUnique(a: seq<Field>, b: seq<Field>)
    requires Ascending(a) && Ascending(b) && multiset(a) == multiset(b)
    ensures a == b
  {
    assert |a| == |multiset(a)| == |multiset(b)| == |b|;
    if a != [] {
      assert a[0] in multiset(b);
      assert b[0] in multiset(a);
      if a[0] != b[0] {
        LessIrreflexive(a[0].key);
        LessTransitive(a[0].key, b[0].key, a[0].key);
        assert false;
      }
      assert a == [a[0]] + a[1..] && b == [b[0]] + b[1..];
      assert multiset(a[1..]) == multiset(a) - multiset{a[0]} == multiset(b[1..]);
      SortIsUnique(a[1..], b[1..]);
    }
  }

  // ---------- parsing ----------

  /** Lines `i..` after the fields already read. */
  function ParseLines(lines: seq<string>, i: nat, fields: seq<Field>): Result<seq<Field>, Error>
    requires i <= |lines|
    decreases |lines| - i
  {
    if i == |lines| then Ok(fields)
    else
      match ReadLine(lines[i])
      case Err(e) => Err(e)
      case Ok(f) =>
        if fields != [] && !Less(fields[|fields| - 1].key, f.key) then
          Err(if fields[|fields| - 1].key == f.key then DuplicateKey else Unsorted)
        else ParseLines(lines, i + 1, fields + [f])
  }

  function Parse(block: string): Result<seq<Field>, Error> {
    if block == "" then Ok([])
    else if '\r' in block || block[|block| - 1] == '\n' then Err(InvalidBlock)
    else ParseLines(Split(block, '\n'), 0, [])
  }

  /** The parser with its loop and its `previousKey`. */
  method ParseExtensionBlock(block: string) returns (r: Result<seq<Field>, Error>)
    ensures r == Parse(block)
  {
    hide Split, Separator, Less, ValidKey, ValidValue;
    if block == "" {
      return Ok([]);
    }
    if '\r' in block || block[|block| - 1] == '\n' {
      return Err(InvalidBlock);
    }
    var fields: seq<Field> := [];
    var previousKey: Option<string> := None;
    var lines := Split(block, '\n');
    for i := 0 to |lines|
      invariant ParseLines(lines, 0, []) == ParseLines(lines, i, fields)
      invariant previousKey == if fields == [] then None else Some(fields[|fields| - 1].key)
    {
      var separator := Separator(lines[i]);
      if separator <= 0 {
        return Err(InvalidBlock);
      }
      var field := Field(lines[i][..separator], lines[i][separator + 2..]);
      if !ValidField(field) {
        return Err(FieldError(field));
      }
      if previousKey.Some? && !Less(previousKey.value, field.key) {
        return Err(if previousKey.value == field.key then DuplicateKey else Unsorted);
      }
      previousKey := Some(field.key);
      fields := fields + [field];
    }
    r := Ok(fields);
  }

  lemma AscendingStep(fields: seq<Field>, f: Field)
    requires Ascending(fields) && (fields != [] ==> Less(fields[|fields| - 1].key, f.key))
    ensures Ascending(fields + [f])
  {
    forall i | 0 <= i < |fields| ensures Less(fields[i].key, f.key) {
      if i < |fields| - 1 {
        LessTransitive(fields[i].key, fields[|fields| - 1].key, f.key);
      }
    }
  }

  /** Whatever is accepted is ascending and valid, and renders back to the lines read. */
  lemma {:induction false} ParsedLines(lines: seq<string>, i: nat, fields: seq<Field>)
    requires i <= |lines| && |fields| == i && Ascending(fields)
    requires forall k | 0 <= k < i :: ValidField(fields[k]) && Render(fields[k]) == lines[k]
    requires ParseLines(lines, i, fields).Ok?
    ensures var r := ParseLines(lines, i, fields).value;
      && Ascending(r) && |r| == |lines|
      && forall k | 0 <= k < |r| :: ValidField(r[k]) && Render(r[k]) == lines[k]
    decreases |lines| - i
  {
    if i < |lines| {
      RenderRead(lines[i]);
      var f := ReadLine(lines[i]).value;
      AscendingStep(fields, f);
      ParsedLines(lines, i + 1, fields + [f]);
    }
  }

  lemma {:induction false} ParsesLines(all: seq<Field>, i: nat)
    requires i <= |all| && Ascending(all) && forall f | f in all :: ValidField(f)
    ensures ParseLines(Lines(all), i, all[..i]) == Ok(all)
    decreases |all| - i
  {
    if i < |all| {
      ReadRender(all[i]);
      assert all[..i] + [all[i]] == all[..i + 1];
      ParsesLines(all, i + 1);
    } else {
      assert all[..i] == all;
    }
  }

  // ---------- main results ----------

  /** A block holds exactly the lines of its fields. */
  lemma BlockLines(fields: seq<Field>)
    requires fields != [] && forall f | f in fields :: ValidField(f)
    ensures Split(Block(fields), '\n') == Lines(fields)
    ensures forall l | l in Lines(fields) :: '\n' !in l && '\r' !in l
    ensures Block(fields) != "" && '\r' !in Block(fields) && Block(fields)[|Block(fields)| - 1] != '\n'
  {
    forall l | l in Lines(fields) ensures '\n' !in l && '\r' !in l && l != "" {
      var i :| 0 <= i < |fields| && Lines(fields)[i] == l;
      assert fields[i] in fields;
      ReadRender(fields[i]);
    }
    SplitJoin(Lines(fields), '\n');
    JoinChars(Lines(fields), '\n');
    JoinEnds(Lines(fields), '\n');
  }

  lemma {:induction false} JoinEnds(parts: seq<string>, c: char)
    requires parts != [] && forall p | p in parts :: p != "" && c !in p
    ensures var j := Join(parts, c); j != "" && j[|j| - 1] != c
  {
    assert parts[0] in parts;
    if |parts| > 1 {
      assert forall p | p in parts[1..] :: p in parts;
      JoinEnds(parts[1..], c);
    }
  }

  /** Parsing an ascending list's block returns that list. */
  lemma ParseBlock(fields: seq<Field>)
    requires Ascending(fields) && forall f | f in fields :: ValidField(f)
    ensures Parse(Block(fields)) == Ok(fields)
  {
    if fields != [] {
      BlockLines(fields);
      ParsesLines(fields, 0);
      assert fields[..0] == [];
    }
  }

  /** Parsing a serialized list gives that list sorted by key. */
  lemma ParseSerialize(fields: seq<Field>)
    requires Serialize(fields).Ok?
    ensures Parse(Serialize(fields).value) == Ok(Sort(fields))
    ensures Ascending(Sort(fields)) && multiset(Sort(fields)) == multiset(fields)
  {
    SerializesExactly(fields);
    SortSorts(fields);
    ParseBlock(Sort(fields));
  }

  /** What an accepted block holds: ascending valid fields, which render to that very block. */
  lemma ParsedBlock(block: string)
    requires Parse(block).Ok?
    ensures var fields := Parse(block).value;
      Ascending(fields) && Wellformed(fields) && Block(fields) == block
  {
    var fields := Parse(block).value;
    if block != "" {
      var lines := Split(block, '\n');
      ParsedLines(lines, 0, []);
      assert Lines(fields) == lines;
      JoinSplit(block, '\n');
    }
    forall i, j | 0 <= i < j < |fields| ensures fields[i].key != fields[j].key {
      LessIrreflexive(fields[i].key);
    }
  }

  /** Serializing a parsed block gives back the same bytes. */
  lemma SerializeParse(block: string)
    requires Parse(block).Ok?
    ensures Serialize(Parse(block).value) == Ok(block)
  {
    var fields := Parse(block).value;
    ParsedBlock(block);
    SerializesExactly(fields);
    SortSorts(fields);
    SortIsUnique(fields, Sort(fields));
  }

  /** Serialization ignores the order of its input and nothing else: two lists give the same block exactly when
      they hold the same fields. */
  lemma SameBlockIffSameFields(fields: seq<Field>, other: seq<Field>)
    requires Serialize(fields).Ok?
    ensures Serialize(other) == Serialize(fields) <==> multiset(other) == multiset(fields)
  {
    SerializesExactly(fields);
    SerializesExactly(other);
    SortSorts(fields);
    if Serialize(other) == Serialize(fields) {
      ParseSerialize(fields);
      ParseSerialize(other);
    }
    if multiset(other) == multiset(fields) {
      SameFieldsWellformed(fields, other);
      SortSorts(other);
      SortIsUnique(Sort(fields), Sort(other));
    }
  }

  lemma SameFieldsWellformed(fields: seq<Field>, other: seq<Field>)
    requires Wellformed(fields) && multiset(other) == multiset(fields)
    ensures Wellformed(other)
  {
    forall f | f in other ensures ValidField(f) {
      assert f in multiset(fields);
    }
    forall i, j | 0 <= i < j < |other| ensures other[i].key != other[j].key {
      if other[i].key == other[j].key {
        assert other[i] in multiset(fields) && other[j] in multiset(fields);
        var m, n :| 0 <= m < |fields| && fields[m] == other[i] && 0 <= n < |fields| && fields[n] == other[j];
        assert m == n;
        Twice(other, i, j);
        Once(fields, m);
        assert false;
      }
    }
  }

  lemma Twice(s: seq<Field>, i: nat, j: nat)
    requires i < j < |s| && s[i] == s[j]
    ensures multiset(s)[s[i]] >= 2
  {
    assert s == s[..j] + [s[j]] + s[j + 1..];
    assert s[..j][i] == s[i];
    assert s[i] in multiset(s[..j]);
  }

  lemma Once(s: seq<Field>, i: nat)
    requires i < |s| && forall j, k | 0 <= j < k < |s| :: s[j].key != s[k].key
    ensures multiset(s)[s[i]] == 1
  {
    assert s == s[..i] + [s[i]] + s[i + 1..];
    assert s[i] !in s[..i] && s[i] !in s[i + 1..];
    assert s[i] !in multiset(s[..i]) && s[i] !in multiset(s[i + 1..]);
  }
}
