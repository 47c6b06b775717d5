/** The identity-signature envelope: version, signing height, and one 65-byte compact signature per key. */
module Envelope {
  import opened Basics
  import opened Base64

  const MAX_HEIGHT := 0xffff_ffff
  const MAX_WRAPPED := 0xfc
  const MAX_PARSED := 0xff

  datatype Envelope = Envelope(blockHeight: int, signatures: seq<seq<Byte>>)

  // ---------- little-endian numbers and compact sizes ----------

  function Le16(n: int): (b: seq<Byte>)
    requires 0 <= n <= 0xffff
    ensures |b| == 2
  {
    [n % 256, n / 256]
  }

  function ReadLe16(b: seq<Byte>): (n: int)
    requires |b| == 2
    ensures 0 <= n <= 0xffff
  {
    var lo: int, hi: int := b[0], b[1];
    lo + 256 * hi
  }

  function Le32(n: int): (b: seq<Byte>)
    requires 0 <= n <= MAX_HEIGHT
    ensures |b| == 4
  {
    Le16(n % 0x1_0000) + Le16(n / 0x1_0000)
  }

  function ReadLe32(b: seq<Byte>): (n: int)
    requires |b| == 4
    ensures 0 <= n <= MAX_HEIGHT
  {
    ReadLe16(b[..2]) + 0x1_0000 * ReadLe16(b[2..])
  }

  lemma Le16RoundTrip(n: int, b: seq<Byte>)
    requires 0 <= n <= 0xffff && |b| == 2
    ensures ReadLe16(Le16(n)) == n && Le16(ReadLe16(b)) == b
  {}

  lemma Le32RoundTrip(n: int, b: seq<Byte>)
    requires 0 <= n <= MAX_HEIGHT && |b| == 4
    ensures ReadLe32(Le32(n)) == n && Le32(ReadLe32(b)) == b
  {
    hide Le16, ReadLe16;
    Le16RoundTrip(n % 0x1_0000, b[..2]);
    Le16RoundTrip(n / 0x1_0000, b[2..]);
    assert Le32(n)[..2] == Le16(n % 0x1_0000) && Le32(n)[2..] == Le16(n / 0x1_0000);
    assert b == b[..2] + b[2..];
  }

  /** One byte below 253, or the marker 253 and two bytes: the wide form may hold a small number too. */
  predicate HasForm(n: int, wide: bool) {
    0 <= n && (if wide then n <= 0xffff else n < 253)
  }

  function CompactSize(n: int, wide: bool): (b: seq<Byte>)
    requires HasForm(n, wide)
    ensures |b| == if wide then 3 else 1
  {
    if wide then [253] + Le16(n) else [n]
  }

  datatype Size = Size(value: int, next: nat)

  function ReadCompactSize(raw: seq<Byte>, offset: nat): (r: Option<Size>)
    ensures r.Some? ==> offset < r.value.next <= |raw|
  {
    if offset >= |raw| then None
    else if raw[offset] < 253 then Some(Size(raw[offset], offset + 1))
    else if raw[offset] == 253 then
      if offset + 3 > |raw| then None else Some(Size(ReadLe16(raw[offset + 1..offset + 3]), offset + 3))
    else None
  }

  lemma ReadsCompactSize(raw: seq<Byte>, offset: nat, n: int, wide: bool, rest: seq<Byte>)
    requires HasForm(n, wide) && offset <= |raw| && raw[offset..] == CompactSize(n, wide) + rest
    ensures var next := offset + |CompactSize(n, wide)|;
      ReadCompactSize(raw, offset) == Some(Size(n, next)) && raw[next..] == rest
  {
    var b := CompactSize(n, wide);
    var next := offset + |b|;
    assert raw[offset] == b[0];
    assert raw[next..] == raw[offset..][|b|..] == rest;
    if wide {
      assert raw[offset + 1..next] == raw[offset..][1..3] == (b + rest)[1..3] == Le16(n);
      Le16RoundTrip(n, [0, 0]);
    }
  }

  lemma CompactSizeRead(raw: seq<Byte>, offset: nat) returns (wide: bool)
    requires ReadCompactSize(raw, offset).Some?
    ensures var size := ReadCompactSize(raw, offset).value;
      HasForm(size.value, wide) && raw[offset..size.next] == CompactSize(size.value, wide)
  {
    wide := raw[offset] == 253;
    var size := ReadCompactSize(raw, offset).value;
    if wide {
      Le16RoundTrip(0, raw[offset + 1..offset + 3]);
      assert raw[offset..size.next] == [raw[offset]] + raw[offset + 1..offset + 3];
    } else {
      assert raw[offset..size.next] == [raw[offset]];
    }
  }

  // ---------- the bytes of an envelope ----------

  /** One entry per signature, each length in its own form. */
  function Entries(signatures: seq<seq<Byte>>, wides: seq<bool>): seq<Byte>
    requires |signatures| == |wides|
  {
    if signatures == [] then []
    else CompactSize(65, wides[0]) + signatures[0] + Entries(signatures[1..], wides[1..])
  }

  predicate WellSized(e: Envelope, wide: bool, wides: seq<bool>) {
    && 0 <= e.blockHeight <= MAX_HEIGHT
    && 1 <= |e.signatures| <= MAX_PARSED && |wides| == |e.signatures|
    && HasForm(|e.signatures|, wide)
    && forall i | 0 <= i < |e.signatures| :: |e.signatures[i]| == 65
  }

  /** Version 1, height, count and entries, the count and every length in a form of choice. */
  function Render(e: Envelope, wide: bool, wides: seq<bool>): seq<Byte>
    requires WellSized(e, wide, wides)
  {
    [1] + Le32(e.blockHeight) + CompactSize(|e.signatures|, wide) + Entries(e.signatures, wides)
  }

  function Narrow(n: nat): (wides: seq<bool>)
    ensures |wides| == n && forall i | 0 <= i < n :: !wides[i]
  {
    seq(n, _ => false)
  }

  predicate Wrappable(compacts: seq<seq<Byte>>, height: int) {
    && 1 <= |compacts| <= MAX_WRAPPED && 1 <= height <= MAX_HEIGHT
    && forall i | 0 <= i < |compacts| :: |compacts[i]| == 65
  }

  /** None stands for a thrown error. */
  function Wrap(compacts: seq<seq<Byte>>, height: int): Option<seq<Byte>> {
    if Wrappable(compacts, height) then Some(Render(Envelope(height, compacts), false, Narrow(|compacts|))) else None
  }

  lemma {:induction false} EntriesSnoc(signatures: seq<seq<Byte>>, wides: seq<bool>, s: seq<Byte>, w: bool)
    requires |signatures| == |wides|
    ensures Entries(signatures + [s], wides + [w]) == Entries(signatures, wides) + CompactSize(65, w) + s
  {
    if signatures == [] {
      assert (signatures + [s])[1..] == [] && (wides + [w])[1..] == [];
    } else {
      assert (signatures + [s])[1..] == signatures[1..] + [s] && (wides + [w])[1..] == wides[1..] + [w];
      EntriesSnoc(signatures[1..], wides[1..], s, w);
    }
  }

  lemma {:induction false} EntriesLength(signatures: seq<seq<Byte>>, wides: seq<bool>)
    requires |signatures| == |wides| && forall i | 0 <= i < |signatures| :: |signatures[i]| == 65
    ensures |Entries(signatures, wides)| >= 66 * |signatures|
    ensures |Entries(signatures, wides)| == 66 * |signatures| <==> wides == Narrow(|signatures|)
  {
    if signatures != [] {
      EntriesLength(signatures[1..], wides[1..]);
      var n := |signatures|;
      if wides == Narrow(n) {
        assert wides[1..] == Narrow(n - 1);
      }
      if !wides[0] && wides[1..] == Narrow(n - 1) {
        assert wides == [wides[0]] + wides[1..] == Narrow(n);
      }
    }
  }

  /** One vector entry: the length byte and the signature. */
  method WriteEntry(out: array<Byte>, offset: nat, compact: seq<Byte>)
    requires |compact| == 65 && offset + 66 <= out.Length
    modifies out
    ensures out[..offset + 66] == old(out[..offset]) + [0x41] + compact
  {
    out[offset] := 0x41;
    forall k | 0 <= k < 65 {
      out[offset + 1 + k] := compact[k];
    }
  }

  /** Version, height and count. */
  method WriteHead(out: array<Byte>, height: int, count: int)
    requires out.Length >= 6 && 1 <= height <= MAX_HEIGHT && 1 <= count <= MAX_WRAPPED
    modifies out
    ensures out[..6] == [1] + Le32(height) + CompactSize(count, false)
  {
    out[0] := 1;
    var le := Le32(height);
    out[1], out[2], out[3], out[4] := le[0], le[1], le[2], le[3];
    out[5] := count;
    assert le == [le[0], le[1], le[2], le[3]];
  }

  /** The writer: a zeroed buffer filled with a moving offset. */
  method WrapIdentitySignatures(compacts: seq<seq<Byte>>, height: int) returns (r: Option<seq<Byte>>)
    ensures r == Wrap(compacts, height)
  {
    if !Wrappable(compacts, height) {
      return None;
    }
    hide Le32, Entries, Wrap;
    var n := |compacts|;
    var out := new Byte[1 + 4 + 1 + n * 66](_ => 0);
    ghost var head := [1] + Le32(height) + CompactSize(n, false);
    WriteHead(out, height, n);
    NoEntries();
    var offset: nat := 6;
    for i := 0 to n
      invariant offset == 6 + 66 * i
      invariant out[..offset] == head + Entries(compacts[..i], Narrow(i))
    {
      WriteEntry(out, offset, compacts[i]);
      NextEntry(head, compacts, i);
      offset := offset + 66;
    }
    WrapText(compacts, height);
    assert compacts[..n] == compacts && out[..offset] == out[..];
    r := Some(out[..]);
  }

  lemma NextEntry(head: seq<Byte>, compacts: seq<seq<Byte>>, i: nat)
    requires i < |compacts|
    ensures head + Entries(compacts[..i], Narrow(i)) + [0x41] + compacts[i] ==
      head + Entries(compacts[..i + 1], Narrow(i + 1))
  {
    assert compacts[..i + 1] == compacts[..i] + [compacts[i]] && Narrow(i + 1) == Narrow(i) + [false];
    EntriesSnoc(compacts[..i], Narrow(i), compacts[i], false);
    hide Entries;
  }

  lemma WrapText(compacts: seq<seq<Byte>>, height: int)
    requires Wrappable(compacts, height)
    ensures Wrap(compacts, height) ==
      Some([1] + Le32(height) + CompactSize(|compacts|, false) + Entries(compacts, Narrow(|compacts|)))
  {
    hide Le32, Entries, CompactSize;
  }

  lemma NoEntries()
    ensures Entries([], Narrow(0)) == []
  {}

  // ---------- the parser ----------

  function ParseEntries(raw: seq<Byte>, offset: nat, left: nat, signatures: seq<seq<Byte>>): Option<seq<seq<Byte>>>
    decreases left
  {
    if left == 0 then (if offset == |raw| then Some(signatures) else None)
    else
      match ReadCompactSize(raw, offset)
      case None => None
      case Some(len) =>
        if len.value != 65 || len.next + 65 > |raw| then None
        else ParseEntries(raw, len.next + 65, left - 1, signatures + [raw[len.next..len.next + 65]])
  }

  function Parse(raw: seq<Byte>): Option<Envelope> {
    if |raw| < 7 || raw[0] != 1 then None
    else
      match ReadCompactSize(raw, 5)
      case None => None
      case Some(count) =>
        if count.value == 0 || count.value > MAX_PARSED then None
        else
          match ParseEntries(raw, count.next, count.value, [])
          case None => None
          case Some(signatures) => Some(Envelope(ReadLe32(raw[1..5]), signatures))
  }

  /** The parser with its loop and offset; every read is inside the buffer. */
  method ParseIdentitySignature(raw: seq<Byte>) returns (r: Option<Envelope>)
    ensures r == Parse(raw)
  {
    if |raw| < 7 || raw[0] != 1 {
      return None;
    }
    var blockHeight := ReadLe32(raw[1..5]);
    var count := ReadCompactSize(raw, 5);
    if count.None? || count.value.value == 0 || count.value.value > MAX_PARSED {
      return None;
    }
    var offset: nat := count.value.next;
    var signatures: seq<seq<Byte>> := [];
    for i := 0 to count.value.value
      invariant ParseEntries(raw, count.value.next, count.value.value, []) ==
        ParseEntries(raw, offset, count.value.value - i, signatures)
    {
      var len := ReadCompactSize(raw, offset);
      if len.None? || len.value.value != 65 || len.value.next + 65 > |raw| {
        return None;
      }
      offset := len.value.next;
      signatures := signatures + [raw[offset..offset + 65]];
      offset := offset + 65;
    }
    if offset != |raw| {
      return None;
    }
    r := Some(Envelope(blockHeight, signatures));
  }

  lemma {:induction false} EntriesParse(raw: seq<Byte>, offset: nat, done: seq<seq<Byte>>, rest: seq<seq<Byte>>,
                                        wides: seq<bool>)
    requires offset <= |raw| && |rest| == |wides| && raw[offset..] == Entries(rest, wides)
    requires forall i | 0 <= i < |rest| :: |rest[i]| == 65
    ensures ParseEntries(raw, offset, |rest|, done) == Some(done + rest)
    decreases |rest|
  {
    hide CompactSize, ReadCompactSize;
    if rest == [] {
      assert done + rest == done;
    } else {
      var tail := Entries(rest[1..], wides[1..]);
      assert raw[offset..] == CompactSize(65, wides[0]) + (rest[0] + tail);
      ReadsCompactSize(raw, offset, 65, wides[0], rest[0] + tail);
      var next := offset + |CompactSize(65, wides[0])|;
      assert |raw[next..]| >= 65;
      assert raw[next..next + 65] == raw[next..][..65] == rest[0];
      assert raw[next + 65..] == raw[next..][65..] == tail;
      EntriesParse(raw, next + 65, done + [rest[0]], rest[1..], wides[1..]);
      assert done + [rest[0]] + rest[1..] == done + rest;
    }
  }

  lemma {:induction false} ParsedEntries(raw: seq<Byte>, offset: nat, left: nat, done: seq<seq<Byte>>)
    returns (rest: seq<seq<Byte>>, wides: seq<bool>)
    requires offset <= |raw| && ParseEntries(raw, offset, left, done).Some?
    ensures ParseEntries(raw, offset, left, done) == Some(done + rest)
    ensures |rest| == |wides| == left && forall i | 0 <= i < |rest| :: |rest[i]| == 65
    ensures raw[offset..] == Entries(rest, wides)
    decreases left
  {
    if left == 0 {
      rest, wides := [], [];
      assert done + rest == done;
    } else {
      var len := ReadCompactSize(raw, offset).value;
      var w := CompactSizeRead(raw, offset);
      var s := raw[len.next..len.next + 65];
      var tail, ws := ParsedEntries(raw, len.next + 65, left - 1, done + [s]);
      rest, wides := [s] + tail, [w] + ws;
      assert rest[1..] == tail && wides[1..] == ws;
      assert done + [s] + tail == done + rest;
      assert raw[offset..] == raw[offset..len.next] + s + raw[len.next + 65..];
    }
  }

  // ---------- main results ----------

  lemma HeadAndTail(le: seq<Byte>, size: seq<Byte>, entries: seq<Byte>)
    requires |le| == 4
    ensures var raw := [1] + le + size + entries; raw[1..5] == le && raw[5..] == size + entries
  {
    assert [1] + le + size + entries == [1] + le + (size + entries);
  }

  /** Every rendering is parsed to its envelope, whichever forms its sizes have. */
  lemma RenderedIsParsed(e: Envelope, wide: bool, wides: seq<bool>)
    requires WellSized(e, wide, wides)
    ensures Parse(Render(e, wide, wides)) == Some(e)
  {
    var raw := Render(e, wide, wides);
    var entries := Entries(e.signatures, wides);
    EntriesLength(e.signatures, wides);
    hide Le32, ReadLe32, Entries, ReadCompactSize, CompactSize, ParseEntries;
    HeadAndTail(Le32(e.blockHeight), CompactSize(|e.signatures|, wide), entries);
    Le32RoundTrip(e.blockHeight, Le32(e.blockHeight));
    ReadsCompactSize(raw, 5, |e.signatures|, wide, entries);
    EntriesParse(raw, 5 + |CompactSize(|e.signatures|, wide)|, [], e.signatures, wides);
    assert [] + e.signatures == e.signatures;
  }

  /** And nothing else is accepted: an accepted byte string is, to its last byte, a rendering of what was read. */
  lemma ParsedIsRendered(raw: seq<Byte>) returns (wide: bool, wides: seq<bool>)
    requires Parse(raw).Some?
    ensures var e := Parse(raw).value;
      WellSized(e, wide, wides) && raw == Render(e, wide, wides)
  {
    hide Le32, ReadLe32, Entries, ReadCompactSize, CompactSize, ParseEntries;
    var count := ReadCompactSize(raw, 5).value;
    wide := CompactSizeRead(raw, 5);
    var rest;
    rest, wides := ParsedEntries(raw, count.next, count.value, []);
    var e := Parse(raw).value;
    assert [] + rest == rest && e.signatures == rest;
    Le32RoundTrip(e.blockHeight, raw[1..5]);
    assert raw == raw[..1] + raw[1..5] + raw[5..count.next] + raw[count.next..];
    assert raw[..1] == [1];
  }

  /** One to 252 signatures of 65 bytes and a height from 1 to 2^32 - 1 survive wrapping and parsing, and
      wrapping accepts nothing else. */
  lemma WrapParses(compacts: seq<seq<Byte>>, height: int)
    ensures Wrap(compacts, height).Some? <==> Wrappable(compacts, height)
    ensures Wrappable(compacts, height) ==> Parse(Wrap(compacts, height).value) == Some(Envelope(height, compacts))
  {
    if Wrappable(compacts, height) {
      RenderedIsParsed(Envelope(height, compacts), false, Narrow(|compacts|));
    }
  }

  /** Wrapping what was parsed gives back the same bytes exactly when the height is positive and the bytes are as
      few as the count allows, that is, when no size is in the wide form. */
  lemma ParseWraps(raw: seq<Byte>)
    requires Parse(raw).Some?
    ensures var e := Parse(raw).value;
      Wrap(e.signatures, e.blockHeight) == Some(raw) <==> e.blockHeight > 0 && |raw| == 6 + 66 * |e.signatures|
  {
    var e := Parse(raw).value;
    var wide, wides := ParsedIsRendered(raw);
    EntriesLength(e.signatures, wides);
    EntriesLength(e.signatures, Narrow(|e.signatures|));
    hide Parse, Entries, Le32;
  }

  // ---------- the bytes, one by one ----------

  /** Numbers stand with their least significant byte first. */
  lemma LittleEndian(n: int, b: seq<Byte>)
    requires 0 <= n <= MAX_HEIGHT && |b| == 4
    ensures Le32(n) == b <==> n == b[0] as int + 256 * b[1] as int + 65536 * b[2] as int + 16777216 * b[3] as int
  {
    Le32RoundTrip(n, b);
    if n == b[0] as int + 256 * b[1] as int + 65536 * b[2] as int + 16777216 * b[3] as int {
      assert ReadLe32(b) == n;
    }
    assert ReadLe32(b) == b[0] as int + 256 * b[1] as int + 65536 * b[2] as int + 16777216 * b[3] as int;
  }

  /** The envelope a wallet writes: version 1, the height, the number of signatures, and before each of them the
      length 65. It is written for 1 to 252 signatures of 65 bytes and a height from 1 to 4294967295, else not. */
  lemma WrapLayout(compacts: seq<seq<Byte>>, height: int)
    ensures Wrap(compacts, height).Some? <==>
      && 1 <= |compacts| <= 252 && 1 <= height <= 4294967295
      && forall i | 0 <= i < |compacts| :: |compacts[i]| == 65
    ensures Wrap(compacts, height).Some? ==>
      var raw := Wrap(compacts, height).value;
      && |raw| == 6 + 66 * |compacts| && raw[0] == 1 && raw[1..5] == Le32(height) && raw[5] == |compacts|
      && forall i | 0 <= i < |compacts| :: raw[6 + 66 * i] == 65 && raw[7 + 66 * i..72 + 66 * i] == compacts[i]
  {
    if Wrappable(compacts, height) {
      var raw, entries := Wrap(compacts, height).value, Entries(compacts, Narrow(|compacts|));
      EntriesLength(compacts, Narrow(|compacts|));
      HeadAndTail(Le32(height), CompactSize(|compacts|, false), entries);
      hide Le32, Entries;
      assert raw[6..] == entries;
      forall i | 0 <= i < |compacts| ensures raw[6 + 66 * i] == 65 && raw[7 + 66 * i..72 + 66 * i] == compacts[i] {
        EntryAt(compacts, i);
        assert raw[6 + 66 * i] == entries[66 * i];
        assert raw[7 + 66 * i..72 + 66 * i] == entries[66 * i + 1..66 * i + 66];
      }
    }
  }

  lemma {:induction false} EntryAt(compacts: seq<seq<Byte>>, i: nat)
    requires i < |compacts| && forall j | 0 <= j < |compacts| :: |compacts[j]| == 65
    ensures var entries := Entries(compacts, Narrow(|compacts|));
      && |entries| == 66 * |compacts|
      && entries[66 * i] == 65 && entries[66 * i + 1..66 * i + 66] == compacts[i]
  {
    EntriesLength(compacts, Narrow(|compacts|));
    var tail := compacts[1..];
    assert Narrow(|compacts|)[1..] == Narrow(|tail|);
    var entries, rest := Entries(compacts, Narrow(|compacts|)), Entries(tail, Narrow(|tail|));
    assert entries == [65] + compacts[0] + rest;
    if i == 0 {
      assert entries[1..66] == compacts[0];
    } else {
      EntryAt(tail, i - 1);
      assert entries[66 * i + 1..66 * i + 66] == rest[66 * (i - 1) + 1..66 * (i - 1) + 66];
    }
  }

  predicate Fits255(e: Envelope, wides: seq<bool>) {
    && 1 <= |e.signatures| <= 255 && 0 <= e.blockHeight <= 4294967295 && |wides| == |e.signatures|
    && forall i | 0 <= i < |e.signatures| :: |e.signatures[i]| == 65
  }

  /** The parser takes every envelope of 1 to 255 signatures and any four-byte height, and no other. */
  lemma ParseLimits(raw: seq<Byte>, e: Envelope, wides: seq<bool>)
    ensures Parse(raw).Some? ==>
      1 <= |Parse(raw).value.signatures| <= 255 && 0 <= Parse(raw).value.blockHeight <= 4294967295
      && forall i | 0 <= i < |Parse(raw).value.signatures| :: |Parse(raw).value.signatures[i]| == 65
    ensures Fits255(e, wides) ==> WellSized(e, true, wides) && Parse(Render(e, true, wides)) == Some(e)
  {
    if Parse(raw).Some? {
      var wide, read := ParsedIsRendered(raw);
    }
    hide Parse, Render;
    if WellSized(e, true, wides) {
      RenderedIsParsed(e, true, wides);
    }
  }
}
