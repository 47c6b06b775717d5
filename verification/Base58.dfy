/** Base58 addresses and keys. SHA-256 is any function. */
module Base58 {
  import opened Basics
  import opened Positional

  const IADDRESS_PREFIX: nat := 0x66
  const RADDRESS_PREFIX: nat := 0x3c
  const WIF_PREFIX: nat := 0xbc

  type Sha256 = seq<nat> -> seq<nat>

  /** The value of a character: digits without 0, capitals without I and O, small letters without l. */
  function SymbolValue(c: char): (r: Option<nat>)
    ensures r.Some? ==> r.value < 58 && (r.value == 0 <==> c == '1')
  {
    if '1' <= c <= '9' then Some((c - '1') as nat)
    else if 'A' <= c <= 'H' then Some((c - 'A') as nat + 9)
    else if 'J' <= c <= 'N' then Some((c - 'J') as nat + 17)
    else if 'P' <= c <= 'Z' then Some((c - 'P') as nat + 22)
    else if 'a' <= c <= 'k' then Some((c - 'a') as nat + 33)
    else if 'm' <= c <= 'z' then Some((c - 'm') as nat + 44)
    else None
  }

  lemma SymbolValueInjective(c: char, d: char)
    requires SymbolValue(c).Some? && SymbolValue(c) == SymbolValue(d)
    ensures c == d
  {}

  predicate AllSymbols(s: string) {
    forall i | 0 <= i < |s| :: SymbolValue(s[i]).Some?
  }

  function Symbols(s: string): (ds: seq<nat>)
    requires AllSymbols(s)
    ensures |ds| == |s| && DigitsIn(ds, 58)
  {
    seq(|s|, i requires 0 <= i < |s| => SymbolValue(s[i]).value)
  }

  function LeadingOnes(s: string): (z: nat)
    ensures z <= |s| && (forall i | 0 <= i < z :: s[i] == '1') && (z < |s| ==> s[z] != '1')
  {
    if s == "" || s[0] != '1' then 0 else 1 + LeadingOnes(s[1..])
  }

  /** Two hex digits per byte, the hex text padded to even length; no byte for zero. */
  function Body(n: nat): (bytes: seq<nat>) {
    var hex := DigitsOf(n, 16);
    Pairs(if |hex| % 2 == 1 then [0] + hex else hex, 16)
  }

  function Decode(encoded: string): Option<seq<nat>> {
    if !AllSymbols(encoded) then None
    else Some(Zeros(LeadingOnes(encoded)) + Body(Value(Symbols(encoded), 58)))
  }

  /** The decoder with its loops and its output buffer; None stands for the thrown error. */
  method Base58Decode(encoded: string) returns (r: Option<seq<nat>>)
    ensures r == Decode(encoded)
  {
    hide Body, SymbolValue;
    var n: nat := 0;
    for i := 0 to |encoded|
      invariant AllSymbols(encoded[..i])
      invariant n == Value(Symbols(encoded[..i]), 58)
    {
      var value := SymbolValue(encoded[i]);
      if value.None? {
        return None;
      }
      n := n * 58 + value.value;
      assert Symbols(encoded[..i + 1])[..i] == Symbols(encoded[..i]);
    }
    assert encoded[..|encoded|] == encoded;
    var body := Body(n);
    var leadingZeros := 0;
    while leadingZeros < |encoded| && encoded[leadingZeros] == '1'
      invariant leadingZeros <= |encoded|
      invariant forall i | 0 <= i < leadingZeros :: encoded[i] == '1'
    {
      leadingZeros := leadingZeros + 1;
    }
    var out := new nat[leadingZeros + |body|](_ => 0);
    forall i | 0 <= i < |body| {
      out[leadingZeros + i] := body[i];
    }
    r := Some(out[..]);
    assert out[..] == Zeros(leadingZeros) + body;
  }

  lemma PairsOfHex(even: seq<nat>)
    requires |even| % 2 == 0 && DigitsIn(even, 16) && (even != [] ==> even[0] != 0 || even[1] != 0)
    ensures Pairs(even, 16) == DigitsOf(Value(even, 16), 256)
  {
    ValueOfPairs(even, 16);
    PairDigits(even, 16);
    var bytes := Pairs(even, 16);
    hide DigitsOf, Value, Pairs;
    DigitsOfValue(bytes, 256);
  }

  /** The hex detour yields the base-256 digits. */
  lemma BodyIsBase256(n: nat)
    ensures Body(n) == DigitsOf(n, 256)
  {
    hide DigitsOf, Value, Pairs;
    var hex := DigitsOf(n, 16);
    ValueOfDigits(n, 16);
    ValueOfLeadingZeros(1, hex, 16);
    assert Zeros(1) == [0];
    PairsOfHex(if |hex| % 2 == 1 then [0] + hex else hex);
  }

  lemma SymbolsInjective(s: string, t: string)
    requires AllSymbols(s) && AllSymbols(t) && Symbols(s) == Symbols(t)
    ensures s == t
  {
    hide SymbolValue;
    forall i | 0 <= i < |s| ensures s[i] == t[i] {
      assert Symbols(s)[i] == Symbols(t)[i];
      SymbolValueInjective(s[i], t[i]);
    }
  }

  /** The symbols are as many zeros as leading ones, then the base-58 digits of the number. */
  lemma SymbolsSplit(s: string)
    requires AllSymbols(s)
    ensures Symbols(s) == Zeros(LeadingOnes(s)) + DigitsOf(Value(Symbols(s), 58), 58)
  {
    hide SymbolValue;
    var z, ds := LeadingOnes(s), Symbols(s);
    assert ds == Zeros(z) + ds[z..];
    ValueOfLeadingZeros(z, ds[z..], 58);
    DigitsOfValue(ds[z..], 58);
  }

  lemma ZerosThenDigits(y: nat, a: seq<nat>, z: nat, b: seq<nat>)
    requires (a != [] ==> a[0] != 0) && (b != [] ==> b[0] != 0) && Zeros(y) + a == Zeros(z) + b
    ensures y == z && a == b
  {
    var s := Zeros(y) + a;
    assert a != [] ==> s[y] != 0;
    assert b != [] ==> s[z] != 0;
    assert forall i | 0 <= i < y || 0 <= i < z :: s[i] == 0;
    assert s[y..] == a && s[z..] == b;
  }

  /** Different strings decode to different bytes. */
  lemma DecodeIsInjective(s: string, t: string)
    requires Decode(s).Some? && Decode(s) == Decode(t)
    ensures s == t
  {
    hide DigitsOf, Symbols, LeadingOnes, Value, Body;
    var m, n := Value(Symbols(s), 58), Value(Symbols(t), 58);
    BodyIsBase256(m);
    BodyIsBase256(n);
    ZerosThenDigits(LeadingOnes(s), DigitsOf(m, 256), LeadingOnes(t), DigitsOf(n, 256));
    ValueOfDigits(m, 256);
    ValueOfDigits(n, 256);
    SymbolsSplit(s);
    SymbolsSplit(t);
    SymbolsInjective(s, t);
  }

  // ---------- checksummed payloads ----------

  function Checksum(payload: seq<nat>, sha256: Sha256): seq<nat> {
    var digest := sha256(sha256(payload));
    if |digest| < 4 then digest else digest[..4]
  }

  /** The payload before the four checksum bytes. */
  function Checked(encoded: string, length: nat, sha256: Sha256): (r: Option<seq<nat>>)
    requires length >= 4
    ensures r.Some? ==> |r.value| == length - 4
  {
    var decoded := Decode(encoded);
    if decoded.None? || |decoded.value| != length then None
    else
      var payload, checksum := decoded.value[..length - 4], decoded.value[length - 4..];
      if checksum == Checksum(payload, sha256) then Some(payload) else None
  }

  lemma CheckedIsInjective(s: string, t: string, length: nat, sha256: Sha256)
    requires length >= 4 && Checked(s, length, sha256).Some? && Checked(s, length, sha256) == Checked(t, length, sha256)
    ensures s == t
  {
    hide Decode, Checksum;
    var a, b := Decode(s).value, Decode(t).value;
    assert a == a[..length - 4] + a[length - 4..] && b == b[..length - 4] + b[length - 4..];
    DecodeIsInjective(s, t);
  }

  function DecodeAddress(address: string, prefix: nat, sha256: Sha256): Option<seq<nat>> {
    var payload := Checked(address, 25, sha256);
    if payload.None? || payload.value[0] != prefix then None else Some(payload.value[1..])
  }

  function DecodeIAddress(address: string, sha256: Sha256): Option<seq<nat>> {
    DecodeAddress(address, IADDRESS_PREFIX, sha256)
  }

  function DecodeRAddress(address: string, sha256: Sha256): Option<seq<nat>> {
    DecodeAddress(address, RADDRESS_PREFIX, sha256)
  }

  /** Version, 32 key bytes, the compressed marker. */
  function DecodeWif(wif: string, sha256: Sha256): Option<seq<nat>> {
    var payload := Checked(wif, 38, sha256);
    if payload.None? || payload.value[0] != WIF_PREFIX || payload.value[33] != 1 then None
    else Some(payload.value[1..33])
  }

  // ---------- what an address is ----------

  const ALPHABET := "123456789" + "ABCDEFGH" + "JKLMN" + "PQRSTUVWXYZ" + "abcdefghijk" + "mnopqrstuvwxyz"

  /** A character stands for its place in the alphabet, and no other character stands for anything. */
  lemma AlphabetFixesSymbols(c: char, i: nat)
    ensures |ALPHABET| == 58
    ensures SymbolValue(c) == Some(i) <==> i < 58 && ALPHABET[i] == c
  {
    if i < 58 {
      SymbolAt(i);
      if SymbolValue(c) == Some(i) {
        SymbolValueInjective(c, ALPHABET[i]);
      }
    }
  }

  lemma SymbolAt(i: nat)
    requires i < 58
    ensures SymbolValue(ALPHABET[i]) == Some(i)
  {
    if i < 9 {
      assert i in {0, 1, 2, 3, 4, 5, 6, 7, 8};
    } else if i < 17 {
      assert i in {9, 10, 11, 12, 13, 14, 15, 16};
    } else if i < 22 {
      assert i in {17, 18, 19, 20, 21};
    } else if i < 33 {
      assert i in {22, 23, 24, 25, 26, 27, 28, 29, 30, 31, 32};
    } else if i < 44 {
      assert i in {33, 34, 35, 36, 37, 38, 39, 40, 41, 42, 43};
    } else {
      assert i in {44, 45, 46, 47, 48, 49, 50, 51, 52, 53, 54, 55, 56, 57};
    }
  }

  /** A text decodes exactly when every character is in the alphabet. */
  lemma DecodesExactly(s: string)
    ensures Decode(s).Some? <==> forall c | c in s :: c in ALPHABET
  {
    hide SymbolValue;
    forall c ensures SymbolValue(c).Some? <==> c in ALPHABET {
      if SymbolValue(c).Some? {
        AlphabetFixesSymbols(c, SymbolValue(c).value);
      } else if c in ALPHABET {
        var i: nat :| i < |ALPHABET| && ALPHABET[i] == c;
        AlphabetFixesSymbols(c, i);
      }
    }
    assert forall i | 0 <= i < |s| :: s[i] in s;
  }

  /** The number a Base58 text stands for: reading one more character multiplies by 58 and adds its place. */
  lemma TextIsBase58(s: string, c: char, i: nat)
    requires AllSymbols(s) && i < 58 && ALPHABET[i] == c
    ensures AllSymbols(s + [c]) && Value(Symbols(s + [c]), 58) == 58 * Value(Symbols(s), 58) + i
    ensures Value(Symbols(""), 58) == 0
  {
    AlphabetFixesSymbols(c, i);
    hide SymbolValue;
    assert Symbols(s + [c])[..|s|] == Symbols(s);
  }

  /** What is decoded stands for the same number, after as many zero bytes as the text has leading ones. */
  lemma DecodeKeepsValue(s: string)
    requires AllSymbols(s)
    ensures Decode(s).Some? && Value(Decode(s).value, 256) == Value(Symbols(s), 58)
    ensures DigitsIn(Decode(s).value, 256)
    ensures var z, bytes := LeadingOnes(s), Decode(s).value;
      |bytes| >= z && (forall i | 0 <= i < z :: bytes[i] == 0) && (|bytes| > z ==> bytes[z] != 0)
  {
    hide SymbolValue, Symbols, Value, DigitsOf;
    var n := Value(Symbols(s), 58);
    BodyIsBase256(n);
    ValueOfDigits(n, 256);
    ValueOfLeadingZeros(LeadingOnes(s), Body(n), 256);
  }

  /** An identity address is version 102, twenty bytes of hash, and the first four bytes of their double SHA-256; an
      R-address the same under version 60; nothing else decodes. */
  lemma AddressLayout(address: string, hash: seq<nat>, sha256: Sha256)
    requires forall b :: |sha256(b)| == 32
    ensures DecodeIAddress(address, sha256) == Some(hash) <==>
      |hash| == 20 && Decode(address) == Some([102] + hash + sha256(sha256([102] + hash))[..4])
    ensures DecodeRAddress(address, sha256) == Some(hash) <==>
      |hash| == 20 && Decode(address) == Some([60] + hash + sha256(sha256([60] + hash))[..4])
  {
    PrefixedLayout(address, 102, hash, sha256);
    PrefixedLayout(address, 60, hash, sha256);
  }

  lemma PrefixedLayout(address: string, prefix: nat, hash: seq<nat>, sha256: Sha256)
    requires forall b :: |sha256(b)| == 32
    ensures DecodeAddress(address, prefix, sha256) == Some(hash) <==>
      |hash| == 20 && Decode(address) == Some([prefix] + hash + sha256(sha256([prefix] + hash))[..4])
  {
    hide Decode;
    var payload := [prefix] + hash;
    CheckedLayout(address, 25, payload, sha256);
    hide Checked;
    if DecodeAddress(address, prefix, sha256) == Some(hash) {
      assert Checked(address, 25, sha256).value == payload;
    }
    assert payload[1..] == hash;
  }

  lemma CheckedLayout(encoded: string, length: nat, payload: seq<nat>, sha256: Sha256)
    requires length >= 4 && forall b :: |sha256(b)| == 32
    ensures Checked(encoded, length, sha256) == Some(payload) <==>
      |payload| == length - 4 && Decode(encoded) == Some(payload + sha256(sha256(payload))[..4])
  {
    hide Decode;
    var full := payload + sha256(sha256(payload))[..4];
    assert full[..|payload|] == payload && full[|payload|..] == sha256(sha256(payload))[..4];
    if Checked(encoded, length, sha256) == Some(payload) {
      var d := Decode(encoded).value;
      assert d == d[..length - 4] + d[length - 4..];
    }
  }

  /** A private key text is version 188, the 32 key bytes, the byte 1 and the checksum. */
  lemma WifLayout(wif: string, key: seq<nat>, sha256: Sha256)
    requires forall b :: |sha256(b)| == 32
    ensures DecodeWif(wif, sha256) == Some(key) <==>
      |key| == 32 && Decode(wif) == Some([188] + key + [1] + sha256(sha256([188] + key + [1]))[..4])
  {
    hide Decode;
    var payload := [188] + key + [1];
    CheckedLayout(wif, 38, payload, sha256);
    hide Checked;
    if DecodeWif(wif, sha256) == Some(key) {
      var p := Checked(wif, 38, sha256).value;
      assert p == [p[0]] + p[1..33] + [p[33]];
    }
    assert |key| == 32 ==> payload[1..33] == key;
  }

  // ---------- one text per key ----------

  /** Two addresses of one kind with the same hash are the same string, whatever SHA-256 does. */
  lemma AddressIsInjective(s: string, t: string, prefix: nat, sha256: Sha256)
    requires DecodeAddress(s, prefix, sha256).Some?
    requires DecodeAddress(s, prefix, sha256) == DecodeAddress(t, prefix, sha256)
    ensures s == t
  {
    hide Checked;
    var a, b := Checked(s, 25, sha256).value, Checked(t, 25, sha256).value;
    assert a == [a[0]] + a[1..] && b == [b[0]] + b[1..];
    CheckedIsInjective(s, t, 25, sha256);
  }

  /** One private key has one WIF string. */
  lemma WifIsInjective(s: string, t: string, sha256: Sha256)
    requires DecodeWif(s, sha256).Some? && DecodeWif(s, sha256) == DecodeWif(t, sha256)
    ensures s == t
  {
    hide Checked;
    var a, b := Checked(s, 38, sha256).value, Checked(t, 38, sha256).value;
    assert a == [a[0]] + a[1..33] + [a[33]] && b == [b[0]] + b[1..33] + [b[33]];
    CheckedIsInjective(s, t, 38, sha256);
  }
}
