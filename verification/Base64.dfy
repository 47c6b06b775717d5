/** Standard Base64 with padding (section 4 of RFC 4648). */
module Base64 {
  import opened Decimal
  import opened Text
  import P = Positional

  type Byte = b: int | 0 <= b < 256

  /** The character of a six-bit value. */
  function Symbol(v: int): (c: char)
    requires 0 <= v < 64
    ensures IsSymbol(c) && ValueOf64(c) == v
  {
    if v < 26 then 'A' + v as char
    else if v < 52 then 'a' + (v - 26) as char
    else if v < 62 then '0' + (v - 52) as char
    else if v == 62 then '+' else '/'
  }

  predicate IsSymbol(c: char) {
    IsUpper(c) || IsLower(c) || IsDigit(c) || c == '+' || c == '/'
  }

  function ValueOf64(c: char): (v: int)
    requires IsSymbol(c)
    ensures 0 <= v < 64
  {
    if IsUpper(c) then (c - 'A') as int
    else if IsLower(c) then (c - 'a') as int + 26
    else if IsDigit(c) then (c - '0') as int + 52
    else if c == '+' then 62 else 63
  }

  type Sextet = v: int | 0 <= v < 64

  function Top(x: Byte): Sextet { x / 4 }
  function Upper(x: Byte, y: Byte): Sextet { x % 4 * 16 + y / 16 }
  function Lower(y: Byte, z: Byte): Sextet { y % 16 * 4 + z / 64 }
  function Bottom(z: Byte): Sextet { z % 64 }

  function First(a: Sextet, b: Sextet): Byte { a * 4 + b / 16 }
  function Second(b: Sextet, c: Sextet): Byte { b % 16 * 16 + c / 4 }
  function Third(c: Sextet, d: Sextet): Byte { c % 4 * 64 + d }

  function Encode(bytes: seq<Byte>): string {
    if bytes == [] then ""
    else if |bytes| == 1 then [Symbol(Top(bytes[0])), Symbol(Upper(bytes[0], 0)), '=', '=']
    else if |bytes| == 2 then
      [Symbol(Top(bytes[0])), Symbol(Upper(bytes[0], bytes[1])), Symbol(Lower(bytes[1], 0)), '=']
    else
      [Symbol(Top(bytes[0])), Symbol(Upper(bytes[0], bytes[1])), Symbol(Lower(bytes[1], bytes[2])),
       Symbol(Bottom(bytes[2]))] + Encode(bytes[3..])
  }

  /** A last group of four: two or three symbols and padding, or four symbols. */
  predicate LastGroup(s: string) {
    && |s| == 4 && IsSymbol(s[0]) && IsSymbol(s[1])
    && ((IsSymbol(s[2]) && IsSymbol(s[3])) || (IsSymbol(s[2]) && s[3] == '=') || (s[2] == '=' && s[3] == '='))
  }

  /** Non-empty standard Base64: the encoding gate. */
  predicate IsBase64(s: string) {
    if |s| <= 4 then LastGroup(s)
    else IsSymbol(s[0]) && IsSymbol(s[1]) && IsSymbol(s[2]) && IsSymbol(s[3]) && IsBase64(s[4..])
  }

  function Decode(s: string): seq<Byte>
    requires IsBase64(s)
  {
    var a, b := ValueOf64(s[0]), ValueOf64(s[1]);
    if s[2] == '=' then [First(a, b)]
    else
      var c := ValueOf64(s[2]);
      if s[3] == '=' then [First(a, b), Second(b, c)]
      else
        [First(a, b), Second(b, c), Third(c, ValueOf64(s[3]))] + (if |s| == 4 then [] else Decode(s[4..]))
  }

  lemma Recombine(x: Byte, y: Byte, z: Byte)
    ensures First(Top(x), Upper(x, y)) == x
    ensures Second(Upper(x, y), Lower(y, z)) == y
    ensures Third(Lower(y, z), Bottom(z)) == z
  {}

  lemma SymbolIsNoPad(v: Sextet)
    ensures IsSymbol(Symbol(v)) && ValueOf64(Symbol(v)) == v && Symbol(v) != '='
  {}

  /** Every non-empty byte string passes the gate once encoded, and decodes back to itself. */
  lemma {:induction false} DecodeEncode(bytes: seq<Byte>)
    requires bytes != []
    ensures IsBase64(Encode(bytes)) && Decode(Encode(bytes)) == bytes
  {
    hide Symbol, ValueOf64, IsSymbol, Top, Upper, Lower, Bottom, First, Second, Third;
    var s := Encode(bytes);
    var x, y, z := bytes[0], if |bytes| > 1 then bytes[1] else 0, if |bytes| > 2 then bytes[2] else 0;
    Recombine(x, y, z);
    SymbolIsNoPad(Top(x));
    SymbolIsNoPad(Upper(x, y));
    SymbolIsNoPad(Lower(y, z));
    SymbolIsNoPad(Bottom(z));
    if |bytes| > 3 {
      DecodeEncode(bytes[3..]);
      assert s[4..] == Encode(bytes[3..]);
      assert |s| > 4;
      assert bytes == [x, y, z] + bytes[3..];
    } else if |bytes| == 3 {
      assert bytes[3..] == [] && |s| == 4 && bytes == [x, y, z];
    }
  }

  // ---------- what the characters mean ----------

  /** Capital letters, small letters, numerals, plus and slash, in this order. */
  const ALPHABET := "ABCDEFGHIJKLM" + "NOPQRSTUVWXYZ" + "abcdefghijklm" + "nopqrstuvwxyz" + "0123456789+/"

  lemma AlphabetFixesSymbols(v: Sextet)
    ensures |ALPHABET| == 64 && Symbol(v) == ALPHABET[v]
  {
    if v < 13 {
      assert v in {0, 1, 2, 3, 4, 5, 6, 7, 8, 9, 10, 11, 12};
    } else if v < 26 {
      assert v in {13, 14, 15, 16, 17, 18, 19, 20, 21, 22, 23, 24, 25};
    } else if v < 39 {
      assert v in {26, 27, 28, 29, 30, 31, 32, 33, 34, 35, 36, 37, 38};
    } else if v < 52 {
      assert v in {39, 40, 41, 42, 43, 44, 45, 46, 47, 48, 49, 50, 51};
    } else {
      assert v in {52, 53, 54, 55, 56, 57, 58, 59, 60, 61, 62, 63};
    }
  }

  /** Three bytes are written as the four base-64 digits, most significant first, of the 24-bit number they form; a
      missing byte counts as zero, and a digit without a byte is padding. */
  lemma GroupIsNumber(bytes: seq<Byte>, a: Sextet, b: Sextet, c: Sextet, d: Sextet)
    requires bytes != []
    requires var x: int, y: int, z: int :=
        bytes[0], if |bytes| > 1 then bytes[1] as int else 0, if |bytes| > 2 then bytes[2] as int else 0;
      x * 65536 + y * 256 + z == a * 262144 + b * 4096 + c * 64 + d
    ensures var s := Encode(bytes);
      && |s| == 4 * ((|bytes| + 2) / 3) && s[0] == ALPHABET[a] && s[1] == ALPHABET[b]
      && s[2] == (if |bytes| > 1 then ALPHABET[c] else '=')
      && s[3] == (if |bytes| > 2 then ALPHABET[d] else '=')
      && s[4..] == (if |bytes| > 3 then Encode(bytes[3..]) else "")
  {
    var x: Byte := bytes[0];
    var y: Byte, z: Byte := if |bytes| > 1 then bytes[1] else 0, if |bytes| > 2 then bytes[2] else 0;
    Sextets(x, y, z, a, b, c, d);
    AlphabetFixesSymbols(a);
    AlphabetFixesSymbols(b);
    AlphabetFixesSymbols(c);
    AlphabetFixesSymbols(d);
    hide Symbol, Top, Upper, Lower, Bottom, Encode;
    EncodeLength(bytes);
    EncodeHead(bytes, x, y, z);
  }

  lemma EncodeHead(bytes: seq<Byte>, x: Byte, y: Byte, z: Byte)
    requires bytes != [] && x == bytes[0]
    requires y == (if |bytes| > 1 then bytes[1] else 0) && z == (if |bytes| > 2 then bytes[2] else 0)
    ensures var s := Encode(bytes);
      && |s| >= 4 && s[0] == Symbol(Top(x)) && s[1] == Symbol(Upper(x, y))
      && s[2] == (if |bytes| > 1 then Symbol(Lower(y, z)) else '=')
      && s[3] == (if |bytes| > 2 then Symbol(Bottom(z)) else '=')
      && s[4..] == (if |bytes| > 3 then Encode(bytes[3..]) else "")
  {
    hide Symbol, Top, Upper, Lower, Bottom;
    assert Encode([]) == "";
  }

  lemma Sextets(x: Byte, y: Byte, z: Byte, a: Sextet, b: Sextet, c: Sextet, d: Sextet)
    requires x as int * 65536 + y as int * 256 + z as int == a * 262144 + b * 4096 + c * 64 + d
    ensures Top(x) == a && Upper(x, y) == b && Lower(y, z) == c && Bottom(z) == d
  {
    P.Quotient(x, y * 256 + z, 65536);
    P.Quotient(a * 4 + b / 16, b % 16 * 4096 + c * 64 + d, 65536);
    P.Quotient(y, z, 256);
    P.Quotient(b % 16 * 16 + c / 4, c % 4 * 64 + d, 256);
  }

  lemma {:induction false} EncodeLength(bytes: seq<Byte>)
    ensures |Encode(bytes)| == 4 * ((|bytes| + 2) / 3)
  {
    hide Symbol, Top, Upper, Lower, Bottom;
    if |bytes| >= 3 {
      EncodeLength(bytes[3..]);
    }
  }
}
