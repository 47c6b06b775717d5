/** Decimal text of integers, as `toString()` writes it and `BigInt(...)` / `Number(...)` read it. */
module Decimal {

  predicate IsDigit(c: char) {
    '0' <= c <= '9'
  }

  predicate AllDigits(s: string) {
    forall i | 0 <= i < |s| :: IsDigit(s[i])
  }

  function DigitOf(d: nat): (c: char)
    requires d < 10
    ensures IsDigit(c) && DigitValue(c) == d
  {
    '0' + d as char
  }

  function DigitValue(c: char): (d: nat)
    requires IsDigit(c)
    ensures d < 10
    ensures d == 0 <==> c == '0'
  {
    (c - '0') as nat
  }

  /** The value of a digit string; the empty string counts as zero, as `BigInt("")` does. */
  function ValueOf(s: string): nat
    requires AllDigits(s)
  {
    if s == "" then 0 else ValueOf(s[..|s| - 1]) * 10 + DigitValue(s[|s| - 1])
  }

  function Digits(n: nat): (s: string)
    ensures s != "" && AllDigits(s)
    ensures n > 0 ==> s[0] != '0'
    ensures |s| > 1 ==> n > 0
  {
    if n < 10 then [DigitOf(n)] else Digits(n / 10) + [DigitOf(n % 10)]
  }

  lemma {:induction false} ValueOfDigits(n: nat)
    ensures ValueOf(Digits(n)) == n
  {
    var s := Digits(n);
    if n < 10 {
      assert s[..0] == "";
    } else {
      assert s[..|s| - 1] == Digits(n / 10);
      ValueOfDigits(n / 10);
    }
  }

  lemma {:induction false} ValuePositive(s: string)
    requires AllDigits(s) && s != "" && s[0] != '0'
    ensures ValueOf(s) > 0
  {
    if |s| > 1 {
      ValuePositive(s[..|s| - 1]);
    }
  }

  /** A digit string without a superfluous leading zero is the one its value is written as. */
  lemma {:induction false} DigitsOfValue(s: string)
    requires AllDigits(s) && s != "" && (|s| > 1 ==> s[0] != '0')
    ensures Digits(ValueOf(s)) == s
  {
    var n := |s| - 1;
    var v, d := ValueOf(s[..n]), DigitValue(s[n]);
    assert ValueOf(s) == v * 10 + d && ValueOf(s) / 10 == v && ValueOf(s) % 10 == d;
    DigitValueInjective(s[n], DigitOf(d));
    if n > 0 {
      ValuePositive(s[..n]);
      DigitsOfValue(s[..n]);
      assert Digits(ValueOf(s)) == Digits(v) + [DigitOf(d)] == s[..n] + [s[n]] == s;
    }
  }

  lemma {:induction false} ValueOfLeadingZeros(z: nat, s: string)
    requires AllDigits(s)
    ensures AllDigits(Zeros(z) + s) && ValueOf(Zeros(z) + s) == ValueOf(s)
    decreases |s|, z
  {
    var t := Zeros(z) + s;
    if s != "" {
      assert t[..|t| - 1] == Zeros(z) + s[..|s| - 1];
      ValueOfLeadingZeros(z, s[..|s| - 1]);
    } else if z > 0 {
      assert t == Zeros(z) && t[..|t| - 1] == Zeros(z - 1) + "";
      ValueOfLeadingZeros(z - 1, "");
    }
  }

  function Zeros(z: nat): (s: string)
    ensures |s| == z && forall i | 0 <= i < z :: s[i] == '0'
  {
    seq(z, _ => '0')
  }

  /** Equal values of equally long digit strings mean equal strings. */
  lemma {:induction false} ValueInjective(s: string, t: string)
    requires AllDigits(s) && AllDigits(t) && |s| == |t| && ValueOf(s) == ValueOf(t)
    ensures s == t
  {
    if s != "" {
      var n := |s| - 1;
      ValueInjective(s[..n], t[..n]);
      assert s == s[..n] + [s[n]] && t == t[..n] + [t[n]];
      DigitValueInjective(s[n], t[n]);
    }
  }

  lemma DigitValueInjective(c: char, d: char)
    requires IsDigit(c) && IsDigit(d) && DigitValue(c) == DigitValue(d)
    ensures c == d
  {
    assert (c - '0') + '0' == c && (d - '0') + '0' == d;
  }

  // ---------- what the digits mean ----------

  const NUMERALS := "0123456789"

  /** Each numeral stands for its place, for writing and for reading, and nothing else is a digit. */
  lemma NumeralsFixDigits(c: char, d: nat)
    requires d < 10
    ensures NUMERALS[d] == DigitOf(d) && IsDigit(NUMERALS[d]) && DigitValue(NUMERALS[d]) == d
    ensures IsDigit(c) <==> c in NUMERALS
  {
    assert d in {0, 1, 2, 3, 4, 5, 6, 7, 8, 9};
    if IsDigit(c) {
      assert c in {'0', '1', '2', '3', '4', '5', '6', '7', '8', '9'};
    }
  }

  /** Writing one more digit multiplies by ten and adds it; the text of a number is read from left to right. */
  lemma AppendDigit(s: string, d: nat)
    requires AllDigits(s) && d < 10
    ensures AllDigits(s + [NUMERALS[d]]) && ValueOf(s + [NUMERALS[d]]) == 10 * ValueOf(s) + d
    ensures ValueOf("") == 0
  {
    NumeralsFixDigits('0', d);
    assert (s + [NUMERALS[d]])[..|s|] == s;
  }

  lemma Examples()
    ensures Digits(1205) == "1205" && Show(-307) == "-307" && Show(0) == "0"
  {
    assert Digits(1) == "1" && Digits(12) == "12" && Digits(120) == "120";
    assert Digits(3) == "3" && Digits(30) == "30" && Digits(307) == "307";
  }

  // ---------- signed integers ----------

  function Show(n: int): string {
    if n < 0 then "-" + Digits(-n) else Digits(n)
  }

  predicate Readable(s: string) {
    if s != "" && s[0] == '-' then |s| > 1 && AllDigits(s[1..]) else s != "" && AllDigits(s)
  }

  function Read(s: string): int
    requires Readable(s)
  {
    if s[0] == '-' then -(ValueOf(s[1..]) as int) else ValueOf(s)
  }

  lemma ShowReads(n: int)
    ensures Readable(Show(n)) && Read(Show(n)) == n
  {
    if n < 0 {
      assert Show(n)[1..] == Digits(-n);
      ValueOfDigits(-n);
    } else {
      assert IsDigit(Digits(n)[0]);
      ValueOfDigits(n);
    }
  }

  lemma ShowInjective(m: int, n: int)
    requires Show(m) == Show(n)
    ensures m == n
  {
    ShowReads(m);
    ShowReads(n);
  }
}
