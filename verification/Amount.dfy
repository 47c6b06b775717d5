/** Amounts on the wire: human decimal strings and whole satoshis. */
module Amount {
  import opened Decimal
  import opened Text

  const SATS_PER_COIN: nat := 100_000_000

  predicate WholePart(s: string) {
    s != "" && AllDigits(s) && (s[0] == '0' ==> |s| == 1)
  }

  predicate FractionPart(s: string) {
    1 <= |s| <= 8 && AllDigits(s)
  }

  /** The wire grammar: no leading zeros, at most one dot, one to eight fraction digits. */
  predicate IsValidHumanAmount(value: string) {
    var parts := Split(value, '.');
    && |parts| <= 2
    && WholePart(parts[0])
    && (|parts| == 2 ==> FractionPart(parts[1]))
  }

  function Whole(value: string): string {
    Split(value, '.')[0]
  }

  function Fraction(value: string): string {
    var parts := Split(value, '.');
    if |parts| > 1 then parts[1] else ""
  }

  function PadEnd(s: string): string {
    if |s| < 8 then s + Zeros(8 - |s|) else s
  }

  function PadStart(s: string): string {
    if |s| < 8 then Zeros(8 - |s|) + s else s
  }

  function TrimZeros(s: string): string {
    if s != "" && s[|s| - 1] == '0' then TrimZeros(s[..|s| - 1]) else s
  }

  /** None stands for the thrown grammar error. */
  function HumanToSats(value: string): Result<nat, ()> {
    if !IsValidHumanAmount(value) then Err(())
    else Ok(ValueOf(Whole(value)) * SATS_PER_COIN + ValueOf(PaddedFraction(value)))
  }

  function PaddedFraction(value: string): (s: string)
    requires IsValidHumanAmount(value)
    ensures AllDigits(s) && |s| == 8
  {
    PadEnd(Fraction(value))
  }

  function SatsToHuman(sats: int): string {
    var sign := if sats < 0 then "-" else "";
    var abs: nat := if sats < 0 then -sats else sats;
    var whole, fraction := abs / SATS_PER_COIN, abs % SATS_PER_COIN;
    if fraction == 0 then sign + Digits(whole)
    else sign + Digits(whole) + "." + TrimZeros(PadStart(Digits(fraction)))
  }

  /** The form without trailing fraction zeros, and without the dot when nothing is left behind it. */
  function Minimal(value: string): string {
    var f := TrimZeros(Fraction(value));
    if f == "" then Whole(value) else Whole(value) + "." + f
  }

  // ---------- facts about padding and trimming ----------

  lemma {:induction false} TrimZerosSplits(s: string) returns (z: nat)
    ensures z <= |s| && TrimZeros(s) == s[..|s| - z] && s == s[..|s| - z] + Zeros(z)
    ensures |s| > z ==> s[|s| - z - 1] != '0'
  {
    if s != "" && s[|s| - 1] == '0' {
      var t := s[..|s| - 1];
      z := TrimZerosSplits(t);
      z := z + 1;
      OneMoreZero(s, z);
    } else {
      z := 0;
    }
  }

  lemma OneMoreZero(s: string, z: nat)
    requires 0 < z <= |s| && s[|s| - 1] == '0'
    requires var t := s[..|s| - 1]; t == t[..|s| - z] + Zeros(z - 1)
    ensures s == s[..|s| - z] + Zeros(z)
  {
    var t := s[..|s| - 1];
    assert s == t + ['0'] && t[..|s| - z] == s[..|s| - z] && Zeros(z) == Zeros(z - 1) + ['0'];
  }

  /** Two strings that pad to the same eight characters have the same trimmed form. */
  lemma PadTrims(s: string)
    requires |s| <= 8
    ensures TrimZeros(PadEnd(s)) == TrimZeros(s)
  {
    hide TrimZeros;
    if |s| < 8 {
      TrimAppend(s, 8 - |s|);
    }
  }

  lemma {:induction false} TrimAppend(s: string, z: nat)
    ensures TrimZeros(s + Zeros(z)) == TrimZeros(s)
  {
    var t := s + Zeros(z);
    if z == 0 {
      assert t == s;
    } else {
      assert t[..|t| - 1] == s + Zeros(z - 1);
      TrimAppend(s, z - 1);
    }
  }

  lemma TrimPads(s: string)
    requires |s| == 8
    ensures PadEnd(TrimZeros(s)) == s
  {
    var z := TrimZerosSplits(s);
  }

  lemma {:induction false} DigitCount(n: nat, k: nat)
    requires n < Power10(k) && k > 0
    ensures |Digits(n)| <= k
  {
    if n >= 10 {
      DigitCount(n / 10, k - 1);
    }
  }

  function Power10(k: nat): nat {
    if k == 0 then 1 else 10 * Power10(k - 1)
  }

  lemma {:induction false} ValueBelow(s: string)
    requires AllDigits(s)
    ensures ValueOf(s) < Power10(|s|)
  {
    if s != "" {
      ValueBelow(s[..|s| - 1]);
    }
  }

  lemma Power8()
    ensures Power10(8) == SATS_PER_COIN
  {
    assert Power10(4) == 10_000;
    assert Power10(6) == 1_000_000;
  }

  /** The eight fraction digits of a number of satoshis. */
  lemma FractionDigits(fraction: nat)
    requires fraction < SATS_PER_COIN
    ensures var s := PadStart(Digits(fraction));
      |s| == 8 && AllDigits(s) && ValueOf(s) == fraction
  {
    Power8();
    DigitCount(fraction, 8);
    ValueOfDigits(fraction);
    var d := Digits(fraction);
    ValueOfLeadingZeros(8 - |d|, d);
    hide Digits, ValueOf, Power10;
    assert PadStart(d) == Zeros(8 - |d|) + d;
  }

  /** Eight fraction digits trim to nothing exactly when their value is zero. */
  lemma EmptyIffZero(s: string)
    requires |s| == 8 && AllDigits(s)
    ensures TrimZeros(s) == "" <==> ValueOf(s) == 0
    ensures PadEnd("") == Zeros(8) && ValueOf(Zeros(8)) == 0
  {
    hide TrimZeros, ValueOf, Power10;
    ZerosTrim();
    var z := TrimZerosSplits(s);
    if TrimZeros(s) == "" {
      assert s == Zeros(8);
    } else if ValueOf(s) == 0 {
      ValueInjective(s, Zeros(8));
    }
  }

  lemma ZerosTrim()
    ensures AllDigits(Zeros(8)) && ValueOf(Zeros(8)) == 0 && TrimZeros(Zeros(8)) == "" && PadEnd("") == Zeros(8)
  {
    ValueOfLeadingZeros(8, "");
    TrimAppend("", 8);
    assert "" + Zeros(8) == Zeros(8) == Zeros(8) + "";
  }

  lemma Halves(whole: nat, fraction: nat)
    requires fraction < SATS_PER_COIN
    ensures (whole * SATS_PER_COIN + fraction) / SATS_PER_COIN == whole
    ensures (whole * SATS_PER_COIN + fraction) % SATS_PER_COIN == fraction
  {}

  // ---------- main results ----------

  lemma SplitAtDot(whole: string, fraction: string)
    requires AllDigits(whole) && AllDigits(fraction)
    ensures Split(whole, '.') == [whole] && Split(whole + "." + fraction, '.') == [whole, fraction]
  {
    SplitPart(whole, '.');
    SplitPart(fraction, '.');
    SplitCons(whole, fraction, '.');
  }

  /** Every non-negative amount is written in the wire grammar and read back exactly. */
  lemma SatsRoundTrip(n: nat)
    ensures HumanToSats(SatsToHuman(n)) == Ok(n)
  {
    hide TrimZeros, Digits, ValueOf, Split, PadStart;
    var whole, fraction := n / SATS_PER_COIN, n % SATS_PER_COIN;
    ValueOfDigits(whole);
    var w, s := Digits(whole), PadStart(Digits(fraction));
    FractionDigits(fraction);
    var z := TrimZerosSplits(s);
    TrimPads(s);
    var f := TrimZeros(s);
    SplitAtDot(w, f);
    EmptyIffZero(s);
    assert SatsToHuman(n) == if fraction == 0 then w else w + "." + f;
    assert whole * SATS_PER_COIN + fraction == n;
  }

  /** A negative amount is written as a minus sign and its absolute value, and is never valid on the wire. */
  lemma NegativeIsNeverValid(n: int)
    requires n < 0
    ensures SatsToHuman(n) == "-" + SatsToHuman(-n) && HumanToSats(SatsToHuman(n)) == Err(())
  {
    var v := SatsToHuman(n);
    assert v == "-" + SatsToHuman(-n);
    assert v[0] == '-';
    assert Split(v, '.')[0][0] == '-';
  }

  /** For every valid string, converting there and back gives its form without trailing fraction zeros. */
  lemma HumanRoundTrip(value: string)
    requires IsValidHumanAmount(value)
    ensures SatsToHuman(HumanToSats(value).value) == Minimal(value)
  {
    hide TrimZeros, Digits, ValueOf, Split, Power10, PadStart, PadEnd;
    var w, p := Whole(value), PaddedFraction(value);
    Power8();
    ValueBelow(p);
    Halves(ValueOf(w), ValueOf(p));
    DigitsOfValue(w);
    FractionDigits(ValueOf(p));
    ValueInjective(PadStart(Digits(ValueOf(p))), p);
    PadTrims(Fraction(value));
    EmptyIffZero(p);
  }

  /** Two valid strings mean the same amount exactly when their minimal forms are the same string. */
  lemma EqualSatsIffEqualMinimal(v: string, w: string)
    requires IsValidHumanAmount(v) && IsValidHumanAmount(w)
    ensures HumanToSats(v) == HumanToSats(w) <==> Minimal(v) == Minimal(w)
  {
    HumanRoundTrip(v);
    HumanRoundTrip(w);
    if Minimal(v) == Minimal(w) {
      SatsRoundTrip(HumanToSats(v).value);
      SatsRoundTrip(HumanToSats(w).value);
    }
  }

  /** A minimal form is itself valid, minimal and worth the same. */
  lemma MinimalIsCanonical(v: string)
    requires IsValidHumanAmount(v)
    ensures IsValidHumanAmount(Minimal(v)) && Minimal(Minimal(v)) == Minimal(v)
    ensures HumanToSats(Minimal(v)) == HumanToSats(v)
  {
    HumanRoundTrip(v);
    SatsRoundTrip(HumanToSats(v).value);
    HumanRoundTrip(Minimal(v));
  }

  // ---------- what an amount is worth ----------

  lemma {:induction false} ValueAppend(s: string, t: string)
    requires AllDigits(s) && AllDigits(t)
    ensures AllDigits(s + t) && ValueOf(s + t) == ValueOf(s) * Power10(|t|) + ValueOf(t)
  {
    if t == "" {
      assert s + t == s;
    } else {
      var n := |t| - 1;
      assert (s + t)[..|s + t| - 1] == s + t[..n] && (s + t)[|s + t| - 1] == t[n];
      ValueAppend(s, t[..n]);
      assert Power10(|t|) == 10 * Power10(n);
      Distribute(ValueOf(s), Power10(n));
    }
  }

  lemma Distribute(v: nat, p: nat)
    ensures v * (10 * p) == 10 * (v * p)
  {}

  lemma {:induction false} PowerAdds(j: nat, k: nat)
    ensures Power10(j + k) == Power10(j) * Power10(k)
  {
    if j > 0 {
      PowerAdds(j - 1, k);
    }
  }

  /** `whole.fraction` is worth the number the digits form without the dot, in units of ten to the minus number of
      fraction digits: so many hundred-millionths. Without a fraction it is worth that many coins. */
  lemma WorthOf(whole: string, fraction: string)
    requires WholePart(whole) && FractionPart(fraction)
    ensures HumanToSats(whole) == Ok(ValueOf(whole) * 100000000)
    ensures AllDigits(whole + fraction) && HumanToSats(whole + "." + fraction).Ok?
    ensures HumanToSats(whole + "." + fraction).value * Power10(|fraction|) ==
      ValueOf(whole + fraction) * 100000000
  {
    assert AllDigits(whole) && AllDigits(fraction);
    var k := 8 - |fraction|;
    ReadWhole(whole);
    ReadFraction(whole, fraction);
    PaddedValue(fraction, k);
    ValueAppend(whole, fraction);
    Power8();
    PowerAdds(|fraction|, k);
    hide *;
    Worth(HumanToSats(whole + "." + fraction).value, ValueOf(whole + fraction), ValueOf(whole), ValueOf(fraction),
          Power10(|fraction|), Power10(k));
  }

  lemma Worth(sats: nat, digits: nat, w: nat, f: nat, p: nat, q: nat)
    requires sats == w * 100000000 + f * q && digits == w * p + f && p * q == 100000000
    ensures sats * p == digits * 100000000
  {
    assert w * 100000000 * p == w * p * 100000000;
    assert f * q * p == f * (p * q);
  }

  lemma ReadWhole(whole: string)
    requires WholePart(whole)
    ensures HumanToSats(whole) == Ok(ValueOf(whole) * SATS_PER_COIN)
  {
    SplitPart(whole, '.');
    ZerosTrim();
    SatsOf(whole, whole, "");
    hide *;
  }

  lemma ReadFraction(whole: string, fraction: string)
    requires WholePart(whole) && FractionPart(fraction)
    ensures AllDigits(PadEnd(fraction))
    ensures HumanToSats(whole + "." + fraction) == Ok(ValueOf(whole) * SATS_PER_COIN + ValueOf(PadEnd(fraction)))
  {
    SplitAtDot(whole, fraction);
    SatsOf(whole + "." + fraction, whole, fraction);
    hide *;
  }

  lemma SatsOf(value: string, whole: string, fraction: string)
    requires WholePart(whole) && (fraction == "" || FractionPart(fraction))
    requires Split(value, '.') == if fraction == "" then [whole] else [whole, fraction]
    ensures AllDigits(PadEnd(fraction))
    ensures HumanToSats(value) == Ok(ValueOf(whole) * SATS_PER_COIN + ValueOf(PadEnd(fraction)))
  {
    hide Split, ValueOf;
    assert IsValidHumanAmount(value) && Whole(value) == whole && Fraction(value) == fraction;
  }

  lemma PaddedValue(fraction: string, k: nat)
    requires AllDigits(fraction) && |fraction| + k == 8
    ensures AllDigits(PadEnd(fraction)) && ValueOf(PadEnd(fraction)) == ValueOf(fraction) * Power10(k)
  {
    ZeroTail(fraction, k);
    if k == 0 {
      assert fraction + Zeros(0) == fraction;
    }
    hide ValueOf, Power10;
  }

  lemma ZeroTail(s: string, z: nat)
    requires AllDigits(s)
    ensures AllDigits(s + Zeros(z)) && ValueOf(s + Zeros(z)) == ValueOf(s) * Power10(z)
  {
    ValueAppend(s, Zeros(z));
    ValueOfLeadingZeros(z, "");
    assert Zeros(z) + "" == Zeros(z);
  }
}
