/** Digit sequences in an arbitrary base, most significant first. */
module Positional {

  predicate DigitsIn(ds: seq<nat>, base: nat) {
    forall i | 0 <= i < |ds| :: ds[i] < base
  }

  function Value(ds: seq<nat>, base: nat): nat {
    if ds == [] then 0 else Value(ds[..|ds| - 1], base) * base + ds[|ds| - 1]
  }

  /** The shortest digits of a number; none for zero. */
  function DigitsOf(n: nat, base: nat): (ds: seq<nat>)
    requires base > 1
    ensures DigitsIn(ds, base) && (ds != [] ==> ds[0] != 0) && (n > 0 ==> ds != [])
    decreases n
  {
    if n == 0 then []
    else
      Shrinks(n, base);
      var rest := DigitsOf(n / base, base);
      rest + [n % base]
  }

  lemma MulAtLeast(k: int, m: int, base: nat)
    requires k >= m
    ensures k * base >= m * base
  {}

  lemma Shrinks(n: nat, base: nat)
    requires base > 1 && n > 0
    ensures n / base < n && n % base < base
    ensures n == n / base * base + n % base
    ensures n / base == 0 ==> n % base == n
  {
    var q := n / base;
    DivMod(n, base);
    if q >= n {
      assert q * base >= q * 2 by {
        MulAtLeast(base, 2, q);
      }
    }
  }

  lemma DivMod(n: nat, base: nat)
    requires base > 0
    ensures n == n / base * base + n % base && 0 <= n % base < base
  {}

  lemma Quotient(v: nat, d: nat, base: nat)
    requires d < base
    ensures (v * base + d) / base == v && (v * base + d) % base == d
  {
    var n := v * base + d;
    var q, r := n / base, n % base;
    DivMod(n, base);
    assert (q - v) * base == d - r;
    if q > v {
      MulAtLeast(q - v, 1, base);
    } else if q < v {
      MulAtLeast(v - q, 1, base);
    }
  }

  lemma {:induction false} ValueOfDigits(n: nat, base: nat)
    requires base > 1
    ensures Value(DigitsOf(n, base), base) == n
    decreases n
  {
    if n > 0 {
      Shrinks(n, base);
      ValueOfDigits(n / base, base);
      var ds := DigitsOf(n, base);
      assert ds[..|ds| - 1] == DigitsOf(n / base, base);
    }
  }

  lemma {:induction false} ValuePositive(ds: seq<nat>, base: nat)
    requires base > 0 && ds != [] && ds[0] != 0
    ensures Value(ds, base) > 0
  {
    if |ds| > 1 {
      ValuePositive(ds[..|ds| - 1], base);
      assert Value(ds[..|ds| - 1], base) * base > 0;
    }
  }

  /** Digits without a leading zero are determined by their value. */
  lemma {:induction false} DigitsOfValue(ds: seq<nat>, base: nat)
    requires base > 1 && DigitsIn(ds, base) && (ds != [] ==> ds[0] != 0)
    ensures DigitsOf(Value(ds, base), base) == ds
  {
    if ds != [] {
      var n := |ds| - 1;
      ValuePositive(ds, base);
      Quotient(Value(ds[..n], base), ds[n], base);
      DigitsOfValue(ds[..n], base);
      assert ds == ds[..n] + [ds[n]];
    }
  }

  lemma {:induction false} ValueOfLeadingZeros(z: nat, ds: seq<nat>, base: nat)
    ensures Value(Zeros(z) + ds, base) == Value(ds, base)
    decreases z + |ds|
  {
    var t := Zeros(z) + ds;
    if ds != [] {
      assert t[..|t| - 1] == Zeros(z) + ds[..|ds| - 1];
      ValueOfLeadingZeros(z, ds[..|ds| - 1], base);
    } else if z > 0 {
      assert t[..|t| - 1] == Zeros(z - 1) + [];
      ValueOfLeadingZeros(z - 1, [], base);
    }
  }

  function Zeros(z: nat): (s: seq<nat>)
    ensures |s| == z && forall i | 0 <= i < z :: s[i] == 0
  {
    seq(z, _ => 0)
  }

  /** Pairs of digits as digits of the squared base. */
  function Pairs(ds: seq<nat>, base: nat): (r: seq<nat>)
    requires |ds| % 2 == 0
    ensures |r| == |ds| / 2
  {
    if ds == [] then []
    else Pairs(ds[..|ds| - 2], base) + [ds[|ds| - 2] * base + ds[|ds| - 1]]
  }

  lemma Regroup(v: nat, d: nat, base: nat)
    ensures v * (base * base) + d * base == (v * base + d) * base
  {}

  lemma {:induction false} ValueOfPairs(ds: seq<nat>, base: nat)
    requires |ds| % 2 == 0
    ensures Value(Pairs(ds, base), base * base) == Value(ds, base)
  {
    if ds != [] {
      var n := |ds|;
      var r := Pairs(ds, base);
      ValueOfPairs(ds[..n - 2], base);
      assert r[..|r| - 1] == Pairs(ds[..n - 2], base);
      assert ds[..n - 1][..n - 2] == ds[..n - 2];
      Regroup(Value(ds[..n - 2], base), ds[n - 2], base);
    }
  }

  lemma {:induction false} PairDigits(ds: seq<nat>, base: nat)
    requires |ds| % 2 == 0 && DigitsIn(ds, base) && base > 0
    ensures DigitsIn(Pairs(ds, base), base * base)
    ensures ds != [] ==> Pairs(ds, base)[0] == ds[0] * base + ds[1]
  {
    if ds != [] {
      var n := |ds|;
      PairDigits(ds[..n - 2], base);
      PairBelow(ds[n - 2], ds[n - 1], base);
    }
  }

  lemma PairBelow(a: nat, b: nat, base: nat)
    requires a < base && b < base
    ensures a * base + b < base * base
  {
    assert a * base <= (base - 1) * base;
  }
}
