/** The wire grammars as the regular expressions they are specified by. */
module Grammar {
  import opened Decimal
  import opened Text
  import Amount
  import Base64
  import Canonical
  import Checks
  import Extensions
  import Headers

  /** A regular expression anchored at both ends: one character of a set, one outside it, nothing, sequence, choice,
      and repetition. */
  datatype Re = One(chars: set<char>) | Except(chars: set<char>) | Nothing | Cat(Re, Re) | Or(Re, Re) | Star(Re)

  ghost predicate Matches(r: Re, s: string)
    decreases r, |s|
  {
    match r
    case One(cs) => |s| == 1 && s[0] in cs
    case Except(cs) => |s| == 1 && s[0] !in cs
    case Nothing => s == ""
    case Cat(a, b) => exists i | 0 <= i <= |s| :: Matches(a, s[..i]) && Matches(b, s[i..])
    case Or(a, b) => Matches(a, s) || Matches(b, s)
    case Star(a) => s == "" || exists i | 0 < i <= |s| :: Matches(a, s[..i]) && Matches(r, s[i..])
  }

  function Of(s: string): set<char> {
    set c | c in s
  }

  function Plus(r: Re): Re {
    Cat(r, Star(r))
  }

  function Times(r: Re, n: nat): Re {
    if n == 0 then Nothing else Cat(r, Times(r, n - 1))
  }

  function Word(s: string): Re {
    if s == "" then Nothing else Cat(One({s[0]}), Word(s[1..]))
  }

  const DIGITS := Of("0123456789")
  const UPPER := Of("ABCDEFGHIJKLM") + Of("NOPQRSTUVWXYZ")
  const LOWER := Of("abcdefghijklm") + Of("nopqrstuvwxyz")
  const HEX := DIGITS + Of("abcdef")
  const ULID_CHARS := DIGITS + Of("ABCDEFGHJKMNP") + Of("QRSTVWXYZ")
  const BASE64_CHARS := UPPER + LOWER + DIGITS + Of("+/")

  /** What `\s` means, and the control characters besides. */
  const SPACES: set<char> := {
    '\U{9}', '\U{a}', '\U{b}', '\U{c}', '\U{d}', '\U{20}', '\U{a0}', '\U{1680}', '\U{2000}', '\U{2001}', '\U{2002}',
    '\U{2003}', '\U{2004}', '\U{2005}', '\U{2006}', '\U{2007}', '\U{2008}', '\U{2009}', '\U{200a}', '\U{2028}',
    '\U{2029}', '\U{202f}', '\U{205f}', '\U{3000}', '\U{feff}'}
  const CONTROLS := set c | '\U{0}' <= c <= '\U{1f}'
  const BREAKS := SPACES + CONTROLS + {'\U{7f}'}

  // ---------- matching single characters ----------

  /** The two ways to match one character. */
  predicate Single(r: Re) {
    r.One? || r.Except?
  }

  predicate Fits(r: Re, c: char)
    requires Single(r)
  {
    if r.One? then c in r.chars else c !in r.chars
  }

  lemma CatSingle(r: Re, b: Re, s: string)
    requires Single(r)
    ensures Matches(Cat(r, b), s) <==> s != "" && Fits(r, s[0]) && Matches(b, s[1..])
  {
    if s != "" && Fits(r, s[0]) && Matches(b, s[1..]) {
      assert Matches(r, s[..1]);
    }
    forall i | 0 <= i <= |s| && Matches(r, s[..i]) ensures i == 1 {}
  }

  lemma {:induction false} StarSingle(r: Re, s: string)
    requires Single(r)
    ensures Matches(Star(r), s) <==> forall i | 0 <= i < |s| :: Fits(r, s[i])
  {
    if s != "" {
      StarSingle(r, s[1..]);
      if Fits(r, s[0]) && Matches(Star(r), s[1..]) {
        assert Matches(r, s[..1]);
      }
      forall i | 0 < i <= |s| && Matches(r, s[..i]) ensures i == 1 {}
      assert forall i | 0 < i < |s| :: s[i] == s[1..][i - 1];
    }
  }

  lemma PlusSingle(r: Re, s: string)
    requires Single(r)
    ensures Matches(Plus(r), s) <==> s != "" && forall i | 0 <= i < |s| :: Fits(r, s[i])
  {
    CatSingle(r, Star(r), s);
    if s != "" {
      StarSingle(r, s[1..]);
      assert forall i | 0 < i < |s| :: s[i] == s[1..][i - 1];
    }
  }

  lemma {:induction false} TimesSingle(r: Re, n: nat, s: string)
    requires Single(r)
    ensures Matches(Times(r, n), s) <==> |s| == n && forall i | 0 <= i < |s| :: Fits(r, s[i])
  {
    if n > 0 {
      CatSingle(r, Times(r, n - 1), s);
      if s != "" {
        TimesSingle(r, n - 1, s[1..]);
        assert forall i | 0 < i < |s| :: s[i] == s[1..][i - 1];
      }
    }
  }

  lemma {:induction false} WordExactly(w: string, s: string)
    ensures Matches(Word(w), s) <==> s == w
  {
    if w != "" {
      CatSingle(One({w[0]}), Word(w[1..]), s);
      if s != "" {
        WordExactly(w[1..], s[1..]);
        assert s == [s[0]] + s[1..] && w == [w[0]] + w[1..];
      }
    }
  }

  lemma CatWord(w: string, b: Re, s: string)
    ensures Matches(Cat(Word(w), b), s) <==> |w| <= |s| && s[..|w|] == w && Matches(b, s[|w|..])
  {
    forall t ensures Matches(Word(w), t) <==> t == w {
      WordExactly(w, t);
    }
  }

  // ---------- the alphabets ----------

  lemma DigitChars(c: char)
    ensures c in DIGITS <==> IsDigit(c)
  {
    NumeralsFixDigits(c, 0);
  }

  lemma CapitalChars(c: char)
    ensures c in UPPER <==> IsUpper(c)
  {
    if IsUpper(c) {
      assert c <= 'M' ==> c in {'A', 'B', 'C', 'D', 'E', 'F', 'G', 'H', 'I', 'J', 'K', 'L', 'M'};
      assert c > 'M' ==> c in {'N', 'O', 'P', 'Q', 'R', 'S', 'T', 'U', 'V', 'W', 'X', 'Y', 'Z'};
    }
  }

  lemma SmallChars(c: char)
    ensures c in LOWER <==> IsLower(c)
  {
    if IsLower(c) {
      assert c <= 'm' ==> c in {'a', 'b', 'c', 'd', 'e', 'f', 'g', 'h', 'i', 'j', 'k', 'l', 'm'};
      assert c > 'm' ==> c in {'n', 'o', 'p', 'q', 'r', 's', 't', 'u', 'v', 'w', 'x', 'y', 'z'};
    }
  }

  lemma HexChars(c: char)
    ensures c in HEX <==> IsDigit(c) || 'a' <= c <= 'f'
  {
    DigitChars(c);
    if 'a' <= c <= 'f' {
      assert c in {'a', 'b', 'c', 'd', 'e', 'f'};
    }
  }

  lemma UlidChars(c: char)
    ensures c in ULID_CHARS <==> Canonical.Crockford(c)
  {
    DigitChars(c);
    UlidLetters(c);
    hide Of;
  }

  lemma UlidLetters(c: char)
    ensures c in Of("ABCDEFGHJKMNP") + Of("QRSTVWXYZ") <==> IsUpper(c) && c != 'I' && c != 'L' && c != 'O' && c != 'U'
  {
    if IsUpper(c) {
      assert c <= 'M' ==> c in {'A', 'B', 'C', 'D', 'E', 'F', 'G', 'H', 'I', 'J', 'K', 'L', 'M'};
      assert c > 'M' ==> c in {'N', 'O', 'P', 'Q', 'R', 'S', 'T', 'U', 'V', 'W', 'X', 'Y', 'Z'};
    }
  }

  lemma BreakChars(c: char)
    ensures c in BREAKS <==> Canonical.Breaks(c)
  {
    assert c in CONTROLS <==> c < ' ';
    if '\U{2000}' <= c <= '\U{200a}' {
      assert c in {'\U{2000}', '\U{2001}', '\U{2002}', '\U{2003}', '\U{2004}', '\U{2005}', '\U{2006}', '\U{2007}',
                   '\U{2008}', '\U{2009}', '\U{200a}'};
    }
  }

  // ---------- fields of the canonical string ----------

  const METHOD := Plus(One(UPPER))
  const NETWORK := Plus(One(LOWER + DIGITS))
  const LINE_SAFE := Plus(Except(BREAKS))
  const IDENTITY := Cat(LINE_SAFE, Word("@"))
  const ULID := Cat(One(Of("01234567")), Times(One(ULID_CHARS), 25))

  /** `^[A-Z]+$` */
  lemma MethodGrammar(s: string)
    ensures Canonical.Method(s) <==> Matches(METHOD, s)
  {
    PlusSingle(One(UPPER), s);
    forall c ensures c in UPPER <==> IsUpper(c) { CapitalChars(c); }
    assert (forall c | c in s :: IsUpper(c)) <==> forall i | 0 <= i < |s| :: IsUpper(s[i]);
  }

  /** `^[a-z0-9]+$` */
  lemma NetworkGrammar(s: string)
    ensures Canonical.Network(s) <==> Matches(NETWORK, s)
  {
    PlusSingle(One(LOWER + DIGITS), s);
    forall c ensures c in LOWER + DIGITS <==> IsLower(c) || IsDigit(c) { SmallChars(c); DigitChars(c); }
    assert (forall c | c in s :: IsLower(c) || IsDigit(c)) <==>
      forall i | 0 <= i < |s| :: IsLower(s[i]) || IsDigit(s[i]);
  }

  /** `^[^\s\x00-\x1f\x7f]+$` */
  lemma LineSafeGrammar(s: string)
    ensures Canonical.LineSafe(s) <==> Matches(LINE_SAFE, s)
  {
    PlusSingle(Except(BREAKS), s);
    forall c ensures c in BREAKS <==> Canonical.Breaks(c) { BreakChars(c); }
    assert (forall c | c in s :: !Canonical.Breaks(c)) <==> forall i | 0 <= i < |s| :: !Canonical.Breaks(s[i]);
  }

  /** `^[^\s\x00-\x1f\x7f]+@$` */
  lemma IdentityGrammar(s: string)
    ensures Canonical.IdentityName(s) <==> Matches(IDENTITY, s)
  {
    hide Matches, Canonical.LineSafe;
    if Canonical.IdentityName(s) {
      NameBeforeAt(s);
      LineSafeGrammar(s[..|s| - 1]);
      WordExactly("@", s[|s| - 1..]);
      CatMeans(LINE_SAFE, Word("@"), s, |s| - 1);
    }
    if Matches(IDENTITY, s) {
      var i := CatSplits(LINE_SAFE, Word("@"), s);
      WordExactly("@", s[i..]);
      assert i == |s| - 1 && s[i] == s[i..][0];
      LineSafeGrammar(s[..i]);
      NameBeforeAt(s);
    }
  }

  lemma NameBeforeAt(s: string)
    requires s != ""
    ensures Canonical.IdentityName(s) <==> s[|s| - 1] == '@' && Canonical.LineSafe(s[..|s| - 1])
  {
    var n := |s| - 1;
    assert s == s[..n] + [s[n]];
    assert !Canonical.Breaks('@');
    hide Canonical.Breaks;
  }

  /** `^[0-7][0-9A-HJKMNP-TV-Z]{25}$` */
  lemma UlidGrammar(s: string)
    ensures Canonical.Ulid(s) <==> Matches(ULID, s)
  {
    CatSingle(One(Of("01234567")), Times(One(ULID_CHARS), 25), s);
    if s != "" {
      TimesSingle(One(ULID_CHARS), 25, s[1..]);
      hide Matches, Times;
      UlidTail(s);
      OctalDigit(s[0]);
    }
  }

  lemma UlidTail(s: string)
    requires s != ""
    ensures (forall c | c in s :: Canonical.Crockford(c)) <==>
      Canonical.Crockford(s[0]) && forall i | 0 <= i < |s| - 1 :: s[1..][i] in ULID_CHARS
  {
    forall c ensures c in ULID_CHARS <==> Canonical.Crockford(c) {
      UlidChars(c);
    }
    AllIn(s, ULID_CHARS);
    hide Canonical.Crockford;
  }

  lemma AllIn(s: string, cs: set<char>)
    requires s != ""
    ensures (forall c | c in s :: c in cs) <==> s[0] in cs && forall i | 0 <= i < |s| - 1 :: s[1..][i] in cs
  {
    assert s == [s[0]] + s[1..];
    assert forall c | c in s[1..] :: exists i :: 0 <= i < |s| - 1 && s[1..][i] == c;
  }

  lemma OctalDigit(c: char)
    ensures '0' <= c <= '7' <==> c in Of("01234567")
    ensures '0' <= c <= '7' ==> Canonical.Crockford(c)
  {
    if '0' <= c <= '7' {
      assert c in {'0', '1', '2', '3', '4', '5', '6', '7'};
    }
  }

  // ---------- numbers ----------

  const NUMERAL := Plus(One(DIGITS))
  const NUMBER := Or(Word("0"), Cat(One(Of("123456789")), Star(One(DIGITS))))
  const SCHEME_VERSION := Cat(NUMERAL, Cat(Word("."), NUMERAL))
  const AMOUNT := Cat(NUMBER, Or(Nothing, Cat(Word("."), UpTo(One(DIGITS), 8))))

  /** From one to `n` times. */
  function UpTo(r: Re, n: nat): Re {
    if n <= 1 then r else Or(r, Cat(r, UpTo(r, n - 1)))
  }

  lemma {:induction false} UpToSingle(r: Re, n: nat, s: string)
    requires Single(r) && n >= 1
    ensures Matches(UpTo(r, n), s) <==> 1 <= |s| <= n && forall i | 0 <= i < |s| :: Fits(r, s[i])
  {
    if n > 1 {
      CatSingle(r, UpTo(r, n - 1), s);
      if s != "" {
        UpToSingle(r, n - 1, s[1..]);
        assert forall i | 0 < i < |s| :: s[i] == s[1..][i - 1];
      }
    }
  }

  lemma NumeralGrammar(s: string)
    ensures Matches(NUMERAL, s) <==> s != "" && AllDigits(s)
  {
    PlusSingle(One(DIGITS), s);
    forall c ensures c in DIGITS <==> IsDigit(c) {
      DigitChars(c);
    }
  }

  /** `^(?:0|[1-9]\d*)$` */
  lemma NumberGrammar(s: string)
    ensures Amount.WholePart(s) <==> Matches(NUMBER, s)
  {
    WordExactly("0", s);
    CatSingle(One(Of("123456789")), Star(One(DIGITS)), s);
    if s != "" {
      StarSingle(One(DIGITS), s[1..]);
      forall c ensures c in DIGITS <==> IsDigit(c) {
        DigitChars(c);
      }
      assert forall i | 0 < i < |s| :: s[i] == s[1..][i - 1];
      LeadingDigit(s[0]);
      hide Matches;
    }
  }

  lemma LeadingDigit(c: char)
    ensures c in Of("123456789") <==> IsDigit(c) && c != '0'
  {
    if IsDigit(c) {
      assert c in {'0', '1', '2', '3', '4', '5', '6', '7', '8', '9'};
    }
  }

  /** Two parts around one separator, and no further one. */
  lemma SplitTwo(s: string, c: char, a: string, b: string)
    ensures Split(s, c) == [a, b] <==> s == a + [c] + b && c !in a && c !in b
  {
    if Split(s, c) == [a, b] {
      JoinSplit(s, c);
      assert [a, b][1..] == [b];
      assert a in Split(s, c) && b in Split(s, c);
    } else if s == a + [c] + b && c !in a && c !in b {
      SplitCons(a, b, c);
      SplitPart(b, c);
    }
  }

  lemma SplitOne(s: string, c: char)
    ensures |Split(s, c)| == 1 <==> c !in s
    ensures c !in s ==> Split(s, c) == [s]
  {
    JoinSplit(s, c);
    if |Split(s, c)| == 1 {
      assert Split(s, c)[0] in Split(s, c);
    }
    if c !in s {
      SplitPart(s, c);
    }
  }

  lemma CatMeans(a: Re, b: Re, s: string, i: nat)
    requires i <= |s| && Matches(a, s[..i]) && Matches(b, s[i..])
    ensures Matches(Cat(a, b), s)
  {}

  lemma CatSplits(a: Re, b: Re, s: string) returns (i: nat)
    requires Matches(Cat(a, b), s)
    ensures i <= |s| && Matches(a, s[..i]) && Matches(b, s[i..])
  {
    i :| 0 <= i <= |s| && Matches(a, s[..i]) && Matches(b, s[i..]);
  }

  /** `^\d+\.\d+$` */
  lemma SchemeVersionGrammar(s: string)
    ensures Canonical.SchemeVersion(s) <==> Matches(SCHEME_VERSION, s)
  {
    hide Matches, Split, AllDigits;
    if Canonical.SchemeVersion(s) {
      var a, b := Split(s, '.')[0], Split(s, '.')[1];
      assert Split(s, '.') == [a, b] && a in Split(s, '.') && b in Split(s, '.');
      SplitTwo(s, '.', a, b);
      NumeralGrammar(a);
      NumeralGrammar(b);
      Dotted(NUMERAL, NUMERAL, s, a, b);
    }
    if Matches(SCHEME_VERSION, s) {
      var a, b := DottedParts(NUMERAL, NUMERAL, s);
      NumeralGrammar(a);
      NumeralGrammar(b);
      NoDot(a);
      NoDot(b);
      SplitTwo(s, '.', a, b);
    }
  }

  lemma NoDot(s: string)
    requires AllDigits(s)
    ensures '.' !in s
  {}

  lemma Dotted(p: Re, q: Re, s: string, a: string, b: string)
    requires s == a + "." + b && Matches(p, a) && Matches(q, b)
    ensures Matches(Cat(p, Cat(Word("."), q)), s)
  {
    CatWord(".", q, "." + b);
    hide Matches, Word;
    var k := |a|;
    assert s[..k] == a && s[k..] == "." + b && ("." + b)[1..] == b && ("." + b)[..1] == ".";
    CatMeans(p, Cat(Word("."), q), s, k);
  }

  lemma DottedParts(p: Re, q: Re, s: string) returns (a: string, b: string)
    requires Matches(Cat(p, Cat(Word("."), q)), s)
    ensures s == a + "." + b && Matches(p, a) && Matches(q, b)
  {
    hide Matches, Word;
    var i := CatSplits(p, Cat(Word("."), q), s);
    var t := s[i..];
    CatWord(".", q, t);
    a, b := s[..i], t[1..];
    assert s == s[..i] + t && t == t[..1] + t[1..];
  }

  /** `^(?:0|[1-9]\d*)(?:\.\d{1,8})?$` */
  lemma AmountGrammar(s: string)
    ensures Amount.IsValidHumanAmount(s) <==> Matches(AMOUNT, s)
  {
    hide Matches, Split, AllDigits, UpTo;
    if Amount.IsValidHumanAmount(s) {
      SplitOne(s, '.');
      if '.' in s {
        var a, b := Split(s, '.')[0], Split(s, '.')[1];
        assert Split(s, '.') == [a, b];
        SplitTwo(s, '.', a, b);
        NumberGrammar(a);
        FractionGrammar(b);
        AmountWithFraction(s, a, b);
      } else {
        NumberGrammar(s);
        AmountWithoutFraction(s);
      }
    }
    if Matches(AMOUNT, s) {
      var a, b := AmountParts(s);
      NumberGrammar(a);
      NoDot(a);
      SplitOne(a, '.');
      if s != a {
        FractionGrammar(b);
        NoDot(b);
        SplitTwo(s, '.', a, b);
      }
    }
  }

  lemma FractionGrammar(s: string)
    ensures Amount.FractionPart(s) <==> Matches(UpTo(One(DIGITS), 8), s)
  {
    UpToSingle(One(DIGITS), 8, s);
    forall c ensures c in DIGITS <==> IsDigit(c) {
      DigitChars(c);
    }
    hide Matches;
  }

  lemma AmountWithFraction(s: string, a: string, b: string)
    requires s == a + "." + b && Matches(NUMBER, a) && Matches(UpTo(One(DIGITS), 8), b)
    ensures Matches(AMOUNT, s)
  {
    hide UpTo;
    var q := UpTo(One(DIGITS), 8);
    Dotted(NUMBER, q, s, a, b);
    hide Matches;
    var i := CatSplits(NUMBER, Cat(Word("."), q), s);
    OrMeans(Nothing, Cat(Word("."), q), s[i..]);
    CatMeans(NUMBER, Or(Nothing, Cat(Word("."), q)), s, i);
  }

  lemma OrMeans(a: Re, b: Re, s: string)
    ensures Matches(Or(a, b), s) <==> Matches(a, s) || Matches(b, s)
    ensures Matches(Nothing, s) <==> s == ""
  {}

  lemma AmountWithoutFraction(s: string)
    requires Matches(NUMBER, s)
    ensures Matches(AMOUNT, s)
  {
    hide Matches, UpTo;
    OrMeans(Nothing, Cat(Word("."), UpTo(One(DIGITS), 8)), "");
    assert s[..|s|] == s && s[|s|..] == "";
    CatMeans(NUMBER, Or(Nothing, Cat(Word("."), UpTo(One(DIGITS), 8))), s, |s|);
  }

  lemma AmountParts(s: string) returns (a: string, b: string)
    requires Matches(AMOUNT, s)
    ensures Matches(NUMBER, a)
    ensures s == a || (s == a + "." + b && Matches(UpTo(One(DIGITS), 8), b))
  {
    hide Matches, UpTo;
    var q := UpTo(One(DIGITS), 8);
    var i := CatSplits(NUMBER, Or(Nothing, Cat(Word("."), q)), s);
    OrMeans(Nothing, Cat(Word("."), q), s[i..]);
    if s[i..] == "" {
      a, b := s, "";
      assert s[..i] == s;
    } else {
      CatMeans(NUMBER, Cat(Word("."), q), s, i);
      a, b := DottedParts(NUMBER, q, s);
    }
  }

  /** The issue time is a number without leading zeros that a double holds exactly. */
  lemma IssuedAtGrammar(s: string)
    ensures Headers.IssuedAt(s) <==> Matches(NUMBER, s) && AllDigits(s) && ValueOf(s) <= 9007199254740991
  {
    NumberGrammar(s);
    hide Matches;
  }

  // ---------- dashed words ----------

  const WORD_CHARS := LOWER + DIGITS
  const DASHED := Cat(Plus(One(WORD_CHARS)), Star(Cat(Word("-"), Plus(One(WORD_CHARS)))))

  lemma WordChars(s: string)
    ensures Matches(Plus(One(WORD_CHARS)), s) <==> s != "" && forall c | c in s :: IsLower(c) || IsDigit(c)
  {
    NetworkGrammar(s);
  }

  /** What follows the first word: nothing, or a dash and a dashed rest. */
  lemma DashTail(t: string)
    ensures Matches(Star(Cat(Word("-"), Plus(One(WORD_CHARS)))), t) <==>
      t == "" || (t[0] == '-' && Matches(DASHED, t[1..]))
  {
    DashThen(Plus(One(WORD_CHARS)), t);
    hide Matches, Plus, Word;
  }

  lemma DashThen(word: Re, t: string)
    ensures Matches(Star(Cat(Word("-"), word)), t) <==>
      t == "" || (t[0] == '-' && Matches(Cat(word, Star(Cat(Word("-"), word))), t[1..]))
  {
    StarOfNothing(Cat(Word("-"), word));
    hide Matches, Word;
    if t != "" {
      if Matches(Star(Cat(Word("-"), word)), t) {
        DashFirst(word, t);
      }
      if t[0] == '-' && Matches(Cat(word, Star(Cat(Word("-"), word))), t[1..]) {
        DashBefore(word, t);
      }
    }
  }

  lemma DashFirst(word: Re, t: string)
    requires t != "" && Matches(Star(Cat(Word("-"), word)), t)
    ensures t[0] == '-' && Matches(Cat(word, Star(Cat(Word("-"), word))), t[1..])
  {
    hide Matches;
    var step := Cat(Word("-"), word);
    var i := StarSplits(step, t);
    CatWord("-", word, t[..i]);
    hide Word;
    assert t[..i][..1] == [t[0]] && t[..i][1..] == t[1..][..i - 1] && t[1..][i - 1..] == t[i..];
    CatMeans(word, Star(step), t[1..], i - 1);
  }

  lemma DashBefore(word: Re, t: string)
    requires t != "" && t[0] == '-' && Matches(Cat(word, Star(Cat(Word("-"), word))), t[1..])
    ensures Matches(Star(Cat(Word("-"), word)), t)
  {
    hide Matches;
    var step := Cat(Word("-"), word);
    var k := CatSplits(word, Star(step), t[1..]);
    CatWord("-", word, t[..k + 1]);
    hide Word;
    assert t[..k + 1][..1] == [t[0]] && t[..k + 1][1..] == t[1..][..k] && t[1..][k..] == t[k + 1..];
    StarMeans(step, t, k + 1);
  }

  /** `^[a-z0-9]+(?:-[a-z0-9]+)*$` */
  lemma {:induction false} DashedGrammar(s: string)
    ensures DashedWords(s) <==> Matches(DASHED, s)
    decreases |s|
  {
    hide Matches, DashedWords;
    if '-' !in s {
      OneWord(s);
    } else {
      var k := FirstDash(s);
      DashedGrammar(s[k + 1..]);
      MoreWords(s, k);
    }
  }

  lemma OneWord(s: string)
    requires '-' !in s
    ensures DashedWords(s) <==> Matches(DASHED, s)
  {
    SplitPart(s, '-');
    assert DashedWords(s) <==> IsWord(s);
    WordIs(s);
    OneWordMatches(s);
    hide *;
  }

  lemma OneWordMatches(s: string)
    requires '-' !in s
    ensures Matches(DASHED, s) <==> Matches(Plus(One(WORD_CHARS)), s)
  {
    var word, tail := Plus(One(WORD_CHARS)), Star(Cat(Word("-"), Plus(One(WORD_CHARS))));
    DashTail("");
    hide Matches;
    assert s[..|s|] == s && s[|s|..] == "";
    if Matches(word, s) {
      CatMeans(word, tail, s, |s|);
    }
    if Matches(DASHED, s) {
      var i := CatSplits(word, tail, s);
      DashTail(s[i..]);
      assert s[i..] != "" ==> s[i..][0] in s;
    }
  }

  lemma WordIs(s: string)
    ensures IsWord(s) <==> Matches(Plus(One(WORD_CHARS)), s)
  {
    WordChars(s);
    hide Matches;
  }

  lemma MoreWords(s: string, k: nat)
    requires k < |s| && s[k] == '-' && '-' !in s[..k] && (DashedWords(s[k + 1..]) <==> Matches(DASHED, s[k + 1..]))
    ensures DashedWords(s) <==> Matches(DASHED, s)
  {
    hide Matches;
    var word, tail := Plus(One(WORD_CHARS)), Star(Cat(Word("-"), Plus(One(WORD_CHARS))));
    var a, t := s[..k], s[k + 1..];
    FirstWord(s, k);
    hide DashedWords;
    WordChars(a);
    DashTail(s[k..]);
    assert s[k..][1..] == t;
    if Matches(word, a) && Matches(DASHED, t) {
      CatMeans(word, tail, s, k);
    }
    if Matches(DASHED, s) {
      var i := CatSplits(word, tail, s);
      DashTail(s[i..]);
      WordChars(s[..i]);
      SameDash(s, i, k);
    }
  }

  lemma FirstWord(s: string, k: nat)
    requires k < |s| && s[k] == '-' && '-' !in s[..k]
    ensures DashedWords(s) <==>
      s[..k] != "" && (forall c | c in s[..k] :: IsLower(c) || IsDigit(c)) && DashedWords(s[k + 1..])
  {
    var a, t := s[..k], s[k + 1..];
    assert s == a + "-" + t;
    SplitCons(a, t, '-');
    hide DashedWords;
    assert IsWord(a) <==> a != "" && forall c | c in a :: IsLower(c) || IsDigit(c);
    hide Split, IsWord;
    assert forall w :: w in [a] + Split(t, '-') <==> w == a || w in Split(t, '-');
  }

  lemma FirstDash(s: string) returns (k: nat)
    requires '-' in s
    ensures k < |s| && s[k] == '-' && '-' !in s[..k]
  {
    if s[0] == '-' {
      k := 0;
    } else {
      k := FirstDash(s[1..]);
      k := k + 1;
      assert s[..k] == [s[0]] + s[1..][..k - 1];
    }
  }

  lemma SameDash(s: string, i: nat, k: nat)
    requires k < |s| && s[k] == '-' && '-' !in s[..k] && i <= |s|
    requires (forall c | c in s[..i] :: IsLower(c) || IsDigit(c)) && (s[i..] == "" || s[i..][0] == '-')
    ensures i == k
  {
    assert forall j | 0 <= j < i :: s[..i][j] == s[j] && s[..i][j] in s[..i];
    assert forall j | 0 <= j < k :: s[..k][j] == s[j] && s[..k][j] in s[..k];
  }

  // ---------- extensions ----------

  const NAME := Cat(One(UPPER + LOWER), Star(One(UPPER + LOWER + DIGITS)))
  const PREFIX := Or(Word("scheme"), Or(Word("iana"), Cat(Word("x-"), DASHED)))
  const EXTENSION_KEY := Cat(PREFIX, Cat(Word("."), NAME))

  lemma NameGrammar(s: string)
    ensures Extensions.ValidName(s) <==> Matches(NAME, s)
  {
    CatSingle(One(UPPER + LOWER), Star(One(UPPER + LOWER + DIGITS)), s);
    if s != "" {
      StarSingle(One(UPPER + LOWER + DIGITS), s[1..]);
      hide Matches;
      NameChars(s);
    }
  }

  lemma NameChars(s: string)
    requires s != ""
    ensures s[0] in UPPER + LOWER <==> IsLower(s[0]) || IsUpper(s[0])
    ensures (forall c | c in s :: IsLower(c) || IsUpper(c) || IsDigit(c)) <==>
      s[0] in UPPER + LOWER + DIGITS && forall i | 0 <= i < |s| - 1 :: s[1..][i] in UPPER + LOWER + DIGITS
  {
    forall c
      ensures c in UPPER + LOWER <==> IsLower(c) || IsUpper(c)
      ensures c in UPPER + LOWER + DIGITS <==> IsLower(c) || IsUpper(c) || IsDigit(c)
    {
      CapitalChars(c);
      SmallChars(c);
      DigitChars(c);
    }
    AllIn(s, UPPER + LOWER + DIGITS);
    hide IsLower, IsUpper, IsDigit;
  }

  lemma PrefixGrammar(s: string)
    ensures Extensions.ValidPrefix(s) <==> Matches(PREFIX, s)
  {
    WordExactly("scheme", s);
    WordExactly("iana", s);
    CatWord("x-", DASHED, s);
    OrMeans(Word("scheme"), Or(Word("iana"), Cat(Word("x-"), DASHED)), s);
    OrMeans(Word("iana"), Cat(Word("x-"), DASHED), s);
    if |s| >= 2 {
      DashedGrammar(s[2..]);
    }
    assert !DashedWords("") by {
      assert "" in Split("", '-');
    }
    hide Matches, DashedWords;
  }

  /** `^(?:scheme|iana|x-[a-z0-9]+(?:-[a-z0-9]+)*)\.[A-Za-z][A-Za-z0-9]*$` */
  lemma ExtensionKeyGrammar(s: string)
    ensures Extensions.ValidKey(s) <==> Matches(EXTENSION_KEY, s)
  {
    hide Matches, Split, Extensions.ValidPrefix, Extensions.ValidName;
    if Extensions.ValidKey(s) {
      var a, b := Split(s, '.')[0], Split(s, '.')[1];
      assert Split(s, '.') == [a, b];
      SplitTwo(s, '.', a, b);
      PrefixGrammar(a);
      NameGrammar(b);
      Dotted(PREFIX, NAME, s, a, b);
    }
    if Matches(EXTENSION_KEY, s) {
      var a, b := DottedParts(PREFIX, NAME, s);
      PrefixGrammar(a);
      NameGrammar(b);
      Extensions.PrefixChars(a);
      NameHasNoDot(b);
      assert '.' !in a;
      SplitTwo(s, '.', a, b);
    }
  }

  lemma NameHasNoDot(s: string)
    requires Extensions.ValidName(s)
    ensures '.' !in s
  {}

  /** A value is not empty, on one line, and does not start with a space. */
  lemma ValueRule(s: string)
    ensures Extensions.ValidValue(s) <==>
      |s| > 0 && s[0] != ' ' && forall i | 0 <= i < |s| :: s[i] != '\r' && s[i] != '\n'
  {}

  // ---------- hashes and signatures ----------

  const BODY_HASH := Cat(Word("sha256:"), Times(One(HEX), 64))

  /** `^sha256:[0-9a-f]{64}$` */
  lemma BodyHashGrammar(s: string)
    ensures Checks.BodyHashForm(s) <==> Matches(BODY_HASH, s)
  {
    CatWord("sha256:", Times(One(HEX), 64), s);
    if |s| >= 7 {
      TimesSingle(One(HEX), 64, s[7..]);
      forall c ensures c in HEX <==> IsDigit(c) || 'a' <= c <= 'f' {
        HexChars(c);
      }
      hide Matches, Times, IsDigit;
      var t := s[7..];
      assert (forall c | c in t :: IsDigit(c) || 'a' <= c <= 'f') <==>
        forall i | 0 <= i < |t| :: IsDigit(t[i]) || 'a' <= t[i] <= 'f';
    }
  }

  const FOUR := Times(One(BASE64_CHARS), 4)
  const GROUP := Or(Cat(Times(One(BASE64_CHARS), 2), Word("==")),
                    Or(Cat(Times(One(BASE64_CHARS), 3), Word("=")), FOUR))
  const BASE64 := Cat(Star(FOUR), GROUP)

  lemma Base64Chars(c: char)
    ensures c in BASE64_CHARS <==> Base64.IsSymbol(c)
  {
    CapitalChars(c);
    SmallChars(c);
    DigitChars(c);
  }

  lemma {:induction false} TimesThen(r: Re, n: nat, b: Re, s: string)
    requires Single(r)
    ensures Matches(Cat(Times(r, n), b), s) <==>
      n <= |s| && (forall i | 0 <= i < n :: Fits(r, s[i])) && Matches(b, s[n..])
  {
    forall t ensures Matches(Times(r, n), t) <==> |t| == n && forall i | 0 <= i < |t| :: Fits(r, t[i]) {
      TimesSingle(r, n, t);
    }
    hide Times, Fits;
    if n <= |s| {
      assert forall i | 0 <= i < n :: s[..n][i] == s[i];
    }
  }

  lemma PaddedBy(cs: set<char>, n: nat, w: string, s: string)
    ensures Matches(Cat(Times(One(cs), n), Word(w)), s) <==>
      |s| == n + |w| && (forall i | 0 <= i < n :: s[i] in cs) && s[n..] == w
  {
    TimesThen(One(cs), n, Word(w), s);
    FitsOne(cs);
    hide Times, Fits;
    if n <= |s| {
      WordExactly(w, s[n..]);
    }
    hide Matches;
  }

  lemma FitsOne(cs: set<char>)
    ensures Single(One(cs)) && forall c :: Fits(One(cs), c) <==> c in cs
  {}

  lemma OnePad(cs: set<char>, s: string)
    ensures Matches(Cat(Times(One(cs), 3), Word("=")), s) <==>
      |s| == 4 && s[0] in cs && s[1] in cs && s[2] in cs && s[3] == '='
  {
    PaddedBy(cs, 3, "=", s);
    hide Matches, Times, Word;
    assert |s| == 4 ==> (s[3..] == "=" <==> s[3] == '=');
  }

  lemma TwoPads(cs: set<char>, s: string)
    ensures Matches(Cat(Times(One(cs), 2), Word("==")), s) <==>
      |s| == 4 && s[0] in cs && s[1] in cs && s[2] == '=' && s[3] == '='
  {
    PaddedBy(cs, 2, "==", s);
    if |s| == 4 {
      TwoSigns(s[2..]);
    }
    hide Matches, Times, Word;
  }

  lemma TwoSigns(t: string)
    ensures t == "==" <==> |t| == 2 && t[0] == '=' && t[1] == '='
  {}

  lemma NoPad(cs: set<char>, s: string)
    ensures Matches(Times(One(cs), 4), s) <==>
      |s| == 4 && s[0] in cs && s[1] in cs && s[2] in cs && s[3] in cs
  {
    TimesSingle(One(cs), 4, s);
    hide Matches, Times;
  }

  lemma GroupGrammar(s: string)
    ensures Base64.LastGroup(s) <==> Matches(GROUP, s)
  {
    OnePad(BASE64_CHARS, s);
    TwoPads(BASE64_CHARS, s);
    NoPad(BASE64_CHARS, s);
    OrMeans(Cat(Times(One(BASE64_CHARS), 2), Word("==")), Or(Cat(Times(One(BASE64_CHARS), 3), Word("=")), FOUR), s);
    OrMeans(Cat(Times(One(BASE64_CHARS), 3), Word("=")), FOUR, s);
    if |s| == 4 {
      Base64Chars(s[0]);
      Base64Chars(s[1]);
      Base64Chars(s[2]);
      Base64Chars(s[3]);
    }
    assert !Base64.IsSymbol('=');
    hide Matches, Times, Base64.IsSymbol, Of;
  }

  lemma StarSplits(a: Re, s: string) returns (i: nat)
    requires Matches(Star(a), s) && s != ""
    ensures 0 < i <= |s| && Matches(a, s[..i]) && Matches(Star(a), s[i..])
  {
    i :| 0 < i <= |s| && Matches(a, s[..i]) && Matches(Star(a), s[i..]);
  }

  lemma StarMeans(a: Re, s: string, i: nat)
    requires 0 < i <= |s| && Matches(a, s[..i]) && Matches(Star(a), s[i..])
    ensures Matches(Star(a), s)
  {}

  lemma StarOfNothing(a: Re)
    ensures Matches(Star(a), "")
  {}

  /** A repeated part in front: it is absent, or it stands once and the rest matches again. */
  lemma StarThen(a: Re, b: Re, s: string, n: nat)
    requires n > 0 && forall t :: Matches(a, t) ==> |t| == n
    ensures Matches(Cat(Star(a), b), s) <==>
      Matches(b, s) || (n <= |s| && Matches(a, s[..n]) && Matches(Cat(Star(a), b), s[n..]))
  {
    hide Matches;
    if Matches(Cat(Star(a), b), s) {
      StarThenSplits(a, b, s, n);
    }
    if Matches(b, s) {
      StarOfNothing(a);
      assert s[..0] == "" && s[0..] == s;
      CatMeans(Star(a), b, s, 0);
    }
    if n <= |s| && Matches(a, s[..n]) && Matches(Cat(Star(a), b), s[n..]) {
      var k := CatSplits(Star(a), b, s[n..]);
      Slices(s, n + k, n);
      StarMeans(a, s[..n + k], n);
      CatMeans(Star(a), b, s, n + k);
    }
  }

  lemma Slices(s: string, i: nat, n: nat)
    requires n <= i <= |s|
    ensures s[..i][..n] == s[..n] && s[..i][n..] == s[n..][..i - n] && s[n..][i - n..] == s[i..]
  {}

  lemma StarThenSplits(a: Re, b: Re, s: string, n: nat)
    requires n > 0 && (forall t :: Matches(a, t) ==> |t| == n) && Matches(Cat(Star(a), b), s)
    ensures Matches(b, s) || (n <= |s| && Matches(a, s[..n]) && Matches(Cat(Star(a), b), s[n..]))
  {
    hide Matches;
    var i := CatSplits(Star(a), b, s);
    var front := s[..i];
    if front == "" {
      assert s[i..] == s;
    } else {
      var j := StarSplits(a, front);
      assert |front[..j]| == n;
      StarThenJoin(a, b, s, i, n);
    }
  }

  lemma StarThenJoin(a: Re, b: Re, s: string, i: nat, n: nat)
    requires n <= i <= |s| && Matches(a, s[..i][..n]) && Matches(Star(a), s[..i][n..]) && Matches(b, s[i..])
    ensures Matches(a, s[..n]) && Matches(Cat(Star(a), b), s[n..])
  {
    Slices(s, i, n);
    hide Matches;
    CatMeans(Star(a), b, s[n..], i - n);
  }

  /** `^(?:[A-Za-z0-9+/]{4})*(?:[A-Za-z0-9+/]{2}==|[A-Za-z0-9+/]{3}=|[A-Za-z0-9+/]{4})$` */
  lemma {:induction false} Base64Grammar(s: string)
    ensures Base64.IsBase64(s) <==> Matches(BASE64, s)
    decreases |s|
  {
    hide Matches;
    forall t ensures Matches(FOUR, t) ==> |t| == 4 {
      NoPad(BASE64_CHARS, t);
    }
    StarThen(FOUR, GROUP, s, 4);
    GroupGrammar(s);
    if |s| >= 4 {
      NoPad(BASE64_CHARS, s[..4]);
      Base64Chars(s[0]);
      Base64Chars(s[1]);
      Base64Chars(s[2]);
      Base64Chars(s[3]);
      if |s| > 4 {
        Base64Grammar(s[4..]);
      } else {
        StarThen(FOUR, GROUP, s[4..], 4);
        GroupGrammar(s[4..]);
      }
    }
    hide Times, Base64.IsSymbol, Of;
  }

  // ---------- request paths ----------

  /** `w` stands in `s` between two separators or ends of the text. */
  predicate Between(s: string, c: char, i: nat, w: string) {
    && i + |w| <= |s| && s[i..i + |w|] == w && c !in w
    && (i == 0 || s[i - 1] == c) && (i + |w| == |s| || s[i + |w|] == c)
  }

  /** The parts of a split are exactly the separator-free pieces between separators. */
  lemma {:induction false} PartsAreBetween(s: string, c: char, w: string)
    ensures w in Split(s, c) <==> exists i: nat :: Between(s, c, i, w)
    decreases |s|
  {
    if c !in s {
      OnePart(s, c, w);
    } else {
      var k := First(s, c);
      var a, t := s[..k], s[k + 1..];
      assert s == a + [c] + t;
      SplitCons(a, t, c);
      PartsAreBetween(t, c, w);
      hide Split, Between;
      assert w in [a] + Split(t, c) <==> w == a || w in Split(t, c);
      if w == a {
        FirstIsBetween(s, c, k);
      }
      if w in Split(t, c) {
        var i: nat :| Between(t, c, i, w);
        BetweenShifts(s, c, k, i, w);
      }
      forall i: nat | Between(s, c, i, w) ensures w == a || w in Split(t, c) {
        if i <= k {
          BetweenFirst(s, c, k, i, w);
        } else {
          BetweenShifts(s, c, k, i - (k + 1), w);
        }
      }
    }
  }

  lemma OnePart(s: string, c: char, w: string)
    requires c !in s
    ensures w in Split(s, c) <==> exists i: nat :: Between(s, c, i, w)
  {
    SplitPart(s, c);
    hide Split;
    if w == s {
      assert s[0..|s|] == s;
      assert Between(s, c, 0, w);
    }
    forall i: nat | Between(s, c, i, w) ensures w == s {
      assert forall j | 0 <= j < |s| :: s[j] in s;
      assert s[0..|s|] == s;
    }
  }

  lemma FirstIsBetween(s: string, c: char, k: nat)
    requires k < |s| && s[k] == c && c !in s[..k]
    ensures Between(s, c, 0, s[..k])
  {
    assert s[0..k] == s[..k];
  }

  lemma BetweenShifts(s: string, c: char, k: nat, i: nat, w: string)
    requires k < |s| && s[k] == c
    ensures Between(s, c, k + 1 + i, w) <==> Between(s[k + 1..], c, i, w)
  {
    var t := s[k + 1..];
    assert i + |w| <= |t| ==> t[i..i + |w|] == s[k + 1 + i..k + 1 + i + |w|];
  }

  lemma BetweenFirst(s: string, c: char, k: nat, i: nat, w: string)
    requires k < |s| && s[k] == c && c !in s[..k] && i <= k && Between(s, c, i, w)
    ensures w == s[..k]
  {
    assert forall j | 0 <= j < k :: s[j] == s[..k][j] && s[..k][j] in s[..k];
    assert forall j | i <= j < i + |w| :: s[j] == w[j - i] && w[j - i] in w;
  }

  lemma First(s: string, c: char) returns (k: nat)
    requires c in s
    ensures k < |s| && s[k] == c && c !in s[..k]
  {
    if s[0] == c {
      k := 0;
    } else {
      k := First(s[1..], c);
      k := k + 1;
      assert s[..k] == [s[0]] + s[1..][..k - 1];
    }
  }

  /** The part of a request target before its query. */
  predicate IsPathPart(p: string, s: string) {
    '?' !in p && (s == p || (|p| < |s| && s[..|p|] == p && s[|p|] == '?'))
  }

  /** A request target: line-safe, starting with a slash, and before its query without an empty segment inside and
      without a segment that is one dot or two. */
  lemma PathRule(s: string, p: string)
    requires IsPathPart(p, s)
    ensures Canonical.Path(s) <==>
      && Matches(LINE_SAFE, s) && |s| > 0 && s[0] == '/'
      && (forall i: nat | 0 < i < |p| :: !Between(p, '/', i, ""))
      && (forall i: nat :: !Between(p, '/', i, ".") && !Between(p, '/', i, ".."))
  {
    LineSafeGrammar(s);
    PathPartIs(p, s);
    PartsAreBetween(p, '/', ".");
    PartsAreBetween(p, '/', "..");
    NoDoubleSlash(p);
    assert Canonical.LineSafe(s) ==> |s| > 0;
    hide Matches, Split, Between, Canonical.LineSafe, Canonical.NoDoubleSlash;
  }

  /** A double slash is an empty segment inside. */
  lemma NoDoubleSlash(p: string)
    ensures Canonical.NoDoubleSlash(p) <==> forall i: nat | 0 < i < |p| :: !Between(p, '/', i, "")
  {
    forall i: nat | 0 < i < |p| ensures Between(p, '/', i, "") <==> p[i - 1] == '/' && p[i] == '/' {
      assert p[i..i] == "";
    }
    forall i | 0 <= i < |p| - 1 ensures Between(p, '/', i + 1, "") <==> p[i] == '/' && p[i + 1] == '/' {}
    hide Between;
  }

  lemma PathPartIs(p: string, s: string)
    requires IsPathPart(p, s)
    ensures Split(s, '?')[0] == p
  {
    if s == p {
      SplitPart(p, '?');
    } else {
      assert s == p + "?" + s[|p| + 1..];
      SplitCons(p, s[|p| + 1..], '?');
    }
  }
}
