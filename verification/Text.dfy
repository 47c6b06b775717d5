/** Lines and separators: splitting and joining strings, and the bytewise order of keys. */
module Text {
  import opened Decimal

  datatype Result<+T, +E> = Ok(value: T) | Err(error: E)

  function Split(s: string, c: char): (r: seq<string>)
    ensures r != []
  {
    if s == "" then [""]
    else
      var rest := Split(s[1..], c);
      if s[0] == c then [""] + rest else [[s[0]] + rest[0]] + rest[1..]
  }

  function Join(parts: seq<string>, c: char): string {
    if parts == [] then ""
    else if |parts| == 1 then parts[0]
    else parts[0] + [c] + Join(parts[1..], c)
  }

  lemma {:induction false} JoinSplit(s: string, c: char)
    ensures Join(Split(s, c), c) == s
    ensures forall p | p in Split(s, c) :: c !in p
  {
    if s != "" {
      JoinSplit(s[1..], c);
      var rest := Split(s[1..], c);
      if s[0] == c {
        assert ([""] + rest)[1..] == rest;
      } else {
        var r := [[s[0]] + rest[0]] + rest[1..];
        assert rest[0] in rest;
        assert r[1..] == rest[1..];
        assert s == [s[0]] + Join(rest, c);
      }
    }
  }

  lemma {:induction false} SplitPart(p: string, c: char)
    requires c !in p
    ensures Split(p, c) == [p]
  {
    if p != "" {
      SplitPart(p[1..], c);
      assert p == [p[0]] + p[1..];
    }
  }

  lemma {:induction false} SplitCons(p: string, t: string, c: char)
    requires c !in p
    ensures Split(p + [c] + t, c) == [p] + Split(t, c)
  {
    var s := p + [c] + t;
    if p == "" {
      assert s[1..] == t;
    } else {
      assert s[1..] == p[1..] + [c] + t;
      SplitCons(p[1..], t, c);
      assert p == [p[0]] + p[1..];
      assert ([p[1..]] + Split(t, c))[1..] == Split(t, c);
    }
  }

  lemma {:induction false} SplitJoin(parts: seq<string>, c: char)
    requires parts != [] && forall p | p in parts :: c !in p
    ensures Split(Join(parts, c), c) == parts
  {
    if |parts| == 1 {
      SplitPart(parts[0], c);
    } else {
      SplitJoin(parts[1..], c);
      SplitCons(parts[0], Join(parts[1..], c), c);
    }
  }

  lemma {:induction false} JoinAppend(a: seq<string>, b: seq<string>, c: char)
    requires a != [] && b != []
    ensures Join(a + b, c) == Join(a, c) + [c] + Join(b, c)
  {
    if |a| == 1 {
      assert (a + b)[1..] == b;
    } else {
      assert (a + b)[1..] == a[1..] + b;
      JoinAppend(a[1..], b, c);
    }
  }

  // ---------- order ----------

  /** The order `<` has on strings. */
  predicate Less(a: string, b: string) {
    b != "" && (a == "" || a[0] < b[0] || (a[0] == b[0] && Less(a[1..], b[1..])))
  }

  lemma {:induction false} LessTotal(a: string, b: string)
    ensures Less(a, b) || a == b || Less(b, a)
  {
    if a != "" && b != "" && a[0] == b[0] {
      LessTotal(a[1..], b[1..]);
      assert a == [a[0]] + a[1..] && b == [b[0]] + b[1..];
    }
  }

  lemma {:induction false} LessTransitive(a: string, b: string, c: string)
    requires Less(a, b) && Less(b, c)
    ensures Less(a, c)
  {
    if a != "" && a[0] == b[0] == c[0] {
      LessTransitive(a[1..], b[1..], c[1..]);
    }
  }

  lemma {:induction false} LessIrreflexive(a: string)
    ensures !Less(a, a)
  {
    if a != "" {
      LessIrreflexive(a[1..]);
    }
  }

  /** `a` and `b` share their first `i` characters; then `a` ends, or has the smaller character. */
  predicate PartsAt(a: string, b: string, i: nat) {
    i <= |a| && i < |b| && a[..i] == b[..i] && (i == |a| || a[i] < b[i])
  }

  /** What the order is: a proper prefix comes first, otherwise the first differing character decides. */
  lemma LessMeans(a: string, b: string)
    ensures Less(a, b) <==> exists i: nat :: PartsAt(a, b, i)
  {
    if Less(a, b) {
      var i := LessParts(a, b);
    }
    forall i: nat | PartsAt(a, b, i) ensures Less(a, b) {
      PartedIsLess(a, b, i);
    }
  }

  lemma {:induction false} LessParts(a: string, b: string) returns (i: nat)
    requires Less(a, b)
    ensures PartsAt(a, b, i)
  {
    if a != "" && a[0] == b[0] {
      i := LessParts(a[1..], b[1..]);
      assert a[..i + 1] == [a[0]] + a[1..][..i] && b[..i + 1] == [b[0]] + b[1..][..i];
      i := i + 1;
    } else {
      i := 0;
    }
  }

  lemma {:induction false} PartedIsLess(a: string, b: string, i: nat)
    requires PartsAt(a, b, i)
    ensures Less(a, b)
  {
    if i > 0 {
      assert a[..i][0] == a[0] && b[..i][0] == b[0];
      assert a[1..][..i - 1] == a[..i][1..] && b[1..][..i - 1] == b[..i][1..];
      PartedIsLess(a[1..], b[1..], i - 1);
    }
  }

  // ---------- character classes of the wire grammars ----------

  predicate IsLower(c: char) {
    'a' <= c <= 'z'
  }

  predicate IsUpper(c: char) {
    'A' <= c <= 'Z'
  }

  predicate IsWord(w: string) {
    w != "" && forall c | c in w :: IsLower(c) || IsDigit(c)
  }

  /** Dash-separated runs of lower-case letters and digits. */
  predicate DashedWords(s: string) {
    forall w | w in Split(s, '-') :: IsWord(w)
  }

  /** What may appear in a dashed name. */
  lemma DashedChars(s: string)
    requires DashedWords(s)
    ensures s != "" && forall c | c in s :: IsLower(c) || IsDigit(c) || c == '-'
  {
    JoinSplit(s, '-');
    JoinChars(Split(s, '-'), '-');
    assert Split(s, '-')[0] in Split(s, '-');
  }

  /** Every character of a join comes from a part or is the separator. */
  lemma {:induction false} JoinChars(parts: seq<string>, c: char)
    ensures forall d | d in Join(parts, c) :: d == c || exists p :: p in parts && d in p
  {
    if |parts| > 1 {
      JoinChars(parts[1..], c);
      forall d | d in Join(parts, c) ensures d == c || exists p :: p in parts && d in p {
        if d in parts[0] {
          assert parts[0] in parts;
        } else if d != c {
          assert d in Join(parts[1..], c);
          var p :| p in parts[1..] && d in p;
          assert p in parts;
        }
      }
    } else if |parts| == 1 {
      assert parts[0] in parts;
    }
  }
}
