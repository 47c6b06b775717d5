/** Identity names: the account key, and the chain suffix the node appends. */
module Names {

  function LowerChar(c: char): char {
    if 'A' <= c <= 'Z' then c - 'A' + 'a' else c
  }

  function Lower(s: string): (r: string)
    ensures |r| == |s|
  {
    seq(|s|, i requires 0 <= i < |s| => LowerChar(s[i]))
  }

  predicate IsSpace(c: char) {
    c in " \t\n\r"
  }

  function Trim(s: string): string
    decreases |s|
  {
    if s == "" then ""
    else if IsSpace(s[0]) then Trim(s[1..])
    else if IsSpace(s[|s| - 1]) then Trim(s[..|s| - 1])
    else s
  }

  function NormalizeIdentityKey(identity: string): string {
    Lower(Trim(identity))
  }

  predicate EndsWith(s: string, suffix: string) {
    |suffix| <= |s| && s[|s| - |suffix|..] == suffix
  }

  function StripChainSuffix(name: string, chainName: string): string {
    var suffix := "." + Lower(chainName) + "@";
    if EndsWith(Lower(name), suffix) then name[..|name| - |suffix|] + "@" else name
  }

  lemma {:induction false} TrimSameCase(s: string, t: string)
    requires Lower(s) == Lower(t)
    ensures Lower(Trim(s)) == Lower(Trim(t))
    decreases |s|
  {
    assert |s| == |t|;
    forall c ensures IsSpace(LowerChar(c)) <==> IsSpace(c) {}
    hide IsSpace, LowerChar;
    if s != "" {
      var n := |s| - 1;
      assert Lower(s)[0] == LowerChar(s[0]) && Lower(t)[0] == LowerChar(t[0]);
      assert Lower(s)[n] == LowerChar(s[n]) && Lower(t)[n] == LowerChar(t[n]);
      assert Lower(s[1..]) == Lower(s)[1..] == Lower(t)[1..] == Lower(t[1..]);
      assert Lower(s[..n]) == Lower(s)[..n] == Lower(t)[..n] == Lower(t[..n]);
      if IsSpace(s[0]) {
        TrimSameCase(s[1..], t[1..]);
      } else if IsSpace(s[n]) {
        TrimSameCase(s[..n], t[..n]);
      }
    }
  }

  /** The account key does not depend on the letter case in which the chain or the payer writes the name, nor
      on the case of the chain suffix: a deposit is credited to the account the payer spends from. */
  lemma KeyIgnoresCase(s: string, t: string, chainName: string, chainName': string)
    requires Lower(s) == Lower(t) && Lower(chainName) == Lower(chainName')
    ensures NormalizeIdentityKey(s) == NormalizeIdentityKey(t)
    ensures NormalizeIdentityKey(StripChainSuffix(s, chainName)) ==
      NormalizeIdentityKey(StripChainSuffix(t, chainName'))
  {
    TrimSameCase(s, t);
    var suffix := "." + Lower(chainName) + "@";
    if EndsWith(Lower(s), suffix) {
      var k := |s| - |suffix|;
      assert Lower(s[..k] + "@") == Lower(s)[..k] + "@" == Lower(t)[..k] + "@" == Lower(t[..k] + "@");
      TrimSameCase(s[..k] + "@", t[..k] + "@");
    }
  }

  // ---------- what the key keeps and what it drops ----------

  /** The same character, or the two cases of one letter. */
  predicate SameLetter(c: char, d: char) {
    || c == d
    || ('a' <= c <= 'z' && d as int == c as int - 32)
    || ('a' <= d <= 'z' && c as int == d as int - 32)
  }

  /** Two names have one key exactly when, outer space aside, they differ in letter case only. */
  lemma KeysAgreeExactly(s: string, t: string)
    ensures NormalizeIdentityKey(s) == NormalizeIdentityKey(t) <==>
      && |Trim(s)| == |Trim(t)|
      && forall i | 0 <= i < |Trim(s)| :: SameLetter(Trim(s)[i], Trim(t)[i])
  {
    hide Trim, SameLetter;
    var a, b := Trim(s), Trim(t);
    forall i | 0 <= i < |a| && i < |b| ensures Lower(a)[i] == Lower(b)[i] <==> SameLetter(a[i], b[i]) {
      LowerAgrees(a[i], b[i]);
    }
    hide Lower;
  }

  lemma LowerAgrees(c: char, d: char)
    ensures LowerChar(c) == LowerChar(d) <==> SameLetter(c, d)
  {}

  predicate Blank(c: char) {
    c == ' ' || c == '\t' || c == '\n' || c == '\r'
  }

  predicate AllBlank(s: string) {
    forall i | 0 <= i < |s| :: Blank(s[i])
  }

  /** The key is written in small letters and is the name between its outer space. */
  lemma {:induction false} KeyOfPadded(left: string, name: string, right: string)
    requires AllBlank(left) && AllBlank(right)
    requires name != "" ==> !Blank(name[0]) && !Blank(name[|name| - 1])
    ensures Trim(left + name + right) == name && NormalizeIdentityKey(left + name + right) == Lower(name)
    decreases |left| + |right|
  {
    var s := left + name + right;
    if left != "" {
      assert s[0] == left[0] && s[1..] == left[1..] + name + right;
      KeyOfPadded(left[1..], name, right);
    } else if name == "" && right != "" {
      assert s[0] == right[0] && s[1..] == left + name + right[1..];
      KeyOfPadded(left, name, right[1..]);
    } else if right != "" {
      assert s[0] == name[0] && !IsSpace(s[0]);
      assert s[|s| - 1] == right[|right| - 1] && s[..|s| - 1] == left + name + right[..|right| - 1];
      KeyOfPadded(left, name, right[..|right| - 1]);
    } else {
      assert s == name;
    }
  }

  lemma KeyExample()
    ensures NormalizeIdentityKey(" demoAgent@\n") == "demoagent@"
  {
    KeyOfPadded(" ", "demoAgent@", "\n");
    assert " demoAgent@\n" == " " + "demoAgent@" + "\n";
    hide Trim;
    var name, key := "demoAgent@", "demoagent@";
    forall i | 0 <= i < |name| ensures LowerChar(name[i]) == key[i] {}
  }

  // ---------- the chain suffix ----------

  /** The node's name for an identity of the chain, the chain's name in any letter case, loses its suffix. */
  lemma SuffixIsStripped(name: string, chain: string, chainName: string)
    requires Lower(chain) == Lower(chainName)
    ensures StripChainSuffix(name + "." + chain + "@", chainName) == name + "@"
  {
    var full, suffix := name + "." + chain + "@", "." + Lower(chainName) + "@";
    var k := |name|;
    assert Lower(full)[k..] == suffix by {
      forall i | 0 <= i < |suffix| ensures Lower(full)[k + i] == suffix[i] {
        if 1 <= i <= |chain| {
          assert full[k + i] == chain[i - 1] && Lower(chain)[i - 1] == LowerChar(chain[i - 1]);
        }
      }
    }
    assert full[..k] == name;
  }

  lemma SuffixSplits(full: string, chainName: string) returns (name: string, chain: string)
    requires EndsWith(Lower(full), "." + Lower(chainName) + "@")
    ensures full == name + "." + chain + "@" && Lower(chain) == Lower(chainName)
  {
    var suffix := "." + Lower(chainName) + "@";
    var k := |full| - |suffix|;
    name, chain := full[..k], full[k + 1..|full| - 1];
    forall i | 0 <= i < |suffix| ensures LowerChar(full[k + i]) == suffix[i] {
      assert Lower(full)[k + i] == Lower(full)[k..][i];
    }
    assert suffix[0] == '.' && suffix[|suffix| - 1] == '@' && k + (|suffix| - 1) == |full| - 1;
    assert full[k] == '.' && full[|full| - 1] == '@';
    forall i | 0 <= i < |chain| ensures Lower(chain)[i] == Lower(chainName)[i] {
      assert suffix[i + 1] == Lower(chainName)[i] && chain[i] == full[k + (i + 1)];
    }
  }

  /** Any other name is left as it is. */
  lemma OtherNamesStay(full: string, chainName: string)
    requires forall name, chain :: full == name + "." + chain + "@" ==> Lower(chain) != Lower(chainName)
    ensures StripChainSuffix(full, chainName) == full
  {
    if EndsWith(Lower(full), "." + Lower(chainName) + "@") {
      var name, chain := SuffixSplits(full, chainName);
    }
  }
}
