/** What a signature is made over: the message hash, wrapped with a magic text, and for identity signatures bound to
    chain, signing height and identity. SHA-256 and UTF-8 encoding are any functions. */
module MessageHash {
  import E = Envelope
  import B = Base58

  const MAGIC := "Verus signed data:\n"
  const MAX_LENGTH := 0xffff_ffff

  /** The text as bytes: it is ASCII. */
  function MagicBytes(): (b: seq<nat>)
    ensures |b| == 19
  {
    seq(|MAGIC|, i requires 0 <= i < |MAGIC| => MAGIC[i] as nat)
  }

  /** One byte below 253, three up to 65535, five above. */
  function CompactSize(n: nat): (b: seq<nat>)
    requires n <= MAX_LENGTH
  {
    if n < 253 then [n] else if n <= 0xffff then [253] + E.Le16(n) else [254] + E.Le32(n)
  }

  function MessagePreimage(body: seq<nat>): seq<nat>
    requires |body| <= MAX_LENGTH
  {
    CompactSize(|body|) + body
  }

  function SignPreimage(messageHash: seq<nat>): seq<nat> {
    CompactSize(|MAGIC|) + MagicBytes() + messageHash
  }

  function IdentityPreimage(systemId: seq<nat>, height: int, identityId: seq<nat>, messageHash: seq<nat>): seq<nat>
    requires 1 <= height <= E.MAX_HEIGHT
  {
    CompactSize(|MAGIC|) + MagicBytes() + systemId + E.Le32(height) + identityId + messageHash
  }

  function HashOf(message: seq<nat>, sha256: B.Sha256): seq<nat>
    requires |message| <= MAX_LENGTH
  {
    sha256(MessagePreimage(message))
  }

  function SignDigest(message: seq<nat>, sha256: B.Sha256): seq<nat>
    requires |message| <= MAX_LENGTH
  {
    sha256(SignPreimage(HashOf(message, sha256)))
  }

  function IdentityDigest(message: seq<nat>, systemId: seq<nat>, height: int, identityId: seq<nat>,
                          sha256: B.Sha256): seq<nat>
    requires |message| <= MAX_LENGTH && 1 <= height <= E.MAX_HEIGHT
  {
    sha256(IdentityPreimage(systemId, height, identityId, HashOf(message, sha256)))
  }

  // ---------- what the hashed bytes determine ----------

  /** The marker byte, and the little-endian number behind it, tell the size apart from every other one. */
  lemma SizeIsPrefixFree(m: nat, n: nat, rest: seq<nat>, other: seq<nat>)
    requires m <= MAX_LENGTH && n <= MAX_LENGTH && CompactSize(m) + rest == CompactSize(n) + other
    ensures m == n && rest == other
  {
    var a, b := CompactSize(m), CompactSize(n);
    assert (a + rest)[0] == a[0] && (b + other)[0] == b[0];
    assert |a| == |b|;
    assert (a + rest)[..|a|] == a && (b + other)[..|b|] == b;
    assert (a + rest)[|a|..] == rest && (b + other)[|b|..] == other;
    if 253 <= m <= 0xffff {
      assert a[1..] == E.Le16(m) && b[1..] == E.Le16(n);
      E.Le16RoundTrip(m, [0, 0]);
      E.Le16RoundTrip(n, [0, 0]);
    } else if m > 0xffff {
      assert a[1..] == E.Le32(m) && b[1..] == E.Le32(n);
      E.Le32RoundTrip(m, [0, 0, 0, 0]);
      E.Le32RoundTrip(n, [0, 0, 0, 0]);
    }
  }

  /** Different messages are hashed from different bytes. */
  lemma MessageIsBound(s: seq<nat>, t: seq<nat>)
    requires |s| <= MAX_LENGTH && |t| <= MAX_LENGTH && MessagePreimage(s) == MessagePreimage(t)
    ensures s == t
  {
    SizeIsPrefixFree(|s|, |t|, s, t);
  }

  /** Where each part of an identity preimage stands. */
  lemma IdentityParts(systemId: seq<nat>, height: int, identityId: seq<nat>, messageHash: seq<nat>)
    requires |systemId| == 20 && |identityId| == 20 && 1 <= height <= E.MAX_HEIGHT
    ensures var p := IdentityPreimage(systemId, height, identityId, messageHash);
      && |p| == 64 + |messageHash| && p[0] == 19 && p[1..20] == MagicBytes()
      && p[20..40] == systemId && p[40..44] == E.Le32(height) && p[44..64] == identityId && p[64..] == messageHash
  {}

  /** An identity signature is over one chain, one height, one identity and one message hash. */
  lemma IdentityIsBound(s: seq<nat>, height: int, i: seq<nat>, h: seq<nat>, s': seq<nat>, height': int, i': seq<nat>,
                        h': seq<nat>)
    requires |s| == |s'| == |i| == |i'| == 20 && 1 <= height <= E.MAX_HEIGHT && 1 <= height' <= E.MAX_HEIGHT
    requires IdentityPreimage(s, height, i, h) == IdentityPreimage(s', height', i', h')
    ensures s == s' && height == height' && i == i' && h == h'
  {
    IdentityParts(s, height, i, h);
    IdentityParts(s', height', i', h');
    hide IdentityPreimage, E.Le32;
    E.Le32RoundTrip(height, [0, 0, 0, 0]);
    E.Le32RoundTrip(height', [0, 0, 0, 0]);
  }

  /** No address signature is over the bytes of an identity signature: message hashes have one length. */
  lemma AddressAndIdentityApart(h: seq<nat>, s: seq<nat>, height: int, i: seq<nat>, h': seq<nat>)
    requires |h| == |h'| && |s| == |i| == 20 && 1 <= height <= E.MAX_HEIGHT
    ensures SignPreimage(h) != IdentityPreimage(s, height, i, h')
  {
    IdentityParts(s, height, i, h');
  }

  /** The wrapping of a message hash: the length 19, the magic text, the hash. */
  lemma WrappedParts(messageHash: seq<nat>)
    ensures var p := SignPreimage(messageHash);
      |p| == 20 + |messageHash| && p[0] == 19 && p[1..20] == MagicBytes() && p[20..] == messageHash
    ensures MagicBytes() ==
      [86, 101, 114, 117, 115, 32] + [115, 105, 103, 110, 101, 100, 32] + [100, 97, 116, 97, 58, 10]
  {
    MagicText();
  }

  lemma MagicText()
    ensures MagicBytes() ==
      [86, 101, 114, 117, 115, 32] + [115, 105, 103, 110, 101, 100, 32] + [100, 97, 116, 97, 58, 10]
  {
    assert MAGIC == "Verus " + "signed " + "data:\n";
  }
}
