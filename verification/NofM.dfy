/** Identity signatures: how many distinct primary addresses have signed. Hashing, text encoding and key recovery
    are any functions. */
module NofM {
  import opened Basics
  import opened Base64
  import E = Envelope
  import B = Base58
  import MH = MessageHash

  type Hash = seq<nat>

  /** `recover` gives the key hash behind a digest, a recovery id, the 64 bytes r and s, and the compressed flag, or
      nothing; `fromBase64` is the tolerant decoder. */
  datatype Crypto = Crypto(
    fromBase64: string -> seq<Byte>, sha256: B.Sha256, utf8: string -> seq<nat>,
    recover: (Hash, int, seq<Byte>, bool) -> Option<Hash>)

  datatype IdentityState = IdentityState(
    identityAddress: string, primaryAddresses: seq<string>, minimumSignatures: int, revoked: bool)

  datatype Verification = Verification(valid: bool, blockHeight: int, matched: set<string>)

  function RecoverHash160(c: Crypto, digest: Hash, compact: seq<Byte>): Option<Hash> {
    if |compact| != 65 || compact[0] < 27 || compact[0] > 34 then None
    else c.recover(digest, (compact[0] - 27) % 4, compact[1..], compact[0] >= 31)
  }

  predicate Decodable(c: Crypto, systemId: string, state: IdentityState) {
    && B.DecodeIAddress(systemId, c.sha256).Some?
    && B.DecodeIAddress(state.identityAddress, c.sha256).Some?
    && forall i | 0 <= i < |state.primaryAddresses| :: B.DecodeRAddress(state.primaryAddresses[i], c.sha256).Some?
  }

  /** The digest can be computed: a positive height, and a message whose length fits its prefix. */
  predicate Hashable(c: Crypto, message: string, height: int) {
    1 <= height <= E.MAX_HEIGHT && |c.utf8(message)| <= MH.MAX_LENGTH
  }

  function DigestOf(c: Crypto, message: string, systemId: string, state: IdentityState, height: int): Hash
    requires Decodable(c, systemId, state) && Hashable(c, message, height)
  {
    MH.IdentityDigest(c.utf8(message), B.DecodeIAddress(systemId, c.sha256).value, height,
                      B.DecodeIAddress(state.identityAddress, c.sha256).value, c.sha256)
  }

  /** The signature was made with the key behind the address. */
  predicate SignedBy(c: Crypto, digest: Hash, compact: seq<Byte>, address: string) {
    var hash := RecoverHash160(c, digest, compact);
    hash.Some? && B.DecodeRAddress(address, c.sha256) == hash
  }

  /** The primary addresses that signed, each counted once. */
  ghost function Signers(c: Crypto, digest: Hash, signatures: seq<seq<Byte>>, addresses: seq<string>): set<string> {
    set a | a in addresses && exists s :: s in signatures && SignedBy(c, digest, s, a)
  }

  function RequiredSigners(state: IdentityState): nat {
    if state.minimumSignatures > 1 then state.minimumSignatures else 1
  }

  ghost function Verify(c: Crypto, message: string, signature: string, systemId: string,
                        state: IdentityState): Verification {
    if state.revoked then Verification(false, 0, {})
    else
      match E.Parse(c.fromBase64(signature))
      case None => Verification(false, 0, {})
      case Some(e) =>
        if !Decodable(c, systemId, state) || !Hashable(c, message, e.blockHeight) then
          Verification(false, e.blockHeight, {})
        else
          var matched := Signers(c, DigestOf(c, message, systemId, state, e.blockHeight), e.signatures,
                                 state.primaryAddresses);
          Verification(|matched| >= RequiredSigners(state), e.blockHeight, matched)
  }

  /** The verifier with its map of primary addresses and its set of matches. */
  method VerifyIdentitySignature(c: Crypto, message: string, signature: string, systemId: string, state: IdentityState)
    returns (r: Verification)
    ensures r == Verify(c, message, signature, systemId, state)
  {
    hide E.Parse, B.DecodeAddress, RecoverHash160;
    if state.revoked {
      return Verification(false, 0, {});
    }
    var parsed := E.ParseIdentitySignature(c.fromBase64(signature));
    if parsed.None? {
      return Verification(false, 0, {});
    }
    var height := parsed.value.blockHeight;
    var system := B.DecodeIAddress(systemId, c.sha256);
    var identity := B.DecodeIAddress(state.identityAddress, c.sha256);
    if system.None? || identity.None? || !Hashable(c, message, height) {
      return Verification(false, height, {});
    }
    var digest := MH.IdentityDigest(c.utf8(message), system.value, height, identity.value, c.sha256);
    var primaries: map<string, Hash> := map[];
    for i := 0 to |state.primaryAddresses|
      invariant primaries.Keys == set a | a in state.primaryAddresses[..i]
      invariant forall a | a in primaries :: B.DecodeRAddress(a, c.sha256) == Some(primaries[a])
    {
      var address := state.primaryAddresses[i];
      var hash := B.DecodeRAddress(address, c.sha256);
      if hash.None? {
        return Verification(false, height, {});
      }
      primaries := primaries[address := hash.value];
    }
    assert state.primaryAddresses[..|state.primaryAddresses|] == state.primaryAddresses;
    assert Decodable(c, systemId, state) by {
      forall i | 0 <= i < |state.primaryAddresses| ensures B.DecodeRAddress(state.primaryAddresses[i], c.sha256).Some? {
        assert state.primaryAddresses[i] in primaries;
      }
    }
    var matched := MatchAll(c, digest, parsed.value.signatures, state.primaryAddresses, primaries);
    r := Verification(|matched| >= RequiredSigners(state), height, matched);
  }

  /** The two nested loops over signatures and primary addresses. */
  method MatchAll(c: Crypto, digest: Hash, signatures: seq<seq<Byte>>, addresses: seq<string>,
                  primaries: map<string, Hash>)
    returns (matched: set<string>)
    requires primaries.Keys == set a | a in addresses
    requires forall a | a in primaries :: B.DecodeRAddress(a, c.sha256) == Some(primaries[a])
    ensures matched == Signers(c, digest, signatures, addresses)
  {
    hide B.DecodeRAddress, RecoverHash160;
    matched := {};
    for i := 0 to |signatures|
      invariant matched == Signers(c, digest, signatures[..i], addresses)
    {
      var recovered := RecoverHash160(c, digest, signatures[i]);
      assert signatures[..i + 1] == signatures[..i] + [signatures[i]];
      SignersSnoc(c, digest, signatures[..i], signatures[i], addresses);
      if recovered.None? {
        continue;
      }
      ghost var before := matched;
      for j := 0 to |addresses|
        invariant matched == before + set a | a in addresses[..j] && SignedBy(c, digest, signatures[i], a)
      {
        var address := addresses[j];
        assert address in primaries;
        assert addresses[..j + 1] == addresses[..j] + [address];
        if recovered.value == primaries[address] {
          matched := matched + {address};
        }
      }
      assert addresses[..|addresses|] == addresses;
    }
    assert signatures[..|signatures|] == signatures;
  }

  lemma SignersSnoc(c: Crypto, digest: Hash, signatures: seq<seq<Byte>>, s: seq<Byte>, addresses: seq<string>)
    ensures Signers(c, digest, signatures + [s], addresses) ==
      Signers(c, digest, signatures, addresses) + set a | a in addresses && SignedBy(c, digest, s, a)
  {
    hide SignedBy;
    var both := Signers(c, digest, signatures + [s], addresses);
    forall a | a in addresses && SignedBy(c, digest, s, a) ensures a in both {
      assert s in signatures + [s];
    }
    forall a | a in Signers(c, digest, signatures, addresses) ensures a in both {
      var t :| t in signatures && SignedBy(c, digest, t, a);
      assert t in signatures + [s];
    }
  }

  // ---------- main results ----------

  /** A list of distinct primary addresses, each behind at least one signature. */
  ghost predicate Quorum(c: Crypto, digest: Hash, signatures: seq<seq<Byte>>, addresses: seq<string>,
                         who: seq<string>) {
    Distinct(who) && forall a | a in who :: a in addresses && exists s :: s in signatures && SignedBy(c, digest, s, a)
  }

  function SetOf(who: seq<string>): set<string> {
    set a | a in who
  }

  lemma {:induction false} Enumerate(s: set<string>, n: nat) returns (who: seq<string>)
    requires n <= |s|
    ensures |who| == n && Distinct(who) && forall a | a in who :: a in s
  {
    if n == 0 {
      who := [];
    } else {
      var a :| a in s;
      var rest := Enumerate(s - {a}, n - 1);
      who := rest + [a];
    }
  }

  /** N of M: accepted exactly when the identity is live, envelope, addresses and height are usable, and there is a
      list of distinct primary addresses behind the signatures that is long enough, and not empty. */
  lemma AcceptsExactlyQuorums(c: Crypto, message: string, signature: string, systemId: string, state: IdentityState)
    ensures Verify(c, message, signature, systemId, state).valid <==>
      && !state.revoked && Decodable(c, systemId, state)
      && var e := E.Parse(c.fromBase64(signature));
         && e.Some? && Hashable(c, message, e.value.blockHeight)
         && exists who: seq<string> ::
              && |who| >= 1 && |who| >= state.minimumSignatures
              && Quorum(c, DigestOf(c, message, systemId, state, e.value.blockHeight), e.value.signatures,
                        state.primaryAddresses, who)
  {
    hide E.Parse, Decodable, Hashable, DigestOf, SignedBy;
    var e := E.Parse(c.fromBase64(signature));
    if !state.revoked && e.Some? && Decodable(c, systemId, state) && Hashable(c, message, e.value.blockHeight) {
      var digest := DigestOf(c, message, systemId, state, e.value.blockHeight);
      var signers := Signers(c, digest, e.value.signatures, state.primaryAddresses);
      if |signers| >= RequiredSigners(state) {
        var who := Enumerate(signers, RequiredSigners(state));
        assert Quorum(c, digest, e.value.signatures, state.primaryAddresses, who);
      }
      forall who: seq<string> | Quorum(c, digest, e.value.signatures, state.primaryAddresses, who)
        ensures |signers| >= |who|
      {
        DistinctCount(who, SetOf(who));
        Subset(SetOf(who), signers);
      }
    }
  }

  lemma {:induction false} Subset(a: set<string>, b: set<string>)
    requires a <= b
    ensures |a| <= |b|
  {
    if a != {} {
      var x :| x in a;
      Subset(a - {x}, b - {x});
    }
  }

  /** Order and repetition of the signatures do not change the verdict. */
  lemma OrderAndDuplicatesIrrelevant(c: Crypto, message: string, one: string, two: string, systemId: string,
                                     state: IdentityState)
    requires var e, f := E.Parse(c.fromBase64(one)), E.Parse(c.fromBase64(two));
      && e.Some? && f.Some? && e.value.blockHeight == f.value.blockHeight
      && forall s :: s in e.value.signatures <==> s in f.value.signatures
    ensures Verify(c, message, one, systemId, state) == Verify(c, message, two, systemId, state)
  {
    hide E.Parse, Decodable, Hashable, DigestOf, SignedBy;
    var e, f := E.Parse(c.fromBase64(one)).value, E.Parse(c.fromBase64(two)).value;
    if Decodable(c, systemId, state) && Hashable(c, message, e.blockHeight) {
      var digest := DigestOf(c, message, systemId, state, e.blockHeight);
      assert Signers(c, digest, e.signatures, state.primaryAddresses) ==
        Signers(c, digest, f.signatures, state.primaryAddresses);
    }
  }

  /** One signature stands for at most one address, because addresses with equal hashes are equal. */
  lemma {:induction false} NoMoreSignersThanSignatures(c: Crypto, digest: Hash, signatures: seq<seq<Byte>>,
                                                       addresses: seq<string>)
    ensures |Signers(c, digest, signatures, addresses)| <= |signatures|
  {
    if signatures == [] {
      assert Signers(c, digest, signatures, addresses) == {};
    } else {
      var n := |signatures| - 1;
      var s := signatures[n];
      assert signatures == signatures[..n] + [s];
      NoMoreSignersThanSignatures(c, digest, signatures[..n], addresses);
      SignersSnoc(c, digest, signatures[..n], s, addresses);
      hide Signers;
      var more := set a | a in addresses && SignedBy(c, digest, s, a);
      if more != {} {
        var a :| a in more;
        forall b | b in more ensures b == a {
          OneAddress(c, digest, s, a, b);
        }
        assert more == {a};
      }
    }
  }

  lemma OneAddress(c: Crypto, digest: Hash, s: seq<Byte>, a: string, b: string)
    requires SignedBy(c, digest, s, a) && SignedBy(c, digest, s, b)
    ensures a == b
  {
    hide B.DecodeAddress, RecoverHash160;
    B.AddressIsInjective(a, b, B.RADDRESS_PREFIX, c.sha256);
  }

  /** So an accepted envelope holds at least as many signatures as the identity requires. */
  lemma AcceptanceNeedsSignatures(c: Crypto, message: string, signature: string, systemId: string, state: IdentityState)
    requires Verify(c, message, signature, systemId, state).valid
    ensures var n := |E.Parse(c.fromBase64(signature)).value.signatures|; n >= 1 && n >= state.minimumSignatures
  {
    hide E.Parse, Decodable, Hashable, DigestOf, Signers;
    var e := E.Parse(c.fromBase64(signature)).value;
    NoMoreSignersThanSignatures(c, DigestOf(c, message, systemId, state, e.blockHeight), e.signatures,
                                state.primaryAddresses);
  }

  // ---------- what a compact signature says ----------

  /** A recoverable signature: the recovery id, the bytes r and s, and whether the key is hashed compressed. */
  datatype Made = Made(recovery: int, rs: seq<Byte>, compressed: bool)

  predicate Recoverable(m: Made) {
    0 <= m.recovery < 4 && |m.rs| == 64
  }

  /** Its 65 bytes: the header is 27 plus the recovery id, plus 4 for a compressed key. */
  function Compact(m: Made): (b: seq<Byte>)
    requires Recoverable(m)
    ensures |b| == 65
  {
    [27 + m.recovery + (if m.compressed then 4 else 0)] + m.rs
  }

  /** The header is read back as it was written, and no other header or length recovers anything. */
  lemma CompactIsRead(c: Crypto, digest: Hash, m: Made)
    requires Recoverable(m)
    ensures RecoverHash160(c, digest, Compact(m)) == c.recover(digest, m.recovery, m.rs, m.compressed)
  {
    assert Compact(m)[1..] == m.rs;
  }

  lemma RecoversOnlyCompacts(c: Crypto, digest: Hash, compact: seq<Byte>) returns (m: Made)
    requires RecoverHash160(c, digest, compact).Some?
    ensures Recoverable(m) && compact == Compact(m)
  {
    var k := compact[0] - 27;
    m := Made(k % 4, compact[1..], k >= 4);
  }

  function Compacts(made: seq<Made>): (r: seq<seq<Byte>>)
    requires forall m | m in made :: Recoverable(m)
    ensures |r| == |made| && forall i | 0 <= i < |r| :: r[i] == Compact(made[i])
  {
    seq(|made|, i requires 0 <= i < |made| => Compact(made[i]))
  }

  /** Signing and verifying compose: when over the digest that binds chain, height, identity and message each
      signature recovers to the hash behind a primary address, and enough distinct ones sign, the wrapped and encoded
      envelope is accepted, for that height and with those addresses. */
  lemma SignedVerifies(c: Crypto, message: string, systemId: string, state: IdentityState, height: int,
                       system: Hash, identity: Hash, made: seq<Made>, who: seq<string>)
    requires forall b: seq<Byte> | b != [] :: c.fromBase64(Base64.Encode(b)) == b
    requires !state.revoked && Decodable(c, systemId, state) && Hashable(c, message, height)
    requires B.DecodeIAddress(systemId, c.sha256) == Some(system)
    requires B.DecodeIAddress(state.identityAddress, c.sha256) == Some(identity)
    requires 1 <= |made| <= 252 && |who| == |made| && forall m | m in made :: Recoverable(m)
    requires forall a | a in who :: a in state.primaryAddresses
    requires var digest := c.sha256(MH.IdentityPreimage(system, height, identity,
                                                         c.sha256(MH.MessagePreimage(c.utf8(message)))));
      forall i | 0 <= i < |made| ::
        var hash := c.recover(digest, made[i].recovery, made[i].rs, made[i].compressed);
        hash.Some? && B.DecodeRAddress(who[i], c.sha256) == hash
    requires |SetOf(who)| >= state.minimumSignatures
    ensures E.Wrap(Compacts(made), height).Some?
    ensures var r := Verify(c, message, Base64.Encode(E.Wrap(Compacts(made), height).value), systemId, state);
      r.valid && r.blockHeight == height && SetOf(who) <= r.matched
  {
    var compacts := Compacts(made);
    hide Verify, E.Parse, E.Wrap, Decodable, DigestOf, B.DecodeRAddress, RecoverHash160, Base64.Encode, Compact,
         MH.IdentityPreimage, MH.MessagePreimage;
    E.WrapLayout(compacts, height);
    assert E.Wrap(compacts, height).Some?;
    DigestIs(c, message, systemId, state, height, system, identity);
    var digest := DigestOf(c, message, systemId, state, height);
    forall a | a in SetOf(who) ensures a in Signers(c, digest, compacts, state.primaryAddresses) {
      var i :| 0 <= i < |who| && who[i] == a;
      CompactIsRead(c, digest, made[i]);
      assert compacts[i] in compacts && SignedBy(c, digest, compacts[i], a);
    }
    assert who[0] in SetOf(who) && |SetOf(who)| > 0;
    WrappedIsVerified(c, message, systemId, state, height, compacts, SetOf(who));
  }

  lemma DigestIs(c: Crypto, message: string, systemId: string, state: IdentityState, height: int, system: Hash,
                 identity: Hash)
    requires Decodable(c, systemId, state) && Hashable(c, message, height)
    requires B.DecodeIAddress(systemId, c.sha256) == Some(system)
    requires B.DecodeIAddress(state.identityAddress, c.sha256) == Some(identity)
    ensures DigestOf(c, message, systemId, state, height) ==
      c.sha256(MH.IdentityPreimage(system, height, identity, c.sha256(MH.MessagePreimage(c.utf8(message)))))
  {
    hide B.DecodeAddress, Decodable, MH.IdentityPreimage, MH.MessagePreimage;
  }

  /** An envelope whose signatures stand for enough addresses is accepted once wrapped and encoded. */
  lemma WrappedIsVerified(c: Crypto, message: string, systemId: string, state: IdentityState, height: int,
                          compacts: seq<seq<Byte>>, who: set<string>)
    requires forall b: seq<Byte> | b != [] :: c.fromBase64(Base64.Encode(b)) == b
    requires !state.revoked && Decodable(c, systemId, state) && Hashable(c, message, height)
    requires E.Wrap(compacts, height).Some? && |who| >= 1 && |who| >= state.minimumSignatures
    requires who <= Signers(c, DigestOf(c, message, systemId, state, height), compacts, state.primaryAddresses)
    ensures var r := Verify(c, message, Base64.Encode(E.Wrap(compacts, height).value), systemId, state);
      r.valid && r.blockHeight == height && who <= r.matched
  {
    hide E.Parse, E.Wrap, Decodable, Hashable, DigestOf, Signers, Base64.Encode;
    E.WrapParses(compacts, height);
    E.WrapLayout(compacts, height);
    var raw := E.Wrap(compacts, height).value;
    assert raw != [];
    Subset(who, Signers(c, DigestOf(c, message, systemId, state, height), compacts, state.primaryAddresses));
  }

  // ---------- address signatures ----------

  /** A plain address signature: the key behind one compact signature over the wrapped message hash. */
  function VerifyAddress(c: Crypto, message: string, signature: string, address: string): bool {
    && |c.utf8(message)| <= MH.MAX_LENGTH && B.DecodeRAddress(address, c.sha256).Some?
    && RecoverHash160(c, MH.SignDigest(c.utf8(message), c.sha256), c.fromBase64(signature)) ==
         B.DecodeRAddress(address, c.sha256)
  }

  /** A signature over the wrapped hash of the message, made with the key behind the address, is accepted. */
  lemma AddressSignedVerifies(c: Crypto, message: string, address: string, m: Made)
    requires Recoverable(m) && c.fromBase64(Base64.Encode(Compact(m))) == Compact(m)
    requires |c.utf8(message)| <= MH.MAX_LENGTH && B.DecodeRAddress(address, c.sha256).Some?
    requires var digest := c.sha256(MH.SignPreimage(c.sha256(MH.MessagePreimage(c.utf8(message)))));
      c.recover(digest, m.recovery, m.rs, m.compressed) == B.DecodeRAddress(address, c.sha256)
    ensures VerifyAddress(c, message, Base64.Encode(Compact(m)), address)
  {
    CompactIsRead(c, MH.SignDigest(c.utf8(message), c.sha256), m);
    hide RecoverHash160, Base64.Encode, B.DecodeRAddress, Compact;
  }

  /** It is valid for at most one address, and only as one compact signature. */
  lemma AddressSignatureNamesOneKey(c: Crypto, message: string, signature: string, address: string, other: string)
    requires VerifyAddress(c, message, signature, address)
    ensures VerifyAddress(c, message, signature, other) <==> other == address
    ensures exists m :: Recoverable(m) && c.fromBase64(signature) == Compact(m)
  {
    if VerifyAddress(c, message, signature, other) {
      B.AddressIsInjective(address, other, B.RADDRESS_PREFIX, c.sha256);
    }
    var m := RecoversOnlyCompacts(c, MH.SignDigest(c.utf8(message), c.sha256), c.fromBase64(signature));
  }
}
