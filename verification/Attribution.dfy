/** Blocks and transactions as the watcher sees them, and the sender attribution rules with their caches. */
module Attribution {
  import opened Basics
  import opened Names

  datatype Vin = Vin(coinbase: bool, address: Option<string>, addresses: Option<seq<string>>,
                     txid: Option<string>, vout: Option<nat>)
  datatype Vout = Vout(n: int, valueSat: int, addresses: seq<string>)
  datatype Tx = Tx(txid: string, vins: seq<Vin>, vouts: seq<Vout>)
  datatype Block = Block(hash: string, txs: seq<Tx>)

  datatype IdentityReply = IdentityReply(fullyQualifiedName: Option<string>, name: string)

  /** What the node answers about transactions and identities. */
  datatype Directory = Directory(txOf: string -> Tx, identityOf: string -> IdentityReply)

  datatype Reason = NoIdentityVin | MultipleIdentities
  datatype Attributed = Sender(identityKey: string, identityAddress: string) | Unknown(reason: Reason)

  // ---------- the attribution rule ----------

  /** The addresses one input spends from. */
  function VinAddresses(vin: Vin, txOf: string -> Tx): seq<string> {
    if vin.coinbase then []
    else if vin.address.Some? then [vin.address.value]
    else if vin.addresses.Some? then vin.addresses.value
    else if vin.txid.None? || vin.vout.None? then []
    else
      var source := txOf(vin.txid.value);
      if vin.vout.value < |source.vouts| then source.vouts[vin.vout.value].addresses else []
  }

  ghost function Senders(tx: Tx, txOf: string -> Tx): set<string> {
    set i, a | 0 <= i < |tx.vins| && a in VinAddresses(tx.vins[i], txOf) :: a
  }

  predicate IsIdentityAddress(a: string) {
    a != "" && a[0] == 'i'
  }

  ghost function IdentitySenders(tx: Tx, txOf: string -> Tx): set<string> {
    set a | a in Senders(tx, txOf) && IsIdentityAddress(a)
  }

  function KeyOf(reply: IdentityReply, chainName: string): string {
    NormalizeIdentityKey(
      if reply.fullyQualifiedName.Some? then StripChainSuffix(reply.fullyQualifiedName.value, chainName)
      else reply.name + "@")
  }

  /** A deposit belongs to an identity when all identity addresses among its inputs are the same one. */
  ghost function Attribute(tx: Tx, dir: Directory, chainName: string): Attributed {
    var ids := IdentitySenders(tx, dir.txOf);
    if |ids| == 0 then Unknown(NoIdentityVin)
    else if |ids| > 1 then Unknown(MultipleIdentities)
    else
      var a :| a in ids;
      Sender(KeyOf(dir.identityOf(a), chainName), a)
  }

  // ---------- what the rule says ----------

  /** The input spends an output of address `a`: the address it names itself, else one of those it lists, else one
      of the output it points to. Coinbase inputs spend nothing. */
  ghost predicate Spends(vin: Vin, txOf: string -> Tx, a: string) {
    !vin.coinbase &&
    match (vin.address, vin.addresses)
    case (Some(b), _) => a == b
    case (None, Some(list)) => exists i | 0 <= i < |list| :: list[i] == a
    case (None, None) =>
      && vin.txid.Some? && vin.vout.Some?
      && exists n, i :: n == vin.vout.value && 0 <= n < |txOf(vin.txid.value).vouts|
           && 0 <= i < |txOf(vin.txid.value).vouts[n].addresses| && txOf(vin.txid.value).vouts[n].addresses[i] == a
  }

  /** `a` is an identity address that an input of the transaction spends from. */
  ghost predicate SpentBy(tx: Tx, txOf: string -> Tx, a: string) {
    && (exists i | 0 <= i < |tx.vins| :: Spends(tx.vins[i], txOf, a))
    && |a| > 0 && a[0] == 'i'
  }

  lemma SpentExactly(tx: Tx, txOf: string -> Tx, a: string)
    ensures a in IdentitySenders(tx, txOf) <==> SpentBy(tx, txOf, a)
  {
    forall vin: Vin ensures a in VinAddresses(vin, txOf) <==> Spends(vin, txOf, a) {}
  }

  /** A deposit is attributed exactly when its inputs spend from one identity address and no other; it is not when
      they spend from none, or from two. */
  lemma AttributesExactly(tx: Tx, dir: Directory, chainName: string)
    ensures var r := Attribute(tx, dir, chainName);
      && (forall a :: r == Sender(KeyOf(dir.identityOf(a), chainName), a) <==>
            SpentBy(tx, dir.txOf, a) && forall b :: SpentBy(tx, dir.txOf, b) ==> b == a)
      && (r == Unknown(NoIdentityVin) <==> forall a :: !SpentBy(tx, dir.txOf, a))
      && (r == Unknown(MultipleIdentities) <==>
            exists a, b :: a != b && SpentBy(tx, dir.txOf, a) && SpentBy(tx, dir.txOf, b))
  {
    hide KeyOf, IdentitySenders, SpentBy;
    var ids := IdentitySenders(tx, dir.txOf);
    forall a ensures a in ids <==> SpentBy(tx, dir.txOf, a) {
      SpentExactly(tx, dir.txOf, a);
    }
    forall a | a in ids && |ids| == 1 ensures ids == {a} {
      OneMember(ids, a);
    }
    if |ids| > 1 {
      var a :| a in ids;
      assert |ids - {a}| == |ids| - 1;
      var b :| b in ids - {a};
      assert a != b && SpentBy(tx, dir.txOf, a) && SpentBy(tx, dir.txOf, b);
    }
  }

  /** The account a deposit goes to is the one its payer spends from: when the one identity spent from resolves to a
      name with the chain's suffix, in any letter case, the key is that of the chain-relative name; when it resolves
      to a short name, the key of that name. */
  lemma PayerOwnsDeposit(tx: Tx, dir: Directory, chainName: string, a: string, name: string, chain: string)
    requires SpentBy(tx, dir.txOf, a) && forall b :: SpentBy(tx, dir.txOf, b) ==> b == a
    ensures Lower(chain) == Lower(chainName)
            && dir.identityOf(a).fullyQualifiedName == Some(name + "." + chain + "@") ==>
      Attribute(tx, dir, chainName) == Sender(NormalizeIdentityKey(name + "@"), a)
    ensures dir.identityOf(a).fullyQualifiedName == None && dir.identityOf(a).name == name ==>
      Attribute(tx, dir, chainName) == Sender(NormalizeIdentityKey(name + "@"), a)
  {
    hide SpentBy, StripChainSuffix, NormalizeIdentityKey;
    AttributesExactly(tx, dir, chainName);
    if Lower(chain) == Lower(chainName) {
      SuffixIsStripped(name, chain, chainName);
    }
    hide Attribute;
  }

  lemma OneMember(s: set<string>, a: string)
    requires |s| == 1 && a in s
    ensures s == {a}
  {
    assert |s - {a}| == 0;
  }

  /** Remembers source transactions and identity keys for the length of one poll. */
  class Caches {
    var sourceTxs: map<string, Tx>
    var identityKeys: map<string, string>

    ghost predicate Truthful(dir: Directory, chainName: string)
      reads this
    {
      && (forall t | t in sourceTxs :: sourceTxs[t] == dir.txOf(t))
      && (forall a | a in identityKeys :: identityKeys[a] == KeyOf(dir.identityOf(a), chainName))
    }

    constructor ()
      ensures sourceTxs == map[] && identityKeys == map[]
    {
      sourceTxs, identityKeys := map[], map[];
    }

    method Source(txid: string, dir: Directory, ghost chainName: string) returns (tx: Tx)
      requires Truthful(dir, chainName)
      modifies this`sourceTxs
      ensures Truthful(dir, chainName) && tx == dir.txOf(txid)
    {
      if txid !in sourceTxs {
        sourceTxs := sourceTxs[txid := dir.txOf(txid)];
      }
      tx := sourceTxs[txid];
    }
  }

  method SenderAddresses(tx: Tx, dir: Directory, ghost chainName: string, caches: Caches) returns (found: seq<string>)
    requires caches.Truthful(dir, chainName)
    modifies caches
    ensures caches.Truthful(dir, chainName)
    ensures Distinct(found) && forall a :: a in found <==> a in Senders(tx, dir.txOf)
  {
    found := [];
    var i := 0;
    while i < |tx.vins|
      invariant 0 <= i <= |tx.vins| && caches.Truthful(dir, chainName) && Distinct(found)
      invariant forall a :: a in found <==> exists j | 0 <= j < i :: a in VinAddresses(tx.vins[j], dir.txOf)
    {
      var vin := tx.vins[i];
      var more := [];
      if !vin.coinbase {
        if vin.address.Some? {
          more := [vin.address.value];
        } else if vin.addresses.Some? {
          more := vin.addresses.value;
        } else if vin.txid.Some? && vin.vout.Some? {
          var source := caches.Source(vin.txid.value, dir, chainName);
          if vin.vout.value < |source.vouts| {
            more := source.vouts[vin.vout.value].addresses;
          }
        }
      }
      assert more == VinAddresses(vin, dir.txOf);
      found := AddAll(found, more);
      i := i + 1;
    }
  }

  /** Set insertion of a list, keeping first-seen order. */
  function AddAll(found: seq<string>, more: seq<string>): (r: seq<string>)
    requires Distinct(found)
    ensures Distinct(r) && forall a :: a in r <==> a in found || a in more
    decreases |more|
  {
    if more == [] then found
    else
      assert more == [more[0]] + more[1..];
      AddAll(if more[0] in found then found else found + [more[0]], more[1..])
  }

  function OnlyIdentities(s: seq<string>): (r: seq<string>)
    requires Distinct(s)
    ensures Distinct(r) && forall a :: a in r <==> a in s && IsIdentityAddress(a)
  {
    if s == [] then []
    else
      var n := |s| - 1;
      assert s[n] !in s[..n] && s == s[..n] + [s[n]];
      OnlyIdentities(s[..n]) + (if IsIdentityAddress(s[n]) then [s[n]] else [])
  }

  /** Attribution with whatever the caches hold equals attribution with none, and keeps them truthful. */
  method AttributeSender(tx: Tx, dir: Directory, chainName: string, caches: Caches) returns (r: Attributed)
    requires caches.Truthful(dir, chainName)
    modifies caches
    ensures caches.Truthful(dir, chainName)
    ensures r == Attribute(tx, dir, chainName)
  {
    var found := SenderAddresses(tx, dir, chainName, caches);
    var ids := OnlyIdentities(found);
    ghost var all := IdentitySenders(tx, dir.txOf);
    DistinctCount(ids, all);
    if |ids| == 0 {
      return Unknown(NoIdentityVin);
    }
    if |ids| > 1 {
      return Unknown(MultipleIdentities);
    }
    var address := ids[0];
    OneMember(all, address);
    if address !in caches.identityKeys {
      caches.identityKeys := caches.identityKeys[address := KeyOf(dir.identityOf(address), chainName)];
    }
    r := Sender(caches.identityKeys[address], address);
  }
}
