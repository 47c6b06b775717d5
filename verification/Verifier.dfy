/** The prepaid-signature verifier over the storage: what a paid request does to the accounts. */
module Verifier {
  import opened Basics
  import opened Ledger
  import opened Checks
  import C = Conservation
  import V = Lifecycle
  import Client
  import Amount
  import Text
  import Base64
  import X = Extensions
  import K = Canonical
  import N = Names
  import H = Headers
  import T = Tables
  import M = MemoryStorage

  datatype Reply =
    | Accepted(requestId: string, payer: string, amount: int, balanceAfter: int)
    | Declined(failure: Failure)

  function Price(policy: Policy): int {
    match Amount.HumanToSats(policy.priceHuman)
    case Ok(sats) => sats
    case Err(_) => 0
  }

  function InputOf(checked: Checked, r: Incoming, policy: Policy): ReserveInput {
    ReserveInput(checked.claim.requestId, checked.identityKey, checked.claim.issuedAt, checked.receivedAt,
                 Price(policy), r.verb, r.path)
  }

  function Answered(checked: Checked, policy: Policy, result: ReserveResult): Reply {
    match result
    case ReservedWith(balance) => Accepted(checked.claim.requestId, checked.identityKey, Price(policy), balance)
    case Replay(_) => Declined(Failure(409, Checks.Replay))
    case TooPoor(_) => Declined(Failure(402, InsufficientBalance))
    case UnknownIdentity => Declined(Failure(402, NoBalance))
  }

  predicate AlreadySpent(s: Store, r: Incoming) {
    var parsed := H.Parse(r.headers);
    parsed.Ok? && parsed.value.requestId in s.requests
  }

  /** Replay first, then the checks, then the atomic reserve. */
  function Decide(s: Store, cfg: Config, r: Incoming, policy: Policy, now: int, outside: Outside)
    : (Store, Outcome<Reply>)
  {
    if AlreadySpent(s, r) then (s, Done(Declined(Failure(409, Checks.Replay))))
    else
      match RunChecks(cfg, r, policy, now, outside)
      case Err(failure) => (s, Done(Declined(failure)))
      case Ok(checked) =>
        var (s1, reserved) := Reserve(s, InputOf(checked, r, policy));
        match reserved
        case Fault => (s1, Fault)
        case Done(result) => (s1, Done(Answered(checked, policy, result)))
  }

  class VerusPrepaidSigVerifier {
    const storage: M.InMemoryStorage
    const cfg: Config

    constructor (storage: M.InMemoryStorage, cfg: Config)
      ensures this.storage == storage && this.cfg == cfg
    {
      this.storage, this.cfg := storage, cfg;
    }

    /** The extension block, decoded and checked field by field. */
    method DecodeExtensions(claim: H.Claim, r: Incoming, policy: Policy, outside: Outside)
      returns (result: Text.Result<seq<X.Field>, Code>)
      ensures result == Checks.DecodeExtensions(cfg, claim, r, policy, outside)
    {
      hide Base64.IsBase64, Base64.Decode, X.Parse, BodyHashForm, StartsWith;
      var fields: seq<X.Field> := [];
      if claim.extensionsRaw.Some? {
        if !Base64.IsBase64(claim.extensionsRaw.value) {
          return Text.Err(InvalidExtensions);
        }
        var decoded := Base64.Decode(claim.extensionsRaw.value);
        if |decoded| > cfg.maxExtensionsBytes {
          return Text.Err(ExtensionsTooLarge);
        }
        var parsed := X.ParseExtensionBlock(outside.utf8(decoded));
        if parsed.Err? {
          return Text.Err(InvalidExtensions);
        }
        fields := parsed.value;
        for i := 0 to |fields|
          invariant Forbidden(fields) == Forbidden(fields[i..])
        {
          if StartsWith(fields[i].key, "scheme.") && fields[i].key != BODY_HASH {
            return Text.Err(UnknownSchemeExtension);
          }
          if StartsWith(fields[i].key, "iana.") {
            return Text.Err(ReservedExtension);
          }
        }
      }
      var bodyHash := FindField(fields, BODY_HASH);
      if !policy.bodyHash.Ignored? {
        if bodyHash.None? && policy.bodyHash.Required? && BodyOf(r) != [] {
          return Text.Err(BodyHashRequired);
        }
        if bodyHash.Some? {
          if !BodyHashForm(bodyHash.value.value) {
            return Text.Err(InvalidBodyHash);
          }
          if bodyHash.value.value != "sha256:" + outside.sha256(BodyOf(r)) {
            return Text.Err(BodyHashMismatch);
          }
        }
      }
      result := Text.Ok(fields);
    }

    /** The check pipeline: the first check that fails answers. */
    method Check(r: Incoming, policy: Policy, now: int, outside: Outside)
      returns (result: Text.Result<Checked, Failure>)
      ensures result == RunChecks(cfg, r, policy, now, outside)
    {
      hide H.Parse, SchemeName, SchemeVersion, Checks.DecodeExtensions, N.NormalizeIdentityKey, K.Canonicalize;
      var parsed := H.ParsePaymentHeaders(r.headers);
      if parsed.Err? {
        return Text.Err(Failure(400, InvalidHeaders));
      }
      var claim := parsed.value;
      if SchemeName(claim.scheme) != SCHEME {
        return Text.Err(Failure(402, UnsupportedScheme));
      }
      var version := ClaimedVersion(cfg, claim);
      if version !in cfg.schemeVersions {
        return Text.Err(Failure(400, UnsupportedSchemeVersion));
      }
      if claim.amount != policy.priceHuman {
        return Text.Err(Failure(402, PriceMismatch));
      }
      var extensions := DecodeExtensions(claim, r, policy, outside);
      if extensions.Err? {
        return Text.Err(Failure(400, extensions.error));
      }
      if OutOfWindow(cfg, claim.issuedAt, now) {
        return Text.Err(Failure(400, TimestampOutOfWindow));
      }
      var identityKey := N.NormalizeIdentityKey(claim.payer);
      if outside.blocked(identityKey) {
        return Text.Err(Failure(403, IsBlocked));
      }
      var canonical := K.Canonicalize(ServerPayload(cfg, r, policy, claim, version, extensions.value));
      if canonical.Err? {
        return Text.Err(Failure(400, InvalidRequest));
      }
      match outside.verify(claim.payer, claim.signature, canonical.value)
      case Valid => result := Text.Ok(Checked(claim, identityKey, now));
      case Invalid => result := Text.Err(Failure(402, InvalidSignature));
      case Unavailable => result := Text.Err(Failure(503, VerifyUnavailable));
    }

    method VerifyAndReserve(r: Incoming, policy: Policy, now: int, outside: Outside) returns (reply: Outcome<Reply>)
      requires storage.Valid()
      modifies storage
      ensures storage.Valid()
      ensures (storage.Model(), reply) == Decide(old(storage.Model()), cfg, r, policy, now, outside)
    {
      hide RunChecks, Ledger.Reserve;
      var parsed := H.ParsePaymentHeaders(r.headers);
      if parsed.Ok? {
        var existing := storage.GetSpentRequest(parsed.value.requestId);
        if existing.Some? {
          return Done(Declined(Failure(409, Checks.Replay)));
        }
      }
      var checked := Check(r, policy, now, outside);
      if checked.Err? {
        return Done(Declined(checked.error));
      }
      var reserved := storage.ReservePayment(InputOf(checked.value, r, policy));
      match reserved
      case Fault => reply := Fault;
      case Done(result) => reply := Done(Answered(checked.value, policy, result));
    }

    /** Second phase on success: commit, or the late commit after the reaper. */
    method Commit(rid: string, bytes: int, now: int) returns (reply: Outcome<V.CommitReply>)
      requires storage.Valid()
      modifies storage
      ensures storage.Valid() && (storage.Model(), reply) == V.CommitPhase(old(storage.Model()), rid, bytes, now)
    {
      hide Ledger.Commit, LateCommitPayment;
      var committed := storage.CommitPayment(rid, bytes);
      if committed.Applied? {
        return Done(V.CommitOk(false, false, None));
      }
      if committed.current.None? {
        return Done(V.CommitUnknown);
      }
      if committed.current == Some(Committed) {
        return Done(V.CommitOk(true, false, None));
      }
      if committed.current == Some(Errored) {
        var late := storage.LateCommitSpent(rid, bytes, now);
        match late
        case Fault => return Fault;
        case Done(AppliedLate(balance)) => return Done(V.CommitOk(false, true, Some(balance)));
        case Done(RefusedLate(status)) => return Done(V.CommitInvalid(status));
      }
      reply := Done(V.CommitInvalid(committed.current));
    }

    /** Second phase on error. */
    method Rollback(rid: string, now: int) returns (reply: Outcome<V.RollbackReply>)
      requires storage.Valid()
      modifies storage
      ensures storage.Valid() && (storage.Model(), reply) == V.RollbackPhase(old(storage.Model()), rid, now)
    {
      hide Ledger.Rollback;
      var rolledBack := storage.RollbackPayment(rid, now);
      match rolledBack
      case Fault => reply := Fault;
      case Done(Applied) => reply := Done(V.RollbackOk(false));
      case Done(Refused(current)) =>
        if current.None? {
          reply := Done(V.RollbackUnknown);
        } else if current == Some(Errored) {
          reply := Done(V.RollbackOk(true));
        } else {
          reply := Done(V.RollbackInvalid(current.value));
        }
    }
  }

  // ---------- what each reply means ----------

  /** Every reply has its cause: a requestId already spent is a replay before anything else is checked; then the
      failed check; then, for a request that passed them all, a missing account, a balance below the price, or
      acceptance for exactly the price. */
  lemma ReplyMeans(a: C.Audit, cfg: Config, r: Incoming, policy: Policy, now: int, outside: Outside)
    requires C.Inv(a)
    ensures var reply := Decide(a.s, cfg, r, policy, now, outside).1;
      var parsed := H.Parse(r.headers);
      if parsed.Ok? && parsed.value.requestId in a.s.requests then reply == Done(Declined(Failure(409, Checks.Replay)))
      else
        match RunChecks(cfg, r, policy, now, outside)
        case Err(failure) => reply == Done(Declined(failure))
        case Ok(checked) =>
          && parsed == Text.Ok(checked.claim)
          && var who := N.NormalizeIdentityKey(checked.claim.payer);
             if who !in a.s.identities then reply == Done(Declined(Failure(402, NoBalance)))
             else
               match Amount.HumanToSats(policy.priceHuman)
               case Err(_) => false
               case Ok(price) =>
                 reply == Done(
                   if a.s.identities[who].balance < price then Declined(Failure(402, InsufficientBalance))
                   else Accepted(checked.claim.requestId, who, price, a.s.identities[who].balance - price))
  {
    hide RunChecks, H.Parse, Amount.HumanToSats, C.Inv, N.NormalizeIdentityKey, Reserve;
    if !AlreadySpent(a.s, r) && RunChecks(cfg, r, policy, now, outside).Ok? {
      var checked := RunChecks(cfg, r, policy, now, outside).value;
      var p, text := PassingIsSigned(cfg, r, policy, now, outside);
      T.ReserveAnswers(a, InputOf(checked, r, policy));
    }
  }

  /** So the client's recovery sees a price mismatch exactly when the amount it signed is not the current price. */
  lemma MismatchIsReported(a: C.Audit, cfg: Config, r: Incoming, policy: Policy, now: int, outside: Outside,
                           claim: H.Claim, version: string)
    requires C.Inv(a) && H.Parse(r.headers) == Text.Ok(claim) && claim.requestId !in a.s.requests
    requires NamesScheme(claim.scheme) && MeansVersion(cfg, claim.scheme, version) && version in cfg.schemeVersions
    ensures Decide(a.s, cfg, r, policy, now, outside).1 == Done(Declined(Failure(402, PriceMismatch))) <==>
      claim.amount != policy.priceHuman
  {
    VersionAndPrice(cfg, r, policy, now, outside, claim, version);
    ReplyMeans(a, cfg, r, policy, now, outside);
    hide RunChecks, H.Parse, Amount.HumanToSats, C.Inv, N.NormalizeIdentityKey, NamesScheme, MeansVersion, Decide;
  }

  /** The decision without the early look at the requestId: the checks, then the reserve. */
  function DecideLate(s: Store, cfg: Config, r: Incoming, policy: Policy, now: int, outside: Outside)
    : (Store, Outcome<Reply>)
  {
    match RunChecks(cfg, r, policy, now, outside)
    case Err(failure) => (s, Done(Declined(failure)))
    case Ok(checked) =>
      var (s1, reserved) := Reserve(s, InputOf(checked, r, policy));
      (s1, if reserved.Fault? then Fault else Done(Answered(checked, policy, reserved.value)))
  }

  /** The early replay answer only saves work: the store is the same without it, and so is the reply, except that a
      spent requestId whose request also fails a check would then get that failure instead of the replay. */
  lemma EarlyReplayIsOptional(s: Store, cfg: Config, r: Incoming, policy: Policy, now: int, outside: Outside)
    ensures Decide(s, cfg, r, policy, now, outside).0 == DecideLate(s, cfg, r, policy, now, outside).0
    ensures Decide(s, cfg, r, policy, now, outside) != DecideLate(s, cfg, r, policy, now, outside) <==>
      && H.Parse(r.headers).Ok? && H.Parse(r.headers).value.requestId in s.requests
      && RunChecks(cfg, r, policy, now, outside).Err?
  {
    hide RunChecks, H.Parse, Amount.HumanToSats, N.NormalizeIdentityKey, Solvent;
    if RunChecks(cfg, r, policy, now, outside).Ok? {
      var p, text := PassingIsSigned(cfg, r, policy, now, outside);
    } else {
      NoReplayCode(cfg, r, policy, now, outside);
    }
  }

  // ---------- what a paid request costs ----------

  /** Money moves exactly when the request is accepted: then the payer's account, and no other, loses exactly the
      configured price; otherwise every account and the whole ledger stay as they are. */
  lemma MoneyMovesOnlyWhenAccepted(a: C.Audit, cfg: Config, r: Incoming, policy: Policy, now: int, outside: Outside)
    requires C.Inv(a)
    ensures var (t, reply) := Decide(a.s, cfg, r, policy, now, outside);
      && reply.Done?
      && (reply.value.Accepted? ==>
            && H.Parse(r.headers).Ok?
            && reply.value.payer == N.NormalizeIdentityKey(H.Parse(r.headers).value.payer)
            && reply.value.payer in a.s.identities
            && Amount.HumanToSats(policy.priceHuman) == Text.Ok(reply.value.amount)
            && reply.value.balanceAfter == Balance(t, reply.value.payer) >= 0
            && |t.ledger| == |a.s.ledger| + 1
            && (forall who ::
                  Balance(t, who) == Balance(a.s, who) - (if who == reply.value.payer then reply.value.amount else 0))
            && (forall who ::
                  LedgerSum(t, who) ==
                    LedgerSum(a.s, who) - (if who == reply.value.payer then reply.value.amount else 0)))
      && (reply.value.Declined? ==> t.ledger == a.s.ledger && forall who :: Balance(t, who) == Balance(a.s, who))
  {
    hide RunChecks, H.Parse, Amount.HumanToSats, C.Inv, Reserve;
    if !AlreadySpent(a.s, r) && RunChecks(cfg, r, policy, now, outside).Ok? {
      var checked := RunChecks(cfg, r, policy, now, outside).value;
      var p, text := PassingIsSigned(cfg, r, policy, now, outside);
      ReserveEffect(a, InputOf(checked, r, policy));
    }
  }

  /** An accepted request leaves the row that later phases work on: its payer's, with the time it was signed, the
      time it was received, the price, and where it went. */
  lemma AcceptedLeavesRow(s: Store, cfg: Config, r: Incoming, policy: Policy, now: int, outside: Outside)
    requires var reply := Decide(s, cfg, r, policy, now, outside).1; reply.Done? && reply.value.Accepted?
    ensures var (t, reply) := Decide(s, cfg, r, policy, now, outside);
      && H.Parse(r.headers).Ok?
      && var claim := H.Parse(r.headers).value;
         && reply.value.requestId == claim.requestId && claim.requestId !in s.requests
         && t.requests == s.requests[claim.requestId := Request(
              identityId := N.NormalizeIdentityKey(claim.payer), issuedAt := claim.issuedAt, receivedAt := now,
              amount := reply.value.amount, verb := r.verb, path := r.path, status := Reserved,
              responseBytes := None)]
  {
    hide RunChecks, H.Parse, Amount.HumanToSats, Reserve, N.NormalizeIdentityKey;
    var p, text := PassingIsSigned(cfg, r, policy, now, outside);
    ReserveLeavesRow(s, InputOf(RunChecks(cfg, r, policy, now, outside).value, r, policy));
  }

  lemma ReserveLeavesRow(s: Store, input: ReserveInput)
    requires var reserved := Reserve(s, input).1; reserved.Done? && reserved.value.ReservedWith?
    ensures input.requestId !in s.requests
    ensures Reserve(s, input).0.requests == s.requests[input.requestId := Request(
              identityId := input.identityId, issuedAt := input.issuedAt, receivedAt := input.receivedAt,
              amount := input.amount, verb := input.verb, path := input.path, status := Reserved,
              responseBytes := None)]
  {
    hide Solvent;
  }

  lemma ReserveEffect(a: C.Audit, input: ReserveInput)
    requires C.Inv(a)
    ensures var (t, result) := Reserve(a.s, input);
      && result.Done?
      && (result.value.ReservedWith? ==>
            && input.identityId in a.s.identities && |t.ledger| == |a.s.ledger| + 1
            && result.value.balanceAfter == Balance(t, input.identityId) >= 0
            && (forall who ::
                  Balance(t, who) == Balance(a.s, who) - (if who == input.identityId then input.amount else 0))
            && (forall who ::
                  LedgerSum(t, who) == LedgerSum(a.s, who) - (if who == input.identityId then input.amount else 0)))
      && (!result.value.ReservedWith? ==> t.ledger == a.s.ledger && forall who :: Balance(t, who) == Balance(a.s, who))
  {
    C.InvIsSolvent(a, input.identityId);
    var (t, result) := Reserve(a.s, input);
    if result.value.ReservedWith? {
      var who := input.identityId;
      var seen := a.s.identities[who].(lastRequestAt := Some(input.receivedAt));
      var row := a.s.(requests := t.requests, identities := a.s.identities[who := seen]);
      forall other
        ensures Balance(t, other) == Balance(a.s, other) - (if other == who then input.amount else 0)
        ensures LedgerSum(t, other) == LedgerSum(a.s, other) - (if other == who then input.amount else 0)
      {
        C.MoveEffect(row, who, -input.amount, Debit, ReserveReason, input.receivedAt, Some(input.requestId), None,
                     other);
      }
    }
  }

  // ---------- the server the client meets ----------

  /** The verdict the checks come to, with what the endpoint and the guard do after a pass. */
  function VerdictOf(checks: Text.Result<Checked, Failure>, r: Incoming, policy: Policy, endpointStatus: int,
                     phase: Client.PhaseTwo, unpaid: Client.Challenge): Client.Verdict
  {
    match checks
    case Err(failure) => Client.Refuse(Client.Reply(failure.status, unpaid))
    case Ok(_) => Client.Pass(Price(policy), r.verb, r.path, endpointStatus, phase, unpaid)
  }

  function AfterReply(s: Store, reply: Outcome<Reply>, phase: Client.PhaseTwo, at: int): Store {
    match reply
    case Done(Accepted(rid, _, _, _)) => Client.Settle(s, rid, phase, at)
    case _ => s
  }

  /** What the guard's second phase leaves of a reservation: committed with its bytes, refunded, or still reserved. */
  lemma SettleDoes(a: C.Audit, rid: string, phase: Client.PhaseTwo, at: int)
    requires C.Inv(a) && CurrentStatus(a.s, rid) == Some(Reserved)
    ensures var t := Client.Settle(a.s, rid, phase, at);
      var r := a.s.requests[rid];
      match phase
      case DoCommit(bytes) =>
        t.identities == a.s.identities
        && V.RowAt(t, rid) == Some(r.(status := Committed, responseBytes := Some(bytes)))
      case DoRollback =>
        V.RowAt(t, rid) == Some(r.(status := Errored))
        && Balance(t, r.identityId) == Balance(a.s, r.identityId) + r.amount
      case Neither => t == a.s
  {
    var r := a.s.requests[rid];
    C.InvIsSolvent(a, r.identityId);
    V.StepMovesExactly(a, C.OpRollback(rid, at), rid);
    assert r.identityId in a.s.identities;
    hide C.Inv, Solvent;
  }

  /** The status the payer sees: the endpoint's own after acceptance, the failure's, or 500 when a check throws. */
  function StatusOf(reply: Outcome<Reply>, endpointStatus: int): int {
    match reply
    case Fault => 500
    case Done(Declined(failure)) => failure.status
    case Done(Accepted(_, _, _, _)) => endpointStatus
  }

  /** The server in `Client.OneCallOneDebit` is this verifier followed by the guard's second phase. */
  lemma ClientMeetsVerifier(s: Store, cfg: Config, r: Incoming, policy: Policy, now: int, outside: Outside,
                            noise: seq<C.Op>, endpointStatus: int, phase: Client.PhaseTwo, unpaid: Client.Challenge)
    requires H.Parse(r.headers).Ok?
    ensures var claim := H.Parse(r.headers).value;
      var verdict := VerdictOf(RunChecks(cfg, r, policy, now, outside), r, policy, endpointStatus, phase, unpaid);
      var d := Client.Delivery(noise, now, verdict, Client.Arrives);
      var (t, reply) := Decide(s, cfg, r, policy, now, outside);
      var (served, answer) := Client.Serve(s, claim.requestId, N.NormalizeIdentityKey(claim.payer), claim.issuedAt, d);
      && served == AfterReply(t, reply, phase, now)
      && answer.status == StatusOf(reply, endpointStatus)
  {
    hide RunChecks, H.Parse, Reserve, Client.Settle, N.NormalizeIdentityKey, Amount.HumanToSats,
         Amount.IsValidHumanAmount;
    if RunChecks(cfg, r, policy, now, outside).Ok? {
      var p, text := PassingIsSigned(cfg, r, policy, now, outside);
    }
  }
}
