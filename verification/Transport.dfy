/** The verifier at the transport, and its agreement with the decision behind it. */
module Transport {
  import opened Domain
  import opened ScopeText
  import opened Tokens
  import opened Authz
  import Store

  /** What the transport reports about a token it lets through. */
  datatype AccessToken = AccessToken(
    clientId: string, scopes: seq<string>, expiresAt: int, resource: string, subject: string,
    issuer: string, tokenId: string, act: seq<string>)

  datatype Screening =
    | Admitted(access: AccessToken)
    | Turned(reason: Reason, subject: Option<string>, tokenId: Option<string>)

  /** Authentic, and addressed to this server; no more. */
  function Screen(audience: string, presented: Presented): Screening {
    match presented
    case Unverified(reason) => Turned(reason, None, None)
    case Verified(claims) =>
      if audience !in claims.audience then Turned(AudienceMismatch, Some(claims.subject), Some(claims.tokenId))
      else
        Admitted(AccessToken(
          claims.subject, Sorted(multiset(Effective(claims, true))), claims.expiresAt, audience, claims.subject,
          claims.issuer, claims.tokenId,
          seq(|claims.chain|, i requires 0 <= i < |claims.chain| => claims.chain[i].subject)))
  }

  /** What is reported about a token that is let through, field by field: the scopes are those the leaf
      claims and every link held, each once and in order. */
  ghost predicate Reports(a: AccessToken, audience: string, claims: Claims) {
    && a.clientId == claims.subject && a.subject == claims.subject && a.expiresAt == claims.expiresAt
    && a.resource == audience && a.issuer == claims.issuer && a.tokenId == claims.tokenId
    && |a.act| == |claims.chain| && (forall i :: 0 <= i < |a.act| ==> a.act[i] == claims.chain[i].subject)
    && (forall s :: s in a.scopes <==> Holds(HARDENED, claims, s))
    && Ascends(a.scopes) && (forall s :: multiset(a.scopes)[s] <= 1)
  }

  /** A token is let through exactly if it is authentic and this server is one of its audiences, and the
      report is about that token; a refusal has its own reason, and names a subject and a token only where
      those are established. */
  lemma ScreenSays(audience: string, presented: Presented)
    ensures match presented
      case Unverified(reason) => Screen(audience, presented) == Turned(reason, None, None)
      case Verified(claims) =>
        if audience in claims.audience then
          Screen(audience, presented).Admitted? && Reports(Screen(audience, presented).access, audience, claims)
        else Screen(audience, presented) == Turned(AudienceMismatch, Some(claims.subject), Some(claims.tokenId))
  {
    if presented.Verified? && audience in presented.claims.audience {
      var granted := Effective(presented.claims, true);
      SortedAscends(multiset(granted));
      forall s ensures s in Sorted(multiset(granted)) <==> s in granted { ListedIffGranted(granted, s); }
    }
  }

  class BrokerTokenVerifier {
    const jwks: map<string, seq<Key>>
    const audience: string
    const engine: Store.Database?

    constructor (jwks: map<string, seq<Key>>, audience: string, engine: Store.Database?)
      ensures this.jwks == jwks && this.audience == audience && this.engine == engine
    {
      this.jwks, this.audience, this.engine := jwks, audience, engine;
    }

    /** None for a refusal, which is written to the audit trail where there is one to write to. */
    method VerifyToken(token: Bearer, auditId: string) returns (access: Option<AccessToken>)
      modifies if engine == null then {} else {engine}
      ensures access == match Screen(audience, Verify(token, jwks))
        case Admitted(a) => Some(a)
        case Turned(_, _, _) => None
      ensures engine != null ==>
        engine.approvals == old(engine.approvals) && engine.effects == old(engine.effects)
        && engine.counters == old(engine.counters)
        && (forall id :: id in old(engine.audit) ==> id in engine.audit && engine.audit[id] == old(engine.audit)[id])
        && engine.audit == match Screen(audience, Verify(token, jwks))
           case Admitted(_) => old(engine.audit)
           case Turned(reason, subject, tokenId) =>
             if auditId in old(engine.audit) then old(engine.audit)
             else old(engine.audit)[auditId := Store.TransportRow(reason, subject, tokenId)]
    {
      var presented := Tokens.VerifyToken(token, jwks);
      match presented
      case Unverified(reason) =>
        Note(auditId, reason, None, None);
        return None;
      case Verified(claims) =>
        if audience !in claims.audience {
          Note(auditId, AudienceMismatch, Some(claims.subject), Some(claims.tokenId));
          return None;
        }
        var granted := EffectiveScopes(claims, true);
        return Some(AccessToken(
          claims.subject, Sorted(multiset(granted)), claims.expiresAt, audience, claims.subject,
          claims.issuer, claims.tokenId,
          seq(|claims.chain|, i requires 0 <= i < |claims.chain| => claims.chain[i].subject)));
    }

    /** Write the refusal down, without letting a failure to do so break it. */
    method Note(auditId: string, reason: Reason, subject: Option<string>, tokenId: Option<string>)
      modifies if engine == null then {} else {engine}
      ensures engine != null ==>
        && engine.audit == (if auditId in old(engine.audit) then old(engine.audit)
                            else old(engine.audit)[auditId := Store.TransportRow(reason, subject, tokenId)])
        && engine.approvals == old(engine.approvals) && engine.effects == old(engine.effects)
        && engine.counters == old(engine.counters)
    {
      if engine != null {
        var recorded := engine.RecordTransportRefusal(auditId, reason, subject, tokenId);
      }
    }
  }

  /** The library never returns the payload of a token that has expired by `now`. */
  ghost predicate Current(token: Bearer, now: int) {
    forall key :: token.decode(key).Payload? ==> token.decode(key).expiresAt > now
  }

  /** The reasons that verification itself gives. */
  const VERIFICATION_REASONS: set<Reason> :=
    {TokenMalformed, IssuerUnknown, SignatureInvalid, TokenExpired, DelegationMalformed}

  /** What verification can answer: one of its own reasons, or claims that have not expired. */
  lemma VerifyAnswers(token: Bearer, jwks: map<string, seq<Key>>, now: int)
    requires Current(token, now)
    ensures match Verify(token, jwks)
      case Unverified(reason) => reason in VERIFICATION_REASONS
      case Verified(claims) => claims.expiresAt > now
  {
  }

  lemma ListedIffGranted(granted: set<string>, scope: string)
    ensures scope in Sorted(multiset(granted)) <==> scope in granted
  {
    assert scope in multiset(Sorted(multiset(granted))) <==> scope in granted;
  }

  /** The two layers on one answer of verification. */
  ghost predicate Agree(screening: Screening, v: Verdict, tool: string)
    requires tool in TOOL_SCOPES
  {
    match screening
    case Turned(reason, subject, tokenId) =>
      && (reason in VERIFICATION_REASONS || reason == AudienceMismatch)
      && v.reason == Some(reason) && v.subject == subject && v.tokenId == tokenId
    case Admitted(access) =>
      && (v.reason.Some? ==> v.reason.value !in VERIFICATION_REASONS && v.reason.value != AudienceMismatch)
      && v.subject == Some(access.subject)
      && (v.allowed <==> TOOL_SCOPES[tool] in access.scopes)
  }

  lemma ScreenAgrees(presented: Presented, audience: string, tool: string, now: int)
    requires tool in TOOL_SCOPES
    requires match presented
      case Unverified(reason) => reason in VERIFICATION_REASONS
      case Verified(claims) => claims.expiresAt > now
    ensures var v := Authorize(HARDENED, presented, tool, Some(audience), Some(now));
      v.Some? && Agree(Screen(audience, presented), v.value, tool)
  {
    if presented.Verified? {
      ListedIffGranted(Effective(presented.claims, true), TOOL_SCOPES[tool]);
    }
  }

  /** At one instant the two layers agree. The transport refuses a token exactly when the hardened
      decision refuses it for a verification or audience reason, with the same reason and the same
      recorded subject and token; where the transport lets it through, the decision allows a tool
      exactly when the tool's scope is among those the transport reported. */
  lemma TransportAgrees(token: Bearer, jwks: map<string, seq<Key>>, audience: string, tool: string, now: int)
    requires Current(token, now) && tool in TOOL_SCOPES
    ensures var v := Authorize(HARDENED, Verify(token, jwks), tool, Some(audience), Some(now));
      v.Some? && Agree(Screen(audience, Verify(token, jwks)), v.value, tool)
  {
    VerifyAnswers(token, jwks, now);
    ScreenAgrees(Verify(token, jwks), audience, tool, now);
  }
}
