/** The authorization decision: pure, and the only place authority is computed. */
module Authz {
  import opened Domain

  // ---------------------------------------------------------------- attenuation

  /** The authority a token is believed to carry: what the leaf claims and every link held. */
  function Effective(claims: Claims, attenuate: bool): set<string> {
    if attenuate then Attenuated(claims.scopes, claims.chain) else claims.scopes
  }

  function Attenuated(leaf: set<string>, chain: seq<Link>): set<string> {
    set s | s in leaf && HeldBy(chain, s)
  }

  predicate HeldBy(chain: seq<Link>, scope: string) {
    forall i :: 0 <= i < |chain| ==> scope in chain[i].scopes
  }

  /** The loop that narrows the leaf's claim link by link. */
  method EffectiveScopes(claims: Claims, attenuate: bool) returns (granted: set<string>)
    ensures granted == Effective(claims, attenuate)
  {
    granted := claims.scopes;
    if !attenuate {
      return;
    }
    for i := 0 to |claims.chain|
      invariant granted == Attenuated(claims.scopes, claims.chain[..i])
    {
      assert forall s :: HeldBy(claims.chain[..i + 1], s) <==> HeldBy(claims.chain[..i], s) && s in claims.chain[i].scopes by {
        assert claims.chain[..i + 1] == claims.chain[..i] + [claims.chain[i]];
      }
      granted := granted * claims.chain[i].scopes;
    }
    assert claims.chain[..|claims.chain|] == claims.chain;
  }

  /** Adding a hop anywhere in the chain can only remove authority. */
  lemma InsertNarrows(leaf: set<string>, before: seq<Link>, link: Link, after: seq<Link>)
    ensures Attenuated(leaf, before + [link] + after) == Attenuated(leaf, before + after) * link.scopes
  {
    var longer, shorter := before + [link] + after, before + after;
    forall s ensures HeldBy(longer, s) <==> HeldBy(shorter, s) && s in link.scopes {
      if HeldBy(longer, s) {
        assert longer[|before|] == link;
        forall i | 0 <= i < |shorter| ensures s in shorter[i].scopes {
          assert shorter[i] == longer[if i < |before| then i else i + 1];
        }
      }
      if HeldBy(shorter, s) && s in link.scopes {
        forall i | 0 <= i < |longer| ensures s in longer[i].scopes {
          assert longer[i] == if i < |before| then shorter[i] else if i == |before| then link else shorter[i - 1];
        }
      }
    }
  }

  // ---------------------------------------------------------------- the decision

  /** What it takes to be allowed. */
  ghost predicate Entitled(policy: Policy, presented: Presented, tool: string, audience: Option<string>, now: Option<int>) {
    && presented.Verified? && tool in TOOL_SCOPES
    && (now.Some? ==> presented.claims.expiresAt > now.value)
    && (policy.checkAudience ==> audience.Some? && audience.value in presented.claims.audience)
    && TOOL_SCOPES[tool] in presented.claims.scopes
    && (policy.attenuateChain ==> HeldBy(presented.claims.chain, TOOL_SCOPES[tool]))
  }

  /** The decision, or None where a policy that checks audience was given no identifier to check. A
      token is allowed exactly when it is authentic, current, addressed to this server where the
      policy asks, and the tool's scope is in the leaf's claim and, where the policy asks, was held
      by every link. An allowed verdict names its subject; a refusal, and only a refusal, a reason. */
  function Authorize(policy: Policy, presented: Presented, tool: string, audience: Option<string>, now: Option<int>)
    : (v: Option<Verdict>)
    ensures v.Some? && v.value.allowed <==> Entitled(policy, presented, tool, audience, now)
    ensures v.Some? && v.value.allowed ==> v.value.subject == Some(presented.claims.subject)
    ensures v.Some? ==> (v.value.reason.None? <==> v.value.allowed)
  {
    match presented
    case Unverified(reason) =>
      Some(Verdict(false, Some(reason), {}, None, None, [], None, policy.name))
    case Verified(claims) =>
      if tool !in TOOL_SCOPES then
        Some(Verdict(false, Some(UnknownTool), {}, Some(claims.subject), Some(claims.tokenId), [], None, policy.name))
      else
        var required := TOOL_SCOPES[tool];
        var granted := Effective(claims, policy.attenuateChain);
        var partial := Verdict(
          false, None, granted, Some(claims.subject), Some(claims.tokenId),
          seq(|claims.chain|, i requires 0 <= i < |claims.chain| => claims.chain[i].scopes), Some(required), policy.name);
        if now.Some? && claims.expiresAt <= now.value then Some(partial.(reason := Some(TokenExpired)))
        else if policy.checkAudience && audience.None? then None
        else if policy.checkAudience && audience.value !in claims.audience then Some(partial.(reason := Some(AudienceMismatch)))
        else if required !in granted then Some(partial.(reason := Some(InsufficientEffectiveScope)))
        else Some(partial.(allowed := true))
  }

  /** A scope is effective: the leaf claims it and, where the policy attenuates, every link held it. */
  predicate Holds(policy: Policy, claims: Claims, scope: string) {
    scope in claims.scopes && (policy.attenuateChain ==> forall i :: 0 <= i < |claims.chain| ==> scope in claims.chain[i].scopes)
  }

  /** Why a token is refused, each reason with the one situation it is given in: verification's own
      reason, or the first of these that applies: the tool is unknown, the token has expired by `now`, it
      is for another server, the tool's scope is not effective. None where none applies. */
  ghost predicate Reasoned(policy: Policy, presented: Presented, tool: string, audience: Option<string>, now: Option<int>,
                           reason: Option<Reason>) {
    match presented
    case Unverified(own) => reason == Some(own)
    case Verified(claims) =>
      var unknown := tool !in TOOL_SCOPES;
      var expired := now.Some? && claims.expiresAt <= now.value;
      var astray := policy.checkAudience && audience.Some? && audience.value !in claims.audience;
      && (reason == Some(UnknownTool) <==> unknown)
      && (reason == Some(TokenExpired) <==> !unknown && expired)
      && (reason == Some(AudienceMismatch) <==> !unknown && !expired && astray)
      && (reason == Some(InsufficientEffectiveScope) <==>
            !unknown && !expired && !astray && !Holds(policy, claims, TOOL_SCOPES[tool]))
      && (reason.None? <==> !unknown && !expired && !astray && Holds(policy, claims, TOOL_SCOPES[tool]))
  }

  /** What is published about a token: nothing about one that does not verify; the subject and the token
      otherwise; and for a known tool its scope, exactly the effective scopes, and what each link held. */
  ghost predicate Publishes(policy: Policy, presented: Presented, tool: string, subject: Option<string>, required: Option<string>,
                            effective: set<string>, chainScopes: seq<set<string>>) {
    match presented
    case Unverified(_) => subject.None? && required.None? && effective == {} && chainScopes == []
    case Verified(claims) =>
      && subject == Some(claims.subject)
      && if tool in TOOL_SCOPES then
           && required == Some(TOOL_SCOPES[tool])
           && (forall s :: s in effective <==> Holds(policy, claims, s))
           && |chainScopes| == |claims.chain| && (forall i :: 0 <= i < |chainScopes| ==> chainScopes[i] == claims.chain[i].scopes)
         else required.None? && effective == {} && chainScopes == []
  }

  /** Which token it was, where that is established. */
  function TokenOf(presented: Presented): (tokenId: Option<string>)
    ensures presented.Verified? ==> tokenId == Some(presented.claims.tokenId)
    ensures presented.Unverified? ==> tokenId.None?
  {
    if presented.Verified? then Some(presented.claims.tokenId) else None
  }

  /** The whole verdict, clause by clause. There is none exactly where the audience is to be checked, the
      check is reached, and there is nothing to check against. */
  lemma VerdictSays(policy: Policy, presented: Presented, tool: string, audience: Option<string>, now: Option<int>)
    ensures var v := Authorize(policy, presented, tool, audience, now);
      && (v.None? <==>
            && presented.Verified? && tool in TOOL_SCOPES && policy.checkAudience && audience.None?
            && !(now.Some? && presented.claims.expiresAt <= now.value))
      && (v.Some? ==>
            && Reasoned(policy, presented, tool, audience, now, v.value.reason)
            && (v.value.allowed <==> v.value.reason.None?)
            && Publishes(policy, presented, tool, v.value.subject, v.value.required, v.value.effective, v.value.chainScopes)
            && v.value.tokenId == TokenOf(presented) && v.value.policy == policy.name)
  {
  }

  /** Whatever the hardened policy allows, the naive one allows, to the same subject. */
  lemma HardenedWithinNaive(presented: Presented, tool: string, audience: string, now: int)
    ensures var h, n := Authorize(HARDENED, presented, tool, Some(audience), Some(now)),
                        Authorize(NAIVE, presented, tool, None, Some(now));
      h.Some? && n.Some? &&
      (h.value.allowed ==> n.value.allowed && n.value.subject == h.value.subject && h.value.effective <= n.value.effective)
  {
  }

  /** A token that is not addressed to this server is refused the same whatever it claims: no scope and
      no chain changes the reason, and the reason is never a missing scope. */
  lemma MisaddressedWhateverClaimed(claims: Claims, scopes: set<string>, chain: seq<Link>, tool: string, audience: string, now: int)
    requires audience !in claims.audience
    ensures var v, w := Authorize(HARDENED, Verified(claims), tool, Some(audience), Some(now)),
                        Authorize(HARDENED, Verified(claims.(scopes := scopes, chain := chain)), tool, Some(audience), Some(now));
      && v.Some? && w.Some? && !v.value.allowed && v.value.reason == w.value.reason
      && v.value.reason != Some(InsufficientEffectiveScope)
  {
  }

  /** The naive policy sees neither the audience nor the chain. */
  lemma NaiveBlind(claims: Claims, audience: seq<string>, chain: seq<Link>, tool: string, now: int)
    ensures var v, w := Authorize(NAIVE, Verified(claims), tool, None, Some(now)),
                        Authorize(NAIVE, Verified(claims.(audience := audience, chain := chain)), tool, None, Some(now));
      && v.Some? && w.Some? && v.value.allowed == w.value.allowed && v.value.reason == w.value.reason
      && v.value.effective == w.value.effective
  {
  }

  /** What each tool takes: there are three, no two take the same scope, and one of them cannot be undone. */
  lemma ToolsTake(tool: string, other: string)
    ensures tool in TOOL_SCOPES <==> tool in {"read_account", "flag_account", "issue_credit"}
    ensures TOOL_SCOPES["read_account"] == "account:read" && TOOL_SCOPES["flag_account"] == "account:flag"
    ensures TOOL_SCOPES["issue_credit"] == "credit:issue"
    ensures tool in TOOL_SCOPES && other in TOOL_SCOPES && TOOL_SCOPES[tool] == TOOL_SCOPES[other] ==> tool == other
    ensures tool in IRREVERSIBLE_TOOLS <==> tool == "issue_credit"
  {
    assert "read_account"[0] == 'r' && "flag_account"[0] == 'f' && "issue_credit"[0] == 'i';
    assert "account:read"[8] == 'r' && "account:flag"[8] == 'f' && "credit:issue"[0] == 'c' && "account:read"[0] == 'a';
    assert "account:flag"[0] == 'a';
  }
}
