/** The database and the operations that change it statement by statement. */
module Store {
  import opened Domain
  import opened RateLimit
  import opened Ledger
  import opened Authz
  import opened Effects
  import opened Answers
  import opened Tokens
  import Machine
  import ScopeText

  /** Found, or not found and whether that is because every match had expired. */
  datatype ApprovalLookup = ApprovalLookup(approval: Option<string>, expired: bool)

  /** What the caller of a tool is told. */
  datatype ToolOutcome = ToolOutcome(
    allowed: bool,
    reason: Option<Reason>,
    effective: set<string>,
    chainScopes: seq<set<string>>,
    required: Option<string>,
    subject: Option<string>,
    approvalId: Option<string>,
    effectId: Option<string>,
    auditId: string,
    policy: string)

  function Told(c: Call, r: Ruling): ToolOutcome {
    ToolOutcome(
      r.Allows(), r.Why(), c.verdict.effective, c.verdict.chainScopes, c.verdict.required, c.verdict.subject,
      r.Approval(), if r.Issued? then Some(c.effectId) else None, c.auditId, c.verdict.policy)
  }

  /** The answer, field by field. */
  predicate Answer(told: ToolOutcome, c: Call, allowed: bool, reason: Option<Reason>, approvalId: Option<string>) {
    told == ToolOutcome(
      allowed, reason, c.verdict.effective, c.verdict.chainScopes, c.verdict.required, c.verdict.subject,
      approvalId, if allowed && approvalId.Some? then Some(c.effectId) else None, c.auditId, c.verdict.policy)
  }

  /** A transaction that ran alone from `db` to `db'` was answered, or raised, as it must be. */
  ghost predicate Answered(db: Tables, c: Call, o: Outcome, db': Tables, told: ToolOutcome) {
    if o.Completed? then
      && Decides(db, c.verdict, c.tool, c.account, c.amount, c.moment, c.limit, told.allowed, told.reason, told.approvalId)
      && Answer(told, c, told.allowed, told.reason, told.approvalId)
      && Writes(db, c, told.allowed, told.reason, told.approvalId, db')
    else
      db' == db && Overtaxed(db, c)
  }

  lemma EndSays(db: Tables, c: Call, o: Outcome, db': Tables)
    requires Ends(db, c, o, db')
    ensures match o
      case Completed(_, r) => Answered(db, c, o, db', Told(c, r))
      case Raised => db' == db && Overtaxed(db, c)
  {
    match o
    case Completed(used, r) => CompletedSays(db, c, used, r, db');
    case Raised => RaisedSays(db, c, db');
  }

  /** What arrives: a bearer string and the keys to verify it with, the tool and its arguments, the
      moment, this server's identity, and the random identifiers the call will draw. */
  datatype Arrival = Arrival(
    token: Bearer,
    jwks: map<string, seq<Key>>,
    tool: string,
    account: string,
    amount: Option<int>,
    moment: Moment,
    audience: string,
    effectId: string,
    auditId: string)
  {
    /** The request it makes once its token is verified. */
    function Asks(): Request {
      Request(Verify(token, jwks), tool, account, amount, moment, audience, effectId, auditId)
    }
  }

  /** The row a refusal at the transport leaves: no tool has been routed yet. */
  function TransportRow(reason: Reason, subject: Option<string>, tokenId: Option<string>): Audit {
    Audit(subject, tokenId, "-", HARDENED.name, false, Some(reason), None, "", None, None)
  }

  predicate Descending(rows: map<string, Approval>, ids: seq<string>)
    requires forall id :: id in ids ==> id in rows
  {
    forall i, j :: 0 <= i < j < |ids| ==> rows[ids[i]].expiresAt >= rows[ids[j]].expiresAt
  }

  class Database {
    var approvals: map<string, Approval>
    var effects: map<string, Effect>
    var audit: map<string, Audit>
    var counters: map<Bucket, nat>

    ghost function Tables(): Tables
      reads this
    {
      Ledger.Tables(approvals, effects, audit, counters)
    }

    constructor ()
      ensures Tables() == EMPTY
    {
      approvals, effects, audit, counters := map[], map[], map[], map[];
    }

    // -------------------------------------------------------------- approvals

    /** Record a human's decision. The table refuses an amount that is not positive or does not fit. */
    method CreateApproval(id: string, subject: string, tool: string, account: string, amount: int,
                          approvedBy: string, ttlSeconds: int, now: Moment) returns (created: bool)
      modifies this`approvals
      ensures created <==> id !in old(approvals) && 0 < amount <= INT_MAX
      ensures var row := Approval(subject, tool, account, amount, approvedBy, now + ttlSeconds * MICROS, None);
        && (created ==> Grantable(old(Tables()), id, row) && Tables() == Grant(old(Tables()), id, row))
        && (!created ==> Tables() == old(Tables()))
    {
      created := id !in approvals && 0 < amount <= INT_MAX;
      if created {
        approvals := approvals[id := Approval(subject, tool, account, amount, approvedBy, now + ttlSeconds * MICROS, None)];
      }
    }

    /** The filtered query, ordered by expiry, latest first; equal expiries come in any order. */
    method Select(subject: string, tool: string, account: string, amount: int) returns (ids: seq<string>)
      ensures forall id :: id in ids <==> id in approvals && Fits(approvals[id], subject, tool, account, Some(amount))
      ensures Descending(approvals, ids)
    {
      ids := [];
      var todo := approvals.Keys;
      while todo != {}
        invariant todo <= approvals.Keys
        invariant forall id :: id in ids <==>
          id in approvals && id !in todo && Fits(approvals[id], subject, tool, account, Some(amount))
        invariant Descending(approvals, ids)
        decreases todo
      {
        var id :| id in todo;
        todo := todo - {id};
        if Fits(approvals[id], subject, tool, account, Some(amount)) {
          ids := Insert(ids, id);
        }
      }
    }

    method Insert(ids: seq<string>, id: string) returns (more: seq<string>)
      requires id in approvals && (forall i :: i in ids ==> i in approvals) && Descending(approvals, ids)
      ensures forall i :: i in more <==> i == id || i in ids
      ensures Descending(approvals, more)
    {
      var k := 0;
      while k < |ids| && approvals[ids[k]].expiresAt >= approvals[id].expiresAt
        invariant k <= |ids|
        invariant forall j :: 0 <= j < k ==> approvals[ids[j]].expiresAt >= approvals[id].expiresAt
      {
        k := k + 1;
      }
      more := ids[..k] + [id] + ids[k..];
      assert ids == ids[..k] + ids[k..];
    }

    /** The approval for exactly this act that expires last, if one is live; otherwise whether the
        matching ones have all expired. */
    method FindMatchingApproval(subject: string, tool: string, account: string, amount: int, now: Moment)
      returns (lookup: ApprovalLookup)
      ensures LookedUp(
        approvals, subject, tool, account, Some(amount), now,
        if lookup.approval.Some? then None else Some(if lookup.expired then ApprovalExpired else ApprovalRequired),
        lookup.approval)
      ensures lookup.expired <==>
        (exists id :: id in approvals && Fits(approvals[id], subject, tool, account, Some(amount))) &&
        (forall id :: id in approvals && Fits(approvals[id], subject, tool, account, Some(amount)) ==>
           approvals[id].expiresAt <= now)
    {
      var ids := Select(subject, tool, account, amount);
      var expiredSeen := false;
      for k := 0 to |ids|
        invariant forall j :: 0 <= j < k ==> approvals[ids[j]].expiresAt <= now
        invariant expiredSeen <==> k > 0
      {
        if approvals[ids[k]].expiresAt > now {
          assert forall j :: 0 <= j < |ids| ==> approvals[ids[j]].expiresAt <= approvals[ids[k]].expiresAt;
          return ApprovalLookup(Some(ids[k]), false);
        }
        expiredSeen := true;
      }
      assert |ids| > 0 ==> ids[0] in ids;
      return ApprovalLookup(None, expiredSeen);
    }

    /** Spend an approval, at most once, ever. */
    method ConsumeApproval(id: string, now: Moment) returns (won: bool)
      modifies this`approvals
      ensures won <==> id in old(approvals) && old(approvals)[id].consumedAt.None?
      ensures approvals == if won then Spend(old(approvals), id, now) else old(approvals)
    {
      won := id in approvals && approvals[id].consumedAt.None?;
      if won {
        approvals := approvals[id := approvals[id].(consumedAt := Some(now))];
      }
    }

    // -------------------------------------------------------------- quota

    /** Claim one unit of a bucket, and report which unit it is. */
    method ConsumeQuota(subject: string, tool: string, now: Moment) returns (position: nat)
      modifies this`counters
      ensures var b := Bucket(subject, tool, WindowStart(now));
        position == Count(old(Tables()), b) + 1 && counters == old(counters)[b := position]
    {
      var b := Bucket(subject, tool, WindowStart(now));
      if b in counters {
        counters := counters[b := counters[b] + 1];
      } else {
        counters := counters[b := 1];
      }
      position := counters[b];
    }

    // -------------------------------------------------------------- audit

    /** Append one audit row, under an identifier just drawn. */
    method Record(c: Call, r: Ruling)
      requires c.auditId !in audit
      modifies this`audit
      ensures audit == old(audit)[c.auditId := AuditRow(c, r)]
    {
      audit := audit[c.auditId := AuditRow(c, r)];
    }

    /** Record a refusal made before any tool was routed. The primary key refuses an identifier that is
        taken, and no row is ever overwritten. */
    method RecordTransportRefusal(auditId: string, reason: Reason, subject: Option<string>, tokenId: Option<string>)
      returns (recorded: bool)
      modifies this`audit
      ensures recorded <==> auditId !in old(audit)
      ensures audit == if recorded then old(audit)[auditId := TransportRow(reason, subject, tokenId)] else old(audit)
      ensures recorded ==>
        audit[auditId] == Audit(subject, tokenId, "-", "hardened", false, Some(reason), None, "", None, None)
    {
      recorded := auditId !in audit;
      if recorded {
        audit := audit[auditId := TransportRow(reason, subject, tokenId)];
      }
    }

    // -------------------------------------------------------------- the call

    /** Verify the token, run the call through every gate, and write at most one irreversible effect. */
    method CallTool(policy: Policy, a: Arrival, limit: int) returns (o: Outcome, told: ToolOutcome)
      requires a.auditId !in audit && a.effectId !in effects
      modifies this
      ensures Ends(old(Tables()), CallOf(policy, a.Asks(), limit), o, Tables())
      ensures o.Completed? ==>
        told == Told(CallOf(policy, a.Asks(), limit), o.ruling) && Agrees(old(audit.Keys), old(effects.Keys), told)
      ensures var q := Request(
          Verify(a.token, a.jwks), a.tool, a.account, a.amount, a.moment, a.audience, a.effectId, a.auditId);
        && Carries(policy, q, limit, CallOf(policy, q, limit))
        && Answered(old(Tables()), CallOf(policy, q, limit), o, Tables(), told)
    {
      var presented := VerifyToken(a.token, a.jwks);
      var q := Request(presented, a.tool, a.account, a.amount, a.moment, a.audience, a.effectId, a.auditId);
      CallCarries(policy, q, limit);
      o, told := Transact(CallOf(policy, q, limit));
    }

    /** The answer is the new audit row's, and names an effect exactly when a row was written. */
    ghost predicate Agrees(audited: set<string>, effected: set<string>, told: ToolOutcome)
      reads this
    {
      && audit.Keys == audited + {told.auditId}
      && audit[told.auditId].allowed == told.allowed && audit[told.auditId].reason == told.reason
      && audit[told.auditId].subject == told.subject && audit[told.auditId].effectId == told.effectId
      && effects.Keys == effected + (if told.effectId.Some? then {told.effectId.value} else {})
      && (told.effectId.Some? ==> told.effectId.value !in effected && told.allowed)
    }

    /** The transaction: the quota claim, the gates it and the verdict decide, then the approval. */
    method Transact(c: Call) returns (o: Outcome, told: ToolOutcome)
      requires c.auditId !in audit && c.effectId !in effects
      modifies this
      ensures Ends(old(Tables()), c, o, Tables())
      ensures o.Completed? ==> told == Told(c, o.ruling) && Agrees(old(audit.Keys), old(effects.Keys), told)
      ensures Answered(old(Tables()), c, o, Tables(), told)
    {
      o, told := Attempt(c);
      EndSays(old(Tables()), c, o, Tables());
    }

    /** The gates in their order, and the rollback where a statement raises. */
    method Attempt(c: Call) returns (o: Outcome, told: ToolOutcome)
      requires c.auditId !in audit && c.effectId !in effects
      modifies this
      ensures Ends(old(Tables()), c, o, Tables())
      ensures o.Completed? ==> told == Told(c, o.ruling) && Agrees(old(audit.Keys), old(effects.Keys), told)
    {
      var savedCounters := counters;
      var used := 0;
      if c.verdict.allowed && c.limit > 0 && c.verdict.subject.Some? {
        used := ConsumeQuota(c.verdict.subject.value, c.tool, c.moment);
        if used > c.limit {
          o, told := Conclude(c, used, Refused(Some(RateLimited)));
          return;
        }
      }
      if !c.verdict.allowed {
        o, told := Conclude(c, used, Refused(c.verdict.reason));
        return;
      }
      if c.tool !in IRREVERSIBLE_TOOLS {
        o, told := Conclude(c, used, Reversible);
        return;
      }
      if c.Raises() {
        o, told := Raised, Told(c, Reversible);
      } else {
        o, told := SpendAndIssue(c, used);
      }
      if o.Raised? {
        counters := savedCounters;
      }
    }

    /** Past the gates: look an approval up, spend it, write the effect; all of it or nothing. */
    method SpendAndIssue(c: Call, used: nat) returns (o: Outcome, told: ToolOutcome)
      requires c.auditId !in audit && c.amount.Some?
      modifies this`approvals, this`effects, this`audit
      ensures o.Raised? ==>
        && Tables() == old(Tables())
        && exists id :: Best(old(approvals), c, id) && Machine.Taken(old(Tables()), id)
      ensures o.Completed? ==>
        && o.used == used && told == Told(c, o.ruling)
        && Lookup(old(approvals), c, o.ruling)
        && (o.ruling.Issued? ==> !Machine.Taken(old(Tables()), o.ruling.approvalId))
        && approvals == (if o.ruling.Issued? then Spend(old(approvals), o.ruling.approvalId, c.moment) else old(approvals))
        && effects == (if o.ruling.Issued? then old(effects)[c.effectId := EffectRow(c, o.ruling.approvalId)] else old(effects))
        && audit == old(audit)[c.auditId := AuditRow(c, o.ruling)]
    {
      var lookup := FindMatchingApproval(c.Subject(), c.tool, c.account, c.Amount(), c.moment);
      LookupMeets(
        approvals, c,
        if lookup.approval.Some? then Issued(lookup.approval.value)
        else Refused(Some(if lookup.expired then ApprovalExpired else ApprovalRequired)));
      if lookup.approval.None? {
        o, told := Conclude(c, used, Refused(Some(if lookup.expired then ApprovalExpired else ApprovalRequired)));
        return;
      }
      o, told := Issue(c, used, lookup.approval.value);
    }

    /** Spend an approval found earlier and write its effect. The tables may have moved since it was found:
        if it is spent or gone the call is refused, and if an effect names it all the same, the constraint
        raises and everything is as it was. */
    method Issue(c: Call, used: nat, id: string) returns (o: Outcome, told: ToolOutcome)
      requires c.auditId !in audit
      modifies this`approvals, this`effects, this`audit
      ensures var unspent := id in old(approvals) && old(approvals)[id].consumedAt.None?;
        && (o.Raised? <==> unspent && Machine.Taken(old(Tables()), id))
        && (o.Raised? ==> Tables() == old(Tables()))
        && (o.Completed? ==> Answer(told, c, unspent, if unspent then None else Some(ApprovalAlreadyConsumed), Some(id)))
        && (o.Completed? ==>
              && c.auditId in audit && audit[c.auditId].allowed == unspent && audit[c.auditId].approvalId == Some(id)
              && audit[c.auditId].reason == (if unspent then None else Some(ApprovalAlreadyConsumed)))
        && (o.Completed? ==>
              && o == Completed(used, if unspent then Issued(id) else Lost(id)) && told == Told(c, o.ruling)
              && approvals == (if unspent then Spend(old(approvals), id, c.moment) else old(approvals))
              && effects == (if unspent then old(effects)[c.effectId := EffectRow(c, id)] else old(effects))
              && audit == old(audit)[c.auditId := AuditRow(c, o.ruling)])
    {
      var savedApprovals := approvals;
      var won := ConsumeApproval(id, c.moment);
      if !won {
        o, told := Conclude(c, used, Lost(id));
        return;
      }
      var taken := EffectNames(id);
      assert taken <==> Machine.Taken(old(Tables()), id);
      if taken {
        approvals := savedApprovals;
        o, told := Raised, Told(c, Reversible);
        return;
      }
      effects := effects[c.effectId := EffectRow(c, id)];
      o, told := Conclude(c, used, Issued(id));
    }

    /** The UNIQUE constraint: does an effect already name this approval? */
    method EffectNames(id: string) returns (taken: bool)
      ensures taken <==> Machine.Taken(Tables(), id)
    {
      taken := exists e :: e in effects && effects[e].approvalId == id;
    }

    /** The audit row, and the answer. */
    method Conclude(c: Call, used: nat, r: Ruling) returns (o: Outcome, told: ToolOutcome)
      requires c.auditId !in audit
      modifies this`audit
      ensures audit == old(audit)[c.auditId := AuditRow(c, r)]
      ensures o == Completed(used, r) && told == Told(c, r)
    {
      Record(c, r);
      o, told := Completed(used, r), Told(c, r);
    }
  }
}
