/** What a call is answered and what it records, spelled out on the tables it found: the decision, the
    reason, the approval, and every column of every row. */
module Answers {
  import opened Domain
  import opened RateLimit
  import opened Ledger
  import opened Authz
  import opened Effects
  import Machine
  import ScopeText

  // ---------------------------------------------------------------- the decision

  /** An unspent approval of exactly this act. */
  predicate Fits(row: Approval, subject: string, tool: string, account: string, amount: Option<int>) {
    && row.subject == subject && row.tool == tool && row.account == account && amount == Some(row.amount)
    && row.consumedAt.None?
  }

  /** The lookup's possible answers: an unspent approval of this act that is not past its expiry, and
      expires last; else whether there is one at all. */
  ghost predicate LookedUp(rows: map<string, Approval>, subject: string, tool: string, account: string, amount: Option<int>,
                        moment: Moment, reason: Option<Reason>, approvalId: Option<string>) {
    match approvalId
    case Some(id) =>
      && reason.None? && id in rows && Fits(rows[id], subject, tool, account, amount) && moment < rows[id].expiresAt
      && forall o :: o in rows && Fits(rows[o], subject, tool, account, amount) ==> rows[o].expiresAt <= rows[id].expiresAt
    case None =>
      && (forall o :: o in rows && Fits(rows[o], subject, tool, account, amount) ==> rows[o].expiresAt <= moment)
      && (reason == Some(ApprovalExpired) <==> exists o :: o in rows && Fits(rows[o], subject, tool, account, amount))
      && (reason == Some(ApprovalRequired) <==> !exists o :: o in rows && Fits(rows[o], subject, tool, account, amount))
  }

  /** The position a claim would be given now. */
  function Turn(db: Tables, subject: string, tool: string, moment: Moment): nat {
    var b := Bucket(subject, tool, WindowStart(moment));
    (if b in db.counters then db.counters[b] else 0) + 1
  }

  /** The answer, on the tables the call found: the verdict's reason where it refuses; `rate_limited` past
      the ceiling; no approval asked for a reversible tool; otherwise what the lookup says. */
  ghost predicate Decides(db: Tables, v: Verdict, tool: string, account: string, amount: Option<int>, moment: Moment, limit: int,
                          allowed: bool, reason: Option<Reason>, approvalId: Option<string>) {
    if !v.allowed then !allowed && reason == v.reason && approvalId.None?
    else if limit > 0 && v.subject.Some? && Turn(db, v.subject.value, tool, moment) > limit then
      !allowed && reason == Some(RateLimited) && approvalId.None?
    else if tool !in IRREVERSIBLE_TOOLS then allowed && reason.None? && approvalId.None?
    else
      && v.subject.Some? && amount.Some? && -0x8000_0000 <= amount.value < 0x8000_0000
      && (allowed <==> approvalId.Some?)
      && LookedUp(db.approvals, v.subject.value, tool, account, amount, moment, reason, approvalId)
  }

  // ---------------------------------------------------------------- the rows

  /** What a call that was answered leaves in the four tables. */
  ghost predicate Writes(db: Tables, c: Call, allowed: bool, reason: Option<Reason>, approvalId: Option<string>, db': Tables) {
    var v := c.verdict;
    var effectId := if approvalId.Some? then Some(c.effectId) else None;
    && db'.audit == db.audit[c.auditId := Audit(
         v.subject, v.tokenId, c.tool, v.policy, allowed, reason, v.required, c.scopeText, approvalId, effectId)]
    && (approvalId.None? ==> db'.approvals == db.approvals && db'.effects == db.effects)
    && (approvalId.Some? && approvalId.value in db.approvals && v.subject.Some? && c.amount.Some? ==>
          var id := approvalId.value;
          && db'.approvals == db.approvals[id := db.approvals[id].(consumedAt := Some(c.moment))]
          && db'.effects == db.effects[c.effectId := Effect(
               id, v.subject.value, c.tool, c.account, c.amount.value, if v.tokenId.Some? then v.tokenId.value else "")])
    && (if v.allowed && c.limit > 0 && v.subject.Some? then
          db'.counters == db.counters[
            Bucket(v.subject.value, c.tool, WindowStart(c.moment)) := Turn(db, v.subject.value, c.tool, c.moment)]
        else db'.counters == db.counters)
  }

  lemma FitsMatches(row: Approval, c: Call)
    requires c.amount.Some?
    ensures Fits(row, c.Subject(), c.tool, c.account, c.amount) <==> Matches(row, c)
  {
  }

  /** What the serial meaning allows of the lookup is what the lookup may answer, and the other way
      round. */
  lemma LookupMeets(rows: map<string, Approval>, c: Call, r: Ruling)
    requires c.amount.Some? && (r.Issued? || r.Refused?)
    ensures Lookup(rows, c, r) <==>
      LookedUp(rows, c.Subject(), c.tool, c.account, c.amount, c.moment,
               if r.Issued? then None else r.reason, if r.Issued? then Some(r.approvalId) else None)
  {
    forall o | o in rows ensures Fits(rows[o], c.Subject(), c.tool, c.account, c.amount) <==> Matches(rows[o], c) {
      FitsMatches(rows[o], c);
    }
  }

  /** Every completed transaction answers, on the tables it found, as it must, and leaves exactly the
      rows that say so. */
  lemma CompletedSays(db: Tables, c: Call, used: nat, r: Ruling, db': Tables)
    requires Ends(db, c, Completed(used, r), db')
    ensures Decides(db, c.verdict, c.tool, c.account, c.amount, c.moment, c.limit, r.Allows(), r.Why(), r.Approval())
    ensures Writes(db, c, r.Allows(), r.Why(), r.Approval(), db')
  {
    if Early(c, used).None? {
      LookupMeets(db.approvals, c, r);
    }
  }

  /** Past its gates, with an argument that no integer column holds, or on tables where an effect names
      an approval that is unspent. */
  ghost predicate Overtaxed(db: Tables, c: Call) {
    && c.verdict.allowed && c.tool in IRREVERSIBLE_TOOLS
    && (c.limit > 0 && c.verdict.subject.Some? ==> Turn(db, c.verdict.subject.value, c.tool, c.moment) <= c.limit)
    && (|| c.verdict.subject.None? || c.amount.None? || !(-0x8000_0000 <= c.amount.value < 0x8000_0000)
        || exists e :: e in db.effects && db.effects[e].approvalId in db.approvals
             && db.approvals[db.effects[e].approvalId].consumedAt.None?)
  }

  /** A transaction raises only then, and leaves the tables as they were. */
  lemma RaisedSays(db: Tables, c: Call, db': Tables)
    requires Ends(db, c, Raised, db')
    ensures db' == db && Overtaxed(db, c)
  {
    if !c.Raises() {
      var id :| Best(db.approvals, c, id) && Machine.Taken(db, id);
      var e :| e in db.effects && db.effects[e].approvalId == id;
    }
  }

  // ---------------------------------------------------------------- a whole call

  /** Everything about a request that reaches its transaction. */
  ghost predicate Carries(policy: Policy, q: Request, limit: int, c: Call) {
    var v := c.verdict;
    var audience := if policy.checkAudience then Some(q.audience) else None;
    && Reasoned(policy, q.presented, q.tool, audience, Some(Seconds(q.moment)), v.reason)
    && (v.allowed <==> v.reason.None?)
    && Publishes(policy, q.presented, q.tool, v.subject, v.required, v.effective, v.chainScopes)
    && v.tokenId == TokenOf(q.presented) && v.policy == policy.name
    && c.scopeText == ScopeText.Join(ScopeText.Sorted(multiset(v.effective)))
    && c.tool == q.tool && c.account == q.account && c.amount == q.amount && c.moment == q.moment && c.limit == limit
    && c.effectId == q.effectId && c.auditId == q.auditId
  }

  /** The transaction of a request is the request's: verdict, published scopes, arguments, identifiers. */
  lemma CallCarries(policy: Policy, q: Request, limit: int)
    ensures Carries(policy, q, limit, CallOf(policy, q, limit))
  {
    var audience := if policy.checkAudience then Some(q.audience) else None;
    VerdictSays(policy, q.presented, q.tool, audience, Some(Seconds(q.moment)));
  }
}
