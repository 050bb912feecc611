/** The serial specification of one tool call: from a request to what it leaves in the tables. */
module Effects {
  import opened Domain
  import opened RateLimit
  import opened Ledger
  import opened Authz
  import Machine
  import ScopeText

  /** What arrives at the call: the answer of token verification, the tool and its arguments, the
      moment, this server's identity, and the random identifiers the call will draw. */
  datatype Request = Request(
    presented: Presented,
    tool: string,
    account: string,
    amount: Option<int>,
    moment: Moment,
    audience: string,
    effectId: string,
    auditId: string)

  function Judge(policy: Policy, q: Request): (v: Verdict)
    ensures Some(v) == Authorize(
      policy, q.presented, q.tool, if policy.checkAudience then Some(q.audience) else None, Some(Seconds(q.moment)))
  {
    Authorize(
      policy, q.presented, q.tool, if policy.checkAudience then Some(q.audience) else None, Some(Seconds(q.moment))).value
  }

  /** The transaction a request starts under a policy. */
  function CallOf(policy: Policy, q: Request, limit: int): Call {
    var v := Judge(policy, q);
    Call(v, ScopeText.Render(v.effective), q.tool, q.account, q.amount, q.moment, limit, q.effectId, q.auditId)
  }

  /** How a call ends: committed with a quota position and a ruling, or rolled back by an exception. */
  datatype Outcome = Completed(used: nat, ruling: Ruling) | Raised

  /** A call that runs alone on `db` may end with `o` and leave `db'`. */
  ghost predicate Ends(db: Tables, c: Call, o: Outcome, db': Tables) {
    match o
    case Completed(used, r) =>
      && Rules(db, c, used, r) && (r.Issued? ==> !Machine.Taken(db, r.approvalId))
      && db' == Publish(db, c, used, r)
    case Raised => db' == db && Fails(db, c)
  }

  /** A raising argument, or an approval whose effect is already there: only past the gates. */
  ghost predicate Fails(db: Tables, c: Call) {
    && Early(c, if c.Counted() then Count(db, c.Key()) + 1 else 0).None?
    && (c.Raises() || exists id :: Best(db.approvals, c, id) && Machine.Taken(db, id))
  }

  // ---------------------------------------------------------------- what each ending leaves alone

  ghost predicate SameBut(db: Tables, db': Tables, c: Call) {
    && (forall r :: r in db.audit && r != c.auditId ==> r in db'.audit && db'.audit[r] == db.audit[r])
    && db'.audit.Keys <= db.audit.Keys + {c.auditId}
  }

  /** The frame of every ending. An exception changes nothing. A completed call appends its one audit
      row, with the decision it returns; a refusal on the token changes nothing else; any other
      refusal changes at most the call's own counter; and only an issue touches an approval or an
      effect: its own, and of the approval nothing but the moment it was spent. */
  lemma Frames(db: Tables, c: Call, o: Outcome, db': Tables)
    requires Ends(db, c, o, db') && c.auditId !in db.audit && c.effectId !in db.effects
    ensures o.Raised? ==> db' == db
    ensures o.Completed? ==>
      && db'.audit.Keys == db.audit.Keys + {c.auditId} && SameBut(db, db', c)
      && db'.audit[c.auditId].allowed == o.ruling.Allows() && db'.audit[c.auditId].reason == o.ruling.Why()
      && db'.audit[c.auditId].subject == c.verdict.subject
      && (db'.audit[c.auditId].effectId.Some? <==> o.ruling.Issued?)
    ensures o.Completed? && !c.verdict.allowed ==> db' == db.(audit := db'.audit) && !o.ruling.Allows()
    ensures o.Completed? && !o.ruling.Issued? ==> db'.approvals == db.approvals && db'.effects == db.effects
    ensures forall b :: b != c.Key() ==> Count(db', b) == Count(db, b)
    ensures o.Completed? && o.ruling.Issued? ==>
      var id := o.ruling.approvalId;
      && id in db.approvals && db.approvals[id].consumedAt.None?
      && db'.approvals == db.approvals[id := db.approvals[id].(consumedAt := Some(c.moment))]
      && db'.effects == db.effects[c.effectId := EffectRow(c, id)]
      && db.approvals[id].subject == c.Subject() && db.approvals[id].amount == c.Amount() && c.moment < db.approvals[id].expiresAt
  {
  }

  /** Alone on the tables a call never loses the approval it was handed. */
  lemma NeverLostAlone(db: Tables, c: Call, used: nat, r: Ruling)
    requires Rules(db, c, used, r)
    ensures !r.Lost? && (r.Why() == Some(RateLimited) ==> c.verdict.reason == Some(RateLimited) || (c.Counted() && used > c.limit))
  {
  }
}
