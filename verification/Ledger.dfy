/** The four tables, one tool call over them, and the serial meaning of that call. */
module Ledger {
  import opened Domain
  import opened RateLimit

  datatype Approval = Approval(
    subject: string,
    tool: string,
    account: string,
    amount: int,
    approvedBy: string,
    expiresAt: Moment,
    consumedAt: Option<Moment>)

  datatype Effect = Effect(
    approvalId: string, subject: string, tool: string, account: string, amount: int, tokenId: string)

  datatype Audit = Audit(
    subject: Option<string>,
    tokenId: Option<string>,
    tool: string,
    policy: string,
    allowed: bool,
    reason: Option<Reason>,
    required: Option<string>,
    effective: string,
    approvalId: Option<string>,
    effectId: Option<string>)

  /** The primary key of a counter: two subjects, or two tools, never share a row. */
  datatype Bucket = Bucket(subject: string, tool: string, window: int)

  /** Each table maps its primary key to the rest of the row. */
  datatype Tables = Tables(
    approvals: map<string, Approval>,
    effects: map<string, Effect>,
    audit: map<string, Audit>,
    counters: map<Bucket, nat>)

  const EMPTY := Tables(map[], map[], map[], map[])

  /** The CHECK constraint of the approval table. */
  ghost predicate Positive(db: Tables) {
    forall id :: id in db.approvals ==> db.approvals[id].amount > 0
  }

  function Count(db: Tables, b: Bucket): nat {
    if b in db.counters then db.counters[b] else 0
  }

  const INT_MAX := 0x7fff_ffff

  /** What fits a PostgreSQL `integer` column or parameter. */
  predicate FitsInteger(n: int) {
    -INT_MAX - 1 <= n <= INT_MAX
  }

  /** One tool call as its transaction sees it: the verdict already reached on the token
      and the text its effective scopes are recorded as, the tool and its arguments, the moment
      captured at the start, the ceiling, and the random identifiers the call will use. `amount` is
      None where converting the argument to a number raises. */
  datatype Call = Call(
    verdict: Verdict,
    scopeText: string,
    tool: string,
    account: string,
    amount: Option<int>,
    moment: Moment,
    limit: int,
    effectId: string,
    auditId: string)
  {
    function Subject(): string {
      if verdict.subject.Some? then verdict.subject.value else ""
    }

    function Amount(): int {
      if amount.Some? then amount.value else 0
    }

    /** Does this call claim a unit of quota? */
    predicate Counted() {
      verdict.allowed && limit > 0 && verdict.subject.Some?
    }

    function Key(): Bucket {
      Bucket(Subject(), tool, WindowStart(moment))
    }

    predicate Irreversible() {
      tool in IRREVERSIBLE_TOOLS
    }

    /** An argument that is not a number, a number no integer column holds, or an allowed verdict
        without a subject: the transaction rolls back with an exception. */
    predicate Raises() {
      verdict.subject.None? || amount.None? || !FitsInteger(amount.value)
    }
  }

  /** How a call's transaction ends when it commits. */
  datatype Ruling =
    | Refused(reason: Option<Reason>)
    | Lost(approvalId: string)
    | Reversible
    | Issued(approvalId: string)
  {
    predicate Allows() {
      Reversible? || Issued?
    }

    function Why(): Option<Reason> {
      match this
      case Refused(reason) => reason
      case Lost(_) => Some(ApprovalAlreadyConsumed)
      case _ => None
    }

    function Approval(): Option<string> {
      if Lost? || Issued? then Some(approvalId) else None
    }
  }

  // ---------------------------------------------------------------- rows and writes

  function AuditRow(c: Call, r: Ruling): Audit {
    Audit(
      c.verdict.subject, c.verdict.tokenId, c.tool, c.verdict.policy, r.Allows(), r.Why(),
      c.verdict.required, c.scopeText, r.Approval(),
      if r.Issued? then Some(c.effectId) else None)
  }

  function EffectRow(c: Call, approvalId: string): Effect {
    Effect(approvalId, c.Subject(), c.tool, c.account, c.Amount(),
           if c.verdict.tokenId.Some? then c.verdict.tokenId.value else "")
  }

  function Spend(rows: map<string, Approval>, id: string, moment: Moment): map<string, Approval> {
    if id in rows then rows[id := rows[id].(consumedAt := Some(moment))] else rows
  }

  /** Everything a committed call writes. */
  function Publish(db: Tables, c: Call, used: nat, r: Ruling): Tables {
    Tables(
      if r.Issued? then Spend(db.approvals, r.approvalId, c.moment) else db.approvals,
      if r.Issued? then db.effects[c.effectId := EffectRow(c, r.approvalId)] else db.effects,
      db.audit[c.auditId := AuditRow(c, r)],
      if c.Counted() then db.counters[c.Key() := used] else db.counters)
  }

  function Grant(db: Tables, id: string, row: Approval): Tables {
    db.(approvals := db.approvals[id := row])
  }

  /** What the `approval` table accepts as a new row. */
  predicate Grantable(db: Tables, id: string, row: Approval) {
    id !in db.approvals && row.amount > 0 && row.consumedAt.None?
  }

  // ---------------------------------------------------------------- the lookup

  /** The four bindings of an approval. */
  predicate Bound(row: Approval, c: Call) {
    row.subject == c.Subject() && row.tool == c.tool && row.account == c.account && row.amount == c.Amount()
  }

  predicate Matches(row: Approval, c: Call) {
    Bound(row, c) && row.consumedAt.None?
  }

  predicate Live(row: Approval, c: Call) {
    row.expiresAt > c.moment
  }

  /** `id` is live, matching, and no matching row expires later. */
  ghost predicate Best(rows: map<string, Approval>, c: Call, id: string) {
    && id in rows && Matches(rows[id], c) && Live(rows[id], c)
    && forall o :: o in rows && Matches(rows[o], c) ==> rows[o].expiresAt <= rows[id].expiresAt
  }

  /** The refusal the lookup gives when it finds nothing to spend. */
  ghost predicate NoneLeft(rows: map<string, Approval>, c: Call, reason: Option<Reason>) {
    && (forall o :: o in rows && Matches(rows[o], c) ==> !Live(rows[o], c))
    && reason == Some(if exists o :: o in rows && Matches(rows[o], c) then ApprovalExpired else ApprovalRequired)
  }

  /** The possible answers of the lookup; ties in the ordering are broken arbitrarily. */
  ghost predicate Lookup(rows: map<string, Approval>, c: Call, r: Ruling) {
    match r
    case Issued(id) => Best(rows, c, id)
    case Refused(reason) => NoneLeft(rows, c, reason)
    case _ => false
  }

  // ---------------------------------------------------------------- the serial meaning

  /** The ruling fixed before any approval is looked at, when there is one. */
  function Early(c: Call, used: nat): Option<Ruling> {
    if !c.verdict.allowed then Some(Refused(c.verdict.reason))
    else if c.Counted() && used > c.limit then Some(Refused(Some(RateLimited)))
    else if !c.Irreversible() then Some(Reversible)
    else None
  }

  /** A call that runs alone on `db` may commit at position `used` with ruling `r`. */
  ghost predicate Rules(db: Tables, c: Call, used: nat, r: Ruling) {
    && used == (if c.Counted() then Count(db, c.Key()) + 1 else 0)
    && match Early(c, used)
       case Some(early) => r == early
       case None => !c.Raises() && Lookup(db.approvals, c, r)
  }

  /** One entry of a serial history. `tag` names the call's transaction. */
  datatype Deed =
    | Granted(id: string, row: Approval)
    | Called(tag: nat, call: Call, used: nat, ruling: Ruling)

  function Do(db: Tables, d: Deed): Tables {
    match d
    case Granted(id, row) => Grant(db, id, row)
    case Called(_, call, used, ruling) => Publish(db, call, used, ruling)
  }

  ghost predicate Allowed(db: Tables, d: Deed) {
    match d
    case Granted(id, row) => Grantable(db, id, row)
    case Called(_, call, used, ruling) => Rules(db, call, used, ruling)
  }

  /** The tables after a serial history. */
  function After(db: Tables, deeds: seq<Deed>): Tables {
    if deeds == [] then db else Do(After(db, deeds[..|deeds| - 1]), deeds[|deeds| - 1])
  }

  /** Every deed was possible where it stands: calls ran one at a time, in this order. */
  ghost predicate Serial(db: Tables, deeds: seq<Deed>) {
    deeds == [] ||
    (Serial(db, deeds[..|deeds| - 1]) && Allowed(After(db, deeds[..|deeds| - 1]), deeds[|deeds| - 1]))
  }

  /** A serial history grows at its end. */
  lemma SerialSnoc(db: Tables, deeds: seq<Deed>, d: Deed)
    ensures After(db, deeds + [d]) == Do(After(db, deeds), d)
    ensures Serial(db, deeds + [d]) <==> Serial(db, deeds) && Allowed(After(db, deeds), d)
  {
    assert (deeds + [d])[..|deeds|] == deeds;
  }
}
