/** Any number of tool calls at once. Each call is one database transaction at READ COMMITTED: a
    statement sees what is committed when it runs, writes stay private until the commit, and a
    write to a row another transaction has changed waits until that transaction ends and then
    re-checks its condition. A transaction's held locks and private writes are functions of its
    program counter. */
module Machine {
  import opened Domain
  import opened Ledger

  /** Which of the two one-approval-one-effect mechanisms are in place: the `consumed_at IS NULL`
      condition of the update, and the UNIQUE constraint on the effect's approval. */
  datatype Mechanisms = Mechanisms(guard: bool, unique: bool)

  /** The statement a transaction runs next, with what it has learnt so far. `used` is its quota
      position, 0 when it claims none. */
  datatype Pc =
    | Claiming
    | Looking(used: nat)
    | Found(used: nat, id: string)
    | Won(used: nat, id: string)
    | Raising(used: nat)
    | Deciding(used: nat, ruling: Ruling)
    | Recorded(used: nat, ruling: Ruling)
    | Committed(used: nat, ruling: Ruling)
    | Aborted

  datatype Tx = Tx(call: Call, pc: Pc) {

    predicate Finished() {
      pc.Committed? || pc.Aborted?
    }

    /** The counter row this transaction holds locked: from the claim until it ends. */
    function HeldBucket(): Option<Bucket> {
      if call.Counted() && !pc.Claiming? && !Finished() then Some(call.Key()) else None
    }

    /** The approval row this transaction holds locked: from a won update until it ends. */
    function HeldApproval(): Option<string> {
      match pc
      case Won(_, id) => Some(id)
      case Deciding(_, Issued(id)) => Some(id)
      case Recorded(_, Issued(id)) => Some(id)
      case _ => None
    }

    /** The approval named by an effect row this transaction has inserted and not committed. */
    function Inserted(): Option<string> {
      if (pc.Deciding? || pc.Recorded?) && pc.ruling.Issued? then Some(pc.ruling.approvalId) else None
    }
  }

  datatype State = State(db: Tables, txs: seq<Tx>)

  datatype Event =
    | Granting(id: string, row: Approval)
    | Acting(t: nat, to: Pc)
    | Failing(t: nat)

  /** The next statement once the quota position is known. */
  function AfterClaim(c: Call, used: nat): Pc {
    match Early(c, used)
    case Some(r) => Deciding(used, r)
    case None => if c.Raises() then Raising(used) else Looking(used)
  }

  function Entry(c: Call): Pc {
    if c.Counted() then Claiming else AfterClaim(c, 0)
  }

  /** An effect row already names this approval. */
  ghost predicate Taken(db: Tables, id: string) {
    exists e :: e in db.effects && db.effects[e].approvalId == id
  }

  /** No transaction but `t` holds the counter row. */
  ghost predicate BucketFree(s: State, t: nat, b: Bucket) {
    forall i :: 0 <= i < |s.txs| && i != t ==> s.txs[i].HeldBucket() != Some(b)
  }

  ghost predicate ApprovalFree(s: State, t: nat, id: string) {
    forall i :: 0 <= i < |s.txs| && i != t ==> s.txs[i].HeldApproval() != Some(id)
  }

  ghost predicate InsertFree(s: State, t: nat, id: string) {
    forall i :: 0 <= i < |s.txs| && i != t ==> s.txs[i].Inserted() != Some(id)
  }

  /** Does the conditional update find a row to change? */
  predicate Spendable(m: Mechanisms, db: Tables, id: string) {
    id in db.approvals && (m.guard ==> db.approvals[id].consumedAt.None?)
  }

  /** Transaction `t` can run its next statement and arrive at `to`. */
  ghost predicate Acts(m: Mechanisms, s: State, t: nat, to: Pc)
    requires t < |s.txs|
  {
    var c := s.txs[t].call;
    match s.txs[t].pc
    case Claiming =>
      BucketFree(s, t, c.Key()) && to == AfterClaim(c, Count(s.db, c.Key()) + 1)
    case Looking(used) =>
      if to.Found? then to.used == used && Best(s.db.approvals, c, to.id)
      else to.Deciding? && to.used == used && to.ruling.Refused? && NoneLeft(s.db.approvals, c, to.ruling.reason)
    case Found(used, id) =>
      ApprovalFree(s, t, id) && to == (if Spendable(m, s.db, id) then Won(used, id) else Deciding(used, Lost(id)))
    case Won(used, id) =>
      InsertFree(s, t, id) && to == (if m.unique && Taken(s.db, id) then Aborted else Deciding(used, Issued(id)))
    case Raising(_) => to == Aborted
    case Deciding(used, r) => to == Recorded(used, r)
    case Recorded(used, r) => to == Committed(used, r)
    case _ => false
  }

  function Move(s: State, t: nat, to: Pc): State
    requires t < |s.txs|
  {
    State(
      if to.Committed? then Publish(s.db, s.txs[t].call, to.used, to.ruling) else s.db,
      s.txs[t := s.txs[t].(pc := to)])
  }

  /** One step: a grant, a statement of one transaction, or a failure that rolls one back. */
  ghost predicate Next(m: Mechanisms, s: State, e: Event, s': State) {
    match e
    case Granting(id, row) => Grantable(s.db, id, row) && s' == s.(db := Grant(s.db, id, row))
    case Acting(t, to) => t < |s.txs| && Acts(m, s, t, to) && s' == Move(s, t, to)
    case Failing(t) => t < |s.txs| && !s.txs[t].Finished() && s' == Move(s, t, Aborted)
  }

  /** Random identifiers do not collide. */
  ghost predicate FreshIds(db: Tables, txs: seq<Tx>) {
    && (forall i :: 0 <= i < |txs| ==> txs[i].call.effectId !in db.effects && txs[i].call.auditId !in db.audit)
    && DistinctIds(txs)
  }

  ghost predicate DistinctIds(txs: seq<Tx>) {
    forall i, j :: 0 <= i < j < |txs| ==>
      txs[i].call.effectId != txs[j].call.effectId && txs[i].call.auditId != txs[j].call.auditId
  }

  /** Every call is about to begin, on tables that the constraints admit. */
  ghost predicate Initial(s: State) {
    && Positive(s.db)
    && (forall i :: 0 <= i < |s.txs| ==> s.txs[i].pc == Entry(s.txs[i].call))
    && FreshIds(s.db, s.txs)
  }

  /** A run: the states passed through, and the event between each and the next. */
  datatype Run = Run(states: seq<State>, events: seq<Event>) {

    ghost predicate Valid(m: Mechanisms) {
      && |states| == |events| + 1
      && Initial(states[0])
      && forall i :: 0 <= i < |events| ==> Next(m, states[i], events[i], states[i + 1])
    }

    function First(): State
      requires |states| > 0
    {
      states[0]
    }

    function Last(): State
      requires |states| > 0
    {
      states[|states| - 1]
    }

    /** The run without its last step. */
    function Before(): Run
      requires |states| == |events| + 1 && |events| > 0
    {
      Run(states[..|events|], events[..|events| - 1])
    }

    function Then(e: Event, s: State): Run {
      Run(states + [s], events + [e])
    }
  }

  lemma BeforeValid(m: Mechanisms, r: Run)
    requires r.Valid(m) && |r.events| > 0
    ensures r.Before().Valid(m)
    ensures r.Before().First() == r.First()
    ensures Next(m, r.Before().Last(), r.events[|r.events| - 1], r.Last())
  {
    var b := r.Before();
    forall i | 0 <= i < |b.events| ensures Next(m, b.states[i], b.events[i], b.states[i + 1]) {
      assert b.events[i] == r.events[i];
    }
  }

  lemma ThenValid(m: Mechanisms, r: Run, e: Event, s: State)
    requires r.Valid(m) && Next(m, r.Last(), e, s)
    ensures r.Then(e, s).Valid(m)
    ensures r.Then(e, s).First() == r.First() && r.Then(e, s).Last() == s
  {
    var n := r.Then(e, s);
    forall i | 0 <= i < |n.events| ensures Next(m, n.states[i], n.events[i], n.states[i + 1]) {
      if i < |r.events| {
        assert n.events[i] == r.events[i] && n.states[i] == r.states[i];
      }
    }
  }
}
