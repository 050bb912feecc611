/** The tables account for themselves: in every state of every run each holds what it started with and
    what the committed calls wrote, row for row, and nothing of a call that failed. */
module Trail {
  import opened Domain
  import opened RateLimit
  import opened Ledger
  import opened Machine
  import opened Invariant
  import opened Cardinality
  import opened Books
  import opened Quota

  // ---------------------------------------------------------------- rows added

  function CommittedCalls(s: State): set<nat> {
    set t: nat | 0 <= t < |s.txs| && s.txs[t].pc.Committed?
  }

  function CommittedIssues(s: State): set<nat> {
    set t: nat | t in CommittedCalls(s) && s.txs[t].pc.ruling.Issued?
  }

  function AuditIds(s: State): set<string> {
    set t | t in CommittedCalls(s) :: s.txs[t].call.auditId
  }

  function EffectIds(s: State): set<string> {
    set t | t in CommittedIssues(s) :: s.txs[t].call.effectId
  }

  /** The audit trail: the rows of the start as they were, and for each committed call its one row,
      with the verdict, the ruling and the identifiers the call ended with. */
  ghost predicate AuditTrail(first: Tables, s: State) {
    && s.db.audit.Keys == first.audit.Keys + AuditIds(s)
    && (forall a :: a in first.audit ==> a in s.db.audit && s.db.audit[a] == first.audit[a])
    && (forall t :: t in CommittedCalls(s) ==>
          s.txs[t].call.auditId in s.db.audit && s.db.audit[s.txs[t].call.auditId] == AuditRow(s.txs[t].call, s.txs[t].pc.ruling))
  }

  /** The effects: those of the start, and for each call that committed as issued its one effect, of
      the approval it names. */
  ghost predicate EffectTrail(first: Tables, s: State) {
    && s.db.effects.Keys == first.effects.Keys + EffectIds(s)
    && (forall e :: e in first.effects ==> e in s.db.effects && s.db.effects[e] == first.effects[e])
    && (forall t :: t in CommittedIssues(s) ==>
          s.txs[t].call.effectId in s.db.effects
          && s.db.effects[s.txs[t].call.effectId] == EffectRow(s.txs[t].call, s.txs[t].pc.ruling.approvalId))
  }

  lemma StepCommits(s: State, t: nat, to: Pc)
    requires t < |s.txs| && !s.txs[t].pc.Committed?
    ensures var s' := Move(s, t, to);
      && CommittedCalls(s') == CommittedCalls(s) + (if to.Committed? then {t} else {})
      && CommittedIssues(s') == CommittedIssues(s) + (if to.Committed? && to.ruling.Issued? then {t} else {})
      && forall u :: u in CommittedCalls(s) ==> s'.txs[u] == s.txs[u]
  {
  }

  lemma StepIds(s: State, t: nat, to: Pc)
    requires t < |s.txs| && !s.txs[t].pc.Committed?
    ensures var s' := Move(s, t, to);
      && AuditIds(s') == AuditIds(s) + (if to.Committed? then {s.txs[t].call.auditId} else {})
      && EffectIds(s') == EffectIds(s) + (if to.Committed? && to.ruling.Issued? then {s.txs[t].call.effectId} else {})
  {
    var s' := Move(s, t, to);
    StepCommits(s, t, to);
    assert to.Committed? ==> t in CommittedCalls(s') && s'.txs[t].call == s.txs[t].call;
    forall u | u in CommittedCalls(s) ensures s.txs[u].call.auditId in AuditIds(s') {
      assert u in CommittedCalls(s') && s'.txs[u] == s.txs[u];
    }
    forall u | u in CommittedIssues(s) ensures s.txs[u].call.effectId in EffectIds(s') {
      assert u in CommittedIssues(s') && s'.txs[u] == s.txs[u];
    }
  }

  lemma MoveTrails(first: Tables, s: State, t: nat, to: Pc)
    requires t < |s.txs| && !s.txs[t].pc.Committed? && !to.Committed?
    ensures AuditTrail(first, s) ==> AuditTrail(first, Move(s, t, to))
    ensures EffectTrail(first, s) ==> EffectTrail(first, Move(s, t, to))
  {
    StepCommits(s, t, to);
    StepIds(s, t, to);
  }

  lemma CommitAudits(first: Tables, s: State, t: nat, used: nat, r: Ruling)
    requires AuditTrail(first, s) && t < |s.txs| && !s.txs[t].pc.Committed? && s.txs[t].call.auditId !in s.db.audit
    ensures AuditTrail(first, Move(s, t, Committed(used, r)))
  {
    StepCommits(s, t, Committed(used, r));
    StepIds(s, t, Committed(used, r));
  }

  lemma CommitEffects(first: Tables, s: State, t: nat, used: nat, r: Ruling)
    requires EffectTrail(first, s) && t < |s.txs| && !s.txs[t].pc.Committed? && s.txs[t].call.effectId !in s.db.effects
    ensures EffectTrail(first, Move(s, t, Committed(used, r)))
  {
    StepCommits(s, t, Committed(used, r));
    StepIds(s, t, Committed(used, r));
  }

  lemma StepTrail(m: Mechanisms, first: Tables, s: State, e: Event, s': State)
    requires Inv(m, s) && Next(m, s, e, s') && AuditTrail(first, s) && EffectTrail(first, s)
    ensures AuditTrail(first, s') && EffectTrail(first, s')
  {
    if !e.Granting? {
      var to := s'.txs[e.t].pc;
      assert TxOk(m, s.db, s.txs[e.t]) && s' == Move(s, e.t, to);
      if to.Committed? {
        CommitAudits(first, s, e.t, to.used, to.ruling);
        CommitEffects(first, s, e.t, to.used, to.ruling);
      } else {
        MoveTrails(first, s, e.t, to);
      }
    }
  }

  lemma NoneYet(s: State)
    requires Initial(s)
    ensures CommittedCalls(s) == {}
  {
    forall t: nat | t < |s.txs| ensures !s.txs[t].pc.Committed? {
      assert s.txs[t].pc == Entry(s.txs[t].call);
    }
  }

  /** In every state of every run, whatever interleaves, whatever fails and whichever mechanisms are in
      place, the audit trail and the effects are exactly what the committed calls wrote. */
  lemma RunTrail(m: Mechanisms, r: Run, i: nat)
    requires r.Valid(m) && i < |r.states|
    ensures AuditTrail(r.First().db, r.states[i]) && EffectTrail(r.First().db, r.states[i])
  {
    NoneYet(r.states[0]);
    for k := 0 to i
      invariant AuditTrail(r.First().db, r.states[k]) && EffectTrail(r.First().db, r.states[k])
    {
      RunInv(m, r, k);
      StepTrail(m, r.First().db, r.states[k], r.events[k], r.states[k + 1]);
    }
  }

  /** One audit row for each committed call, and one effect for each that committed as issued. */
  lemma RowsAdded(m: Mechanisms, r: Run, i: nat)
    requires r.Valid(m) && i < |r.states|
    ensures |r.states[i].db.audit| == |r.First().db.audit| + |CommittedCalls(r.states[i])|
    ensures |r.states[i].db.effects| == |r.First().db.effects| + |CommittedIssues(r.states[i])|
  {
    var s, first := r.states[i], r.First().db;
    RunTrail(m, r, i);
    StartIds(m, r, i);
    AuditsApart(s);
    EffectsApart(s);
    assert |s.db.audit.Keys| == |s.db.audit| && |first.audit.Keys| == |first.audit|;
    assert |s.db.effects.Keys| == |s.db.effects| && |first.effects.Keys| == |first.effects|;
  }

  /** The calls of a run are those it started with. */
  lemma {:induction false} StartIds(m: Mechanisms, r: Run, i: nat)
    requires r.Valid(m) && i < |r.states|
    ensures FreshIds(r.First().db, r.states[i].txs)
  {
    for k := 0 to i
      invariant FreshIds(r.First().db, r.states[k].txs)
    {
      assert Next(m, r.states[k], r.events[k], r.states[k + 1]);
    }
  }

  lemma AuditsApart(s: State)
    requires DistinctIds(s.txs)
    ensures |AuditIds(s)| == |CommittedCalls(s)|
  {
    var f := map t | t in CommittedCalls(s) :: s.txs[t].call.auditId;
    forall t, u | t in f && u in f && f[t] == f[u] ensures t == u {
      assert t < u || u < t || t == u;
    }
    forall a | a in AuditIds(s) ensures Reaches(f, a) {
      var t :| t in CommittedCalls(s) && s.txs[t].call.auditId == a;
      assert f[t] == a;
    }
    assert f.Keys == CommittedCalls(s);
    BijectionSize(f, AuditIds(s));
  }

  lemma EffectsApart(s: State)
    requires DistinctIds(s.txs)
    ensures |EffectIds(s)| == |CommittedIssues(s)|
  {
    var f := map t | t in CommittedIssues(s) :: s.txs[t].call.effectId;
    forall t, u | t in f && u in f && f[t] == f[u] ensures t == u {
      assert t < u || u < t || t == u;
    }
    forall e | e in EffectIds(s) ensures Reaches(f, e) {
      var t :| t in CommittedIssues(s) && s.txs[t].call.effectId == e;
      assert f[t] == e;
    }
    assert f.Keys == CommittedIssues(s);
    BijectionSize(f, EffectIds(s));
  }

  // ---------------------------------------------------------------- rows changed

  ghost predicate SpentBy(s: State, id: string) {
    exists t :: t in CommittedIssues(s) && s.txs[t].pc.ruling.approvalId == id
  }

  /** The approvals: one is spent exactly if it was at the start, and unchanged since, or a committed
      call issued on it, and then at that call's moment. */
  ghost predicate SpendingTrail(first: Tables, s: State) {
    && (forall id :: id in Spent(first) ==> id in s.db.approvals && s.db.approvals[id] == first.approvals[id])
    && (forall id {:trigger SpentBy(s, id)} :: id in Spent(s.db) ==> id in Spent(first) || SpentBy(s, id))
    && (forall t :: t in CommittedIssues(s) ==>
          var id := s.txs[t].pc.ruling.approvalId;
          id in s.db.approvals && id !in Spent(first) && s.db.approvals[id].consumedAt == Some(s.txs[t].call.moment))
  }

  lemma SpentByMoves(s: State, t: nat, to: Pc, id: string)
    requires t < |s.txs| && !s.txs[t].pc.Committed?
    ensures SpentBy(s, id) ==> SpentBy(Move(s, t, to), id)
    ensures to.Committed? && to.ruling.Issued? ==> SpentBy(Move(s, t, to), to.ruling.approvalId)
  {
    var s' := Move(s, t, to);
    StepCommits(s, t, to);
    if SpentBy(s, id) {
      var u :| u in CommittedIssues(s) && s.txs[u].pc.ruling.approvalId == id;
      assert u in CommittedIssues(s') && s'.txs[u] == s.txs[u];
    }
    if to.Committed? && to.ruling.Issued? {
      assert t in CommittedIssues(s') && s'.txs[t].pc == to;
    }
  }

  lemma StepSpendingTrail(m: Mechanisms, first: Tables, s: State, e: Event, s': State)
    requires m.guard && Inv(m, s) && Next(m, s, e, s') && SpendingTrail(first, s)
    ensures SpendingTrail(first, s')
  {
    if e.Granting? {
      forall id | id in Spent(s'.db) ensures id in Spent(first) || SpentBy(s', id) {
        assert id in Spent(s.db);
        assert SpentBy(s, id) ==> SpentBy(s', id);
      }
    } else {
      var to := s'.txs[e.t].pc;
      assert TxOk(m, s.db, s.txs[e.t]);
      StepCommits(s, e.t, to);
      forall id | id in Spent(s'.db) ensures id in Spent(first) || SpentBy(s', id) {
        SpentByMoves(s, e.t, to, id);
        assert id in Spent(s.db) ==> id in Spent(first) || SpentBy(s, id);
      }
    }
  }

  /** With the update's condition in place, in every state of every run the spent approvals are those
      of the start and those of the committed issues, each at the moment of its own call. */
  lemma RunSpendingTrail(m: Mechanisms, r: Run, i: nat)
    requires m.guard && r.Valid(m) && i < |r.states|
    ensures SpendingTrail(r.First().db, r.states[i])
  {
    NoneYet(r.states[0]);
    for k := 0 to i
      invariant SpendingTrail(r.First().db, r.states[k])
    {
      RunInv(m, r, k);
      StepSpendingTrail(m, r.First().db, r.states[k], r.events[k], r.states[k + 1]);
    }
  }

  function GrantedIds(events: seq<Event>): set<string> {
    set e | e in events && e.Granting? :: e.id
  }

  /** The approvals on file are those of the start and those granted; no call adds or removes one. */
  lemma RunGranted(m: Mechanisms, r: Run, i: nat)
    requires r.Valid(m) && i < |r.states|
    ensures r.states[i].db.approvals.Keys == r.First().db.approvals.Keys + GrantedIds(r.events[..i])
  {
    for k := 0 to i
      invariant r.states[k].db.approvals.Keys == r.First().db.approvals.Keys + GrantedIds(r.events[..k])
    {
      assert Next(m, r.states[k], r.events[k], r.states[k + 1]);
      GrantedNext(r.events[..k], r.events[k]);
      assert r.events[..k] + [r.events[k]] == r.events[..k + 1];
    }
  }

  lemma GrantedNext(events: seq<Event>, e: Event)
    ensures GrantedIds(events + [e]) == GrantedIds(events) + if e.Granting? then {e.id} else {}
  {
    var more := events + [e];
    assert more[|events|] == e;
    forall x | x in events ensures x in more {
      var k :| 0 <= k < |events| && events[k] == x;
      assert more[k] == x;
    }
  }

  /** A counter has risen by exactly the committed calls that claimed in its bucket. */
  lemma RunCounters(m: Mechanisms, r: Run, i: nat, b: Bucket)
    requires r.Valid(m) && i < |r.states|
    ensures Count(r.states[i].db, b) == Count(r.First().db, b) + |Claimants(r.states[i], b)|
  {
    PositionsExact(m, r, i, b);
  }

  /** A call that is rolled back leaves no row in any table: not its audit row, not its effect. */
  lemma FailedLeavesNothing(m: Mechanisms, r: Run, i: nat, t: nat)
    requires r.Valid(m) && i < |r.states| && t < |r.states[i].txs| && r.states[i].txs[t].pc.Aborted?
    ensures var s := r.states[i]; s.txs[t].call.auditId !in s.db.audit && s.txs[t].call.effectId !in s.db.effects
    ensures t !in Claimants(r.states[i], r.states[i].txs[t].call.Key())
  {
    RunInv(m, r, i);
    assert TxOk(m, r.states[i].db, r.states[i].txs[t]);
  }

  // ---------------------------------------------------------------- answers

  /** What the audit row of a committed call says, for each way its verdict, its position and its tool can
      be. `used` is its position in its window, and matters where it has a ceiling. */
  ghost predicate Says(row: Audit, c: Call, used: nat) {
    var v := c.verdict;
    var ceiling := c.limit > 0 && v.subject.Some?;
    && row.subject == v.subject && row.tokenId == v.tokenId && row.tool == c.tool && row.policy == v.policy
    && row.required == v.required && row.effective == c.scopeText
    && (!v.allowed ==> !row.allowed && row.reason == v.reason && row.approvalId.None?)
    && (v.allowed && ceiling ==> (row.reason == Some(RateLimited) <==> used > c.limit))
    && (v.allowed && !ceiling ==> row.reason != Some(RateLimited))
    && (v.allowed ==> (row.allowed <==> row.reason.None?))
    && (v.allowed && row.reason != Some(RateLimited) && c.tool !in IRREVERSIBLE_TOOLS ==>
          row.reason.None? && row.approvalId.None?)
    && (v.allowed && row.reason != Some(RateLimited) && c.tool in IRREVERSIBLE_TOOLS ==>
          && (row.reason.None? || row.reason.value in {ApprovalRequired, ApprovalExpired, ApprovalAlreadyConsumed})
          && (row.approvalId.Some? <==> row.reason.None? || row.reason == Some(ApprovalAlreadyConsumed)))
    && (row.reason == Some(RateLimited) ==> row.approvalId.None?)
    && (row.effectId == if row.allowed && row.approvalId.Some? then Some(c.effectId) else None)
  }

  lemma RulingSays(db: Tables, c: Call, used: nat, r: Ruling)
    requires RulingOk(db, c, used, r)
    ensures Says(AuditRow(c, r), c, used)
    ensures r.Lost? <==> c.verdict.allowed && AuditRow(c, r).reason == Some(ApprovalAlreadyConsumed)
    ensures r.Lost? ==> !AuditRow(c, r).allowed
  {
  }

  lemma CommittedOk(m: Mechanisms, r: Run, i: nat, t: nat)
    requires r.Valid(m) && i < |r.states| && t < |r.states[i].txs| && r.states[i].txs[t].pc.Committed?
    ensures var s := r.states[i]; var tx := s.txs[t];
      && RulingOk(s.db, tx.call, tx.pc.used, tx.pc.ruling)
      && tx.call.auditId in s.db.audit && s.db.audit[tx.call.auditId] == AuditRow(tx.call, tx.pc.ruling)
  {
    RunTrail(m, r, i);
    RunInv(m, r, i);
    assert TxOk(m, r.states[i].db, r.states[i].txs[t]) && t in CommittedCalls(r.states[i]);
  }

  /** In every state of every run, each committed call has its audit row, and the row says what it must. */
  lemma RunAnswers(m: Mechanisms, r: Run, i: nat, t: nat)
    requires r.Valid(m) && i < |r.states| && t < |r.states[i].txs| && r.states[i].txs[t].pc.Committed?
    ensures var s := r.states[i]; var c := s.txs[t].call;
      && c.auditId in s.db.audit && Says(s.db.audit[c.auditId], c, s.txs[t].pc.used)
  {
    var s := r.states[i];
    CommittedOk(m, r, i, t);
    RulingSays(s.db, s.txs[t].call, s.txs[t].pc.used, s.txs[t].pc.ruling);
  }

  /** The audit row tells an allowed call that its approval is already consumed. */
  ghost predicate ToldConsumed(db: Tables, c: Call) {
    && c.verdict.allowed && c.auditId in db.audit && !db.audit[c.auditId].allowed
    && db.audit[c.auditId].reason == Some(ApprovalAlreadyConsumed)
  }

  /** A committed call is told that its approval is already consumed exactly if it lost the race for it. */
  lemma ToldIffLost(m: Mechanisms, r: Run, i: nat, t: nat)
    requires r.Valid(m) && i < |r.states| && t < |r.states[i].txs| && r.states[i].txs[t].pc.Committed?
    ensures ToldConsumed(r.states[i].db, r.states[i].txs[t].call) <==> r.states[i].txs[t].pc.ruling.Lost?
  {
    var s := r.states[i];
    CommittedOk(m, r, i, t);
    RulingSays(s.db, s.txs[t].call, s.txs[t].pc.used, s.txs[t].pc.ruling);
  }
}
