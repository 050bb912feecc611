/** The security matrix: every scenario measured under both policies, each from a clean database. */
module Matrix {
  import opened Domain
  import opened RateLimit
  import opened Ledger
  import opened Effects
  import opened Books
  import opened Policies
  import opened Store
  import ScopeText

  /** An approval a scenario arranges before its calls. */
  datatype Setup = Setup(
    id: string, subject: string, tool: string, account: string, amount: int, approvedBy: string, ttlSeconds: int, now: Moment)
  {
    function Op(): Op {
      Approve(id, Approval(subject, tool, account, amount, approvedBy, now + ttlSeconds * MICROS, None))
    }
  }

  /** One row of the matrix: what is approved, the calls that present the scenario's token, and how many
      effects it should leave. */
  datatype Scenario = Scenario(id: string, attack: bool, setups: seq<Setup>, calls: seq<Arrival>, expected: nat)
  {
    function Ops(): (ops: seq<Op>)
      ensures |ops| == |setups| + |calls|
    {
      seq(|setups|, i requires 0 <= i < |setups| => setups[i].Op()) + seq(|calls|, i requires 0 <= i < |calls| => Ask(calls[i].Asks()))
    }

    /** The random identifiers its calls draw do not collide. */
    predicate Fresh() {
      forall i, j :: 0 <= i < j < |calls| ==> calls[i].auditId != calls[j].auditId && calls[i].effectId != calls[j].effectId
    }
  }

  /** An audit row as the console shows it: the effective scopes as a list again. */
  datatype Shown = Shown(row: Audit, scopes: seq<string>)

  function Show(row: Audit): Shown {
    Shown(row, if row.effective != "" then ScopeText.Split(row.effective) else [])
  }

  /** What one run of a scenario reports: the last answer, the effect count, the audit rows. */
  datatype Report = Report(allowed: bool, reason: Option<Reason>, effects: nat, audit: map<string, Shown>)

  datatype Row = Row(scenario: Scenario, naive: Report, hardened: Report)

  /** The tables a scenario can leave under a policy, started from empty ones, without a ceiling. */
  ghost predicate Leaves(policy: Policy, s: Scenario, db: Tables) {
    exists dbs :: Trace(policy, 0, s.Ops(), dbs) && dbs[0] == EMPTY && dbs[|s.Ops()|] == db
  }

  /** The decision is the one recorded for the call with this audit id. */
  predicate Decided(audit: map<string, Audit>, id: string, allowed: bool, reason: Option<Reason>) {
    id in audit && audit[id].allowed == allowed && audit[id].reason == reason
  }

  /** A report that a run of the scenario can give: the last call's decision, every effect, every audit row. */
  ghost predicate Measured(policy: Policy, s: Scenario, r: Report) {
    exists db :: Leaves(policy, s, db) && r.effects == |db.effects|
      && r.audit == (map a | a in db.audit :: Show(db.audit[a]))
      && |s.calls| > 0 && Decided(db.audit, s.calls[|s.calls| - 1].auditId, r.allowed, r.reason)
  }

  // ---------------------------------------------------------------- any two runs compared

  lemma LeavesCompare(s: Scenario, naive: Tables, hardened: Tables)
    requires Leaves(NAIVE, s, naive) && Leaves(HARDENED, s, hardened)
    ensures |hardened.effects| <= |naive.effects|
  {
    var ns :| Trace(NAIVE, 0, s.Ops(), ns) && ns[0] == EMPTY && ns[|s.Ops()|] == naive;
    var hs :| Trace(HARDENED, 0, s.Ops(), hs) && hs[0] == EMPTY && hs[|s.Ops()|] == hardened;
    HardenedNeverWritesMore(0, s.Ops(), ns, hs, |s.Ops()|);
  }

  lemma OpLevel(policy: Policy, db: Tables, op: Op, db': Tables)
    requires Plays(policy, 0, db, op, db') && Honest(db)
    ensures Level(db') == Level(db) && Honest(db')
    ensures |db'.approvals| == |db.approvals| + if op.Approve? then 1 else 0
  {
    match op
    case Approve(id, row) =>
      GrantLevel(db, id, row);
    case Ask(q) =>
      var o :| Ends(db, CallOf(policy, q, 0), o, db');
      var taken := EndTakes(db, CallOf(policy, q, 0), o, db');
      TakesLevel(db, CallOf(policy, q, 0), db', taken);
      assert |db'.approvals.Keys| == |db.approvals.Keys|;
  }

  lemma {:induction false} TraceLevel(policy: Policy, s: Scenario, dbs: seq<Tables>, i: nat)
    requires Trace(policy, 0, s.Ops(), dbs) && dbs[0] == EMPTY && i <= |s.Ops()|
    ensures Level(dbs[i]) == 0 && Honest(dbs[i])
    ensures |dbs[i].approvals| == if i < |s.setups| then i else |s.setups|
  {
    if i > 0 {
      TraceLevel(policy, s, dbs, i - 1);
      assert StepAt(policy, 0, s.Ops(), dbs, i - 1);
      OpLevel(policy, dbs[i - 1], s.Ops()[i - 1], dbs[i]);
    }
  }

  /** However often a token is presented, a scenario leaves at most one effect for each approval it
      arranged, under either policy. */
  lemma NoMoreThanApproved(policy: Policy, s: Scenario, r: Report)
    requires Measured(policy, s, r)
    ensures r.effects <= |s.setups|
  {
    var db :| Leaves(policy, s, db) && r.effects == |db.effects|;
    var dbs :| Trace(policy, 0, s.Ops(), dbs) && dbs[0] == EMPTY && dbs[|s.Ops()|] == db;
    TraceLevel(policy, s, dbs, |s.Ops()|);
  }

  // ---------------------------------------------------------------- one scenario, one policy

  lemma TraceSnoc(policy: Policy, ops: seq<Op>, dbs: seq<Tables>, op: Op, db: Tables)
    requires Trace(policy, 0, ops, dbs) && Plays(policy, 0, dbs[|ops|], op, db)
    ensures Trace(policy, 0, ops + [op], dbs + [db])
  {
    forall i | 0 <= i <= |ops| ensures StepAt(policy, 0, ops + [op], dbs + [db], i) {
      assert i < |ops| ==> StepAt(policy, 0, ops, dbs, i);
    }
  }

  method Reset(store: Database)
    modifies store
    ensures store.Tables() == EMPTY
  {
    store.effects, store.audit, store.approvals, store.counters := map[], map[], map[], map[];
  }

  /** Arrange a scenario's approvals; None where the table refuses one. */
  method Arrange(store: Database, policy: Policy, s: Scenario) returns (ok: bool, ghost dbs: seq<Tables>)
    modifies store
    ensures ok ==> Trace(policy, 0, s.Ops()[..|s.setups|], dbs) && dbs[0] == EMPTY && dbs[|s.setups|] == store.Tables()
    ensures ok ==> store.audit == map[] && store.effects == map[]
  {
    Reset(store);
    dbs := [EMPTY];
    for i := 0 to |s.setups|
      invariant Trace(policy, 0, s.Ops()[..i], dbs) && dbs[0] == EMPTY && dbs[i] == store.Tables()
      invariant store.audit == map[] && store.effects == map[]
    {
      var a := s.setups[i];
      ok := store.CreateApproval(a.id, a.subject, a.tool, a.account, a.amount, a.approvedBy, a.ttlSeconds, a.now);
      if !ok { return; }
      TraceSnoc(policy, s.Ops()[..i], dbs, a.Op(), store.Tables());
      assert s.Ops()[..i] + [a.Op()] == s.Ops()[..i + 1];
      dbs := dbs + [store.Tables()];
    }
    ok := true;
  }

  /** The tables after a scenario's approvals and its first `k` calls, and how they came about; every
      identifier in them was drawn by one of those calls. */
  ghost predicate Reached(policy: Policy, s: Scenario, k: nat, dbs: seq<Tables>, db: Tables)
    requires k <= |s.calls|
  {
    Traced(policy, s.Ops(), |s.setups| + k, dbs, db) && Drawn(s.calls, k, db)
  }

  ghost predicate Traced(policy: Policy, ops: seq<Op>, n: nat, dbs: seq<Tables>, db: Tables)
    requires n <= |ops|
  {
    Trace(policy, 0, ops[..n], dbs) && dbs[0] == EMPTY && dbs[n] == db
  }

  ghost predicate Drawn(calls: seq<Arrival>, k: nat, db: Tables)
    requires k <= |calls|
  {
    && (forall a :: a in db.audit ==> exists j :: 0 <= j < k && calls[j].auditId == a)
    && (forall e :: e in db.effects ==> exists j :: 0 <= j < k && calls[j].effectId == e)
  }

  lemma DrawnNext(calls: seq<Arrival>, k: nat, db: Tables, db': Tables)
    requires k < |calls| && Drawn(calls, k, db)
    requires db'.audit.Keys <= db.audit.Keys + {calls[k].auditId} && db'.effects.Keys <= db.effects.Keys + {calls[k].effectId}
    ensures Drawn(calls, k + 1, db')
  {
  }

  lemma EndsDraws(db: Tables, c: Call, o: Outcome, db': Tables)
    requires Ends(db, c, o, db')
    ensures db'.audit.Keys <= db.audit.Keys + {c.auditId} && db'.effects.Keys <= db.effects.Keys + {c.effectId}
  {
  }

  lemma Taking(ops: seq<Op>, n: nat)
    requires n < |ops|
    ensures ops[..n] + [ops[n]] == ops[..n + 1]
  {
  }

  lemma NextIsFresh(s: Scenario, k: nat, db: Tables)
    requires k < |s.calls| && s.Fresh() && Drawn(s.calls, k, db)
    ensures s.calls[k].auditId !in db.audit && s.calls[k].effectId !in db.effects
  {
  }

  lemma AskPlays(policy: Policy, db: Tables, q: Request, o: Outcome, db': Tables)
    requires q.auditId !in db.audit && q.effectId !in db.effects && Ends(db, CallOf(policy, q, 0), o, db')
    ensures Plays(policy, 0, db, Ask(q), db')
  {
  }

  lemma TracedNext(policy: Policy, ops: seq<Op>, n: nat, dbs: seq<Tables>, db: Tables, db': Tables)
    requires n < |ops| && Traced(policy, ops, n, dbs, db) && Plays(policy, 0, db, ops[n], db')
    ensures Traced(policy, ops, n + 1, dbs + [db'], db')
  {
    TraceSnoc(policy, ops[..n], dbs, ops[n], db');
    Taking(ops, n);
  }

  lemma ReachedNext(policy: Policy, s: Scenario, k: nat, dbs: seq<Tables>, db: Tables, o: Outcome, db': Tables)
    requires k < |s.calls| && s.Fresh() && Reached(policy, s, k, dbs, db)
    requires Ends(db, CallOf(policy, s.calls[k].Asks(), 0), o, db')
    ensures Reached(policy, s, k + 1, dbs + [db'], db')
  {
    NextIsFresh(s, k, db);
    EndsDraws(db, CallOf(policy, s.calls[k].Asks(), 0), o, db');
    DrawnNext(s.calls, k, db, db');
    AskPlays(policy, db, s.calls[k].Asks(), o, db');
    assert s.Ops()[|s.setups| + k] == Ask(s.calls[k].Asks());
    TracedNext(policy, s.Ops(), |s.setups| + k, dbs, db, db');
  }

  lemma ReachedAll(policy: Policy, s: Scenario, dbs: seq<Tables>, db: Tables)
    requires Reached(policy, s, |s.calls|, dbs, db)
    ensures Leaves(policy, s, db)
  {
    assert s.Ops()[..|s.setups| + |s.calls|] == s.Ops();
  }

  /** Present the scenario's token once more. */
  method Present(store: Database, policy: Policy, s: Scenario, k: nat, ghost dbs: seq<Tables>)
    returns (o: Outcome, told: ToolOutcome)
    requires k < |s.calls| && s.Fresh() && Reached(policy, s, k, dbs, store.Tables())
    modifies store
    ensures o.Completed? ==> Reached(policy, s, k + 1, dbs + [store.Tables()], store.Tables())
    ensures o.Completed? ==> Decided(store.audit, s.calls[k].auditId, told.allowed, told.reason)
  {
    ghost var before := store.Tables();
    NextIsFresh(s, k, before);
    o, told := store.CallTool(policy, s.calls[k], 0);
    ReachedNext(policy, s, k, dbs, before, o, store.Tables());
  }

  /** Run a scenario under a policy and count what it did; None where a statement raised, which ends
      the whole measurement. */
  method Run(store: Database, policy: Policy, s: Scenario) returns (report: Option<Report>)
    requires s.Fresh()
    modifies store
    ensures report.Some? ==> Measured(policy, s, report.value)
  {
    var ok; ghost var dbs;
    ok, dbs := Arrange(store, policy, s);
    if !ok || |s.calls| == 0 { return None; }
    var allowed, reason := false, None;
    for k := 0 to |s.calls|
      invariant Reached(policy, s, k, dbs, store.Tables())
      invariant k > 0 ==> Decided(store.audit, s.calls[k - 1].auditId, allowed, reason)
    {
      var o, told := Present(store, policy, s, k, dbs);
      if o.Raised? { return None; }
      dbs := dbs + [store.Tables()];
      allowed, reason := told.allowed, told.reason;
    }
    ReachedAll(policy, s, dbs, store.Tables());
    return Some(Report(allowed, reason, |store.effects|, map a | a in store.audit :: Show(store.audit[a])));
  }

  // ---------------------------------------------------------------- the whole matrix

  datatype Totals = Totals(naive: nat, hardened: nat, attacks: nat, permittedByNaive: nat, permittedByHardened: nat)

  predicate Permitted(s: Scenario, r: Report) {
    s.attack && r.effects > s.expected
  }

  /** The totals, row by row. */
  function Sum(rows: seq<Row>): Totals {
    if |rows| == 0 then Totals(0, 0, 0, 0, 0)
    else
      var t, r := Sum(rows[..|rows| - 1]), rows[|rows| - 1];
      Totals(t.naive + r.naive.effects, t.hardened + r.hardened.effects,
             t.attacks + (if r.scenario.attack then 1 else 0),
             t.permittedByNaive + (if Permitted(r.scenario, r.naive) then 1 else 0),
             t.permittedByHardened + (if Permitted(r.scenario, r.hardened) then 1 else 0))
  }

  function AttackRows(rows: seq<Row>): set<nat> {
    set i: nat | i < |rows| && rows[i].scenario.attack
  }

  /** The attacks that left more effects than they should. */
  function NaiveBreaches(rows: seq<Row>): set<nat> {
    set i: nat | i < |rows| && rows[i].scenario.attack && rows[i].naive.effects > rows[i].scenario.expected
  }

  function HardenedBreaches(rows: seq<Row>): set<nat> {
    set i: nat | i < |rows| && rows[i].scenario.attack && rows[i].hardened.effects > rows[i].scenario.expected
  }

  lemma OneRowMore(rows: seq<Row>)
    requires rows != []
    ensures var n := |rows| - 1; var r := rows[n];
      && AttackRows(rows) == AttackRows(rows[..n]) + (if r.scenario.attack then {n} else {})
      && NaiveBreaches(rows) ==
           NaiveBreaches(rows[..n]) + (if r.scenario.attack && r.naive.effects > r.scenario.expected then {n} else {})
      && HardenedBreaches(rows) ==
           HardenedBreaches(rows[..n]) + (if r.scenario.attack && r.hardened.effects > r.scenario.expected then {n} else {})
  {
  }

  /** What the totals count. */
  lemma {:induction false} SumCounts(rows: seq<Row>)
    ensures Sum(rows).attacks == |AttackRows(rows)|
    ensures Sum(rows).permittedByNaive == |NaiveBreaches(rows)| && Sum(rows).permittedByHardened == |HardenedBreaches(rows)|
  {
    if rows != [] {
      SumCounts(rows[..|rows| - 1]);
      OneRowMore(rows);
    }
  }

  /** Both reports of a row come from runs of its scenario. */
  ghost predicate Genuine(r: Row) {
    Measured(NAIVE, r.scenario, r.naive) && Measured(HARDENED, r.scenario, r.hardened)
  }

  lemma RowCompares(r: Row)
    requires Genuine(r)
    ensures r.hardened.effects <= r.naive.effects
    ensures Permitted(r.scenario, r.hardened) ==> Permitted(r.scenario, r.naive)
  {
    var n :| Leaves(NAIVE, r.scenario, n) && r.naive.effects == |n.effects|;
    var h :| Leaves(HARDENED, r.scenario, h) && r.hardened.effects == |h.effects|;
    LeavesCompare(r.scenario, n, h);
  }

  /** In a measured matrix the hardened server never comes out behind. */
  lemma {:induction false} TotalsCompare(rows: seq<Row>)
    requires forall i :: 0 <= i < |rows| ==> Genuine(rows[i])
    ensures var t := Sum(rows);
      && t.hardened <= t.naive && t.permittedByHardened <= t.permittedByNaive <= t.attacks <= |rows|
  {
    if rows != [] {
      TotalsCompare(rows[..|rows| - 1]);
      RowCompares(rows[|rows| - 1]);
    }
  }

  lemma SumSnoc(rows: seq<Row>, r: Row)
    ensures Sum(rows + [r]).naive == Sum(rows).naive + r.naive.effects
    ensures Sum(rows + [r]).hardened == Sum(rows).hardened + r.hardened.effects
  {
    assert (rows + [r])[..|rows|] == rows;
  }

  method MeasureRow(store: Database, s: Scenario) returns (row: Option<Row>)
    requires s.Fresh()
    modifies store
    ensures row.Some? ==> row.value.scenario == s && Genuine(row.value)
  {
    var naive := Run(store, NAIVE, s);
    if naive.None? { return None; }
    var hardened := Run(store, HARDENED, s);
    if hardened.None? { return None; }
    row := Some(Row(s, naive.value, hardened.value));
  }

  /** The matrix a build reports: one genuine row for each scenario, in order, and their totals. */
  ghost predicate Reports(scenarios: seq<Scenario>, rows: seq<Row>, t: Totals) {
    && |rows| == |scenarios| && t == Sum(rows)
    && forall i :: 0 <= i < |rows| ==> rows[i].scenario == scenarios[i] && Genuine(rows[i])
  }

  /** Measure every scenario under both policies. None where a statement raised. */
  method BuildMatrix(store: Database, scenarios: seq<Scenario>) returns (rows: seq<Row>, totals: Option<Totals>)
    requires forall i :: 0 <= i < |scenarios| ==> scenarios[i].Fresh()
    modifies store
    ensures totals.Some? ==> store.Tables() == EMPTY && Reports(scenarios, rows, totals.value)
    ensures totals.Some? ==> totals.value.attacks == |AttackRows(rows)|
    ensures totals.Some? ==> totals.value.permittedByNaive == |NaiveBreaches(rows)|
    ensures totals.Some? ==> totals.value.permittedByHardened == |HardenedBreaches(rows)|
    ensures totals.Some? ==> totals.value.hardened <= totals.value.naive
    ensures totals.Some? ==> totals.value.permittedByHardened <= totals.value.permittedByNaive
  {
    rows := [];
    var naiveEffects: nat, hardenedEffects: nat := 0, 0;
    for i := 0 to |scenarios|
      invariant |rows| == i
      invariant forall j :: 0 <= j < i ==> rows[j].scenario == scenarios[j] && Genuine(rows[j])
      invariant Sum(rows).naive == naiveEffects && Sum(rows).hardened == hardenedEffects
    {
      var row := MeasureRow(store, scenarios[i]);
      if row.None? { return rows, None; }
      SumSnoc(rows, row.value);
      rows := rows + [row.value];
      naiveEffects := naiveEffects + row.value.naive.effects;
      hardenedEffects := hardenedEffects + row.value.hardened.effects;
    }
    Reset(store);
    TotalsCompare(rows);
    SumCounts(rows);
    totals := Some(Sum(rows).(naive := naiveEffects, hardened := hardenedEffects));
  }

  // ---------------------------------------------------------------- the audit column

  /** The list the console shows for a call is its effective scopes, sorted, when none of them holds a
      space. */
  lemma ShowsEffective(policy: Policy, q: Request, limit: int, r: Ruling)
    requires forall s :: s in Judge(policy, q).effective ==> ScopeText.Plain(s)
    ensures Show(AuditRow(CallOf(policy, q, limit), r)).row == AuditRow(CallOf(policy, q, limit), r)
    ensures Show(AuditRow(CallOf(policy, q, limit), r)).scopes == ScopeText.Sorted(multiset(Judge(policy, q).effective))
  {
    var words := ScopeText.Sorted(multiset(Judge(policy, q).effective));
    forall w | w in words ensures ScopeText.Plain(w) {
      assert w in multiset(words);
    }
    ScopeText.SplitJoin(words);
  }
}
