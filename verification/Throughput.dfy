/** Exactly how many of k calls for the same act succeed. */
module Throughput {
  import opened Domain
  import opened Ledger
  import opened Machine
  import opened Invariant
  import opened Cardinality
  import opened Books
  import opened Serialisability
  import opened Trail

  /** Calls of one subject for one irreversible act, in one window, under one limit. */
  predicate Alike(c: Call, d: Call) {
    && c.Subject() == d.Subject() && c.tool == d.tool && c.account == d.account && c.Amount() == d.Amount()
    && c.Key() == d.Key() && c.limit == d.limit
  }

  predicate Ready(c: Call) {
    c.verdict.allowed && c.verdict.subject.Some? && c.Irreversible() && !c.Raises()
  }

  /** The approvals a call like `c` could be handed. */
  function Open(rows: map<string, Approval>, c: Call): set<string> {
    set id | id in rows && Matches(rows[id], c)
  }

  function Min(a: int, b: int): int {
    if a <= b then a else b
  }

  // ---------------------------------------------------------------- one at a time

  /** What the call at index `j` of a serial run gets: the ceiling first, then the approvals. */
  predicate Expected(j: nat, limit: int, n: nat, r: Ruling) {
    if limit > 0 && j >= limit then r == Refused(Some(RateLimited))
    else if j < n then r.Issued?
    else r == Refused(Some(ApprovalRequired))
  }

  function Quota(j: nat, limit: int, n: nat): nat {
    if limit > 0 then Min(j, Min(limit, n)) else Min(j, n)
  }

  /** A serial history that is nothing but ready calls like `c`, with fresh identifiers, and where
      every approval open at the start is live for each of them. */
  ghost predicate Queue(db: Tables, c: Call, deeds: seq<Deed>) {
    && Serial(db, deeds)
    && (forall k :: 0 <= k < |deeds| ==> Queued(db, c, deeds[k]))
    && (forall j, k :: 0 <= j < k < |deeds| && deeds[j].Called? && deeds[k].Called? ==>
          deeds[j].call.effectId != deeds[k].call.effectId)
  }

  ghost predicate Queued(db: Tables, c: Call, d: Deed) {
    && d.Called? && Ready(d.call) && Alike(c, d.call) && d.call.effectId !in db.effects
    && forall id :: id in Open(db.approvals, c) ==> Live(db.approvals[id], d.call)
  }

  ghost predicate Made(deeds: seq<Deed>, e: string) {
    exists k :: 0 <= k < |deeds| && deeds[k].Called? && deeds[k].call.effectId == e
  }

  /** Where the queue stands after `j` calls. */
  ghost predicate Standing(db: Tables, now: Tables, c: Call, j: nat) {
    && (c.limit > 0 ==> Count(now, c.Key()) == j)
    && |now.effects| == |db.effects| + Quota(j, c.limit, |Open(db.approvals, c)|)
    && StillOpen(db.approvals, now.approvals, c, |Open(db.approvals, c)| - Quota(j, c.limit, |Open(db.approvals, c)|))
  }

  /** All but `left` of the open approvals have been spent, and the rest are as they were. */
  ghost predicate StillOpen(rows: map<string, Approval>, rows': map<string, Approval>, c: Call, left: int) {
    && |Open(rows', c)| == left
    && forall id :: id in Open(rows', c) ==> id in Open(rows, c) && rows'[id] == rows[id]
  }

  /** The lookup hands out an open approval while there is one. */
  lemma LookupServes(db: Tables, now: Tables, c: Call, d: Deed, j: nat, r: Ruling)
    requires Standing(db, now, c, j) && Queued(db, c, d) && Lookup(now.approvals, d.call, r)
    ensures if Open(now.approvals, c) != {} then r.Issued? && r.approvalId in Open(now.approvals, c)
            else r == Refused(Some(ApprovalRequired))
  {
    assert Open(now.approvals, c) == Open(now.approvals, d.call);
    if id :| id in Open(now.approvals, c) {
      assert Live(now.approvals[id], d.call);
    } else {
      assert forall o :: o in now.approvals && Matches(now.approvals[o], d.call) ==> o in Open(now.approvals, c);
    }
  }

  lemma NextRuling(db: Tables, now: Tables, c: Call, d: Deed, j: nat)
    requires Standing(db, now, c, j) && Queued(db, c, d) && Allowed(now, d)
    ensures Expected(j, c.limit, |Open(db.approvals, c)|, d.ruling)
    ensures d.ruling.Issued? ==> d.ruling.approvalId in Open(now.approvals, c)
    ensures c.limit > 0 ==> d.used == j + 1
  {
    if Early(d.call, d.used).None? {
      LookupServes(db, now, c, d, j, d.ruling);
      assert Open(now.approvals, c) == {} <==> |Open(now.approvals, c)| == 0;
    }
  }

  /** What one commit leaves open. */
  lemma OpenAfter(rows: map<string, Approval>, now: Tables, c: Call, call: Call, used: nat, r: Ruling, left: int)
    requires StillOpen(rows, now.approvals, c, left)
    requires r.Issued? ==> r.approvalId in Open(now.approvals, c)
    ensures StillOpen(rows, Publish(now, call, used, r).approvals, c, if r.Issued? then left - 1 else left)
  {
    var rows' := Publish(now, call, used, r).approvals;
    if r.Issued? {
      assert Open(rows', c) == Open(now.approvals, c) - {r.approvalId};
    }
  }

  lemma StandingNext(db: Tables, now: Tables, c: Call, d: Deed, j: nat)
    requires Standing(db, now, c, j) && Queued(db, c, d) && Allowed(now, d) && d.call.effectId !in now.effects
    ensures Expected(j, c.limit, |Open(db.approvals, c)|, d.ruling)
    ensures Standing(db, Do(now, d), c, j + 1)
  {
    NextRuling(db, now, c, d, j);
    var n := |Open(db.approvals, c)|;
    OpenAfter(db.approvals, now, c, d.call, d.used, d.ruling, n - Quota(j, c.limit, n));
    Tally(j, c.limit, n, d.ruling);
  }

  lemma Tally(j: nat, limit: int, n: nat, r: Ruling)
    requires Expected(j, limit, n, r)
    ensures Quota(j + 1, limit, n) == Quota(j, limit, n) + if r.Issued? then 1 else 0
  {
  }

  lemma QueuePrefix(db: Tables, c: Call, deeds: seq<Deed>)
    requires Queue(db, c, deeds) && deeds != []
    ensures Queue(db, c, deeds[..|deeds| - 1])
    ensures Queued(db, c, deeds[|deeds| - 1]) && Allowed(After(db, deeds[..|deeds| - 1]), deeds[|deeds| - 1])
    ensures !Made(deeds[..|deeds| - 1], deeds[|deeds| - 1].call.effectId)
  {
    var rest, d := deeds[..|deeds| - 1], deeds[|deeds| - 1];
    assert Queued(db, c, d);
    forall k | 0 <= k < |rest| ensures Queued(db, c, rest[k]) && rest[k].call.effectId != d.call.effectId {
      assert rest[k] == deeds[k] && Queued(db, c, deeds[k]);
    }
  }

  lemma MadeNext(deeds: seq<Deed>, e: string)
    requires deeds != []
    ensures Made(deeds[..|deeds| - 1], e) ==> Made(deeds, e)
    ensures var d := deeds[|deeds| - 1]; d.Called? && d.call.effectId == e ==> Made(deeds, e)
  {
    if Made(deeds[..|deeds| - 1], e) {
      var k :| 0 <= k < |deeds| - 1 && deeds[..|deeds| - 1][k].Called? && deeds[..|deeds| - 1][k].call.effectId == e;
      assert deeds[k].call.effectId == e;
    }
  }

  /** A serial queue serves as many as the ceiling and the approvals allow, in order, and says to
      each of the others which of the two ran out. */
  lemma {:induction false} QueueServes(db: Tables, c: Call, deeds: seq<Deed>)
    requires Queue(db, c, deeds) && (c.limit > 0 ==> Count(db, c.Key()) == 0)
    ensures Standing(db, After(db, deeds), c, |deeds|)
    ensures forall e :: e in After(db, deeds).effects ==> e in db.effects || Made(deeds, e)
    ensures forall j :: 0 <= j < |deeds| ==> Expected(j, c.limit, |Open(db.approvals, c)|, deeds[j].ruling)
    decreases |deeds|
  {
    if deeds != [] {
      var j := |deeds| - 1;
      var rest, d := deeds[..j], deeds[j];
      QueuePrefix(db, c, deeds);
      QueueServes(db, c, rest);
      StandingNext(db, After(db, rest), c, d, j);
      forall e | e in After(db, deeds).effects ensures e in db.effects || Made(deeds, e) {
        MadeNext(deeds, e);
      }
      assert forall k :: 0 <= k < j ==> rest[k] == deeds[k];
    }
  }

  // ---------------------------------------------------------------- any interleaving

  /** The three ways a ready call can end under a ceiling, and any other. */
  datatype Fate = Served | Limited | Unapproved | Otherwise

  function FateOf(r: Ruling): Fate {
    if r.Issued? then Served
    else if r == Refused(Some(RateLimited)) then Limited
    else if r == Refused(Some(ApprovalRequired)) then Unapproved
    else Otherwise
  }

  function Ended(s: State, f: Fate): set<nat> {
    set t: nat | 0 <= t < |s.txs| && s.txs[t].pc.Committed? && FateOf(s.txs[t].pc.ruling) == f
  }

  /** The audit row of a call says how it ended. */
  ghost predicate FateRecorded(s: State, t: nat)
    requires t < |s.txs|
  {
    var id := s.txs[t].call.auditId;
    && id in s.db.audit
    && (t in Ended(s, Served) ==> s.db.audit[id].allowed && s.db.audit[id].reason.None?)
    && (t in Ended(s, Limited) ==> !s.db.audit[id].allowed && s.db.audit[id].reason == Some(RateLimited))
    && (t in Ended(s, Unapproved) ==> !s.db.audit[id].allowed && s.db.audit[id].reason == Some(ApprovalRequired))
  }

  /** All calls are ready and like `c`, and each could use every approval open at the start. */
  ghost predicate Rush(s: State, c: Call) {
    forall t :: 0 <= t < |s.txs| ==> Joins(s.db, c, s.txs[t].call)
  }

  ghost predicate Joins(db: Tables, c: Call, call: Call) {
    Ready(call) && Alike(c, call) && forall id :: id in Open(db.approvals, c) ==> Live(db.approvals[id], call)
  }

  ghost predicate AllCommitted(s: State) {
    forall t :: 0 <= t < |s.txs| ==> s.txs[t].pc.Committed?
  }

  ghost predicate NoGrants(events: seq<Event>) {
    forall i :: 0 <= i < |events| ==> !events[i].Granting?
  }

  lemma {:induction false} NoGrantDeeds(r: Run, will: set<nat>, n: nat)
    requires |r.states| == |r.events| + 1 && n <= |r.events| && NoGrants(r.events)
    ensures forall k :: 0 <= k < |Linear(r, will, n)| ==> Linear(r, will, n)[k].Called?
  {
    if n > 0 { NoGrantDeeds(r, will, n - 1); }
  }

  lemma RushTakesTurns(s: State, c: Call)
    requires Rush(s, c) && c.limit > 0
    ensures TakeTurns(s.db, s.txs)
  {
    forall i | 0 <= i < |s.txs| ensures s.txs[i].call.Counted() && s.txs[i].call.Key() == c.Key() {
      assert Joins(s.db, c, s.txs[i].call);
    }
  }

  lemma CommittedApart(txs: seq<Tx>, s: State, deeds: seq<Deed>)
    requires DistinctIds(txs) && |txs| == |s.txs| && forall t :: 0 <= t < |txs| ==> s.txs[t].call == txs[t].call
    requires CommittedOnce(s, deeds)
    ensures forall j, k :: 0 <= j < k < |deeds| && deeds[j].Called? && deeds[k].Called? ==>
      deeds[j].call.effectId != deeds[k].call.effectId
  {
    forall j, k | 0 <= j < k < |deeds| && deeds[j].Called? && deeds[k].Called?
      ensures deeds[j].call.effectId != deeds[k].call.effectId
    {
      var t, u := deeds[j].tag, deeds[k].tag;
      assert t < u || u < t;
    }
  }

  lemma RushQueues(m: Mechanisms, r: Run, c: Call)
    requires r.Valid(m) && Rush(r.First(), c) && c.limit > 0 && NoGrants(r.events)
    ensures Queue(r.First().db, c, History(r))
  {
    var deeds := History(r);
    RushTakesTurns(r.First(), c);
    Serialisable(m, r);
    Steady(m, r, 0, |r.states| - 1);
    NoGrantDeeds(r, Winners(r.Last()), |r.events|);
    forall k | 0 <= k < |deeds| ensures Queued(r.First().db, c, deeds[k]) {
      assert Joins(r.First().db, c, r.First().txs[deeds[k].tag].call);
    }
    CommittedApart(r.First().txs, r.Last(), deeds);
  }

  /** The calls a history places at the indexes from `lo` to `hi`. */
  function TagsOf(deeds: seq<Deed>, lo: nat, hi: nat): map<int, nat>
    requires lo <= hi <= |deeds| && forall k :: 0 <= k < |deeds| ==> deeds[k].Called?
  {
    map k | k in Span(lo, hi) :: deeds[k].tag
  }

  /** The calls at a range of indexes are a set of the range's size. */
  lemma TagsCount(s: State, deeds: seq<Deed>, lo: nat, hi: nat, target: set<nat>)
    requires CommittedOnce(s, deeds) && lo <= hi <= |deeds| && forall k :: 0 <= k < |deeds| ==> deeds[k].Called?
    requires forall k :: 0 <= k < |deeds| ==> (lo <= k < hi <==> deeds[k].tag in target)
    requires forall t :: t in target ==> t < |s.txs| && s.txs[t].pc.Committed?
    ensures |target| == hi - lo
  {
    var f := TagsOf(deeds, lo, hi);
    assert Injective(f) by {
      forall j, k | j in f && k in f && f[j] == f[k] ensures j == k {
        assert j < k || k < j || j == k;
      }
    }
    forall t | t in target ensures Reaches(f, t) {
      assert Mentioned(deeds, t);
      var k :| 0 <= k < |deeds| && deeds[k].Called? && deeds[k].tag == t;
      assert f[k] == t;
    }
    assert f.Keys == Span(lo, hi);
    BijectionSize(f, target);
  }

  /** Exact throughput under a ceiling. Of k calls racing for n live approvals below a limit, with
      none lost to a failure, exactly min(k, limit, n) write an effect, exactly those beyond the limit
      are rate limited, and every other is told that no approval is left. */
  lemma ExactThroughput(m: Mechanisms, r: Run, c: Call)
    requires r.Valid(m) && Rush(r.First(), c) && NoGrants(r.events) && AllCommitted(r.Last())
    requires c.limit > 0 && Count(r.First().db, c.Key()) == 0
    ensures var k, n := |r.First().txs|, |Open(r.First().db.approvals, c)|;
      && |r.Last().db.effects| - |r.First().db.effects| == Min(k, Min(c.limit, n))
      && |Ended(r.Last(), Served)| == Min(k, Min(c.limit, n))
      && |Ended(r.Last(), Limited)| == k - Min(k, c.limit)
      && |Ended(r.Last(), Unapproved)| == Min(k, c.limit) - Min(k, Min(c.limit, n))
      && Ended(r.Last(), Otherwise) == {}
    ensures forall t :: 0 <= t < |r.Last().txs| ==> FateRecorded(r.Last(), t)
  {
    forall t | 0 <= t < |r.Last().txs| ensures FateRecorded(r.Last(), t) {
      CommittedOk(m, r, |r.states| - 1, t);
    }
    var deeds, s := History(r), r.Last();
    var k, n := |r.First().txs|, |Open(r.First().db.approvals, c)|;
    RushTakesTurns(r.First(), c);
    Serialisable(m, r);
    Steady(m, r, 0, |r.states| - 1);
    NoGrantDeeds(r, Winners(s), |r.events|);
    RushQueues(m, r, c);
    QueueServes(r.First().db, c, deeds);
    TagsCount(s, deeds, 0, |deeds|, Winners(s));
    BelowSize(Winners(s), k);
    FatesByIndex(s, deeds, c.limit, n);
  }

  lemma BelowSize(all: set<nat>, k: nat)
    requires forall t: nat :: t in all <==> t < k
    ensures |all| == k
  {
    var f := map t | t in all :: t as int;
    forall t | t in Span(0, k) ensures Reaches(f, t) { assert f[t] == t; }
    assert f.Keys == all;
    BijectionSize(f, Span(0, k));
  }

  lemma FatesByIndex(s: State, deeds: seq<Deed>, limit: int, n: nat)
    requires CommittedOnce(s, deeds) && forall k :: 0 <= k < |deeds| ==> deeds[k].Called?
    requires limit > 0 && forall j :: 0 <= j < |deeds| ==> Expected(j, limit, n, deeds[j].ruling)
    ensures var k := |deeds|;
      && |Ended(s, Served)| == Min(k, Min(limit, n))
      && |Ended(s, Limited)| == k - Min(k, limit)
      && |Ended(s, Unapproved)| == Min(k, limit) - Min(k, Min(limit, n))
      && Ended(s, Otherwise) == {}
  {
    var k := |deeds|;
    forall j | 0 <= j < k
      ensures deeds[j].tag !in Ended(s, Otherwise)
      ensures j < Min(k, Min(limit, n)) <==> deeds[j].tag in Ended(s, Served)
      ensures Min(k, limit) <= j <==> deeds[j].tag in Ended(s, Limited)
      ensures Min(k, Min(limit, n)) <= j < Min(k, limit) <==> deeds[j].tag in Ended(s, Unapproved)
    {
      assert Expected(j, limit, n, deeds[j].ruling);
    }
    TagsCount(s, deeds, 0, Min(k, Min(limit, n)), Ended(s, Served));
    TagsCount(s, deeds, Min(k, limit), k, Ended(s, Limited));
    TagsCount(s, deeds, Min(k, Min(limit, n)), Min(k, limit), Ended(s, Unapproved));
    TagsCount(s, deeds, 0, 0, Ended(s, Otherwise));
  }

  // ---------------------------------------------------------------- no ceiling

  /** The approvals committed calls have spent: each once, and none spent before the run. */
  ghost predicate SpendsApart(first: Tables, s: State) {
    && (forall t :: 0 <= t < |s.txs| && CommittedIssue(s.txs[t]) ==>
          s.txs[t].pc.ruling.approvalId in Spent(s.db) && s.txs[t].pc.ruling.approvalId !in Spent(first))
    && (forall t, u :: 0 <= t < |s.txs| && 0 <= u < |s.txs| && CommittedIssue(s.txs[t]) && CommittedIssue(s.txs[u]) ==>
          (s.txs[t].pc.ruling.approvalId == s.txs[u].pc.ruling.approvalId ==> t == u))
  }

  predicate CommittedIssue(tx: Tx) {
    tx.pc.Committed? && tx.pc.ruling.Issued?
  }

  lemma {:induction false} RunSpendsApart(m: Mechanisms, r: Run, i: nat)
    requires m.guard && r.Valid(m) && i < |r.states|
    ensures SpendsApart(r.First().db, r.states[i])
  {
    if i == 0 {
      assert forall t :: 0 <= t < |r.states[0].txs| ==> r.states[0].txs[t].pc == Entry(r.states[0].txs[t].call);
    } else {
      RunSpendsApart(m, r, i - 1);
      RunInv(m, r, i - 1);
      RunDurable(m, r, 0, i - 1);
      StepSpendsApart(m, r.First().db, r.states[i - 1], r.events[i - 1], r.states[i]);
    }
  }

  lemma MoverSpends(m: Mechanisms, s: State, t: nat, to: Pc)
    requires m.guard && Inv(m, s) && t < |s.txs| && Acts(m, s, t, to) && to.Committed? && to.ruling.Issued?
    ensures to.ruling.approvalId !in Spent(s.db) && to.ruling.approvalId in Spent(Move(s, t, to).db)
  {
    assert TxOk(m, s.db, s.txs[t]);
  }

  lemma StepSpendsApart(m: Mechanisms, first: Tables, s: State, e: Event, s': State)
    requires m.guard && Inv(m, s) && Next(m, s, e, s') && SpendsApart(first, s) && Durable(first, s.db)
    ensures SpendsApart(first, s')
  {
    StepDurable(m, s, e, s');
    if e.Acting? && e.to.Committed? && e.to.ruling.Issued? {
      MoverSpends(m, s, e.t, e.to);
    }
  }

  /** Until some call has issued, every approval is as it was, whoever looks finds one, and nobody
      has been refused. */
  ghost predicate Promising(first: Tables, s: State, c: Call) {
    (forall t :: 0 <= t < |s.txs| ==> !CommittedIssue(s.txs[t])) ==>
      && s.db.approvals == first.approvals
      && forall t :: 0 <= t < |s.txs| ==> Hopeful(first, s.txs[t], c)
  }

  ghost predicate Hopeful(first: Tables, tx: Tx, c: Call) {
    match tx.pc
    case Found(_, id) => id in Open(first.approvals, c)
    case Won(_, id) => id in Open(first.approvals, c)
    case Deciding(_, r) => r.Issued?
    case Recorded(_, r) => r.Issued?
    case Committed(_, r) => r.Issued?
    case _ => true
  }

  lemma StepPromising(m: Mechanisms, first: Tables, s: State, e: Event, s': State, c: Call)
    requires Inv(m, s) && Next(m, s, e, s') && !e.Granting? && Promising(first, s, c)
    requires c.limit <= 0 && Open(first.approvals, c) != {}
    requires forall t :: 0 <= t < |s.txs| ==> Joins(first, c, s.txs[t].call)
    ensures Promising(first, s', c)
  {
    var t := e.t;
    if forall u :: 0 <= u < |s'.txs| ==> !CommittedIssue(s'.txs[u]) {
      forall u | 0 <= u < |s.txs| ensures !CommittedIssue(s.txs[u]) {
        assert !CommittedIssue(s'.txs[u]);
      }
      assert !CommittedIssue(s'.txs[t]);
      assert Hopeful(first, s.txs[t], c) && TxOk(m, s.db, s.txs[t]) && Joins(first, c, s.txs[t].call);
      if s.txs[t].pc.Looking? && e.Acting? {
        var id :| id in Open(first.approvals, c);
        assert Matches(s.db.approvals[id], s.txs[t].call) && Live(s.db.approvals[id], s.txs[t].call);
      }
      forall u | 0 <= u < |s'.txs| ensures Hopeful(first, s'.txs[u], c) {
        assert Hopeful(first, s.txs[u], c);
      }
    }
  }

  lemma {:induction false} RunPromising(m: Mechanisms, r: Run, c: Call, i: nat)
    requires r.Valid(m) && i < |r.states| && Rush(r.First(), c) && NoGrants(r.events)
    requires c.limit <= 0 && Open(r.First().db.approvals, c) != {}
    ensures Promising(r.First().db, r.states[i], c)
  {
    if i == 0 {
      forall t | 0 <= t < |r.states[0].txs| ensures Hopeful(r.First().db, r.states[0].txs[t], c) {
        assert Joins(r.First().db, c, r.First().txs[t].call);
        assert r.states[0].txs[t].pc == Entry(r.states[0].txs[t].call);
      }
    } else {
      RunPromising(m, r, c, i - 1);
      RunInv(m, r, i - 1);
      Steady(m, r, 0, i - 1);
      var s := r.states[i - 1];
      forall t | 0 <= t < |s.txs| ensures Joins(r.First().db, c, s.txs[t].call) {
        assert Joins(r.First().db, c, r.First().txs[t].call);
      }
      StepPromising(m, r.First().db, s, r.events[i - 1], r.states[i], c);
    }
  }

  lemma SomeoneServed(m: Mechanisms, r: Run, c: Call)
    requires r.Valid(m) && Rush(r.First(), c) && NoGrants(r.events) && AllCommitted(r.Last())
    requires c.limit <= 0 && |r.Last().txs| > 0 && Open(r.First().db.approvals, c) != {}
    ensures Ended(r.Last(), Served) != {}
  {
    var s := r.Last();
    RunPromising(m, r, c, |r.states| - 1);
    assert Hopeful(r.First().db, s.txs[0], c) ==> CommittedIssue(s.txs[0]);
    var t :| 0 <= t < |s.txs| && CommittedIssue(s.txs[t]);
    assert t in Ended(s, Served);
  }

  /** What a served call spent was open at the start. */
  lemma SpentFromOpen(m: Mechanisms, r: Run, c: Call, t: nat)
    requires m.guard && r.Valid(m) && Rush(r.First(), c) && NoGrants(r.events) && t in Ended(r.Last(), Served)
    ensures r.Last().txs[t].pc.ruling.approvalId in Open(r.First().db.approvals, c)
  {
    var s, first := r.Last(), r.First().db;
    RunSpendsApart(m, r, |r.states| - 1);
    RunInv(m, r, |r.states| - 1);
    SameRows(m, r, |r.states| - 1);
    assert Grows(first, s.db) by { RunDurable(m, r, 0, |r.states| - 1); }
    Steady(m, r, 0, |r.states| - 1);
    assert TxOk(m, s.db, s.txs[t]) && CommittedIssue(s.txs[t]);
    assert Joins(first, c, r.First().txs[t].call);
    var id := s.txs[t].pc.ruling.approvalId;
    assert first.approvals[id].(consumedAt := None) == s.db.approvals[id].(consumedAt := None);
  }

  lemma ServedFitOpen(m: Mechanisms, r: Run, c: Call)
    requires m.guard && r.Valid(m) && Rush(r.First(), c) && NoGrants(r.events)
    ensures |Ended(r.Last(), Served)| <= |Open(r.First().db.approvals, c)|
  {
    var s := r.Last();
    var spends := map t | t in Ended(s, Served) :: s.txs[t].pc.ruling.approvalId;
    RunSpendsApart(m, r, |r.states| - 1);
    forall t | t in spends ensures spends[t] in Open(r.First().db.approvals, c) && CommittedIssue(s.txs[t]) {
      SpentFromOpen(m, r, c, t);
    }
    assert spends.Keys == Ended(s, Served);
    InjectionBound(spends, Open(r.First().db.approvals, c));
  }

  lemma EndedFit(s: State, f: Fate)
    ensures |Ended(s, f)| <= |s.txs|
  {
    var own := map t | t in Ended(s, f) :: t as int;
    assert own.Keys == Ended(s, f);
    InjectionBound(own, Span(0, |s.txs|));
  }

  /** With no ceiling, k calls racing for n live approvals, none lost to a failure, write at least one
      effect and at most min(k, n). */
  lemma UnlimitedThroughput(m: Mechanisms, r: Run, c: Call)
    requires m.guard && r.Valid(m) && Rush(r.First(), c) && NoGrants(r.events) && AllCommitted(r.Last())
    requires c.limit <= 0 && |r.First().txs| > 0 && Open(r.First().db.approvals, c) != {}
    ensures 1 <= |Ended(r.Last(), Served)| <= Min(|r.First().txs|, |Open(r.First().db.approvals, c)|)
    ensures |r.Last().db.effects| - |r.First().db.effects| == |Ended(r.Last(), Served)|
  {
    RowsAdded(m, r, |r.states| - 1);
    assert CommittedIssues(r.Last()) == Ended(r.Last(), Served);
    Steady(m, r, 0, |r.states| - 1);
    SomeoneServed(m, r, c);
    EndedFit(r.Last(), Served);
    ServedFitOpen(m, r, c);
  }

  lemma {:induction false} SameRows(m: Mechanisms, r: Run, i: nat)
    requires r.Valid(m) && i < |r.states| && NoGrants(r.events)
    ensures r.states[i].db.approvals.Keys == r.First().db.approvals.Keys
  {
    if i > 0 {
      SameRows(m, r, i - 1);
      assert Next(m, r.states[i - 1], r.events[i - 1], r.states[i]);
    }
  }

  /** One at a time, the same calls write exactly min(k, n) effects, the first min(k, n) of them. */
  lemma UnlimitedSerial(db: Tables, c: Call, deeds: seq<Deed>)
    requires Queue(db, c, deeds) && c.limit <= 0
    ensures |After(db, deeds).effects| - |db.effects| == Min(|deeds|, |Open(db.approvals, c)|)
    ensures forall j :: 0 <= j < |deeds| ==> (deeds[j].ruling.Issued? <==> j < |Open(db.approvals, c)|)
  {
    QueueServes(db, c, deeds);
    forall j | 0 <= j < |deeds| ensures deeds[j].ruling.Issued? <==> j < |Open(db.approvals, c)| {
      assert Expected(j, c.limit, |Open(db.approvals, c)|, deeds[j].ruling);
    }
  }
}
