/** Without a ceiling both ends of the throughput are attained: every call is handed the same approval,
    or each waits for the one before. */
module Pileup {
  import opened Domain
  import opened RateLimit
  import opened Ledger
  import opened Machine
  import opened Books
  import opened Drive
  import opened Progress
  import opened Serialisability
  import opened Reachability
  import opened Throughput
  import opened Trail
  import opened Turns

  /** The open approval that expires last, for every one of the calls. */
  lemma OneForAll(s0: State, c: Call) returns (id: string)
    requires Rush(s0, c) && Open(s0.db.approvals, c) != {}
    ensures forall t :: 0 <= t < |s0.txs| ==> Best(s0.db.approvals, s0.txs[t].call, id)
    ensures |s0.txs| > 0 ==> id in Open(s0.db.approvals, c)
  {
    var rows := s0.db.approvals;
    LatestExists(rows, Open(rows, c));
    id :| id in Open(rows, c) && forall b :: b in Open(rows, c) ==> rows[b].expiresAt <= rows[id].expiresAt;
    forall t | 0 <= t < |s0.txs| ensures Best(rows, s0.txs[t].call, id) {
      assert Joins(s0.db, c, s0.txs[t].call);
      assert forall o :: o in rows && Matches(rows[o], s0.txs[t].call) ==> o in Open(rows, c);
    }
  }

  /** The first `n` calls have the approval in hand; the rest have not begun. */
  ghost predicate Handed(s0: State, s: State, id: string, n: nat) {
    && s.db == s0.db && |s.txs| == |s0.txs| && n <= |s.txs|
    && (forall t :: 0 <= t < n ==> s.txs[t] == Tx(s0.txs[t].call, Found(0, id)))
    && (forall t :: n <= t < |s.txs| ==> s.txs[t] == s0.txs[t])
  }

  lemma HandNext(m: Mechanisms, s0: State, c: Call, r: Run, id: string, n: nat) returns (longer: Run)
    requires Initial(s0) && Rush(s0, c) && c.limit <= 0 && n < |s0.txs| && Best(s0.db.approvals, s0.txs[n].call, id)
    requires r.Valid(m) && Handed(s0, r.Last(), id, n)
    ensures longer.Valid(m) && Leads(m, r, longer, longer.Last()) && Handed(s0, longer.Last(), id, n + 1)
  {
    assert Joins(s0.db, c, s0.txs[n].call);
    longer := Arrive(m, r, n, id);
  }

  lemma AllHanded(m: Mechanisms, s0: State, c: Call, id: string) returns (r: Run)
    requires Initial(s0) && Rush(s0, c) && c.limit <= 0
    requires forall t :: 0 <= t < |s0.txs| ==> Best(s0.db.approvals, s0.txs[t].call, id)
    ensures r.Valid(m) && Leads(m, Run([s0], []), r, r.Last()) && Handed(s0, r.Last(), id, |s0.txs|)
  {
    var start := Run([s0], []);
    r := start;
    for n := 0 to |s0.txs|
      invariant r.Valid(m) && Leads(m, start, r, r.Last()) && Handed(s0, r.Last(), id, n)
    {
      var longer := HandNext(m, s0, c, r, id, n);
      LeadsOn(m, start, r, r.Last(), longer, longer.Last());
      r := longer;
    }
  }

  /** The first call has issued, the next ones up to `n` have lost, and the rest still hold on. */
  ghost predicate TurnedAway(s0: State, s: State, id: string, n: nat) {
    && |s.txs| == |s0.txs| && 1 <= n <= |s.txs|
    && s.txs[0] == Tx(s0.txs[0].call, Committed(0, Issued(id)))
    && (forall t :: 1 <= t < n ==> s.txs[t] == Tx(s0.txs[t].call, Committed(0, Lost(id))))
    && (forall t :: n <= t < |s.txs| ==> s.txs[t] == Tx(s0.txs[t].call, Found(0, id)))
    && id in s.db.approvals && s.db.approvals[id].consumedAt.Some?
  }

  lemma RefuseNext(m: Mechanisms, s0: State, r: Run, id: string, n: nat) returns (longer: Run)
    requires m.guard && r.Valid(m) && TurnedAway(s0, r.Last(), id, n) && n < |s0.txs|
    ensures longer.Valid(m) && Leads(m, r, longer, longer.Last()) && TurnedAway(s0, longer.Last(), id, n + 1)
  {
    var lost := Act(m, r, n, Deciding(0, Lost(id)));
    longer := Close(m, lost, n);
    LeadsOn(m, r, lost, lost.Last(), longer, longer.Last());
  }

  lemma FirstServed(m: Mechanisms, s0: State, r: Run, id: string) returns (longer: Run)
    requires m.guard && r.Valid(m) && Handed(s0, r.Last(), id, |s0.txs|) && |s0.txs| > 0
    requires id in s0.db.approvals && s0.db.approvals[id].consumedAt.None? && !Taken(s0.db, id)
    ensures longer.Valid(m) && Leads(m, r, longer, longer.Last()) && TurnedAway(s0, longer.Last(), id, 1)
  {
    longer := Spending(m, r, 0);
  }

  lemma AllRefused(m: Mechanisms, s0: State, r: Run, id: string) returns (longer: Run)
    requires m.guard && r.Valid(m) && TurnedAway(s0, r.Last(), id, 1)
    ensures longer.Valid(m) && Leads(m, r, longer, longer.Last()) && TurnedAway(s0, longer.Last(), id, |s0.txs|)
  {
    longer := r;
    for n := 1 to |s0.txs|
      invariant longer.Valid(m) && Leads(m, r, longer, longer.Last()) && TurnedAway(s0, longer.Last(), id, n)
    {
      var next := RefuseNext(m, s0, longer, id, n);
      LeadsOn(m, r, longer, longer.Last(), next, next.Last());
      longer := next;
    }
  }

  /** However many calls race for however many live approvals, without a ceiling there is a run, with
      no grant and no failure, in which every call commits and exactly one writes an effect. */
  lemma OneServed(m: Mechanisms, s0: State, c: Call) returns (r: Run)
    requires m.guard && Initial(s0) && Honest(s0.db) && Rush(s0, c) && c.limit <= 0
    requires |s0.txs| > 0 && Open(s0.db.approvals, c) != {}
    ensures r.Valid(m) && r.First() == s0 && AllCommitted(r.Last())
    ensures forall i :: 0 <= i < |r.events| ==> r.events[i].Acting?
    ensures Ended(r.Last(), Served) == {0} && |r.Last().db.effects| == |s0.db.effects| + 1
  {
    var id := OneForAll(s0, c);
    var handed := AllHanded(m, s0, c, id);
    var served := FirstServed(m, s0, handed, id);
    r := AllRefused(m, s0, served, id);
    var start := Run([s0], []);
    LeadsOn(m, start, handed, handed.Last(), served, served.Last());
    LeadsOn(m, start, served, served.Last(), r, r.Last());
    assert r.First() == start.states[0];
    Tallied(m, s0, r, id);
  }

  lemma Tallied(m: Mechanisms, s0: State, r: Run, id: string)
    requires r.Valid(m) && r.First() == s0 && TurnedAway(s0, r.Last(), id, |s0.txs|)
    ensures AllCommitted(r.Last()) && Ended(r.Last(), Served) == {0} && |r.Last().db.effects| == |s0.db.effects| + 1
  {
    RowsAdded(m, r, |r.states| - 1);
    assert CommittedIssues(r.Last()) == {0};
  }

  // ---------------------------------------------------------------- one after the other

  /** The first `n` calls, one at a time, are a queue, whatever the lookup answers each. */
  lemma {:induction false} QueueOf(s0: State, c: Call, n: nat) returns (deeds: seq<Deed>)
    requires Initial(s0) && Rush(s0, c) && c.limit <= 0 && n <= |s0.txs|
    ensures |deeds| == n && Queue(s0.db, c, deeds) && Tagged(s0.txs, deeds)
    ensures forall k :: 0 <= k < n ==> deeds[k].Called? && deeds[k].tag == k
  {
    if n == 0 {
      deeds := [];
    } else {
      var rest := QueueOf(s0, c, n - 1);
      var t, call := n - 1, s0.txs[n - 1].call;
      var db := After(s0.db, rest);
      assert Joins(s0.db, c, call);
      LookupAnswers(db.approvals, call);
      var ruling :| Lookup(db.approvals, call, ruling);
      var d := Called(t, call, 0, ruling);
      assert Rules(db, call, 0, ruling);
      SerialSnoc(s0.db, rest, d);
      deeds := rest + [d];
      QueueGrows(s0, c, rest, d);
    }
  }

  lemma QueueGrows(s0: State, c: Call, rest: seq<Deed>, d: Deed)
    requires Initial(s0) && Rush(s0, c) && |rest| < |s0.txs| && Queue(s0.db, c, rest) && Tagged(s0.txs, rest)
    requires forall k :: 0 <= k < |rest| ==> rest[k].Called? && rest[k].tag == k
    requires d.Called? && d.tag == |rest| && d.call == s0.txs[|rest|].call && Serial(s0.db, rest + [d])
    ensures Queue(s0.db, c, rest + [d]) && Tagged(s0.txs, rest + [d])
  {
    assert Joins(s0.db, c, d.call);
    var deeds := rest + [d];
    forall k | 0 <= k < |deeds| ensures Queued(s0.db, c, deeds[k]) {
      assert k < |rest| ==> Queued(s0.db, c, rest[k]) && deeds[k] == rest[k];
    }
    InOrder(s0.txs, deeds);
  }

  /** Calls tagged by their index are tagged once each, and their effects are named apart. */
  lemma InOrder(txs: seq<Tx>, deeds: seq<Deed>)
    requires DistinctIds(txs) && |deeds| <= |txs|
    requires forall k :: 0 <= k < |deeds| ==> deeds[k].Called? && deeds[k].tag == k && deeds[k].call == txs[k].call
    ensures Tagged(txs, deeds)
    ensures forall j, k :: 0 <= j < k < |deeds| ==> deeds[j].call.effectId != deeds[k].call.effectId
  {
  }

  /** And there is a run, again with every call committed, that writes exactly min(k, n) effects. */
  lemma MostServed(m: Mechanisms, s0: State, c: Call) returns (r: Run)
    requires m.guard && Initial(s0) && Honest(s0.db) && Rush(s0, c) && c.limit <= 0
    ensures r.Valid(m) && r.First() == s0 && AllCommitted(r.Last())
    ensures forall i :: 0 <= i < |r.events| ==> !r.events[i].Failing?
    ensures |r.Last().db.effects| - |s0.db.effects| == Min(|s0.txs|, |Open(s0.db.approvals, c)|)
  {
    var deeds := QueueOf(s0, c, |s0.txs|);
    r := SerialIsReachable(m, s0, deeds);
    UnlimitedSerial(s0.db, c, deeds);
    forall t | 0 <= t < |r.Last().txs| ensures r.Last().txs[t].pc.Committed? {
      assert deeds[t].tag == t;
    }
  }
}
