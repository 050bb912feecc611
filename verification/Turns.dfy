/** Exactly which calls are serialisable whatever happens: those whose rivals take turns. */
module Turns {
  import opened Domain
  import opened RateLimit
  import opened Ledger
  import opened Machine
  import opened Drive
  import opened Serialisability
  import opened Trail

  /** The run's grants in their order, and its committed calls one at a time, end as they did. */
  ghost predicate Explains(r: Run, deeds: seq<Deed>)
    requires |r.states| > 0
  {
    && Serial(r.First().db, deeds) && CommittedOnce(r.Last(), deeds) && After(r.First().db, deeds) == r.Last().db
    && GrantsIn(deeds) == GrantsOf(r.events)
  }

  ghost predicate Explained(r: Run)
    requires |r.states| > 0
  {
    exists deeds :: Explains(r, deeds)
  }

  /** Run one at a time, no call is told that its approval is already consumed. */
  lemma {:induction false} NoneLostSerially(db: Tables, deeds: seq<Deed>)
    requires Serial(db, deeds)
    ensures forall k :: 0 <= k < |deeds| && deeds[k].Called? ==> !deeds[k].ruling.Lost?
    decreases |deeds|
  {
    if deeds != [] {
      NoneLostSerially(db, deeds[..|deeds| - 1]);
      assert Allowed(After(db, deeds[..|deeds| - 1]), deeds[|deeds| - 1]);
      assert forall k :: 0 <= k < |deeds| - 1 ==> deeds[..|deeds| - 1][k] == deeds[k];
    }
  }

  /** So where a call was, no serial history has the run's outcomes. */
  lemma LostUnaccounted(r: Run, t: nat, deeds: seq<Deed>)
    requires |r.states| > 0 && Serial(r.First().db, deeds)
    requires t < |r.Last().txs| && r.Last().txs[t].pc.Committed? && r.Last().txs[t].pc.ruling.Lost?
    ensures !CommittedOnce(r.Last(), deeds)
  {
    NoneLostSerially(r.First().db, deeds);
    if Mentioned(deeds, t) {
      var k :| 0 <= k < |deeds| && deeds[k].Called? && deeds[k].tag == t;
      assert !deeds[k].ruling.Lost?;
    }
  }

  // ---------------------------------------------------------------- an approval for both

  lemma {:induction false} LongerThanAll(names: set<string>) returns (n: nat)
    ensures forall s :: s in names ==> |s| < n
    decreases |names|
  {
    n := 0;
    if s :| s in names {
      n := LongerThanAll(names - {s});
      n := if |s| < n then n else |s| + 1;
    }
  }

  lemma {:induction false} LaterThanAll(rows: map<string, Approval>, ids: set<string>) returns (x: Moment)
    requires ids <= rows.Keys
    ensures forall id :: id in ids ==> rows[id].expiresAt < x
    decreases |ids|
  {
    x := 0;
    if id :| id in ids {
      x := LaterThanAll(rows, ids - {id});
      x := if rows[id].expiresAt < x then x else rows[id].expiresAt + 1;
    }
  }

  /** A grant that both rivals will be handed. */
  ghost predicate Tempting(db: Tables, id: string, row: Approval, c: Call, d: Call) {
    && Grantable(db, id, row) && !Taken(db, id)
    && Best(Grant(db, id, row).approvals, c, id) && Best(Grant(db, id, row).approvals, d, id)
  }

  lemma SomethingTempting(db: Tables, c: Call, d: Call) returns (id: string, row: Approval)
    requires Rivals(db, c, d)
    ensures Tempting(db, id, row, c, d)
  {
    var named := set e | e in db.effects :: db.effects[e].approvalId;
    var n := LongerThanAll(db.approvals.Keys + named);
    id := seq(n, _ => 'a');
    var x := LaterThanAll(db.approvals, db.approvals.Keys);
    var later := if c.moment < d.moment then d.moment + 1 else c.moment + 1;
    row := Approval(c.Subject(), c.tool, c.account, c.Amount(), "rita", if x < later then later else x, None);
    assert forall e :: e in db.effects ==> db.effects[e].approvalId in named;
  }

  // ---------------------------------------------------------------- the race

  /** The quota position a call takes when it claims on these tables. */
  function Position(db: Tables, c: Call): nat {
    if c.Counted() then Count(db, c.Key()) + 1 else 0
  }

  /** From its first statement to the approval in hand. */
  lemma Arrive(m: Mechanisms, r: Run, t: nat, id: string) returns (longer: Run)
    requires r.Valid(m) && t < |r.Last().txs| && r.Last().txs[t].pc == Entry(r.Last().txs[t].call)
    requires var c := r.Last().txs[t].call;
      && GetsThrough(r.Last().db, c) && Best(r.Last().db.approvals, c, id)
      && (c.Counted() ==> BucketFree(r.Last(), t, c.Key()))
    ensures Leads(m, r, longer, Move(r.Last(), t, Found(Position(r.Last().db, r.Last().txs[t].call), id)))
  {
    var s, c := r.Last(), r.Last().txs[t].call;
    var used := Position(s.db, c);
    var claimed := r;
    if c.Counted() {
      claimed := Act(m, r, t, Looking(used));
    }
    assert claimed.Last().txs == s.txs[t := s.txs[t].(pc := Looking(used))] && claimed.Last().db == s.db;
    longer := Act(m, claimed, t, Found(used, id));
    LeadsOn(m, r, claimed, claimed.Last(), longer, longer.Last());
    assert longer.Last().txs == s.txs[t := s.txs[t].(pc := Found(used, id))];
  }

  /** All but `i` and `j` have not begun. */
  ghost predicate OnlyTwo(s: State, i: nat, j: nat) {
    forall k :: 0 <= k < |s.txs| && k != i && k != j ==> s.txs[k].pc == Entry(s.txs[k].call)
  }

  lemma Granted(m: Mechanisms, s0: State, i: nat, j: nat) returns (r: Run, id: string)
    requires Initial(s0) && i < |s0.txs| && j < |s0.txs| && i != j && Rivals(s0.db, s0.txs[i].call, s0.txs[j].call)
    ensures r.Valid(m) && r.First() == s0 && forall e :: 0 <= e < |r.events| ==> !r.events[e].Failing?
    ensures r.Last().txs == s0.txs && r.Last().db == s0.db.(approvals := r.Last().db.approvals)
    ensures Best(r.Last().db.approvals, s0.txs[i].call, id) && Best(r.Last().db.approvals, s0.txs[j].call, id)
    ensures !Taken(r.Last().db, id)
  {
    var row;
    id, row := SomethingTempting(s0.db, s0.txs[i].call, s0.txs[j].call);
    var start := Run([s0], []);
    var s := s0.(db := Grant(s0.db, id, row));
    ThenValid(m, start, Granting(id, row), s);
    r := start.Then(Granting(id, row), s);
  }

  /** Both come to hold the same approval, neither having waited for the other. */
  lemma BothHanded(m: Mechanisms, r: Run, i: nat, j: nat, id: string) returns (longer: Run)
    requires r.Valid(m) && i < |r.Last().txs| && j < |r.Last().txs| && i != j && OnlyTwo(r.Last(), i, j)
    requires r.Last().txs[i].pc == Entry(r.Last().txs[i].call) && r.Last().txs[j].pc == Entry(r.Last().txs[j].call)
    requires var c, d := r.Last().txs[i].call, r.Last().txs[j].call;
      && Rivals(r.Last().db, c, d) && !SameRow(c, d)
      && Best(r.Last().db.approvals, c, id) && Best(r.Last().db.approvals, d, id)
    ensures longer.Valid(m) && Leads(m, r, longer, longer.Last()) && longer.Last().db == r.Last().db
    ensures |longer.Last().txs| == |r.Last().txs| && OnlyTwo(longer.Last(), i, j)
    ensures forall t :: t in {i, j} ==> longer.Last().txs[t].pc.Found? && longer.Last().txs[t].pc.id == id
  {
    var s := r.Last();
    forall k | 0 <= k < |s.txs| ensures s.txs[k].HeldBucket().None? { Idle(s.txs[k]); }
    var one := Arrive(m, r, i, id);
    forall k | 0 <= k < |s.txs| && k != j && s.txs[j].call.Counted()
      ensures one.Last().txs[k].HeldBucket() != Some(s.txs[j].call.Key())
    {
      assert k != i ==> one.Last().txs[k] == s.txs[k];
    }
    longer := Arrive(m, one, j, id);
    LeadsOn(m, r, one, one.Last(), longer, longer.Last());
  }

  /** One spends it, and the other is told that it is consumed. */
  lemma OneLoses(m: Mechanisms, r: Run, i: nat, j: nat, id: string) returns (longer: Run)
    requires m.guard && r.Valid(m) && i < |r.Last().txs| && j < |r.Last().txs| && i != j && OnlyTwo(r.Last(), i, j)
    requires forall t :: t in {i, j} ==> r.Last().txs[t].pc.Found? && r.Last().txs[t].pc.id == id
    requires id in r.Last().db.approvals && r.Last().db.approvals[id].consumedAt.None? && !Taken(r.Last().db, id)
    ensures longer.Valid(m) && Leads(m, r, longer, longer.Last()) && |longer.Last().txs| == |r.Last().txs|
    ensures longer.Last().txs[j].pc.Committed? && longer.Last().txs[j].pc.ruling.Lost?
  {
    var s := r.Last();
    forall k | 0 <= k < |s.txs| && k != i && k != j
      ensures s.txs[k].HeldApproval().None? && s.txs[k].Inserted().None?
    {
      Idle(s.txs[k]);
    }
    var spent := Spending(m, r, i);
    var lost := Act(m, spent, j, Deciding(s.txs[j].pc.used, Lost(id)));
    LeadsOn(m, r, spent, spent.Last(), lost, lost.Last());
    longer := Close(m, lost, j);
    LeadsOn(m, r, lost, lost.Last(), longer, longer.Last());
  }

  /** From any start, two rivals that do not share a counter row can collide: with one grant and no
      failure, a call commits that was told its approval is already consumed. */
  lemma Collide(m: Mechanisms, s0: State, i: nat, j: nat) returns (r: Run)
    requires m.guard && Initial(s0) && i < |s0.txs| && j < |s0.txs| && i != j
    requires Rivals(s0.db, s0.txs[i].call, s0.txs[j].call) && !SameRow(s0.txs[i].call, s0.txs[j].call)
    ensures r.Valid(m) && r.First() == s0 && forall e :: 0 <= e < |r.events| ==> !r.events[e].Failing?
    ensures j < |r.Last().txs| && r.Last().txs[j].pc.Committed? && r.Last().txs[j].pc.ruling.Lost?
    ensures ToldConsumed(r.Last().db, r.Last().txs[j].call)
  {
    var granted, id := Granted(m, s0, i, j);
    var both := BothHanded(m, granted, i, j, id);
    r := OneLoses(m, both, i, j, id);
    LeadsOn(m, granted, both, both.Last(), r, r.Last());
    forall e | 0 <= e < |r.events| ensures !r.events[e].Failing? {
      if e < |granted.events| { assert r.events[e] == granted.events[e]; }
    }
    assert r.First() == granted.states[0];
    ToldIffLost(m, r, |r.states| - 1, j);
  }

  /** Where rivals take turns no audit row, in any state of any run, tells a call that its approval is
      already consumed. */
  lemma NeverToldConsumed(m: Mechanisms, r: Run, i: nat, t: nat)
    requires r.Valid(m) && TakeTurns(r.First().db, r.First().txs) && i < |r.states| && t < |r.states[i].txs|
    requires r.states[i].txs[t].pc.Committed?
    ensures !ToldConsumed(r.states[i].db, r.states[i].txs[t].call)
  {
    NeverAlreadyConsumed(m, r, i, t);
    ToldIffLost(m, r, i, t);
  }

  // ---------------------------------------------------------------- exactly when

  /** Two rivals, by index, that do not share a counter row. */
  lemma SomeRivals(s0: State) returns (i: nat, j: nat)
    requires !TakeTurns(s0.db, s0.txs)
    ensures i < |s0.txs| && j < |s0.txs| && i != j
    ensures Rivals(s0.db, s0.txs[i].call, s0.txs[j].call) && !SameRow(s0.txs[i].call, s0.txs[j].call)
  {
    i, j :| i < |s0.txs| && j < |s0.txs| && i != j && Rivals(s0.db, s0.txs[i].call, s0.txs[j].call)
      && !SameRow(s0.txs[i].call, s0.txs[j].call);
  }

  /** From a given start, every run is explained by a serial history exactly when any two calls that
      can both come to look for an approval of the same act claim their quota in one counter row. */
  lemma SerialisableIff(m: Mechanisms, s0: State)
    requires m.guard && Initial(s0)
    ensures (forall r: Run | r.Valid(m) && r.First() == s0 :: Explained(r)) <==> TakeTurns(s0.db, s0.txs)
  {
    if TakeTurns(s0.db, s0.txs) {
      forall r: Run | r.Valid(m) && r.First() == s0 ensures Explained(r) {
        Serialisable(m, r);
        assert Explains(r, History(r));
      }
    } else {
      var i, j := SomeRivals(s0);
      var r := Collide(m, s0, i, j);
      forall deeds ensures !Explains(r, deeds) {
        if Serial(r.First().db, deeds) { LostUnaccounted(r, j, deeds); }
      }
      assert !Explained(r);
    }
  }

  /** The audit trail tells some committed call of the run that its approval is already consumed. */
  ghost predicate Loses(r: Run)
    requires |r.states| > 0
  {
    exists t :: 0 <= t < |r.Last().txs| && r.Last().txs[t].pc.Committed? && ToldConsumed(r.Last().db, r.Last().txs[t].call)
  }

  /** From a given start, `approval_already_consumed` occurs in some run exactly when it does not hold
      that rivals take turns. */
  lemma AlreadyConsumedIff(m: Mechanisms, s0: State)
    requires m.guard && Initial(s0)
    ensures (exists r: Run :: r.Valid(m) && r.First() == s0 && Loses(r)) <==> !TakeTurns(s0.db, s0.txs)
  {
    if TakeTurns(s0.db, s0.txs) {
      forall r: Run | r.Valid(m) && r.First() == s0 ensures !Loses(r) {
        forall t | 0 <= t < |r.Last().txs| && r.Last().txs[t].pc.Committed?
          ensures !ToldConsumed(r.Last().db, r.Last().txs[t].call)
        {
          NeverToldConsumed(m, r, |r.states| - 1, t);
        }
      }
    } else {
      var i, j := SomeRivals(s0);
      var r := Collide(m, s0, i, j);
      assert Loses(r);
    }
  }
}
