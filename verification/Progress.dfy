/** Nothing waits for ever: no reachable state is deadlocked, and every run is short. */
module Progress {
  import opened Domain
  import opened Ledger
  import opened Machine
  import opened Invariant
  import opened Drive

  // ---------------------------------------------------------------- the lookup always answers

  /** Among finitely many rows one expires last. */
  lemma {:induction false} LatestExists(rows: map<string, Approval>, ids: set<string>)
    requires ids <= rows.Keys && ids != {}
    ensures exists a :: a in ids && forall b :: b in ids ==> rows[b].expiresAt <= rows[a].expiresAt
    decreases |ids|
  {
    var x :| x in ids;
    var rest := ids - {x};
    if rest == {} {
      assert ids == rest + {x};
    } else {
      LatestExists(rows, rest);
      var y :| y in rest && forall b :: b in rest ==> rows[b].expiresAt <= rows[y].expiresAt;
      var z := if rows[y].expiresAt <= rows[x].expiresAt then x else y;
      assert forall b :: b in ids ==> rows[b].expiresAt <= rows[z].expiresAt;
    }
  }

  lemma LookupAnswers(rows: map<string, Approval>, c: Call)
    ensures exists r :: Lookup(rows, c, r)
  {
    var matching := set id | id in rows && Matches(rows[id], c);
    if matching == {} {
      assert forall o :: o in rows && Matches(rows[o], c) ==> o in matching;
      assert Lookup(rows, c, Refused(Some(ApprovalRequired)));
    } else {
      LatestExists(rows, matching);
      var id :| id in matching && forall b :: b in matching ==> rows[b].expiresAt <= rows[id].expiresAt;
      if Live(rows[id], c) {
        assert Lookup(rows, c, Issued(id));
      } else {
        forall o | o in rows && Matches(rows[o], c) ensures !Live(rows[o], c) {
          assert o in matching;
        }
        assert Lookup(rows, c, Refused(Some(ApprovalExpired)));
      }
    }
  }

  // ---------------------------------------------------------------- deadlock freedom

  ghost predicate CanAct(m: Mechanisms, s: State) {
    exists t: nat, to :: t < |s.txs| && Acts(m, s, t, to)
  }

  /** The unique index is never waited for: the approval's row lock has already kept everyone else out. */
  lemma InsertNeverWaits(m: Mechanisms, s: State, t: nat)
    requires Inv(m, s) && t < |s.txs| && s.txs[t].pc.Won?
    ensures InsertFree(s, t, s.txs[t].pc.id)
  {
    forall i | 0 <= i < |s.txs| && i != t ensures s.txs[i].Inserted() != Some(s.txs[t].pc.id) {
      assert s.txs[i].Inserted().Some? ==> s.txs[i].HeldApproval() == s.txs[i].Inserted();
    }
  }

  /** A transaction that holds an approval row waits for nobody. */
  lemma HolderActs(m: Mechanisms, s: State, t: nat)
    requires Inv(m, s) && t < |s.txs|
    requires s.txs[t].pc.Won? || s.txs[t].pc.Deciding? || s.txs[t].pc.Recorded? || s.txs[t].pc.Raising?
    ensures CanAct(m, s)
  {
    match s.txs[t].pc
    case Won(used, id) =>
      InsertNeverWaits(m, s, t);
      assert Acts(m, s, t, if m.unique && Taken(s.db, id) then Aborted else Deciding(used, Issued(id)));
    case Deciding(used, r) => assert Acts(m, s, t, Recorded(used, r));
    case Recorded(used, r) => assert Acts(m, s, t, Committed(used, r));
    case Raising(_) => assert Acts(m, s, t, Aborted);
  }

  /** A transaction past its quota claim can only wait for one that waits for nobody. */
  lemma PastClaimActs(m: Mechanisms, s: State, t: nat)
    requires Inv(m, s) && t < |s.txs| && !s.txs[t].Finished() && !s.txs[t].pc.Claiming?
    ensures CanAct(m, s)
  {
    match s.txs[t].pc
    case Looking(used) =>
      LookupAnswers(s.db.approvals, s.txs[t].call);
      var r :| Lookup(s.db.approvals, s.txs[t].call, r);
      assert Acts(m, s, t, if r.Issued? then Found(used, r.approvalId) else Deciding(used, r));
    case Found(used, id) =>
      if ApprovalFree(s, t, id) {
        assert Acts(m, s, t, if Spendable(m, s.db, id) then Won(used, id) else Deciding(used, Lost(id)));
      } else {
        var i :| 0 <= i < |s.txs| && i != t && s.txs[i].HeldApproval() == Some(id);
        HolderActs(m, s, i);
      }
    case _ => HolderActs(m, s, t);
  }

  /** Deadlock freedom: while some transaction is unfinished, some transaction can run its next
      statement, without counting on any failure. */
  lemma NoDeadlock(m: Mechanisms, s: State, t: nat)
    requires Inv(m, s) && t < |s.txs| && !s.txs[t].Finished()
    ensures CanAct(m, s)
  {
    if s.txs[t].pc.Claiming? {
      var b := s.txs[t].call.Key();
      if BucketFree(s, t, b) {
        assert Acts(m, s, t, AfterClaim(s.txs[t].call, Count(s.db, b) + 1));
      } else {
        var i :| 0 <= i < |s.txs| && i != t && s.txs[i].HeldBucket() == Some(b);
        PastClaimActs(m, s, i);
      }
    } else {
      PastClaimActs(m, s, t);
    }
  }

  // ---------------------------------------------------------------- termination

  /** The most statements a transaction can still run. */
  function Rank(pc: Pc): nat {
    match pc
    case Claiming => 6
    case Looking(_) => 5
    case Found(_, _) => 4
    case Won(_, _) => 3
    case Deciding(_, _) => 2
    case Recorded(_, _) => 1
    case Raising(_) => 1
    case _ => 0
  }

  function Measure(txs: seq<Tx>): nat {
    if txs == [] then 0 else Measure(txs[..|txs| - 1]) + Rank(txs[|txs| - 1].pc)
  }

  lemma {:induction false} MeasureMoves(txs: seq<Tx>, t: nat, tx: Tx)
    requires t < |txs|
    ensures Measure(txs[t := tx]) == Measure(txs) - Rank(txs[t].pc) + Rank(tx.pc)
  {
    var n := |txs| - 1;
    if t < n {
      assert txs[t := tx][..n] == txs[..n][t := tx];
      MeasureMoves(txs[..n], t, tx);
    } else {
      assert txs[t := tx][..n] == txs[..n];
    }
  }

  /** Every statement and every failure brings the end closer; a grant does not push it away. */
  lemma StepMeasure(m: Mechanisms, s: State, e: Event, s': State)
    requires Next(m, s, e, s')
    ensures if e.Granting? then Measure(s'.txs) == Measure(s.txs) else Measure(s'.txs) < Measure(s.txs)
  {
    match e
    case Granting(_, _) =>
    case Acting(t, to) => MeasureMoves(s.txs, t, s'.txs[t]);
    case Failing(t) => MeasureMoves(s.txs, t, s'.txs[t]);
  }

  /** The events that are not grants. */
  function Work(events: seq<Event>): nat {
    if events == [] then 0
    else Work(events[..|events| - 1]) + if events[|events| - 1].Granting? then 0 else 1
  }

  /** A run makes at most as many steps, grants aside, as its calls had statements to run. */
  lemma {:induction false} RunsAreShort(m: Mechanisms, r: Run)
    requires r.Valid(m)
    ensures Work(r.events) + Measure(r.Last().txs) <= Measure(r.First().txs)
    decreases |r.events|
  {
    if |r.events| > 0 {
      BeforeValid(m, r);
      RunsAreShort(m, r.Before());
      StepMeasure(m, r.Before().Last(), r.events[|r.events| - 1], r.Last());
    }
  }

  lemma {:induction false} MeasureBound(txs: seq<Tx>)
    ensures Measure(txs) <= 6 * |txs|
  {
    if txs != [] { MeasureBound(txs[..|txs| - 1]); }
  }

  /** From wherever a run stands, it can go on to finish every call with no further failure. */
  lemma {:induction false} CanFinish(m: Mechanisms, r: Run) returns (done: Run)
    requires r.Valid(m)
    ensures done.Valid(m) && Continues(r, done)
    ensures forall i :: |r.events| <= i < |done.events| ==> done.events[i].Acting?
    ensures forall t :: 0 <= t < |done.Last().txs| ==> done.Last().txs[t].Finished()
    decreases Measure(r.Last().txs)
  {
    var s := r.Last();
    if t: nat :| t < |s.txs| && !s.txs[t].Finished() {
      RunInv(m, r, |r.events|);
      NoDeadlock(m, s, t);
      var i: nat, to :| i < |s.txs| && Acts(m, s, i, to);
      StepMeasure(m, s, Acting(i, to), Move(s, i, to));
      ThenValid(m, r, Acting(i, to), Move(s, i, to));
      var next := r.Then(Acting(i, to), Move(s, i, to));
      done := CanFinish(m, next);
      assert next.events[|r.events|].Acting? && done.events[|r.events|] == next.events[|r.events|];
    } else {
      done := r;
    }
  }
}
