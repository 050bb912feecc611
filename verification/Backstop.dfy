/** The update's condition and the UNIQUE constraint: either one suffices, and one is needed. */
module Backstop {
  import opened Domain
  import opened RateLimit
  import opened Ledger
  import opened Machine
  import opened Books
  import opened Drive
  import opened Serialisability
  import opened Trail
  import opened Turns

  /** An unlimited call of the irreversible tool that the scope check lets through. */
  function Credit(n: string): Call {
    Call(
      Verdict(true, None, {"credit:issue"}, Some("agent-7"), Some("jti"), [], Some("credit:issue"), "hardened"),
      "credit:issue", "issue_credit", "ACC-1041", Some(500), 0, 0, "eff_" + n, "aud_" + n)
  }

  const ROW := Approval("agent-7", "issue_credit", "ACC-1041", 500, "rita@demo.invalid", 1, None)

  /** Two such calls, and approvals for them. */
  function Pair(approvals: map<string, Approval>): State {
    State(Tables(approvals, map[], map[], map[]), [Tx(Credit("0"), Looking(0)), Tx(Credit("1"), Looking(0))])
  }

  lemma PairInitial(approvals: map<string, Approval>)
    requires forall a :: a in approvals ==> approvals[a] == ROW
    ensures Initial(Pair(approvals))
    ensures Honest(Pair(approvals).db)
    ensures Run([Pair(approvals)], []).Valid(Mechanisms(false, false))
    ensures Run([Pair(approvals)], []).Valid(Mechanisms(true, true))
    ensures Run([Pair(approvals)], []).Valid(Mechanisms(false, true))
  {
    assert Credit("0").effectId[4] != Credit("1").effectId[4];
    assert Credit("0").auditId[4] != Credit("1").auditId[4];
  }

  /** Both calls look before either spends, and both are handed the same approval. */
  lemma BothFind(m: Mechanisms, approvals: map<string, Approval>, id: string) returns (r: Run)
    requires Run([Pair(approvals)], []).Valid(m)
    requires id in approvals && forall a :: a in approvals ==> approvals[a] == ROW
    ensures r.Valid(m) && r.First() == Pair(approvals) && r.Last().db == Pair(approvals).db
    ensures r.Last().txs == [Tx(Credit("0"), Found(0, id)), Tx(Credit("1"), Found(0, id))]
    ensures forall i :: 0 <= i < |r.events| ==> !r.events[i].Failing?
  {
    var start := Run([Pair(approvals)], []);
    var first := Act(m, start, 0, Found(0, id));
    r := Act(m, first, 1, Found(0, id));
    LeadsOn(m, start, first, first.Last(), r, r.Last());
    assert r.First() == start.states[0];
  }

  /** With neither mechanism, one approval ends with two effects. */
  lemma TwiceWithNeither() returns (r: Run)
    ensures r.Valid(Mechanisms(false, false)) && Honest(r.First().db)
    ensures !AtMostOne(r.Last().db)
  {
    var m := Mechanisms(false, false);
    var approvals := map["apr" := ROW];
    PairInitial(approvals);
    var both := BothFind(m, approvals, "apr");
    var one := Spending(m, both, 0);
    r := Spending(m, one, 1);
    assert r.First() == both.states[0];
    var effects := r.Last().db.effects;
    assert Credit("0").effectId[4] != Credit("1").effectId[4];
    assert Credit("0").effectId in effects && Credit("1").effectId in effects;
    assert effects[Credit("0").effectId].approvalId == effects[Credit("1").effectId].approvalId;
  }

  /** With the constraint alone it is the constraint that acts: both calls win the update, and the slower
      one is rolled back where it inserts, by no failure of its own. */
  lemma ConstraintFires() returns (r: Run)
    ensures r.Valid(Mechanisms(false, true)) && Honest(r.First().db)
    ensures forall i :: 0 <= i < |r.events| ==> !r.events[i].Failing?
    ensures r.Last().txs == [Tx(Credit("0"), Committed(0, Issued("apr"))), Tx(Credit("1"), Aborted)]
    ensures r.Last().db.effects.Keys == {Credit("0").effectId}
  {
    var m := Mechanisms(false, true);
    var approvals := map["apr" := ROW];
    PairInitial(approvals);
    var both := BothFind(m, approvals, "apr");
    var one := Spending(m, both, 0);
    assert one.Last().db.effects[Credit("0").effectId].approvalId == "apr";
    var won := Act(m, one, 1, Won(0, "apr"));
    r := Act(m, won, 1, Aborted);
    LeadsOn(m, one, won, won.Last(), r, r.Last());
    LeadsOn(m, both, one, one.Last(), r, r.Last());
    assert r.First() == both.states[0];
    forall i | 0 <= i < |r.events| ensures !r.events[i].Failing? {
      if i < |both.events| { assert r.events[i] == both.events[i]; }
    }
  }

  /** Every run keeps one effect per approval exactly when at least one mechanism is in place. */
  lemma OneEffectIff(m: Mechanisms)
    ensures m.guard || m.unique <==>
      forall r: Run :: r.Valid(m) && Honest(r.First().db) ==> AtMostOne(r.Last().db)
  {
    if m.guard || m.unique {
      forall r: Run | r.Valid(m) && Honest(r.First().db) ensures AtMostOne(r.Last().db) {
        RunSingle(m, r, |r.states| - 1);
      }
    } else {
      var r := TwiceWithNeither();
      assert m == Mechanisms(false, false);
    }
  }

  /** Two calls with one approval in hand: one issues and the other is refused. */
  lemma SecondLoses(m: Mechanisms, both: Run, id: string) returns (r: Run)
    requires m.guard && both.Valid(m) && id in both.Last().db.approvals && both.Last().db.effects == map[]
    requires both.Last().db.approvals[id].consumedAt.None?
    requires both.Last().txs == [Tx(Credit("0"), Found(0, id)), Tx(Credit("1"), Found(0, id))]
    ensures r.Valid(m) && Leads(m, both, r, r.Last()) && |r.Last().txs| == 2
    ensures r.Last().txs[0].pc == Committed(0, Issued(id)) && r.Last().txs[1] == Tx(Credit("1"), Committed(0, Lost(id)))
    ensures r.Last().db.effects.Keys == {Credit("0").effectId}
    ensures r.Last().db.approvals == Spend(both.Last().db.approvals, id, 0)
  {
    var one := Spending(m, both, 0);
    var lost := Act(m, one, 1, Deciding(0, Lost(id)));
    r := Close(m, lost, 1);
    LeadsOn(m, one, lost, lost.Last(), r, r.Last());
    LeadsOn(m, both, one, one.Last(), r, r.Last());
  }

  /** With no ceiling, two calls and two live approvals may end in a single effect: both are handed
      the same approval, and the slower one is refused although another is left. */
  lemma OneOfTwo() returns (r: Run)
    ensures r.Valid(Mechanisms(true, true)) && forall i :: 0 <= i < |r.events| ==> !r.events[i].Failing?
    ensures |r.First().db.approvals| == 2 && |r.Last().txs| == 2
    ensures forall a :: a in r.First().db.approvals ==> r.First().db.approvals[a] == ROW
    ensures r.Last().txs[0].pc == Committed(0, Issued("apr-a"))
    ensures r.Last().txs[1].pc == Committed(0, Lost("apr-a"))
    ensures r.Last().db.effects.Keys == {Credit("0").effectId}
    ensures "apr-b" in r.Last().db.approvals && r.Last().db.approvals["apr-b"] == ROW
    ensures ToldConsumed(r.Last().db, r.Last().txs[1].call)
  {
    var m := Mechanisms(true, true);
    assert "apr-a"[4] != "apr-b"[4];
    var approvals := map["apr-a" := ROW, "apr-b" := ROW];
    assert approvals.Keys == {"apr-a", "apr-b"};
    PairInitial(approvals);
    var both := BothFind(m, approvals, "apr-a");
    r := SecondLoses(m, both, "apr-a");
    assert r.First() == both.states[0];
    forall i | 0 <= i < |r.events| ensures !r.events[i].Failing? {
      if i < |both.events| { assert r.events[i] == both.events[i]; }
    }
    ToldIffLost(m, r, |r.states| - 1, 1);
  }

  /** Without a ceiling, two calls for the same act make a run, with nothing lost to a failure, whose
      outcomes no serial order of its calls gives. */
  lemma NotSerialisable() returns (r: Run)
    ensures r.Valid(Mechanisms(true, true)) && forall i :: 0 <= i < |r.events| ==> !r.events[i].Failing?
    ensures forall deeds :: Serial(r.First().db, deeds) ==> !CommittedOnce(r.Last(), deeds)
  {
    PairInitial(map[]);
    r := Collide(Mechanisms(true, true), Pair(map[]), 0, 1);
    forall deeds ensures Serial(r.First().db, deeds) ==> !CommittedOnce(r.Last(), deeds) {
      if Serial(r.First().db, deeds) { LostUnaccounted(r, 1, deeds); }
    }
  }

  // ---------------------------------------------------------------- two windows

  /** The same call under a ceiling, at a moment of its own. */
  function Capped(n: string, moment: Moment): Call {
    Credit(n).(limit := 1, moment := moment)
  }

  /** Two calls in adjacent windows. */
  function Apart(): State {
    State(EMPTY, [Tx(Capped("0", 0), Claiming), Tx(Capped("1", 60_000_000), Claiming)])
  }

  lemma ApartInitial()
    ensures Initial(Apart())
    ensures Capped("0", 0).Key() != Capped("1", 60_000_000).Key()
  {
    assert Credit("0").effectId[4] != Credit("1").effectId[4];
    assert Credit("0").auditId[4] != Credit("1").auditId[4];
  }

  /** With every call under a ceiling, two windows make such a run too. */
  lemma NotSerialisableAcrossWindows() returns (r: Run)
    ensures r.Valid(Mechanisms(true, true)) && forall i :: 0 <= i < |r.events| ==> !r.events[i].Failing?
    ensures forall t :: 0 <= t < |r.First().txs| ==> r.First().txs[t].call.limit > 0
    ensures forall deeds :: Serial(r.First().db, deeds) ==> !CommittedOnce(r.Last(), deeds)
  {
    ApartInitial();
    r := Collide(Mechanisms(true, true), Apart(), 0, 1);
    forall deeds ensures Serial(r.First().db, deeds) ==> !CommittedOnce(r.Last(), deeds) {
      if Serial(r.First().db, deeds) { LostUnaccounted(r, 1, deeds); }
    }
  }
}
