/** Why the comparison of the two policies is made without a ceiling. */
module Ceiling {
  import opened Domain
  import opened RateLimit
  import opened Ledger
  import opened Effects
  import opened Books
  import opened Policies

  function AgentClaims(audience: string): Presented {
    Verified(Claims("https://authority", "agent-7", [audience], 300, 0, "jti", {"credit:issue"}, []))
  }

  /** A request for a credit that nobody approved, with a token for another server. */
  const STRAY := Request(AgentClaims("elsewhere"), "issue_credit", "ACC-2", Some(1), 0, "here", "eff_1", "aud_1")

  /** A proper request for the approved credit. */
  const PROPER := Request(AgentClaims("here"), "issue_credit", "ACC-1", Some(500), 0, "here", "eff_2", "aud_2")

  const CREDIT := Approval("agent-7", "issue_credit", "ACC-1", 500, "rita", 1, None)

  const SHARED := Bucket("agent-7", "issue_credit", 0)

  /** The credit is approved, and the window has one unit left. */
  function OneUnitLeft(limit: int): Tables
    requires limit > 0
  {
    Tables(map["apr" := CREDIT], map[], map[], map[SHARED := limit - 1])
  }

  lemma Distinct()
    ensures PROPER.effectId != STRAY.effectId && PROPER.auditId != STRAY.auditId && STRAY.account != PROPER.account
    ensures "elsewhere" != "here"
  {
    assert "eff_1"[4] != "eff_2"[4] && "aud_1"[4] != "aud_2"[4] && "ACC-1"[4] != "ACC-2"[4];
  }

  /** A call within its ceiling that matches no approval still uses up a unit. */
  lemma UsesUnit(db: Tables, c: Call) returns (db': Tables)
    requires c.Counted() && c.Irreversible() && !c.Raises() && Count(db, c.Key()) < c.limit
    requires forall id :: id in db.approvals ==> !Matches(db.approvals[id], c)
    ensures exists o :: Ends(db, c, o, db')
    ensures db'.effects == db.effects && Count(db', c.Key()) == Count(db, c.Key()) + 1
    ensures db'.audit.Keys == db.audit.Keys + {c.auditId}
  {
    var used, r := Count(db, c.Key()) + 1, Refused(Some(ApprovalRequired));
    db' := Publish(db, c, used, r);
    assert Ends(db, c, Completed(used, r), db');
  }

  lemma NaiveCalls(limit: int)
    requires limit > 0
    ensures var s, p := CallOf(NAIVE, STRAY, limit), CallOf(NAIVE, PROPER, limit);
      && s.Counted() && s.Irreversible() && !s.Raises() && s.auditId == STRAY.auditId && s.account == STRAY.account
      && s.Key() == SHARED && p.Counted() && p.Key() == SHARED
  {
  }

  lemma NaiveAdmitsStray(limit: int) returns (db: Tables)
    requires limit > 0
    ensures Plays(NAIVE, limit, OneUnitLeft(limit), Ask(STRAY), db)
    ensures db.effects == map[] && PROPER.auditId !in db.audit && Count(db, SHARED) == limit
  {
    Distinct();
    NaiveCalls(limit);
    db := UsesUnit(OneUnitLeft(limit), CallOf(NAIVE, STRAY, limit));
  }

  lemma NaiveLimitsProper(limit: int, db: Tables) returns (end: Tables)
    requires limit > 0 && db.effects == map[] && PROPER.auditId !in db.audit && Count(db, SHARED) == limit
    ensures Plays(NAIVE, limit, db, Ask(PROPER), end) && |end.effects| == 0
  {
    NaiveCalls(limit);
    var p, r := CallOf(NAIVE, PROPER, limit), Refused(Some(RateLimited));
    assert Rules(db, p, limit + 1, r);
    end := Publish(db, p, limit + 1, r);
    assert Ends(db, p, Completed(limit + 1, r), end);
  }

  /** The hardened server turns it away. */
  lemma HardenedRefusesStray(limit: int) returns (db: Tables)
    requires limit > 0
    ensures Plays(HARDENED, limit, OneUnitLeft(limit), Ask(STRAY), db)
    ensures db == OneUnitLeft(limit).(audit := db.audit) && db.audit.Keys == {STRAY.auditId}
  {
    Distinct();
    var s := CallOf(HARDENED, STRAY, limit);
    var r := Refused(s.verdict.reason);
    assert Rules(OneUnitLeft(limit), s, 0, r);
    db := Publish(OneUnitLeft(limit), s, 0, r);
    assert Ends(OneUnitLeft(limit), s, Completed(0, r), db);
  }

  /** So it has the unit left for the proper request. */
  lemma HardenedServesProper(limit: int, db: Tables) returns (end: Tables)
    requires limit > 0 && db == OneUnitLeft(limit).(audit := db.audit) && db.audit.Keys == {STRAY.auditId}
    ensures Plays(HARDENED, limit, db, Ask(PROPER), end) && |end.effects| == 1
  {
    Distinct();
    var p := CallOf(HARDENED, PROPER, limit);
    assert p.verdict.allowed && p.Key() == SHARED;
    assert Best(db.approvals, p, "apr");
    assert Rules(db, p, limit, Issued("apr"));
    end := Publish(db, p, limit, Issued("apr"));
    assert Ends(db, p, Completed(limit, Issued("apr")), end);
  }

  lemma TwoSteps(policy: Policy, limit: int, a: Op, b: Op, db: Tables, mid: Tables, end: Tables)
    requires Plays(policy, limit, db, a, mid) && Plays(policy, limit, mid, b, end)
    ensures Trace(policy, limit, [a, b], [db, mid, end])
  {
    var ops, dbs := [a, b], [db, mid, end];
    assert StepAt(policy, limit, ops, dbs, 0) && StepAt(policy, limit, ops, dbs, 1);
  }

  /** With a ceiling, any ceiling, the comparison fails: a request only the naive server admits can use
      up the quota that a proper request then lacks. */
  lemma CeilingReverses(limit: int) returns (ops: seq<Op>, naive: seq<Tables>, hardened: seq<Tables>)
    requires limit > 0
    ensures Trace(NAIVE, limit, ops, naive) && Trace(HARDENED, limit, ops, hardened) && |ops| == 2
    ensures naive[0] == hardened[0] && Honest(naive[0])
    ensures |hardened[2].effects| > |naive[2].effects|
  {
    var db := OneUnitLeft(limit);
    var n1 := NaiveAdmitsStray(limit);
    var n2 := NaiveLimitsProper(limit, n1);
    var h1 := HardenedRefusesStray(limit);
    var h2 := HardenedServesProper(limit, h1);
    TwoSteps(NAIVE, limit, Ask(STRAY), Ask(PROPER), db, n1, n2);
    TwoSteps(HARDENED, limit, Ask(STRAY), Ask(PROPER), db, h1, h2);
    ops, naive, hardened := [Ask(STRAY), Ask(PROPER)], [db, n1, n2], [db, h1, h2];
  }

  /** The hardened server writes no more effects in every history exactly when there is no ceiling. */
  lemma NeverMoreIffNoCeiling(limit: int)
    ensures (forall ops, naive: seq<Tables>, hardened: seq<Tables> | SideBySide(limit, ops, naive, hardened) ::
               |hardened[|ops|].effects| <= |naive[|ops|].effects|) <==> limit <= 0
  {
    if limit <= 0 {
      forall ops, naive: seq<Tables>, hardened: seq<Tables> | SideBySide(limit, ops, naive, hardened)
        ensures |hardened[|ops|].effects| <= |naive[|ops|].effects|
      {
        HardenedNeverWritesMore(limit, ops, naive, hardened, |ops|);
      }
    } else {
      var ops, naive, hardened := CeilingReverses(limit);
      assert SideBySide(limit, ops, naive, hardened);
    }
  }
}
