/** Subjects do not influence one another. */
module Noninterference {
  import opened Domain
  import opened RateLimit
  import opened Ledger
  import opened Views

  /** A deed that concerns `subject`: a grant to it, or a call whose token verified to it. */
  predicate About(d: Deed, subject: string) {
    match d
    case Granted(_, row) => row.subject == subject
    case Called(_, call, _, _) => call.verdict.subject == Some(subject)
  }

  /** The history with every deed of other subjects deleted. */
  function Only(deeds: seq<Deed>, subject: string): seq<Deed> {
    if deeds == [] then []
    else
      var d := deeds[|deeds| - 1];
      Only(deeds[..|deeds| - 1], subject) + if About(d, subject) then [d] else []
  }

  ghost predicate OwnApproval(db: Tables, subject: string, id: string) {
    id in db.approvals && db.approvals[id].subject == subject
  }

  /** The tables look the same to `subject`, and the second has no approval the first lacks. */
  ghost predicate SameTo(db: Tables, db': Tables, subject: string) {
    && db'.approvals.Keys <= db.approvals.Keys
    && (forall id {:trigger OwnApproval(db, subject, id)} {:trigger OwnApproval(db', subject, id)} ::
          (OwnApproval(db, subject, id) <==> OwnApproval(db', subject, id))
          && (OwnApproval(db, subject, id) ==> db.approvals[id] == db'.approvals[id]))
    && (forall b: Bucket :: b.subject == subject ==> Count(db, b) == Count(db', b))
  }

  lemma SameToView(db: Tables, db': Tables, c: Call)
    requires SameTo(db, db', c.Subject())
    ensures SameView(db, db', c)
  {
    forall id
      ensures BoundIn(db.approvals, c, id) <==> BoundIn(db'.approvals, c, id)
      ensures BoundIn(db.approvals, c, id) ==> db.approvals[id] == db'.approvals[id]
    {
      assert OwnApproval(db, c.Subject(), id) <==> OwnApproval(db', c.Subject(), id);
    }
  }

  /** A call or a grant of someone else is invisible. */
  lemma OthersUnseen(db: Tables, db': Tables, d: Deed, subject: string)
    requires SameTo(db, db', subject) && Allowed(db, d) && !About(d, subject)
    ensures SameTo(Do(db, d), db', subject)
  {
    var after := Do(db, d);
    forall id
      ensures OwnApproval(after, subject, id) <==> OwnApproval(db', subject, id)
      ensures OwnApproval(after, subject, id) ==> after.approvals[id] == db'.approvals[id]
    {
      assert OwnApproval(db, subject, id) <==> OwnApproval(db', subject, id);
    }
  }

  /** One's own deeds do the same to both. */
  lemma OwnSeen(db: Tables, db': Tables, d: Deed, subject: string)
    requires SameTo(db, db', subject) && Allowed(db, d) && About(d, subject)
    ensures Allowed(db', d) && SameTo(Do(db, d), Do(db', d), subject)
  {
    if d.Called? {
      SameToView(db, db', d.call);
      RulesCarry(db, db', d.call, d.used, d.ruling);
    }
    var after, after' := Do(db, d), Do(db', d);
    forall id
      ensures OwnApproval(after, subject, id) <==> OwnApproval(after', subject, id)
      ensures OwnApproval(after, subject, id) ==> after.approvals[id] == after'.approvals[id]
    {
      assert OwnApproval(db, subject, id) <==> OwnApproval(db', subject, id);
    }
  }

  /** Noninterference: delete every deed of other subjects from a serial history, and what is left is
      still a possible history, each remaining call with its decision, reason, approval and quota
      position unchanged. */
  lemma {:induction false} OthersDeleted(db: Tables, deeds: seq<Deed>, subject: string)
    requires Serial(db, deeds)
    ensures Serial(db, Only(deeds, subject))
    ensures SameTo(After(db, deeds), After(db, Only(deeds, subject)), subject)
    decreases |deeds|
  {
    if deeds != [] {
      var rest, d := deeds[..|deeds| - 1], deeds[|deeds| - 1];
      OthersDeleted(db, rest, subject);
      if About(d, subject) {
        OwnSeen(After(db, rest), After(db, Only(rest, subject)), d, subject);
        SerialSnoc(db, Only(rest, subject), d);
      } else {
        OthersUnseen(After(db, rest), After(db, Only(rest, subject)), d, subject);
        assert Only(deeds, subject) == Only(rest, subject);
      }
    }
  }

  /** Calls of different verified subjects commute: either order is possible when the other is, with
      the same outcomes, and leaves the same tables. */
  lemma SubjectsCommute(db: Tables, d: Deed, e: Deed)
    requires d.Called? && e.Called? && d.call.verdict.subject.Some? && e.call.verdict.subject.Some?
    requires d.call.Subject() != e.call.Subject()
    requires d.call.effectId != e.call.effectId && d.call.auditId != e.call.auditId
    requires Allowed(db, d) && Allowed(Do(db, d), e)
    ensures Allowed(db, e) && Allowed(Do(db, e), d)
    ensures Do(Do(db, d), e) == Do(Do(db, e), d)
  {
    Unaffected(db, d, e.call);
    assert SameView(Do(db, d), db, e.call);
    RulesCarry(Do(db, d), db, e.call, e.used, e.ruling);
    Unaffected(db, e, d.call);
    RulesCarry(db, Do(db, e), d.call, d.used, d.ruling);
    PublishCommutes(db, d.call, d.used, d.ruling, e.call, e.used, e.ruling);
  }

  lemma Unaffected(db: Tables, d: Deed, c: Call)
    requires d.Called? && Allowed(db, d) && d.call.Subject() != c.Subject()
    ensures SameView(db, Do(db, d), c) && SameView(Do(db, d), db, c)
  {
    var after := Do(db, d);
    forall id
      ensures BoundIn(db.approvals, c, id) <==> BoundIn(after.approvals, c, id)
      ensures BoundIn(db.approvals, c, id) ==> db.approvals[id] == after.approvals[id]
    {
    }
  }
}
