/** What a call can tell about the tables: its own counter, and the approvals that bind it. What it
    writes elsewhere no other call can tell. */
module Views {
  import opened Domain
  import opened Ledger

  ghost predicate BoundIn(rows: map<string, Approval>, c: Call, id: string) {
    id in rows && Bound(rows[id], c)
  }

  /** `c` reads the same from either set of approvals. */
  ghost predicate SameApprovals(rows: map<string, Approval>, rows': map<string, Approval>, c: Call) {
    forall id {:trigger BoundIn(rows, c, id)} {:trigger BoundIn(rows', c, id)} ::
      (BoundIn(rows, c, id) <==> BoundIn(rows', c, id)) && (BoundIn(rows, c, id) ==> rows[id] == rows'[id])
  }

  /** `c` reads the same from either set of tables. */
  ghost predicate SameView(db: Tables, db': Tables, c: Call) {
    && Count(db, c.Key()) == Count(db', c.Key())
    && SameApprovals(db.approvals, db'.approvals, c)
  }

  lemma MatchesCarries(rows: map<string, Approval>, rows': map<string, Approval>, c: Call, id: string)
    requires SameApprovals(rows, rows', c) && id in rows && Matches(rows[id], c)
    ensures id in rows' && rows'[id] == rows[id]
  {
    assert BoundIn(rows, c, id);
  }

  lemma LookupCarries(rows: map<string, Approval>, rows': map<string, Approval>, c: Call, r: Ruling)
    requires SameApprovals(rows, rows', c) && Lookup(rows, c, r)
    ensures Lookup(rows', c, r)
  {
    assert SameApprovals(rows', rows, c);
    forall o | o in rows' && Matches(rows'[o], c) ensures o in rows && rows[o] == rows'[o] {
      MatchesCarries(rows', rows, c, o);
    }
    forall o | o in rows && Matches(rows[o], c) ensures o in rows' && rows[o] == rows'[o] {
      MatchesCarries(rows, rows', c, o);
    }
  }

  /** A call's decision, reason and quota position depend on its view alone. */
  lemma RulesCarry(db: Tables, db': Tables, c: Call, used: nat, r: Ruling)
    requires SameView(db, db', c) && Rules(db, c, used, r)
    ensures Rules(db', c, used, r)
  {
    if Early(c, used).None? {
      LookupCarries(db.approvals, db'.approvals, c, r);
    }
  }

  lemma UpdatesCommute<K, V>(m: map<K, V>, k: K, v: V, l: K, w: V)
    requires k != l
    ensures m[k := v][l := w] == m[l := w][k := v]
  {
  }

  /** Calls that touch no row in common can write in either order. */
  lemma PublishCommutes(db: Tables, c: Call, u: nat, r: Ruling, d: Call, v: nat, q: Ruling)
    requires c.effectId != d.effectId && c.auditId != d.auditId
    requires c.Counted() && d.Counted() ==> c.Key() != d.Key()
    requires r.Issued? && q.Issued? ==> r.approvalId != q.approvalId
    ensures Publish(Publish(db, c, u, r), d, v, q) == Publish(Publish(db, d, v, q), c, u, r)
  {
    UpdatesCommute(db.audit, c.auditId, AuditRow(c, r), d.auditId, AuditRow(d, q));
    if c.Counted() && d.Counted() {
      UpdatesCommute(db.counters, c.Key(), u, d.Key(), v);
    }
    if r.Issued? && q.Issued? {
      UpdatesCommute(db.effects, c.effectId, EffectRow(c, r.approvalId), d.effectId, EffectRow(d, q.approvalId));
      assert Spend(Spend(db.approvals, r.approvalId, c.moment), q.approvalId, d.moment)
          == Spend(Spend(db.approvals, q.approvalId, d.moment), r.approvalId, c.moment);
    }
  }
}
