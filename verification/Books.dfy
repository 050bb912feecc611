/** One approval, one effect: the correspondence the tables keep in every reachable state, and the
    two mechanisms that each enforce its core alone. */
module Books {
  import opened Domain
  import opened RateLimit
  import opened Ledger
  import opened Machine
  import opened Invariant
  import opened Cardinality

  // ---------------------------------------------------------------- the correspondence

  /** The effect is what its approval permitted, and the approval was spent while it was live. */
  ghost predicate Covered(db: Tables, e: Effect) {
    && e.approvalId in db.approvals
    && var row := db.approvals[e.approvalId];
    && e.subject == row.subject && e.tool == row.tool && e.account == row.account && e.amount == row.amount
    && e.amount > 0
    && row.consumedAt.Some? && row.consumedAt.value < row.expiresAt
  }

  ghost predicate AtMostOne(db: Tables) {
    forall e, f :: e in db.effects && f in db.effects && db.effects[e].approvalId == db.effects[f].approvalId ==> e == f
  }

  ghost predicate EffectsCovered(db: Tables) {
    forall e {:trigger Covered(db, db.effects[e])} :: e in db.effects ==> Covered(db, db.effects[e])
  }

  ghost predicate SpentIsTaken(db: Tables) {
    forall id {:trigger Taken(db, id)} :: id in db.approvals && db.approvals[id].consumedAt.Some? ==> Taken(db, id)
  }

  ghost predicate AuditNamesEffects(db: Tables) {
    forall r :: r in db.audit && db.audit[r].effectId.Some? ==>
      && db.audit[r].effectId.value in db.effects
      && db.audit[r].approvalId == Some(db.effects[db.audit[r].effectId.value].approvalId)
      && db.audit[r].allowed
  }

  ghost predicate AuditedOnce(db: Tables) {
    forall q, r :: q in db.audit && r in db.audit && db.audit[q].effectId.Some? && db.audit[q].effectId == db.audit[r].effectId ==> q == r
  }

  ghost predicate IsAudited(db: Tables, e: string) {
    exists r :: r in db.audit && db.audit[r].effectId == Some(e)
  }

  ghost predicate EffectsAudited(db: Tables) {
    forall e {:trigger IsAudited(db, e)} :: e in db.effects ==> IsAudited(db, e)
  }

  ghost predicate Balanced(db: Tables) {
    && EffectsCovered(db) && AtMostOne(db) && SpentIsTaken(db)
    && AuditNamesEffects(db) && AuditedOnce(db) && EffectsAudited(db) && Positive(db)
  }

  lemma GrantBalanced(db: Tables, id: string, row: Approval)
    requires Balanced(db) && Grantable(db, id, row)
    ensures Balanced(Grant(db, id, row))
  {
    var db' := Grant(db, id, row);
    forall a | a in db'.approvals && db'.approvals[a].consumedAt.Some? ensures Taken(db', a) {
      assert Taken(db, a);
    }
    forall e | e in db'.effects ensures IsAudited(db', e) {
      assert IsAudited(db, e);
    }
    forall e | e in db'.effects ensures Covered(db', db'.effects[e]) {
      assert Covered(db, db.effects[e]);
    }
  }

  /** A commit keeps the audit trail and the effects matched, whatever the ruling. */
  lemma PublishAudited(db: Tables, c: Call, used: nat, r: Ruling)
    requires AuditNamesEffects(db) && AuditedOnce(db) && EffectsAudited(db)
    requires c.effectId !in db.effects && c.auditId !in db.audit
    ensures var db' := Publish(db, c, used, r);
      AuditNamesEffects(db') && AuditedOnce(db') && EffectsAudited(db')
  {
    var db' := Publish(db, c, used, r);
    forall e | e in db'.effects ensures IsAudited(db', e) {
      if e !in db.effects {
        assert db'.audit[c.auditId].effectId == Some(e);
      } else {
        assert IsAudited(db, e);
        var a :| a in db.audit && db.audit[a].effectId == Some(e);
        assert db'.audit[a].effectId == Some(e);
      }
    }
  }

  /** Spending an unspent approval that names the call keeps effects and spent approvals matched. */
  lemma IssueCovered(db: Tables, c: Call, used: nat, id: string)
    requires EffectsCovered(db) && AtMostOne(db) && SpentIsTaken(db) && Positive(db)
    requires Names(db, c, id) && db.approvals[id].consumedAt.None? && c.effectId !in db.effects
    ensures var db' := Publish(db, c, used, Issued(id));
      EffectsCovered(db') && AtMostOne(db') && SpentIsTaken(db') && Positive(db')
  {
    var db' := Publish(db, c, used, Issued(id));
    forall e | e in db.effects
      ensures db.effects[e].approvalId != id && Covered(db', db.effects[e]) && db'.effects[e] == db.effects[e]
    {
      assert Covered(db, db.effects[e]);
    }
    assert Covered(db', db'.effects[c.effectId]);
    forall a | a in db'.approvals && db'.approvals[a].consumedAt.Some? ensures Taken(db', a) {
      if a == id {
        assert db'.effects[c.effectId].approvalId == a;
      } else {
        assert Taken(db, a);
        var e :| e in db.effects && db.effects[e].approvalId == a;
        assert db'.effects[e].approvalId == a;
      }
    }
  }

  lemma QuietCovered(db: Tables, c: Call, used: nat, r: Ruling)
    requires EffectsCovered(db) && AtMostOne(db) && SpentIsTaken(db) && Positive(db) && !r.Issued?
    ensures var db' := Publish(db, c, used, r);
      EffectsCovered(db') && AtMostOne(db') && SpentIsTaken(db') && Positive(db')
  {
    var db' := Publish(db, c, used, r);
    forall e | e in db'.effects ensures Covered(db', db'.effects[e]) {
      assert Covered(db, db.effects[e]);
    }
    forall a | a in db'.approvals && db'.approvals[a].consumedAt.Some? ensures Taken(db', a) {
      assert Taken(db, a);
    }
  }

  lemma StepBalanced(m: Mechanisms, s: State, e: Event, s': State)
    requires m.guard && Inv(m, s) && Balanced(s.db) && Next(m, s, e, s')
    ensures Balanced(s'.db)
  {
    match e
    case Granting(id, row) => GrantBalanced(s.db, id, row);
    case Acting(t, to) =>
      if to.Committed? {
        assert TxOk(m, s.db, s.txs[t]);
        PublishAudited(s.db, s.txs[t].call, to.used, to.ruling);
        if to.ruling.Issued? {
          IssueCovered(s.db, s.txs[t].call, to.used, to.ruling.approvalId);
        } else {
          QuietCovered(s.db, s.txs[t].call, to.used, to.ruling);
        }
      }
    case Failing(t) =>
  }

  /** In every state of every run, whatever interleaves and whatever fails, the committed tables
      stay balanced. */
  lemma {:induction false} RunBalanced(m: Mechanisms, r: Run, i: nat)
    requires m.guard && r.Valid(m) && Balanced(r.First().db) && i < |r.states|
    ensures Balanced(r.states[i].db)
  {
    if i > 0 {
      RunBalanced(m, r, i - 1);
      RunInv(m, r, i - 1);
      StepBalanced(m, r.states[i - 1], r.events[i - 1], r.states[i]);
    }
  }

  ghost function Spent(db: Tables): set<string> {
    set id | id in db.approvals && db.approvals[id].consumedAt.Some?
  }

  ghost function Receipts(db: Tables): set<string> {
    set r | r in db.audit && db.audit[r].effectId.Some?
  }

  /** Each spent approval has exactly one effect. */
  lemma EffectsMatchSpent(db: Tables)
    requires EffectsCovered(db) && AtMostOne(db) && SpentIsTaken(db)
    ensures |db.effects| == |Spent(db)|
  {
    var f := map e | e in db.effects :: db.effects[e].approvalId;
    assert f.Keys == db.effects.Keys;
    forall e | e in f ensures f[e] in Spent(db) {
      assert Covered(db, db.effects[e]);
    }
    forall a | a in Spent(db) ensures Reaches(f, a) {
      assert Taken(db, a);
      var e :| e in db.effects && db.effects[e].approvalId == a;
      assert f[e] == a;
    }
    BijectionSize(f, Spent(db));
  }

  /** Each effect has exactly one audit row that names it. */
  lemma EffectsMatchReceipts(db: Tables)
    requires AuditNamesEffects(db) && AuditedOnce(db) && EffectsAudited(db)
    ensures |db.effects| == |Receipts(db)|
  {
    var f := map r | r in Receipts(db) :: db.audit[r].effectId.value;
    assert f.Keys == Receipts(db);
    forall e | e in db.effects.Keys ensures Reaches(f, e) {
      assert IsAudited(db, e);
      var r :| r in db.audit && db.audit[r].effectId == Some(e);
      assert f[r] == e;
    }
    BijectionSize(f, db.effects.Keys);
  }

  /** Effects, spent approvals and audit rows that name an effect are one-to-one in every state. */
  lemma RunCounts(m: Mechanisms, r: Run, i: nat)
    requires m.guard && r.Valid(m) && Balanced(r.First().db) && i < |r.states|
    ensures |r.states[i].db.effects| == |Spent(r.states[i].db)| == |Receipts(r.states[i].db)|
  {
    RunBalanced(m, r, i);
    EffectsMatchSpent(r.states[i].db);
    EffectsMatchReceipts(r.states[i].db);
  }

  // ---------------------------------------------------------------- what never changes

  /** Nothing recorded is lost or rewritten: a spent approval keeps its moment, effects and audit
      rows stay as written, and a counter never goes down. */
  ghost predicate Durable(db: Tables, db': Tables) {
    && Grows(db, db')
    && (forall id :: id in Spent(db) ==> id in Spent(db') && db'.approvals[id] == db.approvals[id])
    && (forall e :: e in db.effects ==> e in db'.effects && db'.effects[e] == db.effects[e])
    && (forall r :: r in db.audit ==> r in db'.audit && db'.audit[r] == db.audit[r])
    && (forall b :: b in db.counters ==> Count(db, b) <= Count(db', b))
  }

  lemma CommitDurable(db: Tables, c: Call, used: nat, r: Ruling)
    requires c.effectId !in db.effects && c.auditId !in db.audit && (c.Counted() ==> used == Count(db, c.Key()) + 1)
    requires r.Issued? ==> r.approvalId in db.approvals && db.approvals[r.approvalId].consumedAt.None?
    ensures Durable(db, Publish(db, c, used, r))
  {
  }

  lemma StepDurable(m: Mechanisms, s: State, e: Event, s': State)
    requires m.guard && Inv(m, s) && Next(m, s, e, s')
    ensures Durable(s.db, s'.db)
  {
    if e.Acting? && e.to.Committed? {
      assert TxOk(m, s.db, s.txs[e.t]);
      CommitDurable(s.db, s.txs[e.t].call, e.to.used, e.to.ruling);
    }
  }

  lemma DurableChains(a: Tables, b: Tables, c: Tables)
    requires Durable(a, b) && Durable(b, c)
    ensures Durable(a, c)
  {
  }

  /** Between any two moments of a run the tables only accumulate. */
  lemma RunDurable(m: Mechanisms, r: Run, i: nat, j: nat)
    requires m.guard && r.Valid(m) && i <= j < |r.states|
    ensures Durable(r.states[i].db, r.states[j].db)
  {
    for k := i to j
      invariant Durable(r.states[i].db, r.states[k].db)
    {
      RunInv(m, r, k);
      StepDurable(m, r.states[k], r.events[k], r.states[k + 1]);
      DurableChains(r.states[i].db, r.states[k].db, r.states[k + 1].db);
    }
  }

  // ---------------------------------------------------------------- either mechanism alone

  /** Where the mechanisms start from: no approval has two effects, and one with an effect is spent. */
  ghost predicate Honest(db: Tables) {
    && AtMostOne(db)
    && forall e :: e in db.effects ==>
         db.effects[e].approvalId in db.approvals && db.approvals[db.effects[e].approvalId].consumedAt.Some?
  }

  /** No transaction that has inserted its effect repeats a committed one. */
  ghost predicate NoRepeat(db: Tables, tx: Tx) {
    tx.Inserted().Some? ==> !Taken(db, tx.Inserted().value)
  }

  ghost predicate Single(s: State) {
    Honest(s.db) && forall i :: 0 <= i < |s.txs| ==> NoRepeat(s.db, s.txs[i])
  }

  lemma CommitHonest(db: Tables, c: Call, used: nat, r: Ruling)
    requires Honest(db) && c.effectId !in db.effects
    requires r.Issued? ==> r.approvalId in db.approvals && !Taken(db, r.approvalId)
    ensures Honest(Publish(db, c, used, r))
  {
  }

  /** A commit by someone else leaves an inserted effect the only one for its approval. */
  lemma OthersNoRepeat(m: Mechanisms, s: State, t: nat, to: Pc, i: nat)
    requires Inv(m, s) && t < |s.txs| && i < |s.txs| && i != t && Acts(m, s, t, to) && NoRepeat(s.db, s.txs[i])
    ensures NoRepeat(Move(s, t, to).db, s.txs[i])
  {
    assert TxOk(m, s.db, s.txs[t]) && TxOk(m, s.db, s.txs[i]);
    assert s.txs[t].Inserted().Some? ==> s.txs[t].HeldApproval() == s.txs[t].Inserted();
  }

  lemma MoverNoRepeat(m: Mechanisms, s: State, t: nat, to: Pc)
    requires (m.guard || m.unique) && Inv(m, s) && Single(s) && t < |s.txs| && Acts(m, s, t, to)
    ensures NoRepeat(Move(s, t, to).db, Move(s, t, to).txs[t])
  {
    assert NoRepeat(s.db, s.txs[t]) && TxOk(m, s.db, s.txs[t]);
  }

  lemma StepNoRepeat(m: Mechanisms, s: State, e: Event, s': State, i: nat)
    requires (m.guard || m.unique) && Inv(m, s) && Single(s) && Next(m, s, e, s') && i < |s'.txs|
    ensures NoRepeat(s'.db, s'.txs[i])
  {
    assert NoRepeat(s.db, s.txs[i]);
    match e
    case Granting(_, _) =>
    case Acting(t, to) => if i == t { MoverNoRepeat(m, s, t, to); } else { OthersNoRepeat(m, s, t, to, i); }
    case Failing(_) =>
  }

  lemma StepSingle(m: Mechanisms, s: State, e: Event, s': State)
    requires (m.guard || m.unique) && Inv(m, s) && Single(s) && Next(m, s, e, s')
    ensures Single(s')
  {
    forall i | 0 <= i < |s'.txs| ensures NoRepeat(s'.db, s'.txs[i]) {
      StepNoRepeat(m, s, e, s', i);
    }
    if e.Acting? && e.to.Committed? {
      assert TxOk(m, s.db, s.txs[e.t]) && NoRepeat(s.db, s.txs[e.t]);
      CommitHonest(s.db, s.txs[e.t].call, e.to.used, e.to.ruling);
    }
  }

  lemma {:induction false} RunSingle(m: Mechanisms, r: Run, i: nat)
    requires (m.guard || m.unique) && r.Valid(m) && Honest(r.First().db) && i < |r.states|
    ensures Single(r.states[i])
  {
    if i == 0 {
      forall j | 0 <= j < |r.states[0].txs| ensures NoRepeat(r.states[0].db, r.states[0].txs[j]) {
        assert r.states[0].txs[j].pc == Entry(r.states[0].txs[j].call);
      }
    } else {
      RunSingle(m, r, i - 1);
      RunInv(m, r, i - 1);
      StepSingle(m, r.states[i - 1], r.events[i - 1], r.states[i]);
    }
  }

  /** With the update's condition in place the constraint is never the one to refuse: a transaction
      about to insert its effect finds no other for the approval. */
  lemma ConstraintNeverFires(m: Mechanisms, r: Run, i: nat, t: nat)
    requires m.guard && r.Valid(m) && Honest(r.First().db) && i < |r.states| && t < |r.states[i].txs|
    requires r.states[i].txs[t].pc.Won?
    ensures !Taken(r.states[i].db, r.states[i].txs[t].pc.id)
  {
    RunSingle(m, r, i);
    RunInv(m, r, i);
    assert TxOk(m, r.states[i].db, r.states[i].txs[t]);
  }
}
