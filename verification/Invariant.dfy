/** What every reachable state of the machine keeps, whichever mechanisms are in place. */
module Invariant {
  import opened Domain
  import opened Ledger
  import opened Machine

  /** Approvals are only ever added; a row's bindings and expiry never change. */
  ghost predicate Grows(db: Tables, db': Tables) {
    forall id :: id in db.approvals ==>
      id in db'.approvals && db'.approvals[id].(consumedAt := None) == db.approvals[id].(consumedAt := None)
  }

  /** The approval a call has in hand binds it, and was live at its moment. */
  ghost predicate Names(db: Tables, c: Call, id: string) {
    id in db.approvals && Bound(db.approvals[id], c) && Live(db.approvals[id], c)
  }

  predicate PositionOk(c: Call, used: nat) {
    used > 0 <==> c.Counted()
  }

  predicate PastGates(c: Call, used: nat) {
    PositionOk(c, used) && Early(c, used).None?
  }

  ghost predicate RulingOk(db: Tables, c: Call, used: nat, r: Ruling) {
    && PositionOk(c, used)
    && match Early(c, used)
       case Some(early) => r == early
       case None =>
         !c.Raises() && match r
         case Issued(id) => Names(db, c, id)
         case Lost(id) => Names(db, c, id)
         case Refused(why) => why == Some(ApprovalExpired) || why == Some(ApprovalRequired)
         case Reversible => false
  }

  /** What a transaction's program counter says about its call. */
  ghost predicate Local(db: Tables, tx: Tx) {
    match tx.pc
    case Claiming => tx.call.Counted()
    case Looking(used) => PastGates(tx.call, used) && !tx.call.Raises()
    case Found(used, id) => PastGates(tx.call, used) && !tx.call.Raises() && Names(db, tx.call, id)
    case Won(used, id) => PastGates(tx.call, used) && !tx.call.Raises() && Names(db, tx.call, id)
    case Raising(used) => PastGates(tx.call, used) && tx.call.Raises()
    case Aborted => true
    case _ => RulingOk(db, tx.call, tx.pc.used, tx.pc.ruling)
  }

  /** No counter row and no approval row is locked twice. */
  ghost predicate Exclusive(txs: seq<Tx>) {
    forall i, j :: 0 <= i < |txs| && 0 <= j < |txs| && i != j ==>
      && (txs[i].HeldBucket().Some? ==> txs[i].HeldBucket() != txs[j].HeldBucket())
      && (txs[i].HeldApproval().Some? ==> txs[i].HeldApproval() != txs[j].HeldApproval())
  }

  /** Whoever holds a counter row holds the next position in it. */
  ghost predicate NextInLine(db: Tables, tx: Tx) {
    tx.HeldBucket().Some? ==> !tx.pc.Claiming? && tx.pc.used == Count(db, tx.call.Key()) + 1
  }

  /** With the condition in place, a row locked by a won update is still unspent in the table. */
  ghost predicate StillUnspent(m: Mechanisms, db: Tables, tx: Tx) {
    m.guard && tx.HeldApproval().Some? ==>
      tx.HeldApproval().value in db.approvals && db.approvals[tx.HeldApproval().value].consumedAt.None?
  }

  ghost predicate IdsUnused(db: Tables, tx: Tx) {
    !tx.pc.Committed? ==> tx.call.effectId !in db.effects && tx.call.auditId !in db.audit
  }

  ghost predicate TxOk(m: Mechanisms, db: Tables, tx: Tx) {
    Local(db, tx) && NextInLine(db, tx) && StillUnspent(m, db, tx) && IdsUnused(db, tx)
  }

  ghost predicate Inv(m: Mechanisms, s: State) {
    && Positive(s.db)
    && (forall i :: 0 <= i < |s.txs| ==> TxOk(m, s.db, s.txs[i]))
    && Exclusive(s.txs)
    && DistinctIds(s.txs)
  }

  lemma InitialInv(m: Mechanisms, s: State)
    requires Initial(s)
    ensures Inv(m, s)
  {
  }

  lemma LocalGrows(db: Tables, db': Tables, tx: Tx)
    requires Grows(db, db') && Local(db, tx)
    ensures Local(db', tx)
  {
  }

  ghost predicate Moves(m: Mechanisms, s: State, t: nat, to: Pc)
    requires t < |s.txs|
  {
    Acts(m, s, t, to) || (to == Aborted && !s.txs[t].Finished())
  }

  /** The moving transaction arrives in order. */
  lemma MoverOk(m: Mechanisms, s: State, t: nat, to: Pc)
    requires Inv(m, s) && t < |s.txs| && Moves(m, s, t, to)
    ensures TxOk(m, Move(s, t, to).db, Move(s, t, to).txs[t])
  {
    assert TxOk(m, s.db, s.txs[t]);
  }

  /** The others are not disturbed. */
  lemma OtherOk(m: Mechanisms, s: State, t: nat, to: Pc, i: nat)
    requires Inv(m, s) && t < |s.txs| && Moves(m, s, t, to)
    requires i < |s.txs| && i != t
    ensures TxOk(m, Move(s, t, to).db, s.txs[i])
  {
    assert TxOk(m, s.db, s.txs[t]) && TxOk(m, s.db, s.txs[i]);
    LocalGrows(s.db, Move(s, t, to).db, s.txs[i]);
    assert i < t || t < i;
  }

  lemma MoveExclusive(m: Mechanisms, s: State, t: nat, to: Pc)
    requires Inv(m, s) && t < |s.txs| && Moves(m, s, t, to)
    ensures Exclusive(Move(s, t, to).txs)
  {
    assert TxOk(m, s.db, s.txs[t]);
    var txs' := Move(s, t, to).txs;
    var now := txs'[t];
    assert now.HeldBucket().Some? ==> BucketFree(s, t, now.HeldBucket().value);
    assert now.HeldApproval().Some? ==> ApprovalFree(s, t, now.HeldApproval().value);
  }

  lemma MoveInv(m: Mechanisms, s: State, t: nat, to: Pc)
    requires Inv(m, s) && t < |s.txs| && Moves(m, s, t, to)
    ensures Inv(m, Move(s, t, to))
  {
    MoverOk(m, s, t, to);
    MoveExclusive(m, s, t, to);
    var s' := Move(s, t, to);
    forall i | 0 <= i < |s'.txs| ensures TxOk(m, s'.db, s'.txs[i]) {
      if i != t { OtherOk(m, s, t, to, i); }
    }
  }

  lemma StepInv(m: Mechanisms, s: State, e: Event, s': State)
    requires Inv(m, s) && Next(m, s, e, s')
    ensures Inv(m, s')
  {
    match e
    case Granting(id, row) =>
      forall i | 0 <= i < |s'.txs| ensures TxOk(m, s'.db, s'.txs[i]) {
        assert TxOk(m, s.db, s.txs[i]);
        LocalGrows(s.db, s'.db, s.txs[i]);
      }
    case Acting(t, to) => MoveInv(m, s, t, to);
    case Failing(t) => MoveInv(m, s, t, Aborted);
  }

  /** Every state of every run keeps the invariant. */
  lemma {:induction false} RunInv(m: Mechanisms, r: Run, i: nat)
    requires r.Valid(m) && i < |r.states|
    ensures Inv(m, r.states[i])
  {
    if i == 0 {
      InitialInv(m, r.states[0]);
    } else {
      RunInv(m, r, i - 1);
      StepInv(m, r.states[i - 1], r.events[i - 1], r.states[i]);
    }
  }
}
