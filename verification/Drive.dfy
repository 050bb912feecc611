/** Driving the machine: runs built step by step, and every serial history as a run. */
module Drive {
  import opened Domain
  import opened Ledger
  import opened Machine

  /** `longer` continues `r`. */
  ghost predicate Continues(r: Run, longer: Run) {
    r.states <= longer.states && r.events <= longer.events
  }

  /** `longer` continues `r` to state `s` by statements alone: no grant, and nothing lost to a failure. */
  ghost predicate Leads(m: Mechanisms, r: Run, longer: Run, s: State) {
    && longer.Valid(m) && Continues(r, longer) && longer.Last() == s
    && forall i :: |r.events| <= i < |longer.events| ==> longer.events[i].Acting?
  }

  lemma Act(m: Mechanisms, r: Run, t: nat, to: Pc) returns (longer: Run)
    requires r.Valid(m) && t < |r.Last().txs| && Acts(m, r.Last(), t, to)
    ensures Leads(m, r, longer, Move(r.Last(), t, to))
  {
    longer := r.Then(Acting(t, to), Move(r.Last(), t, to));
    ThenValid(m, r, Acting(t, to), Move(r.Last(), t, to));
  }

  lemma LeadsOn(m: Mechanisms, r: Run, mid: Run, s: State, far: Run, s': State)
    requires Leads(m, r, mid, s) && Leads(m, mid, far, s')
    ensures Leads(m, r, far, s')
  {
    forall i | |r.events| <= i < |far.events| ensures far.events[i].Acting? {
      if i < |mid.events| { assert far.events[i] == mid.events[i]; }
    }
  }

  /** From a decided ruling to the commit. */
  lemma Close(m: Mechanisms, r: Run, t: nat) returns (longer: Run)
    requires r.Valid(m) && t < |r.Last().txs| && r.Last().txs[t].pc.Deciding?
    ensures var pc := r.Last().txs[t].pc; Leads(m, r, longer, Move(r.Last(), t, Committed(pc.used, pc.ruling)))
  {
    var pc := r.Last().txs[t].pc;
    var mid := Act(m, r, t, Recorded(pc.used, pc.ruling));
    longer := Act(m, mid, t, Committed(pc.used, pc.ruling));
    LeadsOn(m, r, mid, mid.Last(), longer, longer.Last());
    assert longer.Last().txs == r.Last().txs[t := r.Last().txs[t].(pc := Committed(pc.used, pc.ruling))];
  }

  /** No transaction but `t` holds anything. */
  ghost predicate Quiet(s: State, t: nat) {
    forall i :: 0 <= i < |s.txs| && i != t ==>
      s.txs[i].HeldBucket().None? && s.txs[i].HeldApproval().None? && s.txs[i].Inserted().None?
  }

  /** From an approval in hand to the commit that spends it, nobody else holding it. */
  lemma Spending(m: Mechanisms, r: Run, t: nat) returns (longer: Run)
    requires r.Valid(m) && t < |r.Last().txs| && r.Last().txs[t].pc.Found?
    requires var id := r.Last().txs[t].pc.id; ApprovalFree(r.Last(), t, id) && InsertFree(r.Last(), t, id)
    requires var id := r.Last().txs[t].pc.id; Spendable(m, r.Last().db, id) && (m.unique ==> !Taken(r.Last().db, id))
    ensures var pc := r.Last().txs[t].pc; Leads(m, r, longer, Move(r.Last(), t, Committed(pc.used, Issued(pc.id))))
  {
    var pc := r.Last().txs[t].pc;
    var won := Act(m, r, t, Won(pc.used, pc.id));
    assert InsertFree(won.Last(), t, pc.id);
    var decided := Act(m, won, t, Deciding(pc.used, Issued(pc.id)));
    LeadsOn(m, r, won, won.Last(), decided, decided.Last());
    longer := Close(m, decided, t);
    LeadsOn(m, r, decided, decided.Last(), longer, longer.Last());
    assert longer.Last().txs == r.Last().txs[t := r.Last().txs[t].(pc := Committed(pc.used, Issued(pc.id)))];
  }

  /** A transaction that has not begun, or has ended, holds nothing. */
  lemma Idle(tx: Tx)
    requires tx.pc == Entry(tx.call) || tx.Finished()
    ensures tx.HeldBucket().None? && tx.HeldApproval().None? && tx.Inserted().None?
  {
  }

  /** One call, run alone from its first statement to its commit, may end in any ruling the serial
      meaning allows. */
  lemma RunAlone(m: Mechanisms, r: Run, t: nat, used: nat, ruling: Ruling) returns (longer: Run)
    requires r.Valid(m) && t < |r.Last().txs| && Quiet(r.Last(), t)
    requires r.Last().txs[t].pc == Entry(r.Last().txs[t].call)
    requires Rules(r.Last().db, r.Last().txs[t].call, used, ruling)
    requires ruling.Issued? && m.unique ==> !Taken(r.Last().db, ruling.approvalId)
    ensures Leads(m, r, longer, Move(r.Last(), t, Committed(used, ruling)))
  {
    var c := r.Last().txs[t].call;
    var claimed := r;
    if c.Counted() {
      claimed := Act(m, r, t, AfterClaim(c, used));
    }
    assert claimed.Last().txs == r.Last().txs[t := r.Last().txs[t].(pc := AfterClaim(c, used))];
    assert claimed.Last().db == r.Last().db;
    assert Quiet(claimed.Last(), t);
    if Early(c, used).Some? {
      longer := Close(m, claimed, t);
    } else if ruling.Issued? {
      var found := Act(m, claimed, t, Found(used, ruling.approvalId));
      assert Quiet(found.Last(), t);
      longer := Spending(m, found, t);
      LeadsOn(m, claimed, found, found.Last(), longer, longer.Last());
    } else {
      var decided := Act(m, claimed, t, Deciding(used, ruling));
      longer := Close(m, decided, t);
      LeadsOn(m, claimed, decided, decided.Last(), longer, longer.Last());
    }
    LeadsOn(m, r, claimed, claimed.Last(), longer, longer.Last());
    assert longer.Last().txs == r.Last().txs[t := r.Last().txs[t].(pc := Committed(used, ruling))];
  }
}
