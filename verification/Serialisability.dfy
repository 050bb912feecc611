/** Where calls for the same act take turns at a counter row, interleaved calls are calls run one at a time. */
module Serialisability {
  import opened Domain
  import opened Ledger
  import opened Machine
  import opened Invariant
  import opened Views

  /** A call that can get as far as looking for an approval, when it starts on these tables. */
  predicate GetsThrough(db: Tables, c: Call) {
    && c.verdict.allowed && c.Irreversible() && !c.Raises()
    && (c.Counted() ==> Count(db, c.Key()) < c.limit)
  }

  /** Two calls that can both come to look for an approval of the very same act. */
  predicate Rivals(db: Tables, c: Call, d: Call) {
    && GetsThrough(db, c) && GetsThrough(db, d)
    && c.Subject() == d.Subject() && c.tool == d.tool && c.account == d.account && c.Amount() == d.Amount() > 0
  }

  /** Both claim their unit of quota in one counter row. */
  predicate SameRow(c: Call, d: Call) {
    c.Counted() && d.Counted() && c.Key() == d.Key()
  }

  /** Rivals take turns at a counter row. */
  ghost predicate TakeTurns(db: Tables, txs: seq<Tx>) {
    forall i, j :: 0 <= i < |txs| && 0 <= j < |txs| && i != j && Rivals(db, txs[i].call, txs[j].call) ==>
      SameRow(txs[i].call, txs[j].call)
  }

  ghost predicate CountsRise(db: Tables, db': Tables) {
    forall b :: Count(db, b) <= Count(db', b)
  }

  // ---------------------------------------------------------------- the bucket serialises its calls

  /** Past its gates, and on the way to an approval or holding one. */
  predicate Engaged(tx: Tx) {
    tx.pc.Looking? || tx.pc.Found? || tx.pc.Won? || ((tx.pc.Deciding? || tx.pc.Recorded?) && tx.pc.ruling.Issued?)
  }

  /** Two rivals are never both engaged: they would hold the same counter row. */
  lemma NoRivals(m: Mechanisms, first: Tables, s: State, i: nat, j: nat)
    requires Inv(m, s) && TakeTurns(first, s.txs) && CountsRise(first, s.db) && i < |s.txs| && j < |s.txs| && i != j
    requires Engaged(s.txs[i]) && Engaged(s.txs[j])
    ensures !Rivals(first, s.txs[i].call, s.txs[j].call)
  {
    assert TxOk(m, s.db, s.txs[i]) && TxOk(m, s.db, s.txs[j]);
  }

  /** So no approval binds them both. */
  lemma BindsOne(m: Mechanisms, first: Tables, s: State, i: nat, j: nat, id: string)
    requires Inv(m, s) && TakeTurns(first, s.txs) && CountsRise(first, s.db) && i < |s.txs| && j < |s.txs| && i != j
    requires Engaged(s.txs[i]) && Engaged(s.txs[j]) && id in s.db.approvals && Bound(s.db.approvals[id], s.txs[i].call)
    ensures !Bound(s.db.approvals[id], s.txs[j].call)
  {
    NoRivals(m, first, s, i, j);
    assert TxOk(m, s.db, s.txs[i]) && TxOk(m, s.db, s.txs[j]);
  }

  /** An approval in hand is unspent and nobody else's. */
  ghost predicate InHand(s: State, i: nat)
    requires i < |s.txs|
  {
    s.txs[i].pc.Found? ==>
      && s.txs[i].pc.id in s.db.approvals && s.db.approvals[s.txs[i].pc.id].consumedAt.None?
      && ApprovalFree(s, i, s.txs[i].pc.id)
  }

  predicate NotLost(tx: Tx) {
    tx.pc.Deciding? || tx.pc.Recorded? || tx.pc.Committed? ==> !tx.pc.ruling.Lost?
  }

  ghost predicate Orderly(m: Mechanisms, first: Tables, s: State) {
    && Inv(m, s) && TakeTurns(first, s.txs) && CountsRise(first, s.db)
    && forall i :: 0 <= i < |s.txs| ==> InHand(s, i) && NotLost(s.txs[i])
  }

  lemma InitialOrderly(m: Mechanisms, first: Tables, s: State)
    requires Initial(s) && first == s.db && TakeTurns(first, s.txs)
    ensures Orderly(m, first, s)
  {
    InitialInv(m, s);
  }

  lemma MoverInHand(m: Mechanisms, first: Tables, s: State, t: nat, to: Pc)
    requires Orderly(m, first, s) && t < |s.txs| && Moves(m, s, t, to)
    ensures InHand(Move(s, t, to), t) && NotLost(Move(s, t, to).txs[t])
  {
    assert TxOk(m, s.db, s.txs[t]) && InHand(s, t) && NotLost(s.txs[t]);
    if to.Found? {
      forall k | 0 <= k < |s.txs| && k != t ensures s.txs[k].HeldApproval() != Some(to.id) {
        if s.txs[k].HeldApproval() == Some(to.id) {
          assert TxOk(m, s.db, s.txs[k]);
          BindsOne(m, first, s, k, t, to.id);
        }
      }
    }
  }

  /** Nobody wins an approval that another has in hand. */
  lemma NotTaken(m: Mechanisms, first: Tables, s: State, t: nat, to: Pc, i: nat)
    requires Orderly(m, first, s) && t < |s.txs| && Moves(m, s, t, to) && i < |s.txs| && i != t
    ensures !(s.txs[i].pc.Found? && to.Won? && to.id == s.txs[i].pc.id)
  {
    assert TxOk(m, s.db, s.txs[t]) && TxOk(m, s.db, s.txs[i]);
    if s.txs[i].pc.Found? && to.Won? && to.id == s.txs[i].pc.id {
      BindsOne(m, first, s, t, i, to.id);
    }
  }

  lemma StaysInHand(m: Mechanisms, s: State, t: nat, to: Pc, i: nat)
    requires t < |s.txs| && Moves(m, s, t, to) && i < |s.txs| && i != t && InHand(s, i)
    requires !(s.txs[i].pc.Found? && to.Won? && to.id == s.txs[i].pc.id)
    ensures InHand(Move(s, t, to), i)
  {
  }

  lemma OtherInHand(m: Mechanisms, first: Tables, s: State, t: nat, to: Pc, i: nat)
    requires Orderly(m, first, s) && t < |s.txs| && Moves(m, s, t, to) && i < |s.txs| && i != t
    ensures InHand(Move(s, t, to), i)
  {
    assert InHand(s, i);
    NotTaken(m, first, s, t, to, i);
    StaysInHand(m, s, t, to, i);
  }

  lemma StepCounts(m: Mechanisms, s: State, e: Event, s': State)
    requires Inv(m, s) && Next(m, s, e, s')
    ensures CountsRise(s.db, s'.db)
  {
    if e.Acting? { assert TxOk(m, s.db, s.txs[e.t]); }
  }

  lemma StepOrderly(m: Mechanisms, first: Tables, s: State, e: Event, s': State)
    requires Orderly(m, first, s) && Next(m, s, e, s')
    ensures Orderly(m, first, s')
  {
    StepInv(m, s, e, s');
    StepCounts(m, s, e, s');
    forall i | 0 <= i < |s'.txs| ensures InHand(s', i) && NotLost(s'.txs[i]) {
      assert InHand(s, i) && NotLost(s.txs[i]);
      match e
      case Granting(id, row) =>
      case Acting(t, to) => if i == t { MoverInHand(m, first, s, t, to); } else { OtherInHand(m, first, s, t, to, i); }
      case Failing(t) => if i == t { MoverInHand(m, first, s, t, Aborted); } else { OtherInHand(m, first, s, t, Aborted, i); }
    }
    assert |s'.txs| == |s.txs| && forall i :: 0 <= i < |s.txs| ==> s'.txs[i].call == s.txs[i].call;
  }

  lemma {:induction false} RunOrderly(m: Mechanisms, r: Run, i: nat)
    requires r.Valid(m) && TakeTurns(r.First().db, r.First().txs) && i < |r.states|
    ensures Orderly(m, r.First().db, r.states[i])
  {
    if i == 0 {
      InitialOrderly(m, r.First().db, r.states[0]);
    } else {
      RunOrderly(m, r, i - 1);
      StepOrderly(m, r.First().db, r.states[i - 1], r.events[i - 1], r.states[i]);
    }
  }

  /** No call ever finds that the approval it was handed has been spent by another. */
  lemma NeverAlreadyConsumed(m: Mechanisms, r: Run, i: nat, t: nat)
    requires r.Valid(m) && TakeTurns(r.First().db, r.First().txs) && i < |r.states| && t < |r.states[i].txs|
    ensures NotLost(r.states[i].txs[t])
  {
    RunOrderly(m, r, i);
  }

  // ---------------------------------------------------------------- pledges

  datatype Pledge = Pledge(used: nat, ruling: Ruling)

  /** The outcome a transaction is bound to once its deciding statement has run: the lookup, the
      quota claim if it stops there, or the audit row of a call that does neither. */
  function PledgeOf(tx: Tx): Option<Pledge> {
    match tx.pc
    case Found(used, id) => Some(Pledge(used, Issued(id)))
    case Won(used, id) => Some(Pledge(used, Issued(id)))
    case Deciding(used, r) => if Entry(tx.call).Deciding? then None else Some(Pledge(used, r))
    case Recorded(used, r) => Some(Pledge(used, r))
    case Committed(used, r) => Some(Pledge(used, r))
    case _ => None
  }

  predicate Owes(tx: Tx) {
    PledgeOf(tx).Some? && !tx.pc.Committed?
  }

  /** The tables once the first `k` transactions in `will` have paid what they owe. */
  function Settle(db: Tables, txs: seq<Tx>, will: set<nat>, k: nat): Tables
    requires k <= |txs|
  {
    if k == 0 then db
    else
      var d := Settle(db, txs, will, k - 1);
      if k - 1 in will && Owes(txs[k - 1]) then Pay(d, txs[k - 1]) else d
  }

  function Pay(db: Tables, tx: Tx): Tables
    requires Owes(tx)
  {
    Publish(db, tx.call, PledgeOf(tx).value.used, PledgeOf(tx).value.ruling)
  }

  /** Two debts touch no row in common. */
  ghost predicate Disjoint(a: Tx, b: Tx)
    requires Owes(a) && Owes(b)
  {
    && a.call.effectId != b.call.effectId && a.call.auditId != b.call.auditId
    && (a.call.Counted() && b.call.Counted() ==> a.call.Key() != b.call.Key())
    && var p, q := PledgeOf(a).value.ruling, PledgeOf(b).value.ruling;
       p.Issued? && q.Issued? ==> p.approvalId != q.approvalId
  }

  lemma PayCommutes(db: Tables, a: Tx, b: Tx)
    requires Owes(a) && Owes(b) && Disjoint(a, b)
    ensures Pay(Pay(db, a), b) == Pay(Pay(db, b), a)
  {
    var p, q := PledgeOf(a).value, PledgeOf(b).value;
    PublishCommutes(db, a.call, p.used, p.ruling, b.call, q.used, q.ruling);
  }

  /** Two lists of transactions that differ at `t` at most, where `txs'` owes nothing. */
  ghost predicate PaidAt(txs: seq<Tx>, txs': seq<Tx>, t: nat) {
    && |txs| == |txs'| && t < |txs|
    && (forall i :: 0 <= i < |txs| && i != t ==> txs'[i] == txs[i])
    && !Owes(txs'[t])
  }

  ghost predicate DebtsDisjoint(txs: seq<Tx>) {
    forall i, j :: 0 <= i < |txs| && 0 <= j < |txs| && i != j && Owes(txs[i]) && Owes(txs[j]) ==> Disjoint(txs[i], txs[j])
  }

  /** One debt can be paid last. */
  lemma {:induction false} SettleLast(db: Tables, txs: seq<Tx>, txs': seq<Tx>, will: set<nat>, t: nat, k: nat)
    requires PaidAt(txs, txs', t) && k <= |txs| && DebtsDisjoint(txs)
    ensures Settle(db, txs, will, k) ==
      if t < k && t in will && Owes(txs[t]) then Pay(Settle(db, txs', will, k), txs[t]) else Settle(db, txs', will, k)
  {
    if k > 0 {
      SettleLast(db, txs, txs', will, t, k - 1);
      if t < k - 1 && t in will && Owes(txs[t]) && k - 1 in will && Owes(txs[k - 1]) {
        PayCommutes(Settle(db, txs', will, k - 1), txs[t], txs[k - 1]);
      }
    }
  }

  /** One debt can be paid first. */
  lemma {:induction false} SettleFirst(db: Tables, txs: seq<Tx>, will: set<nat>, a: Tx, k: nat)
    requires k <= |txs| && Owes(a)
    requires forall i :: 0 <= i < k && Owes(txs[i]) ==> Disjoint(a, txs[i])
    ensures Settle(Pay(db, a), txs, will, k) == Pay(Settle(db, txs, will, k), a)
  {
    if k > 0 {
      SettleFirst(db, txs, will, a, k - 1);
      if k - 1 in will && Owes(txs[k - 1]) {
        PayCommutes(Settle(db, txs, will, k - 1), a, txs[k - 1]);
      }
    }
  }

  /** A grant of a new approval can be made before or after. */
  lemma {:induction false} SettleGrant(db: Tables, txs: seq<Tx>, will: set<nat>, id: string, row: Approval, k: nat)
    requires k <= |txs|
    requires forall i :: 0 <= i < k && Owes(txs[i]) ==> PledgeOf(txs[i]).value.ruling != Issued(id)
    ensures Settle(Grant(db, id, row), txs, will, k) == Grant(Settle(db, txs, will, k), id, row)
  {
    if k > 0 {
      SettleGrant(db, txs, will, id, row, k - 1);
      var d := Settle(db, txs, will, k - 1);
      if k - 1 in will && Owes(txs[k - 1]) {
        assert Pay(Grant(d, id, row), txs[k - 1]).approvals == Grant(Pay(d, txs[k - 1]), id, row).approvals;
      }
    }
  }

  lemma {:induction false} SettleKeepsPledges(db: Tables, txs: seq<Tx>, txs': seq<Tx>, will: set<nat>, k: nat)
    requires |txs| == |txs'| && k <= |txs|
    requires forall i :: 0 <= i < k && i in will ==>
      txs[i].call == txs'[i].call && Owes(txs[i]) == Owes(txs'[i]) && PledgeOf(txs[i]) == PledgeOf(txs'[i])
    ensures Settle(db, txs, will, k) == Settle(db, txs', will, k)
  {
    if k > 0 {
      SettleKeepsPledges(db, txs, txs', will, k - 1);
    }
  }

  /** A debt that leaves alone everything `c` reads. */
  ghost predicate Beside(db: Tables, tx: Tx, c: Call)
    requires Owes(tx)
  {
    var r := PledgeOf(tx).value.ruling;
    r.Issued? ==> r.approvalId in db.approvals && !Bound(db.approvals[r.approvalId], c)
  }

  lemma {:induction false} SettleCount(db: Tables, txs: seq<Tx>, will: set<nat>, b: Bucket, k: nat)
    requires k <= |txs|
    requires forall i :: 0 <= i < k && Owes(txs[i]) && txs[i].call.Counted() ==> txs[i].call.Key() != b
    ensures Count(Settle(db, txs, will, k), b) == Count(db, b)
  {
    if k > 0 {
      SettleCount(db, txs, will, b, k - 1);
    }
  }

  lemma {:induction false} SettleApprovals(db: Tables, txs: seq<Tx>, will: set<nat>, c: Call, k: nat)
    requires k <= |txs|
    requires forall i :: 0 <= i < k && Owes(txs[i]) ==> Beside(db, txs[i], c)
    ensures SameApprovals(db.approvals, Settle(db, txs, will, k).approvals, c)
    ensures Grows(db, Settle(db, txs, will, k))
  {
    if k > 0 {
      SettleApprovals(db, txs, will, c, k - 1);
      var d := Settle(db, txs, will, k - 1);
      var d' := Settle(db, txs, will, k);
      forall id
        ensures BoundIn(db.approvals, c, id) <==> BoundIn(d'.approvals, c, id)
        ensures BoundIn(db.approvals, c, id) ==> db.approvals[id] == d'.approvals[id]
      {
        assert BoundIn(db.approvals, c, id) <==> BoundIn(d.approvals, c, id);
      }
    }
  }

  lemma {:induction false} SettleKeys(db: Tables, txs: seq<Tx>, will: set<nat>, k: nat)
    requires k <= |txs|
    ensures Settle(db, txs, will, k).approvals.Keys == db.approvals.Keys
  {
    if k > 0 {
      SettleKeys(db, txs, will, k - 1);
    }
  }

  // ---------------------------------------------------------------- one step of the simulation

  lemma OrderlyDebts(m: Mechanisms, first: Tables, s: State)
    requires Orderly(m, first, s)
    ensures DebtsDisjoint(s.txs)
  {
    forall i, j | 0 <= i < |s.txs| && 0 <= j < |s.txs| && i != j && Owes(s.txs[i]) && Owes(s.txs[j])
      ensures Disjoint(s.txs[i], s.txs[j])
    {
      assert TxOk(m, s.db, s.txs[i]) && TxOk(m, s.db, s.txs[j]);
      assert i < j || j < i;
      var p, q := PledgeOf(s.txs[i]).value.ruling, PledgeOf(s.txs[j]).value.ruling;
      if p.Issued? && q.Issued? && p.approvalId == q.approvalId {
        BindsOne(m, first, s, i, j, p.approvalId);
      }
    }
  }

  /** While `t` decides, no debtor holds its counter row. */
  lemma PivotAlone(m: Mechanisms, s: State, t: nat, to: Pc)
    requires Inv(m, s) && t < |s.txs| && Acts(m, s, t, to) && s.txs[t].call.Counted() && PledgeOf(s.txs[t]).None?
    ensures forall i :: 0 <= i < |s.txs| && Owes(s.txs[i]) && s.txs[i].call.Counted() ==>
      s.txs[i].call.Key() != s.txs[t].call.Key()
  {
    assert TxOk(m, s.db, s.txs[t]);
    forall i | 0 <= i < |s.txs| && Owes(s.txs[i]) && s.txs[i].call.Counted()
      ensures s.txs[i].call.Key() != s.txs[t].call.Key()
    {
      assert s.txs[i].HeldBucket() == Some(s.txs[i].call.Key());
    }
  }

  /** While `t` looks, no debt touches what it reads. */
  lemma PivotBeside(m: Mechanisms, first: Tables, s: State, t: nat)
    requires Orderly(m, first, s) && t < |s.txs| && s.txs[t].pc.Looking?
    ensures forall i :: 0 <= i < |s.txs| && Owes(s.txs[i]) ==> Beside(s.db, s.txs[i], s.txs[t].call)
  {
    forall i | 0 <= i < |s.txs| && Owes(s.txs[i]) ensures Beside(s.db, s.txs[i], s.txs[t].call) {
      assert TxOk(m, s.db, s.txs[i]) && TxOk(m, s.db, s.txs[t]);
      if PledgeOf(s.txs[i]).value.ruling.Issued? {
        BindsOne(m, first, s, i, t, PledgeOf(s.txs[i]).value.ruling.approvalId);
      }
    }
  }

  /** The deciding statement of `t`, run on the settled tables, decides the same. */
  lemma PivotRules(m: Mechanisms, first: Tables, s: State, t: nat, to: Pc, will: set<nat>)
    requires Orderly(m, first, s) && t < |s.txs| && Acts(m, s, t, to)
    requires PledgeOf(s.txs[t]).None? && PledgeOf(s.txs[t].(pc := to)).Some?
    ensures var p := PledgeOf(s.txs[t].(pc := to)).value;
      Rules(Settle(s.db, s.txs, will, |s.txs|), s.txs[t].call, p.used, p.ruling)
  {
    var c := s.txs[t].call;
    var db' := Settle(s.db, s.txs, will, |s.txs|);
    assert TxOk(m, s.db, s.txs[t]);
    if c.Counted() {
      PivotAlone(m, s, t, to);
      SettleCount(s.db, s.txs, will, c.Key(), |s.txs|);
    }
    if s.txs[t].pc.Looking? {
      PivotBeside(m, first, s, t);
      SettleApprovals(s.db, s.txs, will, c, |s.txs|);
      var p := PledgeOf(s.txs[t].(pc := to)).value;
      LookupCarries(s.db.approvals, db'.approvals, c, p.ruling);
    }
  }

  /** The entry a step adds to the serial history: a grant where it happens, and a call of `will`
      where its deciding statement runs. */
  function DeedOf(s: State, e: Event, s': State, will: set<nat>): Option<Deed> {
    match e
    case Granting(id, row) => Some(Granted(id, row))
    case Acting(t, to) =>
      if t in will && t < |s.txs| && t < |s'.txs| && PledgeOf(s.txs[t]).None? && PledgeOf(s'.txs[t]).Some? then
        Some(Called(t, s'.txs[t].call, PledgeOf(s'.txs[t]).value.used, PledgeOf(s'.txs[t]).value.ruling))
      else None
    case Failing(_) => None
  }

  /** The step is consistent with `will` being exactly the transactions that commit in the end. */
  ghost predicate Fated(e: Event, will: set<nat>) {
    match e
    case Granting(_, _) => true
    case Acting(t, to) => (to.Aborted? ==> t !in will) && (to.Committed? ==> t in will)
    case Failing(t) => t !in will
  }

  function Settled(s: State, will: set<nat>): Tables {
    Settle(s.db, s.txs, will, |s.txs|)
  }

  /** A pledge, once given, is kept. */
  lemma PledgeKept(m: Mechanisms, first: Tables, s: State, t: nat, to: Pc)
    requires Orderly(m, first, s) && t < |s.txs| && Acts(m, s, t, to) && !to.Aborted?
    requires PledgeOf(s.txs[t]).Some?
    ensures PledgeOf(s.txs[t].(pc := to)) == PledgeOf(s.txs[t])
  {
    assert TxOk(m, s.db, s.txs[t]) && InHand(s, t);
  }

  lemma MoveSettled(m: Mechanisms, first: Tables, s: State, t: nat, to: Pc, will: set<nat>)
    requires Orderly(m, first, s) && t < |s.txs| && Acts(m, s, t, to) && Fated(Acting(t, to), will)
    ensures var s' := Move(s, t, to);
      match DeedOf(s, Acting(t, to), s', will)
      case Some(d) => Allowed(Settled(s, will), d) && Settled(s', will) == Do(Settled(s, will), d)
      case None => Settled(s', will) == Settled(s, will)
  {
    var s' := Move(s, t, to);
    var n := |s.txs|;
    StepOrderly(m, first, s, Acting(t, to), s');
    OrderlyDebts(m, first, s);
    OrderlyDebts(m, first, s');
    if to.Committed? {
      SettleLast(s.db, s.txs, s'.txs, will, t, n);
      forall i | 0 <= i < n && Owes(s'.txs[i]) ensures Disjoint(s.txs[t], s'.txs[i]) {
        assert s'.txs[i] == s.txs[i];
      }
      SettleFirst(s.db, s'.txs, will, s.txs[t], n);
    } else if t in will && PledgeOf(s.txs[t]).None? && PledgeOf(s'.txs[t]).Some? {
      PivotRules(m, first, s, t, to, will);
      SettleLast(s.db, s'.txs, s.txs, will, t, n);
    } else {
      if t in will && PledgeOf(s.txs[t]).Some? {
        PledgeKept(m, first, s, t, to);
      }
      SettleKeepsPledges(s.db, s.txs, s'.txs, will, n);
    }
  }

  lemma StepSettled(m: Mechanisms, first: Tables, s: State, e: Event, s': State, will: set<nat>)
    requires Orderly(m, first, s) && Next(m, s, e, s') && Fated(e, will)
    ensures match DeedOf(s, e, s', will)
      case Some(d) => Allowed(Settled(s, will), d) && Settled(s', will) == Do(Settled(s, will), d)
      case None => Settled(s', will) == Settled(s, will)
  {
    match e
    case Granting(id, row) =>
      forall i | 0 <= i < |s.txs| && Owes(s.txs[i]) ensures PledgeOf(s.txs[i]).value.ruling != Issued(id) {
        assert TxOk(m, s.db, s.txs[i]);
      }
      SettleGrant(s.db, s.txs, will, id, row, |s.txs|);
      SettleKeys(s.db, s.txs, will, |s.txs|);
    case Acting(t, to) => MoveSettled(m, first, s, t, to, will);
    case Failing(t) => SettleKeepsPledges(s.db, s.txs, s'.txs, will, |s.txs|);
  }

  // ---------------------------------------------------------------- whole runs

  /** The transactions a run commits. */
  function Winners(s: State): set<nat> {
    set t: nat | 0 <= t < |s.txs| && s.txs[t].pc.Committed?
  }

  /** The serial history of the first `n` steps, for the transactions in `will`. */
  function Linear(r: Run, will: set<nat>, n: nat): seq<Deed>
    requires |r.states| == |r.events| + 1 && n <= |r.events|
  {
    if n == 0 then []
    else
      match DeedOf(r.states[n - 1], r.events[n - 1], r.states[n], will)
      case Some(d) => Linear(r, will, n - 1) + [d]
      case None => Linear(r, will, n - 1)
  }

  lemma {:induction false} Steady(m: Mechanisms, r: Run, i: nat, j: nat)
    requires r.Valid(m) && i <= j < |r.states|
    ensures |r.states[j].txs| == |r.states[i].txs|
    ensures forall t :: 0 <= t < |r.states[i].txs| ==>
      r.states[j].txs[t].call == r.states[i].txs[t].call &&
      (r.states[i].txs[t].Finished() ==> r.states[j].txs[t] == r.states[i].txs[t])
  {
    if i < j {
      Steady(m, r, i, j - 1);
      assert Next(m, r.states[j - 1], r.events[j - 1], r.states[j]);
    }
  }

  lemma AllFated(m: Mechanisms, r: Run, i: nat)
    requires r.Valid(m) && i < |r.events|
    ensures Fated(r.events[i], Winners(r.Last()))
  {
    assert Next(m, r.states[i], r.events[i], r.states[i + 1]);
    Steady(m, r, i + 1, |r.states| - 1);
  }

  /** The calls of `deeds` are exactly those in `will` that have pledged, once each, with the
      outcome they pledged. */
  ghost predicate Accounted(s: State, will: set<nat>, deeds: seq<Deed>) {
    && (forall k :: 0 <= k < |deeds| && deeds[k].Called? ==>
          deeds[k].tag < |s.txs| && deeds[k].tag in will && deeds[k].call == s.txs[deeds[k].tag].call
          && PledgeOf(s.txs[deeds[k].tag]) == Some(Pledge(deeds[k].used, deeds[k].ruling)))
    && (forall j, k :: 0 <= j < k < |deeds| && deeds[j].Called? && deeds[k].Called? ==> deeds[j].tag != deeds[k].tag)
    && (forall t: nat :: t < |s.txs| && t in will && PledgeOf(s.txs[t]).Some? ==> Mentioned(deeds, t))
  }

  ghost predicate Mentioned(deeds: seq<Deed>, t: nat) {
    exists k :: 0 <= k < |deeds| && deeds[k].Called? && deeds[k].tag == t
  }

  lemma MentionedSnoc(deeds: seq<Deed>, d: Deed, t: nat)
    ensures Mentioned(deeds, t) ==> Mentioned(deeds + [d], t)
    ensures d.Called? ==> Mentioned(deeds + [d], d.tag)
  {
    if Mentioned(deeds, t) {
      var k :| 0 <= k < |deeds| && deeds[k].Called? && deeds[k].tag == t;
      assert (deeds + [d])[k] == deeds[k];
    }
    assert (deeds + [d])[|deeds|] == d;
  }

  /** Everyone in `will`, but for `t`, is where it was as far as pledges go. */
  ghost predicate SamePledges(s: State, s': State, will: set<nat>, t: int) {
    && |s.txs| == |s'.txs|
    && forall i :: 0 <= i < |s.txs| && i in will && i != t ==>
         s'.txs[i].call == s.txs[i].call && PledgeOf(s'.txs[i]) == PledgeOf(s.txs[i])
  }

  lemma AccountedSame(s: State, s': State, will: set<nat>, deeds: seq<Deed>)
    requires Accounted(s, will, deeds) && SamePledges(s, s', will, -1)
    ensures Accounted(s', will, deeds)
  {
  }

  lemma AccountedMore(s: State, s': State, will: set<nat>, deeds: seq<Deed>, d: Deed)
    requires Accounted(s, will, deeds) && d.Called? && SamePledges(s, s', will, d.tag)
    requires d.tag < |s.txs| && d.tag in will && PledgeOf(s.txs[d.tag]).None?
    requires s'.txs[d.tag].call == d.call && PledgeOf(s'.txs[d.tag]) == Some(Pledge(d.used, d.ruling))
    ensures Accounted(s', will, deeds + [d])
  {
    forall t: nat | t < |s'.txs| && t in will && PledgeOf(s'.txs[t]).Some? ensures Mentioned(deeds + [d], t) {
      MentionedSnoc(deeds, d, t);
    }
  }

  lemma AccountedGrant(s: State, s': State, will: set<nat>, deeds: seq<Deed>, d: Deed)
    requires Accounted(s, will, deeds) && d.Granted? && s'.txs == s.txs
    ensures Accounted(s', will, deeds + [d])
  {
    forall t: nat | t < |s'.txs| && t in will && PledgeOf(s'.txs[t]).Some? ensures Mentioned(deeds + [d], t) {
      MentionedSnoc(deeds, d, t);
    }
  }

  lemma StepAccounted(m: Mechanisms, first: Tables, s: State, e: Event, s': State, will: set<nat>, deeds: seq<Deed>)
    requires Orderly(m, first, s) && Next(m, s, e, s') && Fated(e, will) && Accounted(s, will, deeds)
    ensures var d := DeedOf(s, e, s', will); Accounted(s', will, if d.Some? then deeds + [d.value] else deeds)
  {
    var d := DeedOf(s, e, s', will);
    if e.Granting? {
      AccountedGrant(s, s', will, deeds, d.value);
    } else if d.Some? {
      AccountedMore(s, s', will, deeds, d.value);
    } else {
      if e.Acting? && e.t in will && PledgeOf(s.txs[e.t]).Some? {
        PledgeKept(m, first, s, e.t, e.to);
      }
      AccountedSame(s, s', will, deeds);
    }
  }

  /** Where the serial history stands after the first `n` steps. */
  ghost predicate LinearAt(r: Run, n: nat)
    requires |r.states| == |r.events| + 1 && n <= |r.events|
  {
    var will := Winners(r.Last());
    var deeds := Linear(r, will, n);
    && Serial(r.First().db, deeds)
    && After(r.First().db, deeds) == Settled(r.states[n], will)
    && Accounted(r.states[n], will, deeds)
  }

  lemma LinearStart(m: Mechanisms, r: Run)
    requires r.Valid(m)
    ensures LinearAt(r, 0)
  {
    var s := r.First();
    assert forall t :: 0 <= t < |s.txs| ==> s.txs[t].pc == Entry(s.txs[t].call);
    NoDebts(s, Winners(r.Last()), |s.txs|);
  }

  lemma LinearNext(m: Mechanisms, r: Run, n: nat)
    requires r.Valid(m) && n < |r.events| && Orderly(m, r.First().db, r.states[n]) && LinearAt(r, n)
    ensures LinearAt(r, n + 1)
  {
    var will := Winners(r.Last());
    AllFated(m, r, n);
    var s, e, s' := r.states[n], r.events[n], r.states[n + 1];
    StepSettled(m, r.First().db, s, e, s', will);
    StepAccounted(m, r.First().db, s, e, s', will, Linear(r, will, n));
    var d := DeedOf(s, e, s', will);
    if d.Some? { SerialSnoc(r.First().db, Linear(r, will, n), d.value); }
  }

  lemma LinearUpTo(m: Mechanisms, r: Run, n: nat)
    requires r.Valid(m) && TakeTurns(r.First().db, r.First().txs) && n <= |r.events|
    ensures LinearAt(r, n)
  {
    LinearStart(m, r);
    for i := 0 to n
      invariant LinearAt(r, i)
    {
      RunOrderly(m, r, i);
      LinearNext(m, r, i);
    }
  }

  lemma {:induction false} NoDebts(s: State, will: set<nat>, k: nat)
    requires k <= |s.txs| && forall t :: 0 <= t < k && t in will ==> !Owes(s.txs[t])
    ensures Settle(s.db, s.txs, will, k) == s.db
  {
    if k > 0 {
      NoDebts(s, will, k - 1);
    }
  }

  /** The serial history of a whole run. */
  function History(r: Run): seq<Deed>
    requires |r.states| == |r.events| + 1
  {
    Linear(r, Winners(r.Last()), |r.events|)
  }

  /** The grants of a serial history, in order. */
  function GrantsIn(deeds: seq<Deed>): seq<(string, Approval)> {
    if deeds == [] then []
    else
      var d := deeds[|deeds| - 1];
      GrantsIn(deeds[..|deeds| - 1]) + if d.Granted? then [(d.id, d.row)] else []
  }

  /** The grants of a run, in order. */
  function GrantsOf(events: seq<Event>): seq<(string, Approval)> {
    if events == [] then []
    else
      var e := events[|events| - 1];
      GrantsOf(events[..|events| - 1]) + if e.Granting? then [(e.id, e.row)] else []
  }

  lemma {:induction false} GrantsKept(r: Run, will: set<nat>, n: nat)
    requires |r.states| == |r.events| + 1 && n <= |r.events|
    ensures GrantsIn(Linear(r, will, n)) == GrantsOf(r.events[..n])
  {
    if n > 0 {
      GrantsKept(r, will, n - 1);
      assert r.events[..n][..n - 1] == r.events[..n - 1];
      var d := DeedOf(r.states[n - 1], r.events[n - 1], r.states[n], will);
      if d.Some? {
        assert (Linear(r, will, n - 1) + [d.value])[..|Linear(r, will, n - 1)|] == Linear(r, will, n - 1);
      }
    }
  }

  /** Each committed call occurs once in `deeds`, with the decision, reason, approval and quota
      position it committed with, and no other call occurs. */
  ghost predicate CommittedOnce(s: State, deeds: seq<Deed>) {
    && (forall k :: 0 <= k < |deeds| && deeds[k].Called? ==>
          deeds[k].tag < |s.txs| && s.txs[deeds[k].tag] == Tx(deeds[k].call, Committed(deeds[k].used, deeds[k].ruling)))
    && (forall j, k :: 0 <= j < k < |deeds| && deeds[j].Called? && deeds[k].Called? ==> deeds[j].tag != deeds[k].tag)
    && (forall t: nat :: t < |s.txs| && s.txs[t].pc.Committed? ==> Mentioned(deeds, t))
  }

  /** Serialisability. Where rivals take turns, whatever the interleaving, the grants and
      the failures: running the committed calls one at a time, in the order of their deciding
      statements, is possible, gives each the very outcome it committed with, and ends in the same
      tables. */
  lemma Serialisable(m: Mechanisms, r: Run)
    requires r.Valid(m) && TakeTurns(r.First().db, r.First().txs)
    ensures Serial(r.First().db, History(r))
    ensures After(r.First().db, History(r)) == r.Last().db
    ensures CommittedOnce(r.Last(), History(r))
    ensures GrantsIn(History(r)) == GrantsOf(r.events)
  {
    LinearUpTo(m, r, |r.events|);
    GrantsKept(r, Winners(r.Last()), |r.events|);
    assert r.events[..|r.events|] == r.events;
    NoDebts(r.Last(), Winners(r.Last()), |r.Last().txs|);
    EndsCommitted(r.Last(), History(r));
  }

  lemma EndsCommitted(s: State, deeds: seq<Deed>)
    requires Accounted(s, Winners(s), deeds)
    ensures CommittedOnce(s, deeds)
  {
  }
}
