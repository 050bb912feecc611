/** The converse of serialisability: every serial history is a run of the machine. */
module Reachability {
  import opened Domain
  import opened Ledger
  import opened Machine
  import opened Invariant
  import opened Books
  import opened Drive
  import opened Serialisability

  /** Each call of `deeds` is one of the transactions, and no transaction is called twice. */
  ghost predicate Tagged(txs: seq<Tx>, deeds: seq<Deed>) {
    && (forall k :: 0 <= k < |deeds| && deeds[k].Called? ==>
          deeds[k].tag < |txs| && deeds[k].call == txs[deeds[k].tag].call)
    && (forall j, k :: 0 <= j < k < |deeds| && deeds[j].Called? && deeds[k].Called? ==> deeds[j].tag != deeds[k].tag)
  }

  /** The called transactions have committed with their outcomes and the rest have not begun. */
  ghost predicate Realised(s0: State, s: State, deeds: seq<Deed>) {
    && |s.txs| == |s0.txs|
    && (forall k :: 0 <= k < |deeds| && deeds[k].Called? ==>
          deeds[k].tag < |s.txs| && s.txs[deeds[k].tag] == Tx(deeds[k].call, Committed(deeds[k].used, deeds[k].ruling)))
    && (forall t: nat :: t < |s.txs| && !Mentioned(deeds, t) ==> s.txs[t] == s0.txs[t])
  }

  /** `r` starts at `s0`, loses nothing to a failure, and realises `deeds`. */
  ghost predicate Achieves(m: Mechanisms, s0: State, deeds: seq<Deed>, r: Run) {
    && r.Valid(m) && r.First() == s0
    && r.Last().db == After(s0.db, deeds) && Realised(s0, r.Last(), deeds)
    && forall i :: 0 <= i < |r.events| ==> !r.events[i].Failing?
  }

  lemma {:induction false} SerialIsReachable(m: Mechanisms, s0: State, deeds: seq<Deed>) returns (r: Run)
    requires m.guard && Initial(s0) && Honest(s0.db) && Tagged(s0.txs, deeds) && Serial(s0.db, deeds)
    ensures Achieves(m, s0, deeds, r)
    decreases |deeds|
  {
    if deeds == [] {
      r := Run([s0], []);
    } else {
      var n := |deeds| - 1;
      assert deeds == deeds[..n] + [deeds[n]];
      var before := SerialIsReachable(m, s0, deeds[..n]);
      SerialSnoc(s0.db, deeds[..n], deeds[n]);
      if deeds[n].Granted? {
        r := GrantNext(m, s0, deeds[..n], before, deeds[n]);
      } else {
        r := CallNext(m, s0, deeds[..n], before, deeds[n]);
      }
    }
  }

  lemma GrantNext(m: Mechanisms, s0: State, deeds: seq<Deed>, before: Run, d: Deed) returns (r: Run)
    requires Achieves(m, s0, deeds, before) && d.Granted? && Allowed(After(s0.db, deeds), d)
    ensures Achieves(m, s0, deeds + [d], r)
  {
    var s := before.Last();
    var s' := s.(db := Grant(s.db, d.id, d.row));
    r := before.Then(Granting(d.id, d.row), s');
    ThenValid(m, before, Granting(d.id, d.row), s');
    SerialSnoc(s0.db, deeds, d);
    forall t: nat | t < |s.txs| ensures Mentioned(deeds, t) ==> Mentioned(deeds + [d], t) {
      MentionedSnoc(deeds, d, t);
    }
  }

  lemma CallNext(m: Mechanisms, s0: State, deeds: seq<Deed>, before: Run, d: Deed) returns (r: Run)
    requires m.guard && Initial(s0) && Honest(s0.db)
    requires Achieves(m, s0, deeds, before) && d.Called? && Allowed(After(s0.db, deeds), d)
    requires d.tag < |s0.txs| && d.call == s0.txs[d.tag].call
    requires forall k :: 0 <= k < |deeds| && deeds[k].Called? ==> deeds[k].tag != d.tag
    ensures Achieves(m, s0, deeds + [d], r)
  {
    var s := before.Last();
    NotYet(s0, s, deeds, d.tag);
    assert !(d.ruling.Issued? && Taken(s.db, d.ruling.approvalId)) by {
      RunSingle(m, before, |before.events|);
    }
    r := RunAlone(m, before, d.tag, d.used, d.ruling);
    RealisedOnce(s0, s, deeds, d, r.Last());
    SerialSnoc(s0.db, deeds, d);
    forall i | 0 <= i < |r.events| ensures !r.events[i].Failing? {
      if i < |before.events| { assert r.events[i] == before.events[i]; }
    }
    assert r.First() == before.states[0];
  }

  lemma NotYet(s0: State, s: State, deeds: seq<Deed>, t: nat)
    requires Initial(s0) && Realised(s0, s, deeds) && t < |s.txs|
    requires forall k :: 0 <= k < |deeds| && deeds[k].Called? ==> deeds[k].tag != t
    ensures s.txs[t].pc == Entry(s.txs[t].call) && s.txs[t] == s0.txs[t]
    ensures Quiet(s, t)
  {
    assert !Mentioned(deeds, t);
    forall i | 0 <= i < |s.txs| && i != t
      ensures s.txs[i].HeldBucket().None? && s.txs[i].HeldApproval().None? && s.txs[i].Inserted().None?
    {
      if Mentioned(deeds, i) {
        var k :| 0 <= k < |deeds| && deeds[k].Called? && deeds[k].tag == i;
        assert s.txs[i].pc.Committed?;
      } else {
        assert s.txs[i].pc == Entry(s.txs[i].call);
      }
    }
  }

  lemma RealisedOnce(s0: State, s: State, deeds: seq<Deed>, d: Deed, s': State)
    requires Realised(s0, s, deeds) && d.Called? && d.tag < |s.txs| && d.call == s.txs[d.tag].call
    requires forall k :: 0 <= k < |deeds| && deeds[k].Called? ==> deeds[k].tag != d.tag
    requires s' == Move(s, d.tag, Committed(d.used, d.ruling))
    ensures Realised(s0, s', deeds + [d])
  {
    forall t: nat | t < |s'.txs| && !Mentioned(deeds + [d], t) ensures s'.txs[t] == s0.txs[t] {
      MentionedSnoc(deeds, d, t);
    }
  }
}
