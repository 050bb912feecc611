/** The sliding bound is attained: a run that lets twice the limit through within one minute. */
module Burst {
  import opened Domain
  import opened RateLimit
  import opened Ledger
  import opened Machine
  import opened Books
  import opened Cardinality
  import opened Serialisability
  import opened Reachability
  import opened Quota
  import opened Sliding

  function Name(prefix: string, i: nat): string {
    prefix + seq(i, _ => '0')
  }

  /** The i-th of 2 * limit calls: half in the last microsecond of a window, half in the first of
      the next. */
  function Burst(limit: nat, i: nat): Call {
    Call(
      Verdict(true, None, {"account:flag"}, Some("agent-7"), Some("jti"), [], Some("account:flag"), "hardened"),
      "account:flag", "flag_account", "ACC-1", Some(0), if i < limit then WINDOW_MICROS - 1 else WINDOW_MICROS,
      limit, Name("eff_", i), Name("aud_", i))
  }

  function BurstDeed(limit: nat, i: nat): Deed {
    Called(i, Burst(limit, i), if i < limit then i + 1 else i - limit + 1, Reversible)
  }

  function BurstDeeds(limit: nat, n: nat): seq<Deed> {
    seq(n, (i: nat) => BurstDeed(limit, i))
  }

  const EARLY := Bucket("agent-7", "flag_account", 0)
  const LATE := Bucket("agent-7", "flag_account", 60)

  lemma BurstFacts(limit: nat, i: nat)
    ensures Burst(limit, i).Key() == if i < limit then EARLY else LATE
    ensures !Burst(limit, i).Irreversible()
    ensures limit > 0 ==> Burst(limit, i).Counted()
  {
    assert "flag_account"[0] != "issue_credit"[0];
  }

  /** One more call of the burst: it takes the next position of its own window. */
  lemma BurstNext(limit: nat, i: nat, db: Tables)
    requires 0 < limit && i < 2 * limit
    requires Count(db, EARLY) == (if i < limit then i else limit) && Count(db, LATE) == (if i < limit then 0 else i - limit)
    ensures var d := BurstDeed(limit, i); var n := i + 1;
      && Allowed(db, d)
      && Count(Do(db, d), EARLY) == (if n < limit then n else limit)
      && Count(Do(db, d), LATE) == (if n < limit then 0 else n - limit)
  {
    BurstFacts(limit, i);
  }

  lemma BurstDeedsSnoc(limit: nat, n: nat)
    ensures BurstDeeds(limit, n + 1) == BurstDeeds(limit, n) + [BurstDeed(limit, n)]
  {
  }

  /** Where the counters stand after the first `n` calls. */
  ghost predicate BurstAt(limit: nat, n: nat) {
    && Serial(EMPTY, BurstDeeds(limit, n))
    && Count(After(EMPTY, BurstDeeds(limit, n)), EARLY) == (if n < limit then n else limit)
    && Count(After(EMPTY, BurstDeeds(limit, n)), LATE) == (if n < limit then 0 else n - limit)
  }

  lemma BurstSerial(limit: nat, n: nat)
    requires 0 < limit && n <= 2 * limit
    ensures BurstAt(limit, n)
  {
    for i := 0 to n
      invariant BurstAt(limit, i)
    {
      BurstNext(limit, i, After(EMPTY, BurstDeeds(limit, i)));
      SerialSnoc(EMPTY, BurstDeeds(limit, i), BurstDeed(limit, i));
      BurstDeedsSnoc(limit, i);
    }
  }

  function BurstState(limit: nat): State {
    State(EMPTY, seq(2 * limit, (i: nat) => Tx(Burst(limit, i), Entry(Burst(limit, i)))))
  }

  lemma BurstInitial(limit: nat)
    ensures Initial(BurstState(limit)) && Honest(EMPTY)
    ensures Tagged(BurstState(limit).txs, BurstDeeds(limit, 2 * limit))
  {
    var txs := BurstState(limit).txs;
    forall i, j | 0 <= i < j < |txs|
      ensures txs[i].call.effectId != txs[j].call.effectId && txs[i].call.auditId != txs[j].call.auditId
    {
      assert |Name("eff_", i)| != |Name("eff_", j)| && |Name("aud_", i)| != |Name("aud_", j)|;
    }
  }

  /** Where every burst call has committed, all of them passed within the minute. */
  lemma BurstCount(limit: nat, s: State)
    requires 0 < limit && |s.txs| == 2 * limit
    requires forall t: nat :: t < |s.txs| ==>
      s.txs[t] == Tx(Burst(limit, t), Committed(BurstDeed(limit, t).used, Reversible))
    ensures |PassedDuring(s, "agent-7", "flag_account", WINDOW_MICROS - 1, WINDOW_MICROS)| == 2 * limit
  {
    var during := PassedDuring(s, "agent-7", "flag_account", WINDOW_MICROS - 1, WINDOW_MICROS);
    var same := map t | t in during :: t as int;
    forall t: nat | t < |s.txs| ensures t in during {
      BurstFacts(limit, t);
    }
    forall t | t in Span(0, 2 * limit) ensures Reaches(same, t) {
      assert same[t] == t;
    }
    assert same.Keys == during;
    BijectionSize(same, Span(0, 2 * limit));
  }

  /** Some run lets exactly twice the limit through within one minute. */
  lemma TwiceTheLimitAttained(m: Mechanisms, limit: nat) returns (r: Run)
    requires m.guard && 0 < limit
    ensures r.Valid(m) && forall t :: 0 <= t < |r.Last().txs| ==> r.Last().txs[t].call.limit == limit
    ensures |PassedDuring(r.Last(), "agent-7", "flag_account", WINDOW_MICROS - 1, WINDOW_MICROS)| == 2 * limit
  {
    var deeds := BurstDeeds(limit, 2 * limit);
    BurstSerial(limit, 2 * limit);
    BurstInitial(limit);
    r := SerialIsReachable(m, BurstState(limit), deeds);
    forall t: nat | t < 2 * limit
      ensures r.Last().txs[t] == Tx(Burst(limit, t), Committed(BurstDeed(limit, t).used, Reversible))
    {
      assert deeds[t] == BurstDeed(limit, t);
    }
    BurstCount(limit, r.Last());
  }
}
