/** Quota positions: no gaps and no repeats in a window, and what that bounds over any interval. */
module Quota {
  import opened Domain
  import opened RateLimit
  import opened Ledger
  import opened Machine
  import opened Invariant
  import opened Cardinality

  // ---------------------------------------------------------------- one bucket

  /** A committed call that claimed a unit of `b`. */
  predicate Claimed(tx: Tx, b: Bucket) {
    tx.pc.Committed? && tx.call.Counted() && tx.call.Key() == b
  }

  predicate SamePosition(tx: Tx, other: Tx, b: Bucket) {
    Claimed(tx, b) && Claimed(other, b) && tx.pc.used == other.pc.used
  }

  ghost predicate HasPosition(txs: seq<Tx>, b: Bucket, p: int) {
    exists t :: 0 <= t < |txs| && Claimed(txs[t], b) && txs[t].pc.used == p
  }

  /** Positions above `base`, which were handed out before the run, are used once each up to the
      stored count. */
  ghost predicate GapFree(s: State, b: Bucket, base: nat) {
    && base <= Count(s.db, b)
    && (forall t :: 0 <= t < |s.txs| && Claimed(s.txs[t], b) ==> base < s.txs[t].pc.used <= Count(s.db, b))
    && (forall t, u :: 0 <= t < |s.txs| && 0 <= u < |s.txs| && SamePosition(s.txs[t], s.txs[u], b) ==> t == u)
    && (forall p {:trigger HasPosition(s.txs, b, p)} :: base < p <= Count(s.db, b) ==> HasPosition(s.txs, b, p))
  }

  lemma HasPositionMoves(txs: seq<Tx>, t: nat, tx: Tx, b: Bucket, p: int)
    requires t < |txs| && !txs[t].pc.Committed? && HasPosition(txs, b, p)
    ensures HasPosition(txs[t := tx], b, p)
  {
    var u :| 0 <= u < |txs| && Claimed(txs[u], b) && txs[u].pc.used == p;
    assert txs[t := tx][u] == txs[u];
  }

  /** A move that commits no claim on `b` leaves its positions and its count alone; one that does
      takes the next. */
  lemma StepPositions(m: Mechanisms, s: State, t: nat, to: Pc, b: Bucket, base: nat)
    requires Inv(m, s) && t < |s.txs| && !s.txs[t].pc.Committed? && GapFree(s, b, base)
    requires Acts(m, s, t, to) || to.Aborted?
    ensures var s' := Move(s, t, to);
      if Claimed(s'.txs[t], b) then Count(s'.db, b) == to.used == Count(s.db, b) + 1 else Count(s'.db, b) == Count(s.db, b)
  {
    assert TxOk(m, s.db, s.txs[t]);
  }

  lemma StepReaches(m: Mechanisms, s: State, t: nat, to: Pc, b: Bucket, base: nat)
    requires Inv(m, s) && t < |s.txs| && !s.txs[t].pc.Committed? && GapFree(s, b, base)
    requires Acts(m, s, t, to) || to.Aborted?
    ensures var s' := Move(s, t, to); forall p :: base < p <= Count(s'.db, b) ==> HasPosition(s'.txs, b, p)
  {
    var s' := Move(s, t, to);
    StepPositions(m, s, t, to, b, base);
    forall p | base < p <= Count(s'.db, b) ensures HasPosition(s'.txs, b, p) {
      if p <= Count(s.db, b) {
        HasPositionMoves(s.txs, t, s'.txs[t], b, p);
      } else {
        assert Claimed(s'.txs[t], b) && s'.txs[t].pc.used == p;
      }
    }
  }

  lemma StepGapFree(m: Mechanisms, s: State, e: Event, s': State, b: Bucket, base: nat)
    requires Inv(m, s) && Next(m, s, e, s') && GapFree(s, b, base)
    ensures GapFree(s', b, base)
  {
    if !e.Granting? {
      var t, to := e.t, s'.txs[e.t].pc;
      assert !s.txs[t].pc.Committed?;
      StepPositions(m, s, t, to, b, base);
      StepReaches(m, s, t, to, b, base);
    }
  }

  /** Positions stay gap-free in every state of every run, wherever transactions fail. */
  lemma {:induction false} RunGapFree(m: Mechanisms, r: Run, b: Bucket, i: nat)
    requires r.Valid(m) && i < |r.states|
    ensures GapFree(r.states[i], b, Count(r.First().db, b))
  {
    if i == 0 {
      assert forall t :: 0 <= t < |r.states[0].txs| ==> r.states[0].txs[t].pc == Entry(r.states[0].txs[t].call);
    } else {
      RunGapFree(m, r, b, i - 1);
      RunInv(m, r, i - 1);
      StepGapFree(m, r.states[i - 1], r.events[i - 1], r.states[i], b, Count(r.First().db, b));
    }
  }

  /** The committed calls of a bucket with a position of at most `hi`. */
  function Upto(s: State, b: Bucket, hi: int): set<nat> {
    set t: nat | 0 <= t < |s.txs| && Claimed(s.txs[t], b) && s.txs[t].pc.used <= hi
  }

  function PositionsOf(s: State, b: Bucket, hi: int): map<nat, int> {
    map t | t in Upto(s, b, hi) :: s.txs[t].pc.used
  }

  lemma PositionsInjective(s: State, b: Bucket, base: nat, hi: int)
    requires GapFree(s, b, base)
    ensures Injective(PositionsOf(s, b, hi))
  {
    var f := PositionsOf(s, b, hi);
    forall t, u | t in f && u in f && f[t] == f[u] ensures t == u {
      assert SamePosition(s.txs[t], s.txs[u], b);
    }
  }

  lemma PositionsReach(s: State, b: Bucket, base: nat, hi: int, p: int)
    requires GapFree(s, b, base) && base < p <= hi <= Count(s.db, b)
    ensures Reaches(PositionsOf(s, b, hi), p)
  {
    assert HasPosition(s.txs, b, p);
    var t: nat :| t < |s.txs| && Claimed(s.txs[t], b) && s.txs[t].pc.used == p;
    assert t in PositionsOf(s, b, hi) && PositionsOf(s, b, hi)[t] == p;
  }

  /** Up to any position handed out, the holders and the positions match one to one. */
  lemma UptoExact(s: State, b: Bucket, base: nat, hi: int)
    requires GapFree(s, b, base) && hi <= Count(s.db, b)
    ensures PositionsOf(s, b, hi).Keys == Upto(s, b, hi)
    ensures Bijection(PositionsOf(s, b, hi), Span(base + 1, hi + 1))
    ensures |Upto(s, b, hi)| == if base <= hi then hi - base else 0
  {
    var f, span := PositionsOf(s, b, hi), Span(base + 1, hi + 1);
    PositionsInjective(s, b, base, hi);
    forall p | p in span ensures Reaches(f, p) {
      PositionsReach(s, b, base, hi, p);
    }
    BijectionSize(f, span);
  }

  /** A committed call that went on past the ceiling. */
  predicate Passed(tx: Tx) {
    tx.pc.Committed? && tx.call.Counted() && tx.pc.ruling != Refused(Some(RateLimited))
  }

  lemma PassedMeans(m: Mechanisms, s: State, t: nat)
    requires Inv(m, s) && t < |s.txs| && s.txs[t].pc.Committed? && s.txs[t].call.Counted()
    ensures Passed(s.txs[t]) <==> s.txs[t].pc.used <= s.txs[t].call.limit
  {
    assert TxOk(m, s.db, s.txs[t]);
  }

  function Claimants(s: State, b: Bucket): set<nat> {
    set t: nat | 0 <= t < |s.txs| && Claimed(s.txs[t], b)
  }

  function PassedIn(s: State, b: Bucket): set<nat> {
    set t: nat | 0 <= t < |s.txs| && Claimed(s.txs[t], b) && Passed(s.txs[t])
  }

  /** The committed calls of a bucket number exactly as many as its counter rose, and hold exactly
      the positions it rose through. */
  lemma PositionsExact(m: Mechanisms, r: Run, i: nat, b: Bucket)
    requires r.Valid(m) && i < |r.states|
    ensures var s, base, count := r.states[i], Count(r.First().db, b), Count(r.states[i].db, b);
      && |Claimants(s, b)| == count - base
      && PositionsOf(s, b, count).Keys == Claimants(s, b)
      && Bijection(PositionsOf(s, b, count), Span(base + 1, count + 1))
  {
    var s, base, count := r.states[i], Count(r.First().db, b), Count(r.states[i].db, b);
    RunGapFree(m, r, b, i);
    UptoExact(s, b, base, count);
    assert Upto(s, b, count) == Claimants(s, b);
  }

  ghost predicate OneLimit(s: State, b: Bucket, limit: int) {
    forall t :: 0 <= t < |s.txs| && Claimed(s.txs[t], b) ==> s.txs[t].call.limit == limit
  }

  lemma PassedAreEarly(m: Mechanisms, s: State, b: Bucket, limit: int)
    requires Inv(m, s) && OneLimit(s, b, limit)
    ensures PassedIn(s, b) == Upto(s, b, limit)
  {
    forall t: nat | t < |s.txs| && Claimed(s.txs[t], b) ensures Passed(s.txs[t]) <==> s.txs[t].pc.used <= limit {
      PassedMeans(m, s, t);
    }
  }

  /** Under one limit, the calls that went past the ceiling are exactly those whose position is
      within it, so never more than the limit leaves. */
  lemma CeilingHolds(m: Mechanisms, r: Run, i: nat, b: Bucket, limit: int)
    requires r.Valid(m) && i < |r.states| && OneLimit(r.states[i], b, limit)
    ensures PassedIn(r.states[i], b) == Upto(r.states[i], b, limit)
    ensures |PassedIn(r.states[i], b)| <= if Count(r.First().db, b) <= limit then limit - Count(r.First().db, b) else 0
  {
    var s, base, count := r.states[i], Count(r.First().db, b), Count(r.states[i].db, b);
    RunInv(m, r, i);
    PassedAreEarly(m, s, b, limit);
    RunGapFree(m, r, b, i);
    var hi := if limit < count then limit else count;
    UptoExact(s, b, base, hi);
    assert Upto(s, b, hi) == Upto(s, b, limit);
  }

  // ---------------------------------------------------------------- any interval

  const WINDOW_MICROS := 60_000_000

  function Window(moment: Moment): int {
    WindowStart(moment) / WINDOW_SECONDS
  }

  function CeilDiv(a: int, b: int): int
    requires b > 0
  {
    (a + b - 1) / b
  }

  lemma WindowFormula(moment: Moment)
    ensures Window(moment) == (if moment >= 0 then moment else moment + MICROS - 1) / WINDOW_MICROS
  {
    if moment < 0 {
      assert Seconds(moment) == (moment + MICROS - 1) / MICROS;
    }
  }

  /** An interval of `length` microseconds meets at most one window more than it is long. */
  lemma WindowsMet(x: Moment, length: int, moment: Moment)
    requires x <= moment < x + length
    ensures Window(x) <= Window(moment) <= Window(x) + CeilDiv(length, WINDOW_MICROS)
  {
    WindowFormula(x);
    WindowFormula(moment);
  }
}
