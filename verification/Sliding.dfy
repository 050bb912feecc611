/** How many calls of one subject and tool get past the ceiling in an arbitrary interval. */
module Sliding {
  import opened Domain
  import opened RateLimit
  import opened Ledger
  import opened Machine
  import opened Invariant
  import opened Cardinality
  import opened Quota

  /** The committed calls of `subject` and `tool` past the ceiling, with a moment in the interval of
      `length` microseconds from `x`. */
  function PassedDuring(s: State, subject: string, tool: string, x: Moment, length: int): set<nat> {
    set t: nat | 0 <= t < |s.txs| && Passed(s.txs[t]) && s.txs[t].call.Subject() == subject
                 && s.txs[t].call.tool == tool && x <= s.txs[t].call.moment < x + length
  }

  /** Where a passed call stands: its window, and its position there. */
  function Places(s: State, of: set<nat>): map<nat, (int, int)>
    requires forall t :: t in of ==> t < |s.txs| && s.txs[t].pc.Committed?
  {
    map t | t in of :: (Window(s.txs[t].call.moment), s.txs[t].pc.used as int)
  }

  lemma WindowDetermines(c: Call, d: Call)
    requires c.Subject() == d.Subject() && c.tool == d.tool && Window(c.moment) == Window(d.moment)
    ensures c.Key() == d.Key()
  {
  }

  lemma PlacesInjective(m: Mechanisms, r: Run, i: nat, subject: string, tool: string, x: Moment, length: int)
    requires r.Valid(m) && i < |r.states|
    ensures Injective(Places(r.states[i], PassedDuring(r.states[i], subject, tool, x, length)))
  {
    var s := r.states[i];
    var f := Places(s, PassedDuring(s, subject, tool, x, length));
    forall t, u | t in f && u in f && f[t] == f[u] ensures t == u {
      WindowDetermines(s.txs[t].call, s.txs[u].call);
      RunGapFree(m, r, s.txs[t].call.Key(), i);
      assert SamePosition(s.txs[t], s.txs[u], s.txs[t].call.Key());
    }
  }

  /** No call of `subject` and `tool` has a higher limit. */
  ghost predicate Capped(s: State, subject: string, tool: string, limit: nat) {
    forall t :: 0 <= t < |s.txs| ==>
      (s.txs[t].call.Subject() == subject && s.txs[t].call.tool == tool ==> s.txs[t].call.limit <= limit)
  }

  /** In any interval of any run, at most (ceil(length / window) + 1) * limit calls of one subject
      and tool go past the ceiling. */
  lemma SlidingBound(m: Mechanisms, r: Run, i: nat, subject: string, tool: string, x: Moment, length: nat, limit: nat)
    requires r.Valid(m) && i < |r.states|
    requires Capped(r.states[i], subject, tool, limit)
    ensures |PassedDuring(r.states[i], subject, tool, x, length)| <= (CeilDiv(length, WINDOW_MICROS) + 1) * limit
  {
    var s := r.states[i];
    var during := PassedDuring(s, subject, tool, x, length);
    var f := Places(s, during);
    var windows := Span(Window(x), Window(x) + CeilDiv(length, WINDOW_MICROS) + 1);
    var positions := Span(1, limit + 1);
    RunInv(m, r, i);
    forall t | t in f ensures f[t] in Grid(windows, positions) {
      WindowsMet(x, length, s.txs[t].call.moment);
      assert TxOk(m, s.db, s.txs[t]);
      PassedMeans(m, s, t);
    }
    PlacesInjective(m, r, i, subject, tool, x, length);
    InjectionBound(f, Grid(windows, positions));
    assert f.Keys == during;
    GridSize(windows, positions);
  }

  /** Over an arbitrary minute the worst case is twice the limit. */
  lemma TwiceTheLimit(m: Mechanisms, r: Run, i: nat, subject: string, tool: string, x: Moment, limit: nat)
    requires r.Valid(m) && i < |r.states|
    requires Capped(r.states[i], subject, tool, limit)
    ensures |PassedDuring(r.states[i], subject, tool, x, WINDOW_MICROS)| <= 2 * limit
  {
    SlidingBound(m, r, i, subject, tool, x, WINDOW_MICROS, limit);
    assert CeilDiv(WINDOW_MICROS, WINDOW_MICROS) == 1;
  }
}
