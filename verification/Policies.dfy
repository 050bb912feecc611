/** The naive and the hardened policy over one history: the same grants and the same requests, two
    databases that drift apart after the first disagreement. */
module Policies {
  import opened Domain
  import opened RateLimit
  import opened Ledger
  import opened Authz
  import opened Effects
  import opened Machine
  import opened Cardinality
  import opened Books

  datatype Op = Approve(id: string, row: Approval) | Ask(request: Request)

  /** One operation under a policy, run alone; random identifiers are fresh. */
  ghost predicate Plays(policy: Policy, limit: int, db: Tables, op: Op, db': Tables) {
    match op
    case Approve(id, row) => Grantable(db, id, row) && db' == Grant(db, id, row)
    case Ask(q) =>
      && q.effectId !in db.effects && q.auditId !in db.audit
      && exists o :: Ends(db, CallOf(policy, q, limit), o, db')
  }

  /** The databases a policy passes through on a history. */
  ghost predicate Trace(policy: Policy, limit: int, ops: seq<Op>, dbs: seq<Tables>) {
    && |dbs| == |ops| + 1
    && forall i {:trigger StepAt(policy, limit, ops, dbs, i)} :: 0 <= i < |ops| ==> StepAt(policy, limit, ops, dbs, i)
  }

  ghost predicate StepAt(policy: Policy, limit: int, ops: seq<Op>, dbs: seq<Tables>, i: nat)
    requires i < |ops| < |dbs|
  {
    Plays(policy, limit, dbs[i], ops[i], dbs[i + 1])
  }

  function Unspent(db: Tables): set<string> {
    set id | id in db.approvals && db.approvals[id].consumedAt.None?
  }

  predicate SameTerms(a: Approval, b: Approval) {
    a.subject == b.subject && a.tool == b.tool && a.account == b.account && a.amount == b.amount && a.expiresAt == b.expiresAt
  }

  /** Every approval the naive server still has unspent is matched, one to one, with an unspent
      approval of the hardened server that has the same subject, tool, account, amount and expiry. */
  ghost predicate Covers(naive: Tables, hardened: Tables, f: map<string, string>) {
    && f.Keys == Unspent(naive) && Injective(f)
    && forall a :: a in f ==> f[a] in Unspent(hardened) && SameTerms(naive.approvals[a], hardened.approvals[f[a]])
  }

  // ---------------------------------------------------------------- one request

  /** An approval that leaves the unspent ones, or none. */
  ghost predicate Takes(db: Tables, c: Call, db': Tables, taken: Option<string>) {
    match taken
    case None => db'.approvals == db.approvals && |db'.effects| == |db.effects|
    case Some(id) =>
      && Best(db.approvals, c, id) && Unspent(db') == Unspent(db) - {id}
      && db'.approvals == db.approvals[id := db.approvals[id].(consumedAt := Some(c.moment))]
      && |db'.effects| == |db.effects| + 1
  }

  /** The call gets as far as looking for an approval, if no ceiling stops it. */
  predicate Seeks(c: Call) {
    c.verdict.allowed && c.Irreversible() && !c.Raises()
  }

  ghost predicate NoneLive(db: Tables, c: Call) {
    forall o :: o in db.approvals && Matches(db.approvals[o], c) ==> !Live(db.approvals[o], c)
  }

  /** Without a ceiling, a call takes an approval exactly when it seeks one and one is live. */
  lemma EndTakes(db: Tables, c: Call, o: Outcome, db': Tables) returns (taken: Option<string>)
    requires Ends(db, c, o, db') && c.limit <= 0 && c.effectId !in db.effects && Honest(db)
    ensures Takes(db, c, db', taken)
    ensures if taken.Some? then Seeks(c) else Seeks(c) ==> NoneLive(db, c)
    ensures Honest(db')
  {
    if o.Completed? && o.ruling.Issued? {
      taken := Some(o.ruling.approvalId);
      assert Unspent(db') == Unspent(db) - {o.ruling.approvalId};
    } else {
      taken := None;
    }
  }

  /** Two calls that ask for the same act at the same moment. */
  predicate SameAsk(c: Call, d: Call) {
    c.Subject() == d.Subject() && c.tool == d.tool && c.account == d.account && c.Amount() == d.Amount() && c.moment == d.moment
  }

  /** If the hardened server goes looking for an approval, so does the naive one, for the same act. */
  lemma HardenedSeeks(q: Request, limit: int)
    ensures var n, h := CallOf(NAIVE, q, limit), CallOf(HARDENED, q, limit);
      Seeks(h) ==> Seeks(n) && SameAsk(n, h)
  {
    HardenedWithinNaive(q.presented, q.tool, q.audience, Seconds(q.moment));
  }

  /** Where the hardened server takes what covers the naive one's `x`, the naive one takes something
      too, and if that is another approval its cover will do for `x`. */
  lemma CoverSwap(naive: Tables, hardened: Tables, n: Call, h: Call, f: map<string, string>, x: string, tn: Option<string>)
    requires Covers(naive, hardened, f) && x in f && SameAsk(n, h) && Best(hardened.approvals, h, f[x])
    requires if tn.Some? then Best(naive.approvals, n, tn.value) else NoneLive(naive, n)
    ensures tn.Some? && tn.value in f && SameTerms(naive.approvals[x], hardened.approvals[f[tn.value]])
  {
    assert Matches(naive.approvals[x], n) && Live(naive.approvals[x], n);
    assert Matches(hardened.approvals[f[tn.value]], h);
  }

  /** What the naive server took is no longer covered. */
  lemma CoverDrop(naive: Tables, hardened: Tables, n: Call, f: map<string, string>, naive': Tables, tn: Option<string>)
    returns (g: map<string, string>)
    requires Covers(naive, hardened, f) && Takes(naive, n, naive', tn)
    ensures g == (map a | a in f && Some(a) != tn :: f[a]) && Covers(naive', hardened, g)
  {
    g := map a | a in f && Some(a) != tn :: f[a];
    assert g.Keys == Unspent(naive');
  }

  /** Where the hardened server takes an approval that covers `x`, a spare one takes its place. */
  lemma CoverMove(naive: Tables, hardened: Tables, h: Call, g: map<string, string>, hardened': Tables, id: string,
                  x: Option<string>, spare: string) returns (g': map<string, string>)
    requires Covers(naive, hardened, g) && Takes(hardened, h, hardened', Some(id))
    requires if x.Some? then x.value in g && g[x.value] == id else forall a :: a in g ==> g[a] != id
    requires x.Some? ==>
      && spare in Unspent(hardened) - {id} && (forall a :: a in g ==> g[a] != spare)
      && SameTerms(naive.approvals[x.value], hardened.approvals[spare])
    ensures Covers(naive, hardened', g')
  {
    g' := if x.Some? then g[x.value := spare] else g;
    assert g'.Keys == g.Keys;
  }

  /** The cover after one request. */
  lemma CoverAsk(naive: Tables, hardened: Tables, n: Call, h: Call, f: map<string, string>,
                 naive': Tables, hardened': Tables, tn: Option<string>, th: Option<string>) returns (f': map<string, string>)
    requires Covers(naive, hardened, f)
    requires Takes(naive, n, naive', tn) && Takes(hardened, h, hardened', th)
    requires th.Some? ==> SameAsk(n, h) && (tn.None? ==> NoneLive(naive, n))
    ensures Covers(naive', hardened', f')
  {
    f' := CoverDrop(naive, hardened, n, f, naive', tn);
    if th.Some? {
      if x :| x in f' && f'[x] == th.value {
        CoverSwap(naive, hardened, n, h, f, x, tn);
        f' := CoverMove(naive', hardened, h, f', hardened', th.value, Some(x), f[tn.value]);
      } else {
        f' := CoverMove(naive', hardened, h, f', hardened', th.value, None, "");
      }
    }
  }

  // ---------------------------------------------------------------- whole histories

  /** Effects and unspent approvals against approvals: what no operation changes. */
  ghost function Level(db: Tables): int {
    |db.effects| + |Unspent(db)| - |db.approvals|
  }

  lemma TakesLevel(db: Tables, c: Call, db': Tables, taken: Option<string>)
    requires Takes(db, c, db', taken)
    ensures Level(db') == Level(db) && db'.approvals.Keys == db.approvals.Keys
  {
    if taken.None? {
      assert Unspent(db') == Unspent(db);
    }
  }

  lemma GrantLevel(db: Tables, id: string, row: Approval)
    requires Grantable(db, id, row) && Honest(db)
    ensures Level(Grant(db, id, row)) == Level(db) && Honest(Grant(db, id, row))
    ensures Unspent(Grant(db, id, row)) == Unspent(db) + {id}
  {
    assert Unspent(Grant(db, id, row)) == Unspent(db) + {id};
  }

  lemma ExtendInjective(f: map<string, string>, id: string)
    requires Injective(f) && forall a :: a in f ==> f[a] != id
    ensures Injective(f[id := id])
  {
  }

  lemma GrantCovers(naive: Tables, hardened: Tables, id: string, row: Approval, f: map<string, string>)
    requires Covers(naive, hardened, f) && Grantable(naive, id, row) && Grantable(hardened, id, row)
    ensures Covers(Grant(naive, id, row), Grant(hardened, id, row), f[id := id])
  {
    var g, n, h := f[id := id], Grant(naive, id, row), Grant(hardened, id, row);
    assert Unspent(n) == Unspent(naive) + {id};
    forall a | a in g ensures g[a] in Unspent(h) && SameTerms(n.approvals[a], h.approvals[g[a]]) {
    }
    ExtendInjective(f, id);
  }

  /** What the two databases keep in common along a history from `start`. */
  ghost predicate Paired(start: Tables, naive: Tables, hardened: Tables, f: map<string, string>) {
    && Covers(naive, hardened, f) && Honest(naive) && Honest(hardened)
    && naive.approvals.Keys == hardened.approvals.Keys
    && Level(naive) == Level(start) && Level(hardened) == Level(start)
  }

  lemma GrantPaired(start: Tables, naive: Tables, hardened: Tables, id: string, row: Approval, f: map<string, string>)
    requires Paired(start, naive, hardened, f) && Grantable(naive, id, row) && Grantable(hardened, id, row)
    ensures Paired(start, Grant(naive, id, row), Grant(hardened, id, row), f[id := id])
  {
    GrantCovers(naive, hardened, id, row, f);
    GrantLevel(naive, id, row);
    GrantLevel(hardened, id, row);
  }

  lemma AskPaired(start: Tables, naive: Tables, hardened: Tables, n: Call, h: Call, on: Outcome, oh: Outcome,
                  naive': Tables, hardened': Tables, f: map<string, string>) returns (f': map<string, string>)
    requires Paired(start, naive, hardened, f)
    requires Ends(naive, n, on, naive') && Ends(hardened, h, oh, hardened')
    requires n.limit <= 0 && h.limit <= 0 && n.effectId !in naive.effects && h.effectId !in hardened.effects
    requires Seeks(h) ==> Seeks(n) && SameAsk(n, h)
    ensures Paired(start, naive', hardened', f')
  {
    var tn := EndTakes(naive, n, on, naive');
    var th := EndTakes(hardened, h, oh, hardened');
    f' := CoverAsk(naive, hardened, n, h, f, naive', hardened', tn, th);
    TakesLevel(naive, n, naive', tn);
    TakesLevel(hardened, h, hardened', th);
  }

  lemma OpPaired(limit: int, start: Tables, naive: Tables, hardened: Tables, op: Op, naive': Tables, hardened': Tables, f: map<string, string>)
    returns (f': map<string, string>)
    requires limit <= 0 && Paired(start, naive, hardened, f)
    requires Plays(NAIVE, limit, naive, op, naive') && Plays(HARDENED, limit, hardened, op, hardened')
    ensures Paired(start, naive', hardened', f')
  {
    match op
    case Approve(id, row) =>
      GrantPaired(start, naive, hardened, id, row, f);
      f' := f[id := id];
    case Ask(q) =>
      var n, h := CallOf(NAIVE, q, limit), CallOf(HARDENED, q, limit);
      var on :| Ends(naive, n, on, naive');
      var oh :| Ends(hardened, h, oh, hardened');
      HardenedSeeks(q, limit);
      f' := AskPaired(start, naive, hardened, n, h, on, oh, naive', hardened', f);
  }

  lemma CoverBounds(start: Tables, naive: Tables, hardened: Tables, f: map<string, string>)
    requires Paired(start, naive, hardened, f)
    ensures |hardened.effects| <= |naive.effects|
  {
    InjectionBound(f, Unspent(hardened));
    assert |naive.approvals.Keys| == |hardened.approvals.Keys|;
  }

  lemma StartPaired(db: Tables) returns (f: map<string, string>)
    requires Honest(db)
    ensures Paired(db, db, db, f)
  {
    f := map id | id in Unspent(db) :: id;
  }

  /** Two traces of one history from one honest database. */
  ghost predicate SideBySide(limit: int, ops: seq<Op>, naive: seq<Tables>, hardened: seq<Tables>) {
    && Trace(NAIVE, limit, ops, naive) && Trace(HARDENED, limit, ops, hardened)
    && naive[0] == hardened[0] && Honest(naive[0])
  }

  ghost predicate Pairable(start: Tables, naive: Tables, hardened: Tables) {
    exists f :: Paired(start, naive, hardened, f)
  }

  lemma StepPairable(limit: int, ops: seq<Op>, naive: seq<Tables>, hardened: seq<Tables>, i: nat)
    requires limit <= 0 && SideBySide(limit, ops, naive, hardened) && i < |ops|
    requires Pairable(naive[0], naive[i], hardened[i])
    ensures Pairable(naive[0], naive[i + 1], hardened[i + 1])
  {
    assert StepAt(NAIVE, limit, ops, naive, i) && StepAt(HARDENED, limit, ops, hardened, i);
    var f :| Paired(naive[0], naive[i], hardened[i], f);
    var f' := OpPaired(limit, naive[0], naive[i], hardened[i], ops[i], naive[i + 1], hardened[i + 1], f);
  }

  lemma StartPairable(db: Tables)
    requires Honest(db)
    ensures Pairable(db, db, db)
  {
    var f := StartPaired(db);
  }

  lemma TracePaired(limit: int, ops: seq<Op>, naive: seq<Tables>, hardened: seq<Tables>, i: nat)
    requires limit <= 0 && SideBySide(limit, ops, naive, hardened) && i <= |ops|
    ensures Pairable(naive[0], naive[i], hardened[i])
  {
    StartPairable(naive[0]);
    for j := 0 to i
      invariant Pairable(naive[0], naive[j], hardened[j])
    {
      StepPairable(limit, ops, naive, hardened, j);
    }
  }

  /** Policy simulation. From one database, on one history of grants and requests without a ceiling,
      at every point the hardened server has written no more effects than the naive one, and still
      holds, unspent, a match for every approval the naive one holds; whichever approvals the lookups
      pick among those that expire together. */
  lemma HardenedNeverWritesMore(limit: int, ops: seq<Op>, naive: seq<Tables>, hardened: seq<Tables>, i: nat)
    requires limit <= 0 && SideBySide(limit, ops, naive, hardened) && i <= |ops|
    ensures |hardened[i].effects| <= |naive[i].effects|
    ensures exists f :: Covers(naive[i], hardened[i], f)
  {
    TracePaired(limit, ops, naive, hardened, i);
    var f :| Paired(naive[0], naive[i], hardened[i], f);
    CoverBounds(naive[0], naive[i], hardened[i], f);
  }
}
