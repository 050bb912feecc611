/** The chain of a token against its nested claims: nothing skipped, nothing widened. */
module Delegation {
  import opened Domain
  import opened Tokens
  import opened Authz
  import opened ScopeText

  /** The `act` node `i` levels in. */
  function ActAt(node: Json, i: nat): (at: Json)
    requires WellFormed(node) && i < Hops(node)
    ensures at.Object? && Get(at.fields, "sub").Text?
  {
    if i == 0 then node else ActAt(node.fields["act"], i - 1)
  }

  lemma {:induction false} LeafFirstAt(node: Json, i: nat)
    requires WellFormed(node) && i < Hops(node)
    ensures LeafFirst(node)[i] == LinkOf(ActAt(node, i))
  {
    if i > 0 { LeafFirstAt(node.fields["act"], i - 1); }
  }

  /** The scopes a node of the chain claims for itself. */
  function ScopesAt(node: Json, i: nat): set<string>
    requires WellFormed(node) && i < Hops(node)
  {
    Scopes(Get(ActAt(node, i).fields, "scope"))
  }

  /** No link is ever skipped: an accepted chain has one link per nested node, root first, and a scope
      is effective exactly when the leaf and every single node claims it. */
  lemma NothingSkipped(payload: map<string, Json>, leaf: set<string>, scope: string)
    requires ChainOf(payload).Some?
    ensures var act, chain := Get(payload, "act"), ChainOf(payload).value;
      && |chain| == Hops(act)
      && (forall i :: 0 <= i < Hops(act) ==> chain[Hops(act) - 1 - i] == LinkOf(ActAt(act, i)))
      && (scope in Attenuated(leaf, chain) <==> scope in leaf && forall i :: 0 <= i < Hops(act) ==> scope in ScopesAt(act, i))
  {
    var act, chain := Get(payload, "act"), ChainOf(payload).value;
    forall i | 0 <= i < Hops(act) ensures chain[Hops(act) - 1 - i] == LinkOf(ActAt(act, i)) {
      LeafFirstAt(act, i);
    }
    if forall i :: 0 <= i < Hops(act) ==> scope in ScopesAt(act, i) {
      forall j | 0 <= j < |chain| ensures scope in chain[j].scopes {
        assert chain[Hops(act) - 1 - (Hops(act) - 1 - j)] == LinkOf(ActAt(act, Hops(act) - 1 - j));
        assert scope in ScopesAt(act, Hops(act) - 1 - j);
      }
    }
    if HeldBy(chain, scope) {
      forall i | 0 <= i < Hops(act) ensures scope in ScopesAt(act, i) {
        assert scope in chain[Hops(act) - 1 - i].scopes;
      }
    }
  }

  /** A scope nobody can read, anywhere in the chain, leaves no authority at all. */
  lemma UnreadableEmpties(payload: map<string, Json>, leaf: set<string>, i: nat)
    requires ChainOf(payload).Some? && i < Hops(Get(payload, "act"))
    requires !Readable(Get(ActAt(Get(payload, "act"), i).fields, "scope"))
    ensures Attenuated(leaf, ChainOf(payload).value) == {}
  {
    forall scope ensures scope !in Attenuated(leaf, ChainOf(payload).value) {
      NothingSkipped(payload, leaf, scope);
      assert ScopesAt(Get(payload, "act"), i) == {};
    }
  }

  /** The claims with one more node nested in at depth `i`. */
  function Splice(node: Json, i: nat, sub: string, scope: Json): Json
    requires WellFormed(node) && i <= Hops(node)
    decreases i
  {
    if i == 0 then Object(map["sub" := Text(sub), "scope" := scope, "act" := node])
    else Object(node.fields["act" := Splice(Get(node.fields, "act"), i - 1, sub, scope)])
  }

  lemma SpliceHere(node: Json, sub: string, scope: Json)
    requires WellFormed(node)
    ensures var spliced := Splice(node, 0, sub, scope);
      WellFormed(spliced) && Hops(spliced) == Hops(node) + 1
      && LeafFirst(spliced) == [Link(sub, Scopes(scope))] + LeafFirst(node)
  {
    assert "sub"[0] != "act"[0] && "scope"[0] != "act"[0] && "sub"[1] != "scope"[1];
    Unfold(Splice(node, 0, sub, scope));
  }

  lemma SpliceBelow(node: Json, i: nat, sub: string, scope: Json)
    requires WellFormed(node) && 0 < i <= Hops(node)
    ensures var spliced := Splice(node, i, sub, scope);
      && spliced.Object? && Get(spliced.fields, "sub").Text? && LinkOf(spliced) == LinkOf(node)
      && Get(spliced.fields, "act") == Splice(Get(node.fields, "act"), i - 1, sub, scope)
  {
    assert "sub"[0] != "act"[0] && "scope"[0] != "act"[0];
  }

  ghost predicate Spliced(node: Json, i: nat, sub: string, scope: Json)
    requires WellFormed(node) && i <= Hops(node)
  {
    var more := Splice(node, i, sub, scope);
    && WellFormed(more) && Hops(more) == Hops(node) + 1
    && LeafFirst(more) == LeafFirst(node)[..i] + [Link(sub, Scopes(scope))] + LeafFirst(node)[i..]
  }

  lemma Prepended<T>(x: T, links: seq<T>, i: nat, y: T)
    requires 0 < i <= |links| + 1
    ensures var more := [x] + links; more[..i] + [y] + more[i..] == [x] + (links[..i - 1] + [y] + links[i - 1..])
  {
  }

  lemma SplicedBelow(node: Json, i: nat, sub: string, scope: Json)
    requires WellFormed(node) && 0 < i <= Hops(node)
    requires WellFormed(Get(node.fields, "act")) && i - 1 <= Hops(Get(node.fields, "act"))
    requires Spliced(Get(node.fields, "act"), i - 1, sub, scope)
    ensures Spliced(node, i, sub, scope)
  {
    var next := Get(node.fields, "act");
    SpliceBelow(node, i, sub, scope);
    Unfold(Splice(node, i, sub, scope));
    Unfold(node);
    Prepended(LinkOf(node), LeafFirst(next), i, Link(sub, Scopes(scope)));
  }

  lemma {:induction false} SpliceLinks(node: Json, i: nat, sub: string, scope: Json)
    requires WellFormed(node) && i <= Hops(node)
    ensures Spliced(node, i, sub, scope)
    decreases i
  {
    if i == 0 {
      SpliceHere(node, sub, scope);
    } else {
      Unfold(node);
      SpliceLinks(Get(node.fields, "act"), i - 1, sub, scope);
      SplicedBelow(node, i, sub, scope);
    }
  }

  lemma ReversedBoth<T>(a: seq<T>, b: seq<T>)
    ensures Reversed(a + b) == Reversed(b) + Reversed(a)
  {
  }

  lemma ReversedAround<T>(links: seq<T>, i: nat, x: T)
    requires i <= |links|
    ensures Reversed(links) == Reversed(links[i..]) + Reversed(links[..i])
    ensures Reversed(links[..i] + [x] + links[i..]) == Reversed(links[i..]) + [x] + Reversed(links[..i])
  {
    var a, b := links[..i], links[i..];
    ReversedBoth(a, b);
    ReversedBoth(a + [x], b);
    ReversedBoth(a, [x]);
    assert links == a + b && Reversed([x]) == [x];
    assert Reversed(b) + ([x] + Reversed(a)) == Reversed(b) + [x] + Reversed(a);
  }

  /** Nesting one more node in anywhere never enlarges what a token may do: it keeps exactly what the
      new node also claims. */
  lemma SpliceNarrows(payload: map<string, Json>, leaf: set<string>, i: nat, sub: string, scope: Json)
    requires ChainOf(payload).Some? && i <= Hops(Get(payload, "act")) < MAX_LINKS
    ensures var longer := payload["act" := Splice(Get(payload, "act"), i, sub, scope)];
      && ChainOf(longer).Some?
      && Attenuated(leaf, ChainOf(longer).value) == Attenuated(leaf, ChainOf(payload).value) * Scopes(scope)
  {
    var act := Get(payload, "act");
    SpliceLinks(act, i, sub, scope);
    ReversedAround(LeafFirst(act), i, Link(sub, Scopes(scope)));
    InsertNarrows(leaf, Reversed(LeafFirst(act)[i..]), Link(sub, Scopes(scope)), Reversed(LeafFirst(act)[..i]));
  }

  /** A scope claim in string form carries only words. */
  lemma TextScopesPlain(raw: Json, scope: string)
    requires raw.Text? && scope in Scopes(raw)
    ensures Plain(scope)
  {
  }

  /** The stored form of the effective scopes gives them back whenever the leaf, or any one node of the
      chain, spelled its scopes as a string. */
  lemma StoredScopesRecoverable(payload: map<string, Json>, leaf: Json, i: nat)
    requires ChainOf(payload).Some?
    requires leaf.Text? || (i < Hops(Get(payload, "act")) && Get(ActAt(Get(payload, "act"), i).fields, "scope").Text?)
    ensures var effective := Attenuated(Scopes(leaf), ChainOf(payload).value); Words(Render(effective)) == effective
  {
    var effective := Attenuated(Scopes(leaf), ChainOf(payload).value);
    forall s | s in effective ensures Plain(s) {
      NothingSkipped(payload, Scopes(leaf), s);
      TextScopesPlain(if leaf.Text? then leaf else Get(ActAt(Get(payload, "act"), i).fields, "scope"), s);
    }
    RenderRoundTrip(effective);
  }

  /** Without that, a list may hold an item that is no word, and the stored form of its scopes reads back
      as something else. */
  lemma ListScopesMayNot(items: seq<Json>, item: string)
    requires AllText(items) && Text(item) in items && !Plain(item)
    ensures var scopes := Scopes(List(items)); item in scopes && Words(Render(scopes)) != scopes
  {
    var i :| 0 <= i < |items| && items[i] == Text(item);
    assert Texts(items)[i] == item;
    RenderRoundTrip(Scopes(List(items)));
  }
}
