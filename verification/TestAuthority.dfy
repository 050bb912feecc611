/** The printer of delegated tokens, and the round trip through the parser. */
module TestAuthority {
  import opened Domain
  import opened ScopeText
  import opened Tokens

  /** One link as the caller names it: a subject and a list of scopes. */
  datatype Grantor = Grantor(subject: string, scopes: seq<string>)

  function ScopeClaim(scopes: seq<string>): Json {
    Text(Join(Sorted(multiset(scopes))))
  }

  /** The claims every minted token starts from. */
  function Base(issuer: string, subject: string, audience: string, scopes: seq<string>, now: int, lifetime: int, jti: string)
    : map<string, Json>
  {
    map["iss" := Text(issuer), "sub" := Text(subject), "aud" := Text(audience), "iat" := Number(now),
        "exp" := Number(now + lifetime), "jti" := Text(jti), "scope" := ScopeClaim(scopes)]
  }

  function Node(g: Grantor): map<string, Json> {
    map["sub" := Text(g.subject), "scope" := ScopeClaim(g.scopes)]
  }

  /** A root-first chain, nested inside out. */
  function Nest(chain: seq<Grantor>): Json {
    if chain == [] then Null
    else
      var n := |chain| - 1;
      var node := Node(chain[n]);
      Object(if n == 0 then node else node["act" := Nest(chain[..n])])
  }

  function Delegated(base: map<string, Json>, chain: seq<Grantor>): map<string, Json> {
    if chain == [] then base else base["act" := Nest(chain)]
  }

  lemma NestGrows(chain: seq<Grantor>, i: nat)
    requires i < |chain|
    ensures Nest(chain[..i + 1]) == Object(if i == 0 then Node(chain[i]) else Node(chain[i])["act" := Nest(chain[..i])])
    ensures i > 0 ==> Nest(chain[..i]) != Null
  {
    assert chain[..i + 1][..i] == chain[..i];
  }

  /** The payload of a delegated token. */
  method MintDelegated(issuer: string, subject: string, audience: string, scopes: seq<string>, chain: seq<Grantor>,
                       now: int, lifetime: int, jti: string) returns (payload: map<string, Json>)
    ensures payload == Delegated(Base(issuer, subject, audience, scopes, now, lifetime, jti), chain)
  {
    payload := Base(issuer, subject, audience, scopes, now, lifetime, jti);
    var actor: Json := Null;
    for i := 0 to |chain|
      invariant actor == Nest(chain[..i])
      invariant i > 0 ==> actor != Null
    {
      NestGrows(chain, i);
      var node := Node(chain[i]);
      if actor != Null {
        node := node["act" := actor];
      }
      actor := Object(node);
    }
    assert chain[..|chain|] == chain;
    if actor != Null {
      payload := payload["act" := actor];
    }
  }

  predicate PlainScopes(scopes: seq<string>) {
    forall i :: 0 <= i < |scopes| ==> Plain(scopes[i])
  }

  lemma ScopeClaimReads(scopes: seq<string>)
    requires PlainScopes(scopes)
    ensures Scopes(ScopeClaim(scopes)) == set s | s in scopes
  {
    forall w | w in multiset(scopes) ensures Plain(w) {
      assert w in scopes;
    }
    SplitSorted(multiset(scopes));
  }

  /** The link a grantor should come back as. */
  function LinkFor(g: Grantor): Link {
    Link(g.subject, set s | s in g.scopes)
  }

  lemma Fetches(a: string, b: string, c: string, x: Json, y: Json, z: Json)
    requires a != b && b != c && a != c
    ensures var node := map[a := x, b := y];
      && Get(node, a) == x && Get(node, b) == y && Get(node, c) == Null
      && Get(node[c := z], a) == x && Get(node[c := z], b) == y && Get(node[c := z], c) == z
  {
  }

  lemma NestUnfolds(chain: seq<Grantor>)
    requires chain != []
    ensures Nest(chain).Object? && Get(Nest(chain).fields, "sub") == Text(chain[|chain| - 1].subject)
    ensures Get(Nest(chain).fields, "scope") == ScopeClaim(chain[|chain| - 1].scopes)
    ensures Get(Nest(chain).fields, "act") == Nest(chain[..|chain| - 1])
  {
    var g, inner := chain[|chain| - 1], Nest(chain[..|chain| - 1]);
    NotAct();
    Fetches("sub", "scope", "act", Text(g.subject), ScopeClaim(g.scopes), inner);
  }

  lemma NestReadsNext(chain: seq<Grantor>)
    requires chain != [] && PlainScopes(chain[|chain| - 1].scopes) && WellFormed(Nest(chain[..|chain| - 1]))
    ensures WellFormed(Nest(chain)) && Hops(Nest(chain)) == 1 + Hops(Nest(chain[..|chain| - 1]))
    ensures LeafFirst(Nest(chain)) == [LinkFor(chain[|chain| - 1])] + LeafFirst(Nest(chain[..|chain| - 1]))
  {
    NestUnfolds(chain);
    Unfold(Nest(chain));
    ScopeClaimReads(chain[|chain| - 1].scopes);
  }

  function LinksFor(chain: seq<Grantor>): (links: seq<Link>)
    ensures |links| == |chain|
  {
    if chain == [] then [] else LinksFor(chain[..|chain| - 1]) + [LinkFor(chain[|chain| - 1])]
  }

  lemma {:induction false} LinksForAt(chain: seq<Grantor>, i: nat)
    requires i < |chain|
    ensures LinksFor(chain)[i] == LinkFor(chain[i])
    decreases |chain|
  {
    if i < |chain| - 1 { LinksForAt(chain[..|chain| - 1], i); }
  }

  lemma LinksForAll(chain: seq<Grantor>)
    ensures forall i :: 0 <= i < |chain| ==> LinksFor(chain)[i] == LinkFor(chain[i])
  {
    forall i | 0 <= i < |chain| ensures LinksFor(chain)[i] == LinkFor(chain[i]) {
      LinksForAt(chain, i);
    }
  }

  lemma ReversedTwice<T>(a: seq<T>)
    ensures Reversed(Reversed(a)) == a
  {
  }

  lemma ReversedSnoc<T>(a: seq<T>, x: T)
    ensures Reversed(a + [x]) == [x] + Reversed(a)
  {
  }

  lemma {:induction false} NestReads(chain: seq<Grantor>)
    requires forall g :: g in chain ==> PlainScopes(g.scopes)
    ensures WellFormed(Nest(chain)) && Hops(Nest(chain)) == |chain|
    ensures LeafFirst(Nest(chain)) == Reversed(LinksFor(chain))
    decreases |chain|
  {
    if chain != [] {
      NestReads(chain[..|chain| - 1]);
      NestReadsNext(chain);
      ReversedSnoc(LinksFor(chain[..|chain| - 1]), LinkFor(chain[|chain| - 1]));
    }
  }

  /** Delegation round trip: what is minted from a root-first chain reads back as the same subjects in
      the same order with the same scope sets, as long as it has at most ten links; a longer chain is
      refused. */
  lemma DelegationRoundTrip(base: map<string, Json>, chain: seq<Grantor>)
    requires "act" !in base && forall g :: g in chain ==> PlainScopes(g.scopes)
    ensures var read := ChainOf(Delegated(base, chain));
      && (read.Some? <==> |chain| <= MAX_LINKS)
      && (read.Some? ==> |read.value| == |chain| && forall i :: 0 <= i < |chain| ==>
           read.value[i].subject == chain[i].subject && read.value[i].scopes == set s | s in chain[i].scopes)
  {
    NestReads(chain);
    assert Get(Delegated(base, chain), "act") == Nest(chain);
    ReversedTwice(LinksFor(chain));
    LinksForAll(chain);
  }

  lemma BaseFields(issuer: string, subject: string, audience: string, scopes: seq<string>, now: int, lifetime: int, jti: string)
    ensures var base := Base(issuer, subject, audience, scopes, now, lifetime, jti);
      && base.Keys == {"iss", "sub", "aud", "iat", "exp", "jti", "scope"}
      && base["iss"] == Text(issuer) && base["sub"] == Text(subject) && base["aud"] == Text(audience)
      && base["iat"] == Number(now) && base["exp"] == Number(now + lifetime) && base["jti"] == Text(jti)
      && base["scope"] == ScopeClaim(scopes)
  {
    KeysDiffer();
  }

  lemma KeysDiffer()
    ensures "iss" != "sub" && "iss" != "aud" && "iss" != "iat" && "iss" != "exp" && "iss" != "jti" && "iss" != "scope"
    ensures "aud" != "iat" && "aud" != "exp" && "aud" != "jti" && "aud" != "scope"
    ensures "iat" != "exp" && "iat" != "jti" && "iat" != "scope" && "exp" != "jti" && "exp" != "scope" && "jti" != "scope"
    ensures "sub" != "aud" && "sub" != "iat" && "sub" != "exp" && "sub" != "jti" && "sub" != "scope"
  {
    assert "iss"[0] == 'i' && "iss"[1] == 's' && "iat"[0] == 'i' && "iat"[1] == 'a';
    assert "sub"[0] == 's' && "sub"[1] == 'u' && "scope"[0] == 's' && "scope"[1] == 'c';
    assert "aud"[0] == 'a' && "exp"[0] == 'e' && "jti"[0] == 'j';
  }

  /** Every claim that is minted: who issued it, to whom, for whom, from when until when, under which
      identifier, with which scopes; and besides the chain nothing else. */
  lemma BaseReads(issuer: string, subject: string, audience: string, scopes: seq<string>, now: int, lifetime: int,
                  jti: string, chain: seq<Grantor>)
    ensures var payload := Delegated(Base(issuer, subject, audience, scopes, now, lifetime, jti), chain);
      && Get(payload, "iss") == Text(issuer) && Get(payload, "sub") == Text(subject) && Get(payload, "aud") == Text(audience)
      && Get(payload, "iat") == Number(now) && Get(payload, "exp") == Number(now + lifetime) && Get(payload, "jti") == Text(jti)
      && payload.Keys - {"act"} == {"iss", "sub", "aud", "iat", "exp", "jti", "scope"}
      && ("act" in payload <==> chain != [])
      && Get(payload, "scope") == Text(Join(Sorted(multiset(scopes))))
      && (PlainScopes(scopes) ==> Scopes(Get(payload, "scope")) == set s | s in scopes)
  {
    var base := Base(issuer, subject, audience, scopes, now, lifetime, jti);
    NotAct();
    BaseFields(issuer, subject, audience, scopes, now, lifetime, jti);
    if PlainScopes(scopes) { ScopeClaimReads(scopes); }
    Unchanged(base, chain, {"iss", "sub", "aud", "iat", "exp", "jti", "scope"});
  }

  lemma Unchanged(base: map<string, Json>, chain: seq<Grantor>, keys: set<string>)
    requires base.Keys == keys && "act" !in keys
    ensures var payload := Delegated(base, chain);
      && payload.Keys - {"act"} == keys && ("act" in payload <==> chain != [])
      && forall k :: k in keys ==> Get(payload, k) == base[k]
  {
  }

  lemma NotAct()
    ensures "act" != "iss" && "act" != "sub" && "act" != "aud" && "act" != "iat" && "act" != "exp" && "act" != "jti" && "act" != "scope"
    ensures "scope" != "sub" && "sub" != "iss" && "sub" != "aud" && "sub" != "iat" && "sub" != "exp" && "sub" != "jti"
  {
    assert "act"[0] != "sub"[0] && "act"[0] != "iss"[0] && "act"[1] != "aud"[1] && "act"[0] != "iat"[0];
    assert "act"[0] != "exp"[0] && "act"[0] != "jti"[0] && "act"[0] != "scope"[0];
    assert "scope"[1] != "sub"[1] && "sub"[0] != "iss"[0] && "sub"[0] != "aud"[0] && "sub"[0] != "iat"[0];
    assert "sub"[0] != "exp"[0] && "sub"[0] != "jti"[0];
  }
}
