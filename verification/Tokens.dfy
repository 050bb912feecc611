/** From a bearer string to claims, or to the reason there are none. The cryptography and the JWT
    library are oracles: a token carries the library's answers about it. */
module Tokens {
  import opened Domain
  import opened ScopeText

  datatype Json =
    | Null
    | Bool(b: bool)
    | Number(n: int)
    | Text(s: string)
    | List(items: seq<Json>)
    | Object(fields: map<string, Json>)

  /** `payload.get(key)`: a missing key and an explicit null read the same. */
  function Get(fields: map<string, Json>, key: string): Json {
    if key in fields then fields[key] else Null
  }

  predicate AllText(items: seq<Json>) {
    forall i :: 0 <= i < |items| ==> items[i].Text?
  }

  function Texts(items: seq<Json>): (texts: seq<string>)
    requires AllText(items)
    ensures |texts| == |items| && forall i :: 0 <= i < |items| ==> texts[i] == items[i].s
  {
    seq(|items|, i requires 0 <= i < |items| => items[i].s)
  }

  /** A scope claim in either spelling; anything else carries no scope. */
  function Scopes(raw: Json): set<string> {
    match raw
    case Text(s) => Words(s)
    case List(items) => if AllText(items) then set s | s in Texts(items) else {}
    case _ => {}
  }

  predicate Readable(raw: Json) {
    raw.Text? || (raw.List? && AllText(raw.items))
  }

  // ---------------------------------------------------------------- the delegation chain

  const MAX_LINKS := 10

  /** An `act` value every level of which is an object that names its subject. */
  predicate WellFormed(node: Json) {
    match node
    case Null => true
    case Object(fields) =>
      Get(fields, "sub").Text? && ("act" in fields ==> WellFormed(fields["act"]))
    case _ => false
  }

  /** How many `act` nodes are nested. */
  function Hops(node: Json): nat {
    match node
    case Object(fields) => 1 + if "act" in fields then Hops(fields["act"]) else 0
    case _ => 0
  }

  function LinkOf(node: Json): Link
    requires node.Object? && Get(node.fields, "sub").Text?
  {
    Link(Get(node.fields, "sub").s, Scopes(Get(node.fields, "scope")))
  }

  /** The links from the outermost `act` inwards. */
  function LeafFirst(node: Json): (links: seq<Link>)
    requires WellFormed(node)
    ensures |links| == Hops(node)
  {
    match node
    case Object(fields) => [LinkOf(node)] + if "act" in fields then LeafFirst(fields["act"]) else []
    case _ => []
  }

  /** One level of nesting. */
  lemma Unfold(node: Json)
    requires node.Object? && Get(node.fields, "sub").Text?
    ensures var next := Get(node.fields, "act");
      && (WellFormed(node) <==> WellFormed(next)) && Hops(node) == 1 + Hops(next)
      && (WellFormed(node) ==> LeafFirst(node) == [LinkOf(node)] + LeafFirst(next))
  {
  }

  /** The links read off so far, and what is left to walk, make up the whole chain. */
  ghost predicate Walked(act: Json, links: seq<Link>, node: Json) {
    && (WellFormed(act) <==> WellFormed(node)) && Hops(act) == |links| + Hops(node)
    && (WellFormed(act) ==> LeafFirst(act) == links + LeafFirst(node))
  }

  lemma Regroup<T>(a: seq<T>, x: T, b: seq<T>)
    ensures a + ([x] + b) == (a + [x]) + b
  {
  }

  lemma WalkOn(act: Json, links: seq<Link>, node: Json)
    requires Walked(act, links, node) && node.Object? && Get(node.fields, "sub").Text?
    ensures Walked(act, links + [LinkOf(node)], Get(node.fields, "act"))
  {
    Unfold(node);
    if WellFormed(node) {
      Regroup(links, LinkOf(node), LeafFirst(Get(node.fields, "act")));
    }
  }

  function Reversed<T>(s: seq<T>): (r: seq<T>)
    ensures |r| == |s| && forall i :: 0 <= i < |s| ==> r[i] == s[|s| - 1 - i]
  {
    seq(|s|, i requires 0 <= i < |s| => s[|s| - 1 - i])
  }

  /** The chain of a payload, root first, or None where it is refused. */
  function ChainOf(payload: map<string, Json>): (chain: Option<seq<Link>>)
    ensures chain.Some? <==> WellFormed(Get(payload, "act")) && Hops(Get(payload, "act")) <= MAX_LINKS
    ensures chain.Some? ==> |chain.value| == Hops(Get(payload, "act"))
  {
    var act := Get(payload, "act");
    if WellFormed(act) && Hops(act) <= MAX_LINKS then Some(Reversed(LeafFirst(act))) else None
  }

  /** Walk the nested claims to the root, then reverse. */
  method Chain(payload: map<string, Json>) returns (links: seq<Link>, failure: Option<Reason>)
    ensures failure == if ChainOf(payload).Some? then None else Some(DelegationMalformed)
    ensures links == if ChainOf(payload).Some? then ChainOf(payload).value else []
  {
    links := [];
    var node := Get(payload, "act");
    ghost var act := node;
    var depth := 0;
    while node != Null
      invariant depth == |links| <= MAX_LINKS
      invariant Walked(act, links, node)
      decreases MAX_LINKS - depth
    {
      if !node.Object? || !Get(node.fields, "sub").Text? {
        return [], Some(DelegationMalformed);
      }
      depth := depth + 1;
      if depth > MAX_LINKS {
        return [], Some(DelegationMalformed);
      }
      WalkOn(act, links, node);
      links := links + [LinkOf(node)];
      node := Get(node.fields, "act");
    }
    return Reversed(links), None;
  }

  // ---------------------------------------------------------------- verification

  /** A key of a trusted issuer. */
  datatype Key = Key(id: Option<string>, material: string)

  /** The library's answer to a verified decode. Claims it has required and validated are typed; the
      rest of the payload is as the token spells it. */
  datatype Decoded =
    | Payload(issuer: string, subject: string, audience: Json, expiresAt: int, issuedAt: int, tokenId: string,
              fields: map<string, Json>)
    | Expired
    | WrongIssuer
    | MissingClaim
    | BadSignature
    | OtherError

  /** A bearer string, as far as the library and the clock can tell about it: its size in bytes, the
      key identifier of its unverified header, its unverified body, and the verified decode under
      each key. None where the library raises. */
  datatype Bearer = Bearer(
    size: nat, header: Option<Option<string>>, body: Option<map<string, Json>>, decode: Key -> Decoded)

  const MAX_TOKEN_BYTES := 16 * 1024

  /** The first of an issuer's keys with the header's identifier. */
  function KeyFor(keys: seq<Key>, kid: Option<string>): Option<Key> {
    if keys == [] then None
    else if keys[0].id == kid then Some(keys[0])
    else KeyFor(keys[1..], kid)
  }

  function Audiences(raw: Json): Option<seq<string>> {
    match raw
    case Text(s) => Some([s])
    case List(items) => if AllText(items) then Some(Texts(items)) else None
    case _ => None
  }

  /** The claims of a decoded payload, or why they cannot be read. */
  function ClaimsOf(decoded: Decoded): Presented {
    match decoded
    case Expired => Unverified(TokenExpired)
    case WrongIssuer => Unverified(IssuerUnknown)
    case MissingClaim => Unverified(TokenMalformed)
    case BadSignature => Unverified(SignatureInvalid)
    case OtherError => Unverified(SignatureInvalid)
    case Payload(issuer, subject, audience, expiresAt, issuedAt, tokenId, fields) =>
      if Audiences(audience).None? then Unverified(TokenMalformed)
      else if ChainOf(fields).None? then Unverified(DelegationMalformed)
      else
        Verified(Claims(issuer, subject, Audiences(audience).value, expiresAt, issuedAt, tokenId,
                        Scopes(Get(fields, "scope")), ChainOf(fields).value))
  }

  /** The decision order of verification. */
  function Verify(token: Bearer, jwks: map<string, seq<Key>>): Presented {
    if token.size > MAX_TOKEN_BYTES || token.header.None? || token.body.None? then Unverified(TokenMalformed)
    else
      var issuer := Get(token.body.value, "iss");
      if !issuer.Text? || issuer.s !in jwks then Unverified(IssuerUnknown)
      else
        var key := KeyFor(jwks[issuer.s], token.header.value);
        if key.None? then Unverified(SignatureInvalid) else ClaimsOf(token.decode(key.value))
  }

  method VerifyToken(token: Bearer, jwks: map<string, seq<Key>>) returns (presented: Presented)
    ensures presented == Verify(token, jwks)
  {
    if token.size > MAX_TOKEN_BYTES || token.header.None? || token.body.None? {
      return Unverified(TokenMalformed);
    }
    var issuer := Get(token.body.value, "iss");
    if !issuer.Text? || issuer.s !in jwks {
      return Unverified(IssuerUnknown);
    }
    var keys, key, i := jwks[issuer.s], None, 0;
    while i < |keys| && key.None?
      invariant i <= |keys|
      invariant if key.Some? then KeyFor(keys, token.header.value) == key
                else KeyFor(keys, token.header.value) == KeyFor(keys[i..], token.header.value)
      decreases |keys| - i, key.None?
    {
      if keys[i].id == token.header.value {
        key := Some(keys[i]);
      }
      i := i + 1;
    }
    if key.None? {
      return Unverified(SignatureInvalid);
    }
    var decoded := token.decode(key.value);
    if !decoded.Payload? || Audiences(decoded.audience).None? {
      return ClaimsOf(decoded);
    }
    var chain, failure := Chain(decoded.fields);
    if failure.Some? {
      return Unverified(failure.value);
    }
    return Verified(Claims(
      decoded.issuer, decoded.subject, Audiences(decoded.audience).value, decoded.expiresAt, decoded.issuedAt,
      decoded.tokenId, Scopes(Get(decoded.fields, "scope")), chain));
  }

  // ---------------------------------------------------------------- what verification rests on

  /** The candidate is the first key with the identifier, and there is none only if no key has it. */
  lemma {:induction false} KeyForFirst(keys: seq<Key>, kid: Option<string>)
    ensures KeyFor(keys, kid).None? <==> forall k :: k in keys ==> k.id != kid
    ensures KeyFor(keys, kid).Some? ==>
      exists i :: 0 <= i < |keys| && keys[i] == KeyFor(keys, kid).value && keys[i].id == kid
        && forall j :: 0 <= j < i ==> keys[j].id != kid
  {
    if keys != [] && keys[0].id != kid {
      KeyForFirst(keys[1..], kid);
      assert forall k :: k in keys <==> k == keys[0] || k in keys[1..];
      if KeyFor(keys, kid).Some? {
        var i :| 0 <= i < |keys| - 1 && keys[1..][i] == KeyFor(keys, kid).value && keys[1..][i].id == kid
          && forall j :: 0 <= j < i ==> keys[1..][j].id != kid;
        forall j | 0 <= j < i + 1 ensures keys[j].id != kid {
          assert j > 0 ==> keys[j] == keys[1..][j - 1];
        }
        assert keys[i + 1] == KeyFor(keys, kid).value;
      }
    }
  }

  predicate Trusted(jwks: map<string, seq<Key>>, issuer: string, key: Key) {
    issuer in jwks && key in jwks[issuer]
  }

  /** The header names this key, and the library accepted the token under it with these claims. */
  predicate Vouches(token: Bearer, key: Key, claims: Claims) {
    && token.header == Some(key.id) && token.decode(key).Payload?
    && var payload := token.decode(key);
    && claims.issuer == payload.issuer && claims.subject == payload.subject && claims.tokenId == payload.tokenId
    && claims.expiresAt == payload.expiresAt && claims.issuedAt == payload.issuedAt && Audiences(payload.audience) == Some(claims.audience)
    && ChainOf(payload.fields) == Some(claims.chain) && claims.scopes == Scopes(Get(payload.fields, "scope"))
  }

  /** No claims without a signature: whatever is accepted was verified under a trusted key that the
      header names, of the issuer the unverified body names, and every claim comes from the payload
      that key verified. */
  lemma AuthenticOnly(token: Bearer, jwks: map<string, seq<Key>>)
    requires Verify(token, jwks).Verified?
    ensures token.body.Some? && Get(token.body.value, "iss").Text?
    ensures var issuer := Get(token.body.value, "iss").s;
      exists key :: Trusted(jwks, issuer, key) && Vouches(token, key, Verify(token, jwks).claims)
  {
    var issuer := Get(token.body.value, "iss").s;
    KeyForFirst(jwks[issuer], token.header.value);
    var key := KeyFor(jwks[issuer], token.header.value).value;
    assert Trusted(jwks, issuer, key) && Vouches(token, key, Verify(token, jwks).claims);
  }

  /** The library was asked for the issuer that the unverified body names, and checks that the verified
      payload names it too. */
  ghost predicate IssuerChecked(token: Bearer) {
    forall key :: token.body.Some? && token.decode(key).Payload? ==>
      Get(token.body.value, "iss") == Text(token.decode(key).issuer)
  }

  /** Then the issuer in the claims is a trusted one, and the key that vouches for them is its own: one
      issuer's key never speaks for another. */
  lemma IssuerOwnsKey(token: Bearer, jwks: map<string, seq<Key>>)
    requires IssuerChecked(token) && Verify(token, jwks).Verified?
    ensures var claims := Verify(token, jwks).claims;
      exists key :: Trusted(jwks, claims.issuer, key) && Vouches(token, key, claims)
  {
    AuthenticOnly(token, jwks);
    var claims := Verify(token, jwks).claims;
    var key :| Trusted(jwks, Get(token.body.value, "iss").s, key) && Vouches(token, key, claims);
  }

  /** What a token would decode to under a key that is not trusted makes no difference. */
  lemma OnlyTrustedKeysTried(token: Bearer, decode: Key -> Decoded, jwks: map<string, seq<Key>>)
    requires forall issuer, key :: Trusted(jwks, issuer, key) ==> decode(key) == token.decode(key)
    ensures Verify(token.(decode := decode), jwks) == Verify(token, jwks)
  {
    if token.body.Some? && token.header.Some? && Get(token.body.value, "iss").Text? {
      var issuer := Get(token.body.value, "iss").s;
      if issuer in jwks {
        KeyForFirst(jwks[issuer], token.header.value);
        var key := KeyFor(jwks[issuer], token.header.value);
        assert key.Some? ==> Trusted(jwks, issuer, key.value);
      }
    }
  }

  // ---------------------------------------------------------------- what is read of a token

  /** A scope claim as text lists a scope among its words, as a list of strings among its items, and in
      any other form lists none. */
  predicate Lists(raw: Json, scope: string) {
    match raw
    case Text(s) => scope in Split(s)
    case List(items) => Text(scope) in items && forall i :: 0 <= i < |items| ==> items[i].Text?
    case _ => false
  }

  lemma ScopesRead(raw: Json, scope: string)
    ensures scope in Scopes(raw) <==> Lists(raw, scope)
  {
    if raw.List? && AllText(raw.items) {
      if Text(scope) in raw.items {
        var i :| 0 <= i < |raw.items| && raw.items[i] == Text(scope);
        assert Texts(raw.items)[i] == scope;
      }
      if scope in Texts(raw.items) {
        var i :| 0 <= i < |raw.items| && Texts(raw.items)[i] == scope;
        assert raw.items[i] == Text(scope);
      }
    }
  }

  /** The audiences an `aud` claim names, item for item: one for a string, and all of a list of strings. */
  predicate Names(raw: Json, audience: seq<string>) {
    || (raw.Text? && audience == [raw.s])
    || (raw.List? && |raw.items| == |audience| && forall i :: 0 <= i < |audience| ==> raw.items[i] == Text(audience[i]))
  }

  /** An `aud` claim that is neither a string nor a list of strings. */
  predicate Unnamed(raw: Json) {
    !raw.Text? && (raw.List? ==> exists i :: 0 <= i < |raw.items| && !raw.items[i].Text?)
  }

  lemma AudiencesRead(raw: Json)
    ensures Audiences(raw).None? <==> Unnamed(raw)
    ensures Audiences(raw).Some? ==> Names(raw, Audiences(raw).value)
  {
    if raw.List? && AllText(raw.items) {
      assert forall i :: 0 <= i < |raw.items| ==> raw.items[i] == Text(Texts(raw.items)[i]);
    }
  }

  /** The `act` value `i` levels in: null once there is no further level. */
  function Nested(node: Json, i: nat): Json
    decreases i
  {
    if i == 0 then node else if node.Object? then Nested(Get(node.fields, "act"), i - 1) else Null
  }

  /** A level that cannot be read: not an object that names its subject, or beyond the tenth. */
  predicate Broken(level: Json, i: nat) {
    level != Null && (i >= 10 || !level.Object? || !Get(level.fields, "sub").Text?)
  }

  ghost predicate SomewhereBroken(act: Json) {
    exists i: nat :: Broken(Nested(act, i), i)
  }

  lemma {:induction false} LevelsRead(node: Json, i: nat)
    requires WellFormed(node)
    ensures Nested(node, i) != Null <==> i < Hops(node)
    ensures i < Hops(node) ==>
      && Nested(node, i).Object? && Get(Nested(node, i).fields, "sub").Text?
      && LeafFirst(node)[i] == Link(Get(Nested(node, i).fields, "sub").s, Scopes(Get(Nested(node, i).fields, "scope")))
    decreases i
  {
    if node.Object? {
      Unfold(node);
      if i > 0 { LevelsRead(Get(node.fields, "act"), i - 1); }
    }
  }

  lemma {:induction false} SomeLevelBroken(node: Json) returns (i: nat)
    requires !WellFormed(node)
    ensures var level := Nested(node, i); level != Null && (!level.Object? || !Get(level.fields, "sub").Text?)
    decreases node
  {
    i := 0;
    if node.Object? && Get(node.fields, "sub").Text? {
      i := SomeLevelBroken(node.fields["act"]);
      i := i + 1;
    }
  }

  /** The chain, root first, is the levels of `act` read from the inside out, subject and scopes. */
  ghost predicate Follows(act: Json, chain: seq<Link>) {
    && Nested(act, |chain|) == Null
    && forall i {:trigger Nested(act, i)} :: 0 <= i < |chain| ==>
         && Nested(act, i).Object? && Get(Nested(act, i).fields, "sub") == Text(chain[|chain| - 1 - i].subject)
         && chain[|chain| - 1 - i].scopes == Scopes(Get(Nested(act, i).fields, "scope"))
  }

  /** A chain is refused exactly if some level of it is broken, and otherwise read level by level. */
  lemma ChainRead(payload: map<string, Json>)
    ensures ChainOf(payload).None? <==> SomewhereBroken(Get(payload, "act"))
    ensures ChainOf(payload).Some? ==> Follows(Get(payload, "act"), ChainOf(payload).value)
  {
    var act := Get(payload, "act");
    if !WellFormed(act) {
      var i := SomeLevelBroken(act);
      assert Broken(Nested(act, i), i);
    } else {
      forall i: nat ensures Broken(Nested(act, i), i) ==> i >= 10 && i < Hops(act) { LevelsRead(act, i); }
      if Hops(act) > MAX_LINKS {
        LevelsRead(act, 10);
        assert Broken(Nested(act, 10), 10);
      } else {
        var chain := ChainOf(payload).value;
        LevelsRead(act, |chain|);
        forall i | 0 <= i < |chain|
          ensures Nested(act, i).Object? && Get(Nested(act, i).fields, "sub") == Text(chain[|chain| - 1 - i].subject)
          ensures chain[|chain| - 1 - i].scopes == Scopes(Get(Nested(act, i).fields, "scope"))
        {
          LevelsRead(act, i);
        }
      }
    }
  }

  // ---------------------------------------------------------------- the answer of verification

  /** The first of the keys with the identifier. */
  predicate Candidate(keys: seq<Key>, kid: Option<string>, key: Key) {
    key.id == kid && exists i :: 0 <= i < |keys| && keys[i] == key && forall j :: 0 <= j < i ==> keys[j].id != kid
  }

  /** The answer for what the library makes of a token under the candidate key. */
  ghost predicate Answers(decoded: Decoded, presented: Presented) {
    match decoded
    case Expired => presented == Unverified(TokenExpired)
    case WrongIssuer => presented == Unverified(IssuerUnknown)
    case MissingClaim => presented == Unverified(TokenMalformed)
    case BadSignature => presented == Unverified(SignatureInvalid)
    case OtherError => presented == Unverified(SignatureInvalid)
    case Payload(issuer, subject, audience, expiresAt, issuedAt, tokenId, fields) =>
      if Unnamed(audience) then presented == Unverified(TokenMalformed)
      else if SomewhereBroken(Get(fields, "act")) then presented == Unverified(DelegationMalformed)
      else
        && presented.Verified?
        && var claims := presented.claims;
        && claims.issuer == issuer && claims.subject == subject && claims.tokenId == tokenId
        && claims.expiresAt == expiresAt && claims.issuedAt == issuedAt
        && Names(audience, claims.audience) && Follows(Get(fields, "act"), claims.chain)
        && forall s :: s in claims.scopes <==> Lists(Get(fields, "scope"), s)
  }

  lemma DecodedAnswers(decoded: Decoded)
    ensures Answers(decoded, ClaimsOf(decoded))
  {
    if decoded.Payload? {
      AudiencesRead(decoded.audience);
      ChainRead(decoded.fields);
      forall s ensures s in Scopes(Get(decoded.fields, "scope")) <==> Lists(Get(decoded.fields, "scope"), s) {
        ScopesRead(Get(decoded.fields, "scope"), s);
      }
    }
  }

  /** Verification, answer by answer: what is too large or cannot be read is malformed; an issuer that is
      not trusted is unknown; without a key of the header's identifier the signature is invalid; and what
      the library makes of the token under that key decides the rest, acceptance included. */
  lemma VerifySays(token: Bearer, jwks: map<string, seq<Key>>)
    ensures var v := Verify(token, jwks);
      if token.size > 16384 || token.header.None? || token.body.None? then v == Unverified(TokenMalformed)
      else
        var issuer := Get(token.body.value, "iss");
        if !issuer.Text? || issuer.s !in jwks then v == Unverified(IssuerUnknown)
        else
          && ((forall key :: key in jwks[issuer.s] ==> key.id != token.header.value) ==> v == Unverified(SignatureInvalid))
          && forall key :: Candidate(jwks[issuer.s], token.header.value, key) ==> Answers(token.decode(key), v)
  {
    if token.size <= 16384 && token.header.Some? && token.body.Some? && Get(token.body.value, "iss").Text?
       && Get(token.body.value, "iss").s in jwks {
      var keys, kid := jwks[Get(token.body.value, "iss").s], token.header.value;
      KeyForFirst(keys, kid);
      forall key | Candidate(keys, kid, key) ensures Answers(token.decode(key), Verify(token, jwks)) {
        OneCandidate(keys, kid, key);
        DecodedAnswers(token.decode(key));
      }
    }
  }

  lemma {:induction false} OneCandidate(keys: seq<Key>, kid: Option<string>, key: Key)
    requires Candidate(keys, kid, key)
    ensures KeyFor(keys, kid) == Some(key)
  {
    KeyForFirst(keys, kid);
    var i :| 0 <= i < |keys| && keys[i] == key && forall j :: 0 <= j < i ==> keys[j].id != kid;
    var f :| 0 <= f < |keys| && keys[f] == KeyFor(keys, kid).value && keys[f].id == kid
      && forall j :: 0 <= j < f ==> keys[j].id != kid;
    assert i == f;
  }
}
