/** Exactly which configured origins the redactor hides in every message. */
module Leaks {
  import opened Domain
  import opened Redaction

  // ---------------------------------------------------------------- pieces of text

  lemma OccursWhere(text: string, s: string, p: int)
    requires 0 <= p && p + |s| <= |text| && forall x :: p <= x < p + |s| ==> text[x] == s[x - p]
    ensures OccursAt(text, s, p)
  {
  }

  predicate FirstAt(text: string, s: string, i: nat) {
    OccursAt(text, s, i) && forall p :: 0 <= p < i ==> !OccursAt(text, s, p)
  }

  /** The first occurrence is where the replacement goes. */
  lemma ReplacesAt(text: string, s: string, i: nat)
    requires s != "" && FirstAt(text, s, i)
    ensures Replace(text, s) == text[..i] + REDACTED + Replace(text[i + |s|..], s)
  {
    ReplaceUnfolds(text, s);
  }

  lemma ReplacesAfter(a: string, s: string, b: string)
    requires s != "" && FirstAt(a + s + b, s, |a|)
    ensures Replace(a + s + b, s) == a + REDACTED + Replace(b, s)
  {
    ReplacesAt(a + s + b, s, |a|);
    assert (a + s + b)[..|a|] == a && (a + s + b)[|a| + |s|..] == b;
  }

  lemma TooLong(text: string, s: string)
    requires |text| < |s|
    ensures !Contains(text, s) && Replace(text, s) == text
  {
    AbsentUnchanged(text, s);
  }

  /** Where text repeats itself at distance `k` and `s` does not, `s` does not occur. */
  lemma NotWhileRepeating(text: string, s: string, k: nat, n: nat)
    requires 0 < k < |s| && s[k] != s[0] && n + k <= |text|
    requires forall p :: 0 <= p < n ==> text[p] == text[p + k]
    ensures forall p :: 0 <= p < n ==> !OccursAt(text, s, p)
  {
    forall p | 0 <= p < n ensures !OccursAt(text, s, p) {
      if OccursAt(text, s, p) {
        CharAt(text, s, p, p);
        CharAt(text, s, p, p + k);
      }
    }
  }

  /** The furthest into `s` that the replacement can be laid. */
  ghost predicate Furthest(s: string, k: int) {
    Touches(s, k) && forall j :: j > k ==> !Touches(s, j)
  }

  lemma {:induction false} FurthestExists(s: string, k: int) returns (f: int)
    requires Touches(s, k)
    ensures Furthest(s, f)
    decreases |s| - k
  {
    if j :| j > k && Touches(s, j) {
      f := FurthestExists(s, j);
    } else {
      f := k;
    }
  }

  /** An occurrence that reaches into a leading replacement lays `s` over it. */
  lemma OverLeading(b: string, s: string, p: int)
    requires 0 <= p < |REDACTED| && OccursAt(REDACTED + b, s, p) && s != ""
    ensures Touches(s, -p)
  {
    forall x | 0 <= x < |s| && -p <= x < |REDACTED| - p ensures s[x] == REDACTED[x + p] {
      CharAt(REDACTED + b, s, p, p + x);
    }
  }

  // ---------------------------------------------------------------- the origin ends with, or holds, the replacement's beginning

  /** What of `s` comes after the replacement laid `k` characters in. */
  function Rest(s: string, k: int): string
    requires k < |s| && k + |REDACTED| >= 0
  {
    if k + |REDACTED| < |s| then s[k + |REDACTED|..] else ""
  }

  lemma HeadParts(s: string, k: nat)
    requires Touches(s, k)
    ensures s <= s[..k] + REDACTED + Rest(s, k) && s[k] == '<'
    ensures Rest(s, k) != "" ==> s == s[..k] + REDACTED + Rest(s, k)
  {
    var v, w := s[..k], Rest(s, k);
    var whole := v + REDACTED + w;
    assert s[k] == REDACTED[0];
    forall x | 0 <= x < |s| ensures s[x] == whole[x] {
    }
  }

  /** Nothing further in, so what comes after cannot hold the whole again, even twice over. */
  lemma RestTwice(s: string, k: nat)
    requires Furthest(s, k)
    ensures !Contains(Rest(s, k) + Rest(s, k), s)
  {
    var w := Rest(s, k);
    forall q ensures !OccursAt(w + w, s, q) {
      if w != "" && OccursAt(w + w, s, q) { RestHolds(s, k, q); }
    }
  }

  /** Text after the middle of `s`, twice over, holds `s` only if it holds the middle again. */
  lemma MiddleAgain(v: string, r: string, w: string, q: int)
    requires OccursAt(w + w, v + r + w, q)
    ensures var j := 2 * |v| + |r| + q;
      j >= 0 && j + |r| <= |v + r + w| && forall x :: j <= x < j + |r| ==> (v + r + w)[x] == r[x - j]
  {
    var s, j := v + r + w, 2 * |v| + |r| + q;
    forall x | j <= x < j + |r| ensures s[x] == r[x - j] {
      CharAt(w + w, s, q, q + |v| + x - j);
      assert s[|v| + x - j] == r[x - j];
    }
  }

  lemma LaidAgain(s: string, v: string, w: string, q: int)
    requires s == v + REDACTED + w && OccursAt(w + w, s, q)
    ensures exists j :: j > |v| && Touches(s, j)
  {
    MiddleAgain(v, REDACTED, w, q);
    assert Touches(s, 2 * |v| + q + |REDACTED|);
  }

  lemma RestHolds(s: string, k: nat, q: int)
    requires Touches(s, k) && Rest(s, k) != "" && OccursAt(Rest(s, k) + Rest(s, k), s, q)
    ensures exists j :: j > k && Touches(s, j)
  {
    HeadParts(s, k);
    LaidAgain(s, s[..k], Rest(s, k), q);
  }

  lemma Repeating(v: string, rest: string)
    requires v <= rest
    ensures forall p :: 0 <= p < |v| ==> (v + rest)[p] == (v + rest)[p + |v|]
  {
  }

  lemma Behind(v: string, s: string, rest: string)
    requires s <= rest
    ensures OccursAt(v + rest, s, |v|)
    ensures (v + rest)[..|v|] == v && (v + rest)[|v| + |s|..] == rest[|s|..]
  {
    OccursWhere(v + rest, s, |v|);
  }

  lemma SecondIsFirst(v: string, s: string, rest: string)
    requires 0 < |v| < |s| && s[|v|] != s[0] && s <= rest && v <= rest
    ensures FirstAt(v + rest, s, |v|)
  {
    Repeating(v, rest);
    Behind(v, s, rest);
    NotWhileRepeating(v + rest, s, |v|, |v|);
  }

  lemma ThirdIsFirst(v: string, s: string, rest: string)
    requires 0 < |v| < |s| && s[|v|] != s[0] && s <= rest && v <= rest
    ensures FirstAt(v + (v + rest), s, 2 * |v|)
  {
    var text := v + (v + rest);
    Repeating(v, v + rest);
    Repeating(v, rest);
    forall p | 0 <= p < 2 * |v| ensures text[p] == text[p + |v|] {
      if p >= |v| {
        assert text[p] == (v + rest)[p - |v|] && text[p + |v|] == (v + rest)[p - |v| + |v|];
      }
    }
    assert text == (v + v) + rest;
    Behind(v + v, s, rest);
    NotWhileRepeating(text, s, |v|, 2 * |v|);
  }

  lemma Divide(a: string, s: string, rest: string)
    requires s <= rest
    ensures a + rest == a + s + rest[|s|..]
  {
  }

  lemma Doubled(v: string, tail: string)
    ensures v + v + tail == v + (v + tail) && v + v + v + tail == v + (v + (v + tail)) == v + v + (v + tail)
  {
  }

  /** In text that begins with `v` twice, the first occurrence of `s`, which begins with `v` once, is at
      the second. */
  lemma FirstAtSecond(v: string, s: string, tail: string)
    requires 0 < |v| < |s| && s[|v|] != s[0] && s <= v + tail
    ensures Replace(v + v + tail, s) == v + REDACTED + Replace((v + tail)[|s|..], s)
  {
    Doubled(v, tail);
    Divide(v, s, v + tail);
    SecondIsFirst(v, s, v + tail);
    ReplacesAfter(v, s, (v + tail)[|s|..]);
  }

  lemma FirstAtThird(v: string, s: string, tail: string)
    requires 0 < |v| < |s| && s[|v|] != s[0] && s <= v + tail
    ensures Replace(v + v + v + tail, s) == v + v + REDACTED + Replace((v + tail)[|s|..], s)
  {
    Doubled(v, tail);
    Divide(v + v, s, v + tail);
    ThirdIsFirst(v, s, v + tail);
    ReplacesAfter(v + v, s, (v + tail)[|s|..]);
  }

  /** The same, where what follows is the rest of `s` and then `b`. */
  lemma Spelled(v: string, s: string, b: string)
    requires v <= s
    ensures v + (s[|v|..] + b) == s + b && (s + b)[|s|..] == b
    ensures v + v + (s[|v|..] + b) == v + s + b && v + v + v + (s[|v|..] + b) == v + v + s + b
  {
    assert s == v + s[|v|..];
  }

  lemma Starts(s: string, text: string)
    requires s <= text
    ensures Contains(text, s)
  {
    OccursWhere(text, s, 0);
  }

  /** What the first pass puts together the second takes apart, and puts together again. */
  lemma HeadAgain(s: string, k: nat)
    requires 0 < k && Touches(s, k) && s[0] != '<'
    ensures var v, w := s[..k], Rest(s, k); Contains(Replace(v + v + (REDACTED + w + w), s), s)
  {
    var v, w := s[..k], Rest(s, k);
    HeadParts(s, k);
    Regrouped(v, REDACTED, w);
    FirstAtSecond(v, s, REDACTED + w + w);
    if w != "" {
      TooLong(w, s);
    } else {
      Starts(s, v + REDACTED + Replace((v + (REDACTED + w + w))[|s|..], s));
    }
    Starts(s, Replace(v + v + (REDACTED + w + w), s));
  }

  lemma Regrouped(v: string, r: string, w: string)
    ensures v + (r + w + w) == v + r + w + w && (v + r + w + w)[|v + r + w|..] == w
    ensures v + r + "" == v + r && v + v + r + (w + w) == v + v + (r + w + w)
  {
  }

  lemma HeadLeaks(s: string, k: nat)
    requires 0 < k && Furthest(s, k) && s[0] != '<'
    ensures var v, w := s[..k], Rest(s, k);
      Contains(Replace(Replace(v + v + s + (w + w), s), s), s)
  {
    var v, w := s[..k], Rest(s, k);
    HeadParts(s, k);
    Spelled(v, s, w + w);
    FirstAtThird(v, s, s[k..] + (w + w));
    RestTwice(s, k);
    AbsentUnchanged(w + w, s);
    Regrouped(v, REDACTED, w);
    HeadAgain(s, k);
  }

  /** A text that ends in the replacement, or is shorter, holds nothing longer that ends in a slash. */
  lemma NoSlash(v: string, w: string, s: string, raw: string)
    requires |s| < |raw| && raw[|raw| - 1] == '/' && |v| < |s|
    requires if w == "" then true else |v| + |REDACTED| + |w| == |s|
    ensures !Contains(v + REDACTED + w, raw)
  {
    var once := v + REDACTED + w;
    forall p ensures !OccursAt(once, raw, p) {
      if w == "" && OccursAt(once, raw, p) {
        CharAt(once, raw, p, p + |raw| - 1);
      }
      SlashBefore(v, p + |raw| - 1);
    }
  }

  lemma SlashBefore(v: string, x: int)
    ensures |v| <= x < |v| + |REDACTED| ==> (v + REDACTED + "")[x] != '/'
  {
  }

  /** With a second spelling that is longer by slashes one pass is all there is. */
  lemma HeadLeaksOnce(s: string, raw: string, k: nat)
    requires 0 < k && Touches(s, k) && s[0] != '<' && s <= raw && |s| < |raw| && raw[|raw| - 1] == '/'
    ensures var v, w := s[..k], Rest(s, k);
      Contains(Replace(Replace(v + s + w, s), raw), s)
  {
    var v, w := s[..k], Rest(s, k);
    HeadParts(s, k);
    Spelled(v, s, w);
    FirstAtSecond(v, s, s[k..] + w);
    TooLong(w, s);
    NoSlash(v, w, s, raw);
    AbsentUnchanged(v + REDACTED + w, raw);
    Starts(s, v + REDACTED + w);
  }

  // ---------------------------------------------------------------- the origin begins with the replacement's end

  /** No occurrence begins before the furthest that the replacement reaches back. */
  lemma TailFirst(s: string, k: int, b: string)
    requires Furthest(s, k) && k <= 0 && s != ""
    ensures forall p :: 0 <= p < -k ==> !OccursAt(REDACTED + b, s, p)
  {
    forall p | 0 <= p < -k ensures !OccursAt(REDACTED + b, s, p) {
      if OccursAt(REDACTED + b, s, p) { OverLeading(b, s, p); }
    }
  }

  lemma TailParts(s: string, k: int, b: string)
    requires Touches(s, k) && k <= 0 && k + |REDACTED| < |s|
    ensures OccursAt(REDACTED + (Rest(s, k) + b), s, -k)
    ensures s[k + |REDACTED| - 1] == '>' && |Rest(s, k)| < |s|
  {
    var w := Rest(s, k);
    assert s[k + |REDACTED| - 1] == REDACTED[|REDACTED| - 1];
    OccursWhere(REDACTED + (w + b), s, -k);
  }

  lemma TailTwice(s: string, k: int)
    requires Touches(s, k) && k <= 0 && k + |REDACTED| < |s| && s[|s| - 1] != '>'
    ensures !Contains(Rest(s, k) + Rest(s, k), s)
  {
    var w := Rest(s, k);
    TailParts(s, k, "");
    forall q ensures !OccursAt(w + w, s, q) {
      if OccursAt(w + w, s, q) {
        CharAt(w + w, s, q, q + |s| - 1);
        CharAt(w + w, s, q, q + |s| - 1 - |w|);
      }
    }
  }

  lemma Leading(s: string, b: string)
    requires s != ""
    ensures Replace(s + b, s) == REDACTED + Replace(b, s)
  {
    OccursWhere(s + b, s, 0);
    ReplacesAt(s + b, s, 0);
    assert (s + b)[|s|..] == b;
  }

  lemma TailShape(s: string, k: int)
    requires Touches(s, k) && k <= 0 && k + |REDACTED| < |s|
    ensures s == REDACTED[-k..] + Rest(s, k)
  {
    forall x | 0 <= x < k + |REDACTED| ensures s[x] == REDACTED[-k..][x] {
      assert s[x] == REDACTED[x - k];
    }
  }

  lemma Cut(a: string, u: string, w: string)
    ensures a + u + (w + w) == a + (u + w) + w
  {
  }

  lemma TailSecond(s: string, k: int)
    requires Furthest(s, k) && k <= 0 && k + |REDACTED| < |s|
    ensures var w := Rest(s, k); Contains(Replace(REDACTED + (w + w), s), s)
  {
    var a, u, w := REDACTED[..-k], REDACTED[-k..], Rest(s, k);
    TailShape(s, k);
    TailFirst(s, k, w + w);
    TailParts(s, k, w);
    assert REDACTED == a + u;
    Cut(a, u, w);
    ReplacesAfter(a, s, w);
    TooLong(w, s);
    TailAgain(s, k, a);
  }

  lemma TailAgain(s: string, k: int, a: string)
    requires Touches(s, k) && k <= 0 && k + |REDACTED| < |s|
    ensures Contains(a + REDACTED + Rest(s, k), s)
  {
    var w := Rest(s, k);
    TailParts(s, k, "");
    assert w + "" == w;
    Shifted(a, REDACTED + w, s, -k);
    assert a + REDACTED + w == a + (REDACTED + w);
  }

  lemma TailLeaks(s: string, k: int)
    requires Furthest(s, k) && k <= 0 && k + |REDACTED| < |s| && s[|s| - 1] != '>'
    ensures var w := Rest(s, k); Contains(Replace(Replace(s + (w + w), s), s), s)
  {
    var w := Rest(s, k);
    Leading(s, w + w);
    TailTwice(s, k);
    AbsentUnchanged(w + w, s);
    TailSecond(s, k);
  }

  lemma Shifted(a: string, text: string, s: string, p: int)
    requires OccursAt(text, s, p)
    ensures Contains(a + text, s)
  {
    assert (a + text)[|a| + p..|a| + p + |s|] == text[p..p + |s|];
    assert OccursAt(a + text, s, |a| + p);
  }

  lemma TailLeaksOnce(s: string, raw: string, k: int)
    requires Furthest(s, k) && k <= 0 && k + |REDACTED| < |s| && s <= raw && |s| < |raw|
    ensures var w := Rest(s, k); Contains(Replace(Replace(s + w, s), raw), s)
  {
    var w := Rest(s, k);
    Leading(s, w);
    TailParts(s, k, "");
    TooLong(w, s);
    var once := REDACTED + w;
    assert w + "" == w;
    TailFirst(s, k, w);
    forall p ensures !OccursAt(once, raw, p) {
      if OccursAt(once, raw, p) { Begins(once, s, raw, p); }
    }
    AbsentUnchanged(once, raw);
  }

  lemma Begins(text: string, s: string, longer: string, p: int)
    requires s <= longer && OccursAt(text, longer, p)
    ensures OccursAt(text, s, p)
  {
    assert text[p..p + |s|] == longer[..|s|];
  }

  // ---------------------------------------------------------------- the origin is a piece of the replacement

  lemma StillNamed(s: string, raw: string, k: int)
    requires raw != "" && OccursAt(REDACTED, s, k)
    ensures Contains(Replace(REDACTED, raw), s)
  {
    ReplaceUnfolds(REDACTED, raw);
    var at := Find(REDACTED, raw, 0);
    if at.Some? {
      var a, b := REDACTED[..at.value], Replace(REDACTED[at.value + |raw|..], raw);
      Shifted(a, REDACTED, s, k);
      Longer(a + REDACTED, b, s);
    }
  }

  lemma Longer(a: string, b: string, s: string)
    requires Contains(a, s)
    ensures Contains(a + b, s)
  {
    var p :| OccursAt(a, s, p);
    assert (a + b)[p..p + |s|] == a[p..p + |s|];
    assert OccursAt(a + b, s, p);
  }

  lemma Whole(s: string)
    requires s != ""
    ensures Replace(s, s) == REDACTED
  {
    assert s + "" == s && REDACTED + "" == REDACTED;
    Leading(s, "");
    TooLong("", s);
  }

  lemma PieceLeaks(s: string, raw: string, k: int)
    requires s != "" && raw != "" && Touches(s, k) && k <= 0 && |s| <= k + |REDACTED|
    ensures Contains(Replace(Replace(s, s), raw), s)
  {
    Whole(s);
    OccursWhere(REDACTED, s, -k);
    StillNamed(s, raw, -k);
  }

  // ---------------------------------------------------------------- exactly when

  /** An origin that does not open with '<', and does not both open with an ending of the replacement
      and close with '>'. */
  ghost predicate Ordinary(s: string) {
    && s != "" && s[0] != '<'
    && (s[|s| - 1] == '>' ==> forall k :: k <= 0 && k + |REDACTED| < |s| ==> !Touches(s, k))
  }

  lemma SomeLeak(s: string, raw: string) returns (message: string)
    requires Ordinary(s) && Overlaps(s) && s <= raw && (raw == s || raw[|raw| - 1] == '/')
    ensures Contains(Replace(Replace(message, s), raw), s)
  {
    var some :| Touches(s, some);
    var k := FurthestExists(s, some);
    if k > 0 {
      var v, w := s[..k], Rest(s, k);
      if raw == s {
        HeadLeaks(s, k);
        message := v + v + s + (w + w);
      } else {
        HeadLeaksOnce(s, raw, k);
        message := v + s + w;
      }
    } else if |s| <= k + |REDACTED| {
      PieceLeaks(s, raw, k);
      message := s;
    } else if raw == s {
      TailLeaks(s, k);
      message := s + (Rest(s, k) + Rest(s, k));
    } else {
      TailLeaksOnce(s, raw, k);
      message := s + Rest(s, k);
    }
  }

  /** An ordinary origin is hidden in every message exactly when it cannot be laid over the replacement
      so that the two agree where they overlap. */
  lemma HiddenIff(configured: Option<string>)
    requires Ordinary(Stripped(configured))
    ensures (forall message :: Hidden(message, configured)) <==> !Overlaps(Stripped(configured))
  {
    var raw, base := Raw(configured), Stripped(configured);
    if Overlaps(base) {
      assert raw != base ==> raw[|raw| - 1] == '/';
      var message := SomeLeak(base, raw);
      assert !Hidden(message, configured);
    } else {
      forall message ensures Hidden(message, configured) { NeverNamed(message, configured); }
    }
  }

  lemma TouchesFirst(s: string, k: int)
    ensures Touches(s, k) && k <= 0 && |s| > 1 ==>
      s[0] == REDACTED[-k] && (1 - k < |REDACTED| ==> s[1] == REDACTED[1 - k])
  {
  }

  /** The replacement holds one letter that begins a scheme, and another follows it. */
  lemma Letters(j: int)
    ensures 0 <= j < |REDACTED| && REDACTED[j] == 'h' ==> j + 1 < |REDACTED| && REDACTED[j + 1] == 'e'
  {
  }

  /** Every origin that can be an absolute http address is ordinary: it begins with a character that the
      replacement does not hold, or with an 'h' that no 'e' follows. */
  lemma AddressOrdinary(s: string)
    requires |s| > 1 && (s[0] in REDACTED ==> s[0] == 'h' && s[1] != 'e')
    ensures Ordinary(s)
  {
    assert REDACTED[0] == '<';
    forall k | k <= 0 && k + |REDACTED| < |s| ensures !Touches(s, k) {
      TouchesFirst(s, k);
      Letters(-k);
    }
  }

  /** So an absolute http address is hidden in every message exactly when no way of laying the
      replacement over it makes the two agree. */
  lemma AddressHiddenIff(configured: Option<string>)
    requires |Stripped(configured)| > 1
    requires var s := Stripped(configured); s[0] in REDACTED ==> s[0] == 'h' && s[1] != 'e'
    ensures (forall message :: Hidden(message, configured)) <==> !Overlaps(Stripped(configured))
  {
    AddressOrdinary(Stripped(configured));
    HiddenIff(configured);
  }

  // ---------------------------------------------------------------- brackets

  predicate Bracketless(s: string) {
    forall i :: 0 <= i < |s| ==> s[i] != '<' && s[i] != '>'
  }

  lemma TouchesEnds(s: string, k: int)
    requires Touches(s, k)
    ensures k >= 0 ==> s[k] == '<'
    ensures k + |REDACTED| <= |s| ==> s[k + |REDACTED| - 1] == '>'
  {
    assert REDACTED[0] == '<' && REDACTED[|REDACTED| - 1] == '>';
    if k >= 0 { assert s[k] == REDACTED[0]; }
    if k + |REDACTED| <= |s| { assert s[k + |REDACTED| - 1] == REDACTED[|REDACTED| - 1]; }
  }

  /** An origin without brackets is ordinary, and overlaps only as a piece of the replacement. */
  lemma BracketlessOverlaps(s: string)
    requires s != "" && Bracketless(s)
    ensures Ordinary(s) && (Overlaps(s) <==> Contains(REDACTED, s))
  {
    if Contains(REDACTED, s) {
      var p :| OccursAt(REDACTED, s, p);
      assert REDACTED + "" == REDACTED;
      OverLeading("", s, p);
    }
    if Overlaps(s) {
      var k :| Touches(s, k);
      TouchesEnds(s, k);
      OccursWhere(REDACTED, s, -k);
    }
  }

  /** Every origin that opens with a closing bracket and holds no other is named in a redacted message. */
  lemma BracketLeaks(v: string)
    requires v != "" && Bracketless(v)
    requires Stripped(Some(">" + v)) == Raw(Some(">" + v)) == ">" + v
    ensures !Hidden(">" + v + (v + v), Some(">" + v))
  {
    var s, k := ">" + v, 1 - |REDACTED|;
    assert REDACTED[|REDACTED| - 1] == '>' && REDACTED[0] == '<';
    forall j | j > k ensures !Touches(s, j) {
      if j > 0 {
        assert j < |s| ==> s[j] != '<';
      } else {
        assert s[0] != REDACTED[-j];
      }
    }
    TailLeaks(s, k);
    assert Rest(s, k) == v;
  }

  /** So is every origin that closes with an opening bracket and holds no other; it may well be an
      absolute address. */
  lemma BracketLeaksAtEnd(t: string)
    requires t != "" && Bracketless(t)
    requires Stripped(Some(t + "<")) == Raw(Some(t + "<")) == t + "<"
    ensures !Hidden(t + t + (t + "<"), Some(t + "<"))
  {
    var s, k := t + "<", |t|;
    assert REDACTED[0] == '<' && s[k] == '<';
    assert Furthest(s, k);
    HeadLeaks(s, k);
    assert s[..k] == t && Rest(s, k) == "";
    assert t + t + s + ("" + "") == t + t + s;
  }
}
