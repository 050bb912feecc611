/** The console's one place that turns an error into text: the configured origin never gets through. */
module Redaction {
  import opened Domain

  const REDACTED := "<the configured broker address>"

  // ---------------------------------------------------------------- strings

  /** The characters that JavaScript's `trim()` removes. */
  predicate IsBlank(c: char) {
    || '\t' <= c <= '\r' || c == ' ' || c == '\U{a0}' || c == '\U{1680}' || '\U{2000}' <= c <= '\U{200a}'
    || c == '\U{2028}' || c == '\U{2029}' || c == '\U{202f}' || c == '\U{205f}' || c == '\U{3000}' || c == '\U{feff}'
  }

  function TrimStart(s: string): string {
    if s != "" && IsBlank(s[0]) then TrimStart(s[1..]) else s
  }

  function TrimEnd(s: string): string {
    if s != "" && IsBlank(s[|s| - 1]) then TrimEnd(s[..|s| - 1]) else s
  }

  function Trim(s: string): string {
    TrimEnd(TrimStart(s))
  }

  /** `replace(/\/+$/, "")`. */
  function StripSlashes(s: string): (t: string)
    ensures t <= s && forall i :: |t| <= i < |s| ==> s[i] == '/'
    ensures t != "" ==> t[|t| - 1] != '/'
  {
    if s != "" && s[|s| - 1] == '/' then StripSlashes(s[..|s| - 1]) else s
  }

  predicate OccursAt(text: string, s: string, i: int) {
    0 <= i <= i + |s| <= |text| && text[i..i + |s|] == s
  }

  ghost predicate Contains(text: string, s: string) {
    exists i :: OccursAt(text, s, i)
  }

  /** The first occurrence from `from` on, as `split` searches. */
  function Find(text: string, s: string, from: nat): (at: Option<nat>)
    requires from <= |text|
    ensures at.Some? ==> from <= at.value && OccursAt(text, s, at.value)
    ensures at.Some? ==> forall i :: from <= i < at.value ==> !OccursAt(text, s, i)
    ensures at.None? ==> forall i :: from <= i ==> !OccursAt(text, s, i)
    decreases |text| - from
  {
    if OccursAt(text, s, from) then Some(from)
    else if from < |text| then Find(text, s, from + 1)
    else None
  }

  /** `text.split(s)` for a non-empty separator: leftmost occurrences, none overlapping. */
  function Split(text: string, s: string): seq<string>
    requires s != ""
    decreases |text|
  {
    match Find(text, s, 0)
    case None => [text]
    case Some(i) => [text[..i]] + Split(text[i + |s|..], s)
  }

  function Join(pieces: seq<string>, glue: string): string {
    if pieces == [] then ""
    else if |pieces| == 1 then pieces[0]
    else pieces[0] + glue + Join(pieces[1..], glue)
  }

  /** Splitting and joining with the separator itself changes nothing. */
  lemma {:induction false} SplitJoin(text: string, s: string)
    requires s != ""
    ensures Join(Split(text, s), s) == text
    decreases |text|
  {
    var at := Find(text, s, 0);
    if at.Some? {
      var i := at.value;
      SplitJoin(text[i + |s|..], s);
      assert Split(text, s)[1..] == Split(text[i + |s|..], s);
      assert text == text[..i] + s + text[i + |s|..];
    }
  }

  // ---------------------------------------------------------------- the redactor

  function Replace(text: string, s: string): string
    requires s != ""
  {
    Join(Split(text, s), REDACTED)
  }

  /** What the operator set, spaces aside; empty when nothing is set. */
  function Raw(configured: Option<string>): string {
    if configured.Some? then Trim(configured.value) else ""
  }

  /** The origin the console fetches from: none where nothing is set, and no trailing slash. */
  function BaseUrl(configured: Option<string>): Option<string> {
    if Raw(configured) == "" then None else Some(StripSlashes(Raw(configured)))
  }

  function Stripped(configured: Option<string>): string {
    if BaseUrl(configured).Some? then BaseUrl(configured).value else ""
  }

  /** An error message with the configured origin removed, in both of its spellings. */
  function RedactOrigin(message: string, configured: Option<string>): string {
    if Raw(configured) == "" then message
    else
      var raw, base := Raw(configured), StripSlashes(Raw(configured));
      Replace(if base != "" then Replace(message, base) else message, raw)
  }

  // ---------------------------------------------------------------- what never appears

  /** With the replacement laid so that it begins `k` characters into `s`, the two overlap, and agree
      wherever they do. */
  predicate Touches(s: string, k: int) {
    -|REDACTED| < k < |s| && forall x :: 0 <= x < |s| && k <= x < k + |REDACTED| ==> s[x] == REDACTED[x - k]
  }

  /** Some piece of the replacement is a piece of `s` in a way that joining it to other text could
      complete: all of `s`, its beginning, its end, or all of the replacement. */
  ghost predicate Overlaps(s: string) {
    exists k :: Touches(s, k)
  }

  lemma ReplaceUnfolds(text: string, s: string)
    requires s != ""
    ensures match Find(text, s, 0)
      case None => Replace(text, s) == text
      case Some(i) => Replace(text, s) == text[..i] + REDACTED + Replace(text[i + |s|..], s)
  {
  }

  lemma CharAt(text: string, s: string, p: int, k: nat)
    requires OccursAt(text, s, p) && k < |text|
    ensures p <= k < p + |s| ==> s[k - p] == text[k]
  {
    if p <= k < p + |s| { assert text[p..p + |s|][k - p] == text[k]; }
  }

  /** An occurrence in a three-part text lies inside one of the outer parts, or lays what occurs over
      the replacement. */
  lemma Places(a: string, b: string, s: string, p: int)
    requires s != "" && OccursAt(a + REDACTED + b, s, p)
    ensures OccursAt(a, s, p) || OccursAt(b, s, p - |a| - |REDACTED|) || Touches(s, |a| - p)
  {
    var text := a + REDACTED + b;
    if p + |s| <= |a| {
      assert a[p..p + |s|] == text[p..p + |s|];
    } else if p >= |a| + |REDACTED| {
      var q := p - |a| - |REDACTED|;
      assert b[q..q + |s|] == text[p..p + |s|];
    } else {
      forall x | 0 <= x < |s| && |a| - p <= x < |a| - p + |REDACTED| ensures s[x] == REDACTED[x - (|a| - p)] {
        CharAt(text, s, p, p + x);
      }
    }
  }

  /** Joining pieces around the replacement never puts `s` together. */
  lemma NoCrossing(a: string, b: string, s: string)
    requires s != "" && !Overlaps(s)
    ensures Contains(a + REDACTED + b, s) ==> Contains(a, s) || Contains(b, s)
  {
    if Contains(a + REDACTED + b, s) {
      var p :| OccursAt(a + REDACTED + b, s, p);
      Places(a, b, s, p);
    }
  }

  lemma NoEarlier(text: string, s: string, i: nat)
    requires s != "" && Find(text, s, 0) == Some(i)
    ensures !Contains(text[..i], s)
  {
    forall p ensures OccursAt(text[..i], s, p) ==> p < i && OccursAt(text, s, p) {
      if OccursAt(text[..i], s, p) {
        assert text[..i][p..p + |s|] == text[p..p + |s|];
      }
    }
  }

  /** After the replacement the separator is nowhere, joins included. */
  lemma {:induction false} ReplaceCleans(text: string, s: string)
    requires s != "" && !Overlaps(s)
    ensures !Contains(Replace(text, s), s)
    decreases |text|
  {
    ReplaceUnfolds(text, s);
    var at := Find(text, s, 0);
    if at.Some? {
      var rest := text[at.value + |s|..];
      ReplaceCleans(rest, s);
      NoEarlier(text, s, at.value);
      NoCrossing(text[..at.value], Replace(rest, s), s);
    }
  }

  lemma AbsentUnchanged(text: string, s: string)
    requires s != "" && !Contains(text, s)
    ensures Replace(text, s) == text
  {
    ReplaceUnfolds(text, s);
  }

  /** A longer text occurs only where its beginning does. */
  lemma LongerAbsent(text: string, s: string, longer: string)
    requires s <= longer && Contains(text, longer)
    ensures Contains(text, s)
  {
    var p :| OccursAt(text, longer, p);
    assert text[p..p + |s|] == longer[..|s|];
    assert OccursAt(text, s, p);
  }

  /** The origin in neither spelling is in the redacted message, whatever the message was. */
  ghost predicate Hidden(message: string, configured: Option<string>) {
    var out := RedactOrigin(message, configured);
    !Contains(out, Raw(configured)) && (Stripped(configured) != "" ==> !Contains(out, Stripped(configured)))
  }

  /** Slashes alone share nothing with the replacement. */
  lemma SlashesApart(s: string)
    requires s != "" && forall i :: 0 <= i < |s| ==> s[i] == '/'
    ensures !Overlaps(s)
  {
    forall k ensures !Touches(s, k) {
      var x := if k < 0 then 0 else k;
      assert -|REDACTED| < k < |s| ==> s[x] == '/' && '/' != REDACTED[x - k];
    }
  }

  /** Where the stripped origin cannot be laid over the replacement, neither spelling is ever named. */
  lemma NeverNamed(message: string, configured: Option<string>)
    requires Raw(configured) != "" && (Stripped(configured) == "" || !Overlaps(Stripped(configured)))
    ensures Hidden(message, configured)
  {
    var raw, base := Raw(configured), Stripped(configured);
    if base == "" {
      SlashesApart(raw);
      ReplaceCleans(message, raw);
    } else {
      ReplaceCleans(message, base);
      var once := Replace(message, base);
      if Contains(once, raw) { LongerAbsent(once, base, raw); }
      AbsentUnchanged(once, raw);
    }
  }

  // ---------------------------------------------------------------- settings as an operator writes them

  /** The characters that are trimmed, one by one. */
  lemma Blanks(c: char)
    ensures IsBlank(c) <==> c in {
      '\U{9}', '\U{a}', '\U{b}', '\U{c}', '\U{d}', '\U{20}', '\U{a0}', '\U{1680}', '\U{2000}', '\U{2001}', '\U{2002}',
      '\U{2003}', '\U{2004}', '\U{2005}', '\U{2006}', '\U{2007}', '\U{2008}', '\U{2009}', '\U{200a}', '\U{2028}', '\U{2029}',
      '\U{202f}', '\U{205f}', '\U{3000}', '\U{feff}'}
  {
  }

  predicate AllBlank(s: string) {
    forall i :: 0 <= i < |s| ==> IsBlank(s[i])
  }

  lemma {:induction false} TrimStartDrops(a: string, s: string)
    requires AllBlank(a) && (s == "" || !IsBlank(s[0]))
    ensures TrimStart(a + s) == s
  {
    if a == "" {
      assert a + s == s;
    } else {
      assert (a + s)[1..] == a[1..] + s;
      TrimStartDrops(a[1..], s);
    }
  }

  lemma {:induction false} TrimEndDrops(s: string, b: string)
    requires AllBlank(b) && (s == "" || !IsBlank(s[|s| - 1]))
    ensures TrimEnd(s + b) == s
    decreases |b|
  {
    if b == "" {
      assert s + b == s;
    } else {
      assert (s + b)[..|s + b| - 1] == s + b[..|b| - 1];
      TrimEndDrops(s, b[..|b| - 1]);
    }
  }

  /** A setting is what is left of it once the blanks around it are dropped, and nothing where it is all
      blank. */
  lemma TrimDrops(a: string, s: string, b: string)
    requires AllBlank(a) && AllBlank(b) && (s == "" || (!IsBlank(s[0]) && !IsBlank(s[|s| - 1])))
    ensures Trim(a + s + b) == s
  {
    if s == "" {
      assert a + s + b == (a + b) + "";
      TrimStartDrops(a + b, "");
    } else {
      assert a + s + b == a + (s + b);
      TrimStartDrops(a, s + b);
      TrimEndDrops(s, b);
    }
  }

  lemma {:induction false} StripDrops(t: string, z: string)
    requires (forall i :: 0 <= i < |z| ==> z[i] == '/') && (t == "" || t[|t| - 1] != '/')
    ensures StripSlashes(t + z) == t
    decreases |z|
  {
    if z == "" {
      assert t + z == t;
    } else {
      assert (t + z)[..|t + z| - 1] == t + z[..|z| - 1];
      StripDrops(t, z[..|z| - 1]);
    }
  }

  /** An operator's setting: an address `t`, slashes after it, and blanks around it all. */
  ghost predicate Spells(setting: string, t: string, z: string) {
    exists a, b :: AllBlank(a) && AllBlank(b) && setting == a + (t + z) + b
      && (forall i :: 0 <= i < |z| ==> z[i] == '/') && (t == "" || t[|t| - 1] != '/')
      && (t + z == "" || (!IsBlank((t + z)[0]) && !IsBlank((t + z)[|t + z| - 1])))
  }

  lemma SettingReads(setting: string, t: string, z: string)
    requires Spells(setting, t, z)
    ensures Raw(Some(setting)) == t + z && Stripped(Some(setting)) == t
    ensures BaseUrl(Some(setting)) == if t + z == "" then None else Some(t)
  {
    var a, b :| AllBlank(a) && AllBlank(b) && setting == a + (t + z) + b
      && (forall i :: 0 <= i < |z| ==> z[i] == '/') && (t == "" || t[|t| - 1] != '/')
      && (t + z == "" || (!IsBlank((t + z)[0]) && !IsBlank((t + z)[|t + z| - 1])));
    TrimDrops(a, t + z, b);
    StripDrops(t, z);
  }

  /** However it is spelled, the address does not get through: neither with its slashes nor without them. */
  lemma SettingNeverNamed(message: string, setting: string, t: string, z: string)
    requires Spells(setting, t, z) && t + z != "" && (t == "" || !Overlaps(t))
    ensures var out := RedactOrigin(message, Some(setting)); !Contains(out, t + z) && (t != "" ==> !Contains(out, t))
  {
    SettingReads(setting, t, z);
    NeverNamed(message, Some(setting));
  }

  // ---------------------------------------------------------------- what is kept

  /** `text` is `pieces` with `s` between them, none of which holds `s`. */
  ghost predicate Pieced(pieces: seq<string>, text: string, s: string) {
    pieces != [] && Join(pieces, s) == text && forall i :: 0 <= i < |pieces| ==> !Contains(pieces[i], s)
  }

  lemma {:induction false} SplitPieces(text: string, s: string)
    requires s != ""
    ensures Pieced(Split(text, s), text, s)
    decreases |text|
  {
    SplitJoin(text, s);
    var at := Find(text, s, 0);
    if at.Some? {
      var rest := text[at.value + |s|..];
      SplitPieces(rest, s);
      NoEarlier(text, s, at.value);
      assert Split(text, s) == [text[..at.value]] + Split(rest, s);
    }
  }

  /** Nothing but the address goes: the redacted message is the message's own pieces, in order, with the
      replacement where the address stood between them. */
  lemma RestKept(message: string, setting: string, t: string, z: string)
    requires Spells(setting, t, z) && t != "" && !Overlaps(t)
    ensures exists pieces :: Pieced(pieces, message, t) && RedactOrigin(message, Some(setting)) == Join(pieces, REDACTED)
  {
    SettingReads(setting, t, z);
    SplitPieces(message, t);
    ReplaceCleans(message, t);
    var once := Replace(message, t);
    if Contains(once, t + z) { LongerAbsent(once, t, t + z); }
    AbsentUnchanged(once, t + z);
    assert RedactOrigin(message, Some(setting)) == Join(Split(message, t), REDACTED);
  }

  /** And where nothing is set, nothing is touched. */
  lemma UnsetUntouched(message: string, setting: string)
    requires AllBlank(setting)
    ensures RedactOrigin(message, Some(setting)) == message && RedactOrigin(message, None) == message
    ensures BaseUrl(Some(setting)).None? && BaseUrl(None).None?
  {
    TrimDrops(setting, "", "");
    assert setting + "" + "" == setting;
  }

  /** A message that names the origin in neither spelling is left as it was. */
  lemma OthersUntouched(message: string, configured: Option<string>)
    requires Raw(configured) != "" ==> !Contains(message, Raw(configured))
    requires Stripped(configured) != "" ==> !Contains(message, Stripped(configured))
    ensures RedactOrigin(message, configured) == message
  {
    if Stripped(configured) != "" { AbsentUnchanged(message, Stripped(configured)); }
    if Raw(configured) != "" { AbsentUnchanged(message, Raw(configured)); }
  }
}
