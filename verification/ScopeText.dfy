/** Scope sets as text: the space-delimited form a token carries and the audit column stores. */
module ScopeText {

  /** The characters that Python's `str.split()` treats as separators. */
  predicate IsSpace(c: char) {
    || '\t' <= c <= '\r'
    || '\U{1c}' <= c <= ' '
    || c == '\U{85}' || c == '\U{a0}' || c == '\U{1680}'
    || '\U{2000}' <= c <= '\U{200a}'
    || c == '\U{2028}' || c == '\U{2029}' || c == '\U{202f}' || c == '\U{205f}' || c == '\U{3000}'
  }

  /** A word that survives being joined and split again. */
  predicate Plain(word: string) {
    word != "" && forall i :: 0 <= i < |word| ==> !IsSpace(word[i])
  }

  /** How many leading characters of `s` are not separators. */
  function WordEnd(s: string): (n: nat)
    ensures n <= |s|
    ensures forall i :: 0 <= i < n ==> !IsSpace(s[i])
    ensures n < |s| ==> IsSpace(s[n])
  {
    if s == "" || IsSpace(s[0]) then 0 else 1 + WordEnd(s[1..])
  }

  /** `str.split()` with no argument: the maximal runs of non-separators, in order. */
  function Split(s: string): (words: seq<string>)
    ensures forall w :: w in words ==> Plain(w)
    decreases |s|
  {
    if s == "" then []
    else if IsSpace(s[0]) then Split(s[1..])
    else [s[..WordEnd(s)]] + Split(s[WordEnd(s)..])
  }

  /** `" ".join(words)`. */
  function Join(words: seq<string>): string {
    if |words| == 0 then ""
    else if |words| == 1 then words[0]
    else words[0] + " " + Join(words[1..])
  }

  /** One space between any two words, and none before or after. */
  lemma {:induction false} JoinSays(words: seq<string>, w: string)
    ensures Join([]) == "" && Join([w]) == w
    ensures words != [] ==> Join(words + [w]) == Join(words) + [' '] + w
  {
    if |words| > 1 {
      JoinSays(words[1..], w);
      assert (words + [w])[1..] == words[1..] + [w];
    }
  }

  lemma {:induction false} WordEndOfPrefix(w: string, rest: string)
    requires forall i :: 0 <= i < |w| ==> !IsSpace(w[i])
    requires rest == "" || IsSpace(rest[0])
    ensures WordEnd(w + rest) == |w|
  {
    if w == "" {
      assert w + rest == rest;
    } else {
      assert (w + rest)[1..] == w[1..] + rest;
      WordEndOfPrefix(w[1..], rest);
    }
  }

  lemma SplitOfPrefix(w: string, rest: string)
    requires Plain(w)
    requires rest == "" || IsSpace(rest[0])
    ensures Split(w + rest) == [w] + Split(rest)
  {
    WordEndOfPrefix(w, rest);
    assert (w + rest)[0] == w[0];
    assert (w + rest)[..|w|] == w;
    assert (w + rest)[|w|..] == rest;
  }

  /** Splitting undoes joining on words that are non-empty and hold no separator. */
  lemma {:induction false} SplitJoin(words: seq<string>)
    requires forall w :: w in words ==> Plain(w)
    ensures Split(Join(words)) == words
  {
    if |words| == 1 {
      assert words[0] + "" == words[0];
      SplitOfPrefix(words[0], "");
    } else if |words| > 1 {
      var tail := " " + Join(words[1..]);
      assert words[0] + " " + Join(words[1..]) == words[0] + tail;
      SplitOfPrefix(words[0], tail);
      assert tail[1..] == Join(words[1..]);
      SplitJoin(words[1..]);
    }
  }

  /** Code point order on strings, the order of Python's `sorted`. */
  predicate Le(a: string, b: string) {
    a == "" || (b != "" && (a[0] < b[0] || (a[0] == b[0] && Le(a[1..], b[1..]))))
  }

  lemma LeTotal(a: string, b: string)
    ensures Le(a, b) || Le(b, a)
    ensures Le(a, b) && Le(b, a) ==> a == b
  {
    if a != "" && b != "" && a[0] == b[0] {
      LeTotal(a[1..], b[1..]);
    }
  }

  lemma LeTransitive(a: string, b: string, c: string)
    requires Le(a, b) && Le(b, c)
    ensures Le(a, c)
  {
    if a != "" && b != "" && c != "" && a[0] == b[0] == c[0] {
      LeTransitive(a[1..], b[1..], c[1..]);
    }
  }

  ghost predicate IsLeast(x: string, m: multiset<string>) {
    x in m && forall y :: y in m ==> Le(x, y)
  }

  lemma {:induction false} LeastExists(m: multiset<string>)
    requires |m| > 0
    ensures exists x :: IsLeast(x, m)
    decreases |m|
  {
    var x :| x in m;
    var rest := m - multiset{x};
    LeTotal(x, x);
    if |rest| > 0 {
      LeastExists(rest);
      var y :| IsLeast(y, rest);
      LeTotal(x, y);
      LeTotal(y, y);
      var z := if Le(x, y) then x else y;
      forall w | w in m ensures Le(z, w) {
        if w in rest && Le(x, y) {
          LeTransitive(x, y, w);
        } else if w !in rest {
          assert w == x;
        }
      }
      assert IsLeast(z, m);
    } else {
      assert rest == multiset{} && m == rest + multiset{x};
      assert IsLeast(x, m);
    }
  }

  function Least(m: multiset<string>): (x: string)
    requires |m| > 0
    ensures IsLeast(x, m)
  {
    LeastExists(m);
    assert forall x, y :: x in m && y in m && Le(x, y) && Le(y, x) ==> x == y by {
      forall x, y | x in m && y in m && Le(x, y) && Le(y, x) ensures x == y { LeTotal(x, y); }
    }
    var x :| x in m && forall y :: y in m ==> Le(x, y);
    x
  }

  /** `sorted`, on the items of a list (or, taken once each, of a set). */
  function Sorted(m: multiset<string>): (words: seq<string>)
    ensures multiset(words) == m
    decreases |m|
  {
    if |m| == 0 then []
    else
      var x := Least(m);
      [x] + Sorted(m - multiset{x})
  }

  predicate Ascends(words: seq<string>) {
    forall i, j :: 0 <= i < j < |words| ==> Le(words[i], words[j])
  }

  lemma AscendsCons(x: string, words: seq<string>)
    requires Ascends(words) && forall w :: w in words ==> Le(x, w)
    ensures Ascends([x] + words)
  {
  }

  /** Every item comes before those that are larger. */
  lemma {:induction false} SortedAscends(m: multiset<string>)
    ensures Ascends(Sorted(m))
    decreases |m|
  {
    if |m| > 0 {
      var x := Least(m);
      var rest := Sorted(m - multiset{x});
      SortedAscends(m - multiset{x});
      forall w | w in rest ensures Le(x, w) {
        assert w in multiset(rest);
      }
      AscendsCons(x, rest);
    }
  }

  /** `" ".join(sorted(scopes))`, the stored form of an effective scope set. */
  function Render(scopes: set<string>): string {
    Join(Sorted(multiset(scopes)))
  }

  function Words(s: string): set<string> {
    set w | w in Split(s)
  }

  lemma SplitSorted(m: multiset<string>)
    requires forall w :: w in m ==> Plain(w)
    ensures Words(Join(Sorted(m))) == set w | w in m
  {
    var words := Sorted(m);
    forall w ensures w in words <==> w in m {
      assert w in multiset(words) <==> w in words;
    }
    SplitJoin(words);
  }

  /** The stored text gives the set back exactly when every scope is a word. */
  lemma RenderRoundTrip(scopes: set<string>)
    ensures Words(Render(scopes)) == scopes <==> forall s :: s in scopes ==> Plain(s)
  {
    if forall s :: s in scopes ==> Plain(s) {
      SplitSorted(multiset(scopes));
    }
  }

  /** The separators, one by one. */
  lemma Separators(c: char)
    ensures IsSpace(c) <==> c in {
      '\U{9}', '\U{a}', '\U{b}', '\U{c}', '\U{d}', '\U{1c}', '\U{1d}', '\U{1e}', '\U{1f}', '\U{20}', '\U{85}', '\U{a0}',
      '\U{1680}', '\U{2000}', '\U{2001}', '\U{2002}', '\U{2003}', '\U{2004}', '\U{2005}', '\U{2006}', '\U{2007}',
      '\U{2008}', '\U{2009}', '\U{200a}', '\U{2028}', '\U{2029}', '\U{202f}', '\U{205f}', '\U{3000}'}
  {
  }

  /** What splitting is, whatever the separators and however many: nothing gives no word, text without a
      separator is one word, and at any separator the words before and the words after come apart. */
  lemma {:induction false} SplitApart(a: string, c: char, b: string)
    requires IsSpace(c)
    ensures Split(a + [c] + b) == Split(a) + Split(b)
    ensures Split("") == [] && (Plain(a) ==> Split(a) == [a])
    decreases |a|
  {
    var text := a + [c] + b;
    if Plain(a) {
      assert a + "" == a;
      SplitOfPrefix(a, "");
    }
    if a == "" {
      assert text[1..] == b;
    } else if IsSpace(a[0]) {
      assert text[1..] == a[1..] + [c] + b;
      SplitApart(a[1..], c, b);
    } else {
      FirstWord(a, c, b);
      SplitApart(a[WordEnd(a)..], c, b);
      assert Split(a) == [a[..WordEnd(a)]] + Split(a[WordEnd(a)..]);
    }
  }

  lemma FirstWord(a: string, c: char, b: string)
    requires a != "" && !IsSpace(a[0]) && IsSpace(c)
    ensures Split(a + [c] + b) == [a[..WordEnd(a)]] + Split(a[WordEnd(a)..] + [c] + b)
  {
    var n, text := WordEnd(a), a + [c] + b;
    WordEndStays(a, [c] + b);
    assert text == a + ([c] + b) && text[..n] == a[..n] && text[n..] == a[n..] + [c] + b;
  }

  lemma {:induction false} WordEndStays(a: string, rest: string)
    requires rest != "" && IsSpace(rest[0])
    ensures WordEnd(a + rest) == WordEnd(a)
    decreases |a|
  {
    if a == "" {
      assert a + rest == rest;
    } else if !IsSpace(a[0]) {
      assert (a + rest)[1..] == a[1..] + rest;
      WordEndStays(a[1..], rest);
    }
  }
}
