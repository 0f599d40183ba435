/** String operations shared by the ingester and the page text extractor: the
    character classes of Python's `re` and `str` methods, whitespace collapsing,
    `str.strip()`, `str.split()` and `' '.join(...)`. */
module TextOps {

  datatype Option<+T> = None | Some(value: T)

  /** The characters for which Python's `str.isspace()` holds; `\s` in a `str`
      pattern, `str.split()` and `str.strip()` all use this set. */
  predicate IsSpace(c: char) {
    ('\t' <= c <= '\r') || ('\U{1C}' <= c <= ' ') || c == '\U{85}' || c == '\U{A0}'
    || c == '\U{1680}' || ('\U{2000}' <= c <= '\U{200A}') || c == '\U{2028}' || c == '\U{2029}'
    || c == '\U{202F}' || c == '\U{205F}' || c == '\U{3000}'
  }

  /** `\w`, restricted to ASCII letters, digits and the underscore. */
  predicate IsWordChar(c: char) {
    ('a' <= c <= 'z') || ('A' <= c <= 'Z') || ('0' <= c <= '9') || c == '_'
  }

  /** The punctuation both cleaners keep: `. , ! ? ; : - ( )`. */
  predicate IsKeptPunct(c: char) {
    c == '.' || c == ',' || c == '!' || c == '?' || c == ';' || c == ':' || c == '-' || c == '(' || c == ')'
  }

  /** The complement of the class `[^\w\s\.\,\!\?\;\:\-\(\)]`. */
  predicate IsAllowed(c: char) {
    IsWordChar(c) || IsSpace(c) || IsKeptPunct(c)
  }

  /** The non-whitespace characters of `s`, in order. */
  function NonSpace(s: string): (r: string)
    ensures |r| <= |s|
    ensures forall i :: 0 <= i < |r| ==> !IsSpace(r[i])
  {
    if s == [] then []
    else if IsSpace(s[0]) then NonSpace(s[1..])
    else [s[0]] + NonSpace(s[1..])
  }

  /** `re.sub(r'\s+', ' ', s)` scanned from a position where `inRun` says whether
      the previous input character was whitespace. */
  function CollapseFrom(s: string, inRun: bool): (r: string)
    ensures |r| <= |s|
    ensures NonSpace(r) == NonSpace(s)
    ensures forall i :: 0 <= i < |r| && IsSpace(r[i]) ==> r[i] == ' '
    ensures forall i :: 0 <= i < |r| - 1 ==> !(IsSpace(r[i]) && IsSpace(r[i + 1]))
    ensures inRun && |r| > 0 ==> !IsSpace(r[0])
  {
    if s == [] then []
    else if IsSpace(s[0]) then
      if inRun then CollapseFrom(s[1..], true) else [' '] + CollapseFrom(s[1..], true)
    else [s[0]] + CollapseFrom(s[1..], false)
  }

  /** `re.sub(r'\s+', ' ', s)`: every maximal run of whitespace becomes one space.
      The result keeps the non-whitespace characters, its only whitespace is
      single spaces, and it starts (ends) with a space exactly when the input
      starts (ends) with whitespace; `JoinOfWords` adds that it keeps the words. */
  function CollapseWhitespace(s: string): (r: string)
    ensures |r| <= |s|
    ensures NonSpace(r) == NonSpace(s)
    ensures forall i :: 0 <= i < |r| && IsSpace(r[i]) ==> r[i] == ' '
    ensures forall i :: 0 <= i < |r| - 1 ==> !(IsSpace(r[i]) && IsSpace(r[i + 1]))
    ensures |s| > 0 ==> |r| > 0 && (IsSpace(s[0]) <==> r[0] == ' ') && (IsSpace(s[|s| - 1]) <==> r[|r| - 1] == ' ')
  {
    if s == [] then []
    else
      CollapseLast(s, false);
      CollapseFrom(s, false)
  }

  /** The collapse keeps the kind of the last character: the output ends in the
      input's last character when that is not whitespace, and otherwise is
      empty or ends in a space. Outside a run, a non-empty input gives a
      non-empty output. */
  lemma {:induction false} CollapseLast(s: string, inRun: bool)
    requires s != []
    ensures var r := CollapseFrom(s, inRun);
      && (!inRun ==> r != [])
      && (!IsSpace(s[|s| - 1]) ==> r != [] && r[|r| - 1] == s[|s| - 1])
      && (IsSpace(s[|s| - 1]) ==> r == [] || r[|r| - 1] == ' ')
    decreases |s|
  {
    var t, next := s[1..], IsSpace(s[0]);
    var p: string := if !next then [s[0]] else if inRun then [] else [' '];
    var rt := CollapseFrom(t, next);
    assert CollapseFrom(s, inRun) == p + rt;
    if t != [] {
      CollapseLast(t, next);
      assert t[|t| - 1] == s[|s| - 1];
    }
  }

  /** Number of whitespace characters at the front of `s`. */
  function LeadingSpaces(s: string): (n: nat)
    ensures n <= |s|
    ensures forall i :: 0 <= i < n ==> IsSpace(s[i])
    ensures n < |s| ==> !IsSpace(s[n])
  {
    if s == [] || !IsSpace(s[0]) then 0 else 1 + LeadingSpaces(s[1..])
  }

  /** Number of whitespace characters at the back of `s`. */
  function TrailingSpaces(s: string): (n: nat)
    ensures n <= |s|
    ensures forall i :: |s| - n <= i < |s| ==> IsSpace(s[i])
    ensures n < |s| ==> !IsSpace(s[|s| - 1 - n])
  {
    if s == [] || !IsSpace(s[|s| - 1]) then 0 else 1 + TrailingSpaces(s[..|s| - 1])
  }

  /** `s.strip()`: the result is the slice of `s` that starts after the leading
      whitespace, everything cut from either end is whitespace, and the result
      neither begins nor ends with whitespace. */
  function Strip(s: string): (r: string)
    ensures |r| <= |s|
    ensures LeadingSpaces(s) + |r| <= |s| && r == s[LeadingSpaces(s)..LeadingSpaces(s) + |r|]
    ensures forall i :: LeadingSpaces(s) + |r| <= i < |s| ==> IsSpace(s[i])
    ensures |r| > 0 ==> !IsSpace(r[0]) && !IsSpace(r[|r| - 1])
    ensures (s == [] || (!IsSpace(s[0]) && !IsSpace(s[|s| - 1]))) ==> r == s
  {
    var a := LeadingSpaces(s);
    if a == |s| then []
    else
      var b := TrailingSpaces(s);
      s[a..|s| - b]
  }

  /** A token of `str.split()`: non-empty and free of whitespace. */
  predicate IsWord(w: string) {
    |w| > 0 && forall i :: 0 <= i < |w| ==> !IsSpace(w[i])
  }

  /** Length of the run of non-whitespace characters at the front of `s`. */
  function TokenLen(s: string): (n: nat)
    ensures n <= |s|
    ensures forall i :: 0 <= i < n ==> !IsSpace(s[i])
    ensures n < |s| ==> IsSpace(s[n])
  {
    if s == [] || IsSpace(s[0]) then 0 else 1 + TokenLen(s[1..])
  }

  /** `s.split()` with no separator: the maximal whitespace-free runs, in order. */
  function Words(s: string): (ws: seq<string>)
    ensures |ws| <= |s|
    ensures forall i :: 0 <= i < |ws| ==> IsWord(ws[i])
    decreases |s|
  {
    if s == [] then []
    else if IsSpace(s[0]) then Words(s[1..])
    else
      var n := TokenLen(s);
      [s[..n]] + Words(s[n..])
  }

  /** `' '.join(ws)`. */
  function Join(ws: seq<string>): string {
    if |ws| == 0 then ""
    else if |ws| == 1 then ws[0]
    else ws[0] + " " + Join(ws[1..])
  }

  /** `s.split()` is empty exactly when `s` is empty or all whitespace. */
  lemma {:induction false} WordsEmptyIff(s: string)
    ensures Words(s) == [] <==> forall i :: 0 <= i < |s| ==> IsSpace(s[i])
    decreases |s|
  {
    if s != [] && IsSpace(s[0]) {
      WordsEmptyIff(s[1..]);
      if forall i :: 0 <= i < |s[1..]| ==> IsSpace(s[1..][i]) {
        forall i | 0 <= i < |s| ensures IsSpace(s[i]) {
          if i > 0 { assert s[i] == s[1..][i - 1]; }
        }
      }
    }
  }

  /** The tokens a join of words begins with: `w` itself, when the rest is
      empty or starts with a space. */
  lemma {:induction false} TokenLenOfWord(w: string, tail: string)
    requires IsWord(w)
    requires tail == [] || IsSpace(tail[0])
    ensures TokenLen(w + tail) == |w|
    decreases |w|
  {
    if |w| > 1 {
      assert (w + tail)[1..] == w[1..] + tail;
      TokenLenOfWord(w[1..], tail);
    } else {
      assert (w + tail)[1..] == tail;
    }
  }

  /** Round trip: splitting a space-joined list of words gives the words back. */
  lemma {:induction false} WordsOfJoin(ws: seq<string>)
    requires forall i :: 0 <= i < |ws| ==> IsWord(ws[i])
    ensures Words(Join(ws)) == ws
    decreases |ws|
  {
    if |ws| == 0 {
    } else if |ws| == 1 {
      var w := ws[0];
      TokenLenOfWord(w, []);
      assert w + [] == w;
      assert w[|w|..] == [];
      assert w[..|w|] == w;
    } else {
      var w, rest := ws[0], Join(ws[1..]);
      var tail := " " + rest;
      var s := w + tail;
      assert Join(ws) == s;
      TokenLenOfWord(w, tail);
      assert s[..|w|] == w;
      assert s[|w|..] == tail;
      assert tail[1..] == rest;
      WordsOfJoin(ws[1..]);
      assert Words(tail) == Words(rest);
    }
  }

  /** A space-joined list of words neither begins nor ends with whitespace, so
      stripping it changes nothing. */
  lemma {:induction false} JoinOfWordsIsStripped(ws: seq<string>)
    requires forall i :: 0 <= i < |ws| ==> IsWord(ws[i])
    ensures Strip(Join(ws)) == Join(ws)
    ensures |ws| > 0 ==> |Join(ws)| > 0 && !IsSpace(Join(ws)[0]) && !IsSpace(Join(ws)[|Join(ws)| - 1])
    decreases |ws|
  {
    if |ws| > 1 {
      JoinOfWordsIsStripped(ws[1..]);
      var j := ws[0] + " " + Join(ws[1..]);
      assert j[0] == ws[0][0];
      assert j[|j| - 1] == Join(ws[1..])[|Join(ws[1..])| - 1];
    }
  }

  /** Whitespace in front adds no word. */
  lemma {:induction false} WordsOfSpaceCons(c: char, s: string)
    requires IsSpace(c)
    ensures Words([c] + s) == Words(s)
  {
    assert ([c] + s)[1..] == s;
  }

  /** `split()` at whitespace: when `y` is empty or starts with whitespace, the
      words of `x + y` are the words of `x` followed by the words of `y`. */
  lemma {:induction false} WordsSplitAtSpace(x: string, y: string)
    requires y == [] || IsSpace(y[0])
    ensures Words(x + y) == Words(x) + Words(y)
    decreases |x|
  {
    if x == [] {
      assert x + y == y;
    } else if IsSpace(x[0]) {
      var t := x[1..];
      assert x == [x[0]] + t && x + y == [x[0]] + (t + y);
      WordsOfSpaceCons(x[0], t + y);
      WordsOfSpaceCons(x[0], t);
      WordsSplitAtSpace(t, y);
    } else {
      var n := TokenLen(x);
      var w, r := x[..n], x[n..];
      assert x == w + r && x + y == w + (r + y);
      assert r + y == [] || IsSpace((r + y)[0]);
      WordsOfWordThen(w, r + y);
      WordsOfWordThen(w, r);
      WordsSplitAtSpace(r, y);
      AppendAssoc([w], Words(r), Words(y));
    }
  }

  /** A word followed by nothing or by whitespace is the first token. */
  lemma {:induction false} WordsOfWordThen(w: string, t: string)
    requires IsWord(w)
    requires t == [] || IsSpace(t[0])
    ensures Words(w + t) == [w] + Words(t)
  {
    var s := w + t;
    TokenLenOfWord(w, t);
    assert s[0] == w[0];
    assert s[..|w|] == w && s[|w|..] == t;
  }

  /** A single word splits into itself. */
  lemma {:induction false} WordsOfWord(w: string)
    requires IsWord(w)
    ensures Words(w) == [w]
  {
    WordsOfJoin([w]);
  }

  /** Leading whitespace adds no word. */
  lemma {:induction false} WordsOfSpacesThen(x: string, t: string)
    requires forall i :: 0 <= i < |x| ==> IsSpace(x[i])
    ensures Words(x + t) == Words(t)
    decreases |x|
  {
    if x == [] {
      assert x + t == t;
    } else {
      assert x + t == [x[0]] + (x[1..] + t);
      WordsOfSpaceCons(x[0], x[1..] + t);
      WordsOfSpacesThen(x[1..], t);
    }
  }

  /** Whitespace on either side of `s[a..b]` adds no word. */
  lemma {:induction false} WordsOfPadded(s: string, a: nat, b: nat)
    requires a <= b <= |s|
    requires forall i :: 0 <= i < a ==> IsSpace(s[i])
    requires forall i :: b <= i < |s| ==> IsSpace(s[i])
    ensures Words(s) == Words(s[a..b])
  {
    var x, r, y := s[..a], s[a..b], s[b..];
    assert s == x + (r + y);
    forall i | 0 <= i < |x| ensures IsSpace(x[i]) {
      assert x[i] == s[i];
    }
    WordsOfSpacesThen(x, r + y);
    forall i | 0 <= i < |y| ensures IsSpace(y[i]) {
      assert y[i] == s[b + i];
    }
    WordsSplitAtSpace(r, y);
    WordsEmptyIff(y);
  }

  /** `strip()` keeps the words. */
  lemma {:induction false} WordsOfStrip(s: string)
    ensures Words(Strip(s)) == Words(s)
  {
    var a := LeadingSpaces(s);
    var b := a + |Strip(s)|;
    assert Strip(s) == s[a..b];
    WordsOfPadded(s, a, b);
  }

  /** The collapse copies a word and carries on after it outside a run. */
  lemma {:induction false} CollapseOfWordThen(w: string, rest: string, inRun: bool)
    requires IsWord(w)
    ensures CollapseFrom(w + rest, inRun) == w + CollapseFrom(rest, false)
    decreases |w|
  {
    var v := w[1..];
    assert w == [w[0]] + v;
    CollapseCons(w[0], v + rest, inRun);
    AppendAssoc([w[0]], v, rest);
    if v == [] {
      assert v + rest == rest;
    } else {
      assert IsWord(v) by {
        forall i | 0 <= i < |v| ensures !IsSpace(v[i]) {
          assert v[i] == w[i + 1];
        }
      }
      CollapseOfWordThen(v, rest, false);
      AppendAssoc([w[0]], v, CollapseFrom(rest, false));
    }
  }

  /** A non-whitespace character is copied and ends any run. */
  lemma {:induction false} CollapseCons(c: char, t: string, inRun: bool)
    requires !IsSpace(c)
    ensures CollapseFrom([c] + t, inRun) == [c] + CollapseFrom(t, false)
  {
    assert ([c] + t)[0] == c && ([c] + t)[1..] == t;
  }

  /** Collapsing whitespace keeps the words. */
  lemma {:induction false} WordsOfCollapseFrom(s: string, inRun: bool)
    ensures Words(CollapseFrom(s, inRun)) == Words(s)
    decreases |s|
  {
    if s == [] {
    } else if IsSpace(s[0]) {
      WordsOfCollapseFrom(s[1..], true);
      if !inRun {
        WordsOfSpaceCons(' ', CollapseFrom(s[1..], true));
      }
    } else {
      var n := TokenLen(s);
      var w, rest := s[..n], s[n..];
      assert s == w + rest;
      CollapseOfWordThen(w, rest, inRun);
      var c := CollapseFrom(rest, false);
      if rest != [] {
        assert IsSpace(rest[0]);
        assert c == [' '] + CollapseFrom(rest[1..], true);
      }
      WordsSplitAtSpace(w, c);
      WordsOfWord(w);
      WordsOfCollapseFrom(rest, false);
    }
  }

  /** The only whitespace is single spaces. */
  ghost predicate SingleSpaced(s: string) {
    && (forall i :: 0 <= i < |s| && IsSpace(s[i]) ==> s[i] == ' ')
    && (forall i, j :: 0 <= i < j < |s| && j == i + 1 ==> !(IsSpace(s[i]) && IsSpace(s[j])))
  }

  lemma {:induction false} StripKeepsSingleSpaced(s: string)
    requires SingleSpaced(s)
    ensures SingleSpaced(Strip(s))
  {
    var r, a := Strip(s), LeadingSpaces(s);
    forall i | 0 <= i < |r| ensures r[i] == s[a + i] {
    }
  }

  /** A single-spaced string with no whitespace at either end is the
      space-join of its words. */
  lemma {:induction false} JoinOfSingleSpaced(r: string)
    requires SingleSpaced(r)
    requires r == [] || (!IsSpace(r[0]) && !IsSpace(r[|r| - 1]))
    ensures Join(Words(r)) == r
    decreases |r|
  {
    if r != [] {
      var n := TokenLen(r);
      var w, rest := r[..n], r[n..];
      assert IsWord(w);
      WordsOfWordThen(w, rest);
      if n == |r| {
        assert w == r && rest == [];
      } else {
        assert r[n] == ' ' && n + 1 < |r|;
        var t := r[n + 1..];
        SplitAround(r, n);
        WordsOfSpaceCons(r[n], t);
        SingleSpacedSuffix(r, n + 1);
        assert t[0] == r[n + 1] && t[|t| - 1] == r[|r| - 1];
        JoinOfSingleSpaced(t);
        WordsEmptyIff(t);
        JoinCons(w, Words(t));
      }
    }
  }

  lemma {:induction false} SingleSpacedSuffix(s: string, k: nat)
    requires SingleSpaced(s) && k <= |s|
    ensures SingleSpaced(s[k..])
  {
    var t := s[k..];
    forall i | 0 <= i < |t| ensures t[i] == s[k + i] {
    }
  }

  /** `' '.join` puts one space after the first of several words. */
  lemma {:induction false} JoinCons(w: string, ws: seq<string>)
    requires ws != []
    ensures Join([w] + ws) == w + " " + Join(ws)
  {
    assert ([w] + ws)[0] == w && ([w] + ws)[1..] == ws;
  }

  /** `split()` and the collapse agree: collapsing keeps the words, and the
      space-join of the words is the collapsed text stripped. As `Join` is
      one-to-one on lists of words (`WordsOfJoin`), this fixes `split()`: its
      tokens are the maximal whitespace-free runs, in order. */
  lemma {:induction false} JoinOfWords(s: string)
    ensures Words(CollapseWhitespace(s)) == Words(s)
    ensures Join(Words(s)) == Strip(CollapseWhitespace(s))
  {
    var c := CollapseWhitespace(s);
    WordsOfCollapseFrom(s, false);
    StripKeepsSingleSpaced(c);
    WordsOfStrip(c);
    JoinOfSingleSpaced(Strip(c));
  }

  /** `s` with each character `c` rewritten to the string `g(c)`. */
  function Expand(s: string, g: char -> string): string {
    if s == [] then [] else g(s[0]) + Expand(s[1..], g)
  }

  lemma {:induction false} ExpandAppend(a: string, b: string, g: char -> string)
    ensures Expand(a + b, g) == Expand(a, g) + Expand(b, g)
    decreases |a|
  {
    if a == [] {
      assert a + b == b;
    } else {
      assert (a + b)[0] == a[0] && (a + b)[1..] == a[1..] + b;
      ExpandAppend(a[1..], b, g);
    }
  }

  /** The rewrite leaves every whitespace character as it is. */
  predicate KeepsSpaces(g: char -> string) {
    forall c :: IsSpace(c) ==> g(c) == [c]
  }

  /** The words of each of `ws` after the rewrite, in order. */
  function WordsAfter(ws: seq<string>, g: char -> string): seq<string> {
    if ws == [] then [] else Words(Expand(ws[0], g)) + WordsAfter(ws[1..], g)
  }

  /** A character rewrite that keeps whitespace acts on `split()` word by word:
      the words of the rewritten text are the words of each rewritten word, in
      order. Rewriting never joins two words. */
  lemma {:induction false} WordsOfExpand(s: string, g: char -> string)
    requires KeepsSpaces(g)
    ensures Words(Expand(s, g)) == WordsAfter(Words(s), g)
    decreases |s|
  {
    if s == [] {
    } else if IsSpace(s[0]) {
      assert g(s[0]) == [s[0]];
      WordsOfSpaceCons(s[0], Expand(s[1..], g));
      WordsOfExpand(s[1..], g);
    } else {
      var n := TokenLen(s);
      var w, rest := s[..n], s[n..];
      assert s == w + rest;
      ExpandAppend(w, rest, g);
      var e := Expand(rest, g);
      if rest != [] {
        assert g(rest[0]) == [rest[0]];
        assert e[0] == rest[0];
      }
      WordsSplitAtSpace(Expand(w, g), e);
      WordsOfExpand(rest, g);
      var ws := Words(rest);
      assert ([w] + ws)[0] == w && ([w] + ws)[1..] == ws;
    }
  }

  /** Dropping whitespace distributes over concatenation. */
  lemma {:induction false} NonSpaceConcat(a: string, b: string)
    ensures NonSpace(a + b) == NonSpace(a) + NonSpace(b)
    decreases |a|
  {
    if a == [] {
      assert a + b == b;
    } else {
      assert (a + b)[0] == a[0] && (a + b)[1..] == a[1..] + b;
      NonSpaceConcat(a[1..], b);
    }
  }

  /** A string of whitespace only has no non-whitespace characters. */
  lemma {:induction false} NonSpaceOfSpaces(s: string)
    requires forall i :: 0 <= i < |s| ==> IsSpace(s[i])
    ensures NonSpace(s) == []
    decreases |s|
  {
    if s != [] {
      NonSpaceOfSpaces(s[1..]);
    }
  }

  /** `str.strip()` removes whitespace only: the non-whitespace characters are kept. */
  lemma {:induction false} StripKeepsNonSpace(s: string)
    ensures NonSpace(Strip(s)) == NonSpace(s)
  {
    var a := LeadingSpaces(s);
    NonSpaceOfPadded(s, a, a + |Strip(s)|);
  }

  /** Whitespace on either side of `s[a..b]` adds no non-whitespace characters. */
  lemma {:induction false} NonSpaceOfPadded(s: string, a: nat, b: nat)
    requires a <= b <= |s|
    requires forall i :: 0 <= i < a ==> IsSpace(s[i])
    requires forall i :: b <= i < |s| ==> IsSpace(s[i])
    ensures NonSpace(s) == NonSpace(s[a..b])
  {
    var x, r, y := s[..a], s[a..b], s[b..];
    assert s[..b] + y == s;
    NonSpaceConcat(s[..b], y);
    assert x + r == s[..b];
    NonSpaceConcat(x, r);
    NonSpaceOfSpaces(x);
    forall i | 0 <= i < |y| ensures IsSpace(y[i]) {
      assert y[i] == s[b + i];
    }
    NonSpaceOfSpaces(y);
  }

  // Sequence identities that the class methods use to keep their proofs small.

  lemma {:induction false} AppendAssoc<T>(a: seq<T>, b: seq<T>, c: seq<T>)
    ensures (a + b) + c == a + (b + c)
  {
  }

  lemma {:induction false} AppendTwo<T>(a: seq<T>, x: T, y: T)
    ensures (a + [x]) + [y] == a + [x, y]
  {
  }

  /** Growing a prefix by one: `a + s[..i + 1] == (a + s[..i]) + [s[i]]`. */
  lemma {:induction false} AppendPrefixStep<T>(a: seq<T>, s: seq<T>, i: nat)
    requires i < |s|
    ensures a + s[..i + 1] == (a + s[..i]) + [s[i]]
  {
    assert s[..i + 1] == s[..i] + [s[i]];
  }

  lemma {:induction false} AppendWhole<T>(a: seq<T>, s: seq<T>)
    ensures a + s[..|s|] == a + s
  {
    assert s[..|s|] == s;
  }

  /** `s` around its element at `n`. */
  lemma {:induction false} SplitAround<T>(s: seq<T>, n: nat)
    requires n < |s|
    ensures s[n..] == [s[n]] + s[n + 1..]
    ensures s == s[..n] + [s[n]] + s[n + 1..]
  {
  }

  lemma {:induction false} AppendEmpty<T>(a: seq<T>)
    ensures a + [] == a
  {
  }
}
