/** The ingester of backend/ingest.py: text cleaning, word-window chunking and the
    accumulation of chunks and their metadata in two parallel lists. Fetching and
    parsing a page is an oracle `fetch` from a URL to an optional raw page. */
module Ingest {
  import opened TextOps

  function Min(a: int, b: int): int {
    if a <= b then a else b
  }

  // ---------------------------------------------------------------------------
  // clean_text

  /** `re.sub(r'[^\w\s\.\,\!\?\;\:\-\(\)]', '', s)`: disallowed characters are deleted. */
  function DeleteDisallowed(s: string): (r: string)
    ensures |r| <= |s|
    ensures forall i :: 0 <= i < |r| ==> IsAllowed(r[i]) && r[i] in s
  {
    if s == [] then []
    else if IsAllowed(s[0]) then [s[0]] + DeleteDisallowed(s[1..])
    else DeleteDisallowed(s[1..])
  }

  /** What deletion does to one character. */
  function KeepAllowed(c: char): string {
    if IsAllowed(c) then [c] else []
  }

  /** Deletion is the character-by-character rewrite `KeepAllowed`. */
  lemma {:induction false} DeleteIsExpand(s: string)
    ensures DeleteDisallowed(s) == Expand(s, KeepAllowed)
    decreases |s|
  {
    if s != [] {
      DeleteIsExpand(s[1..]);
    }
  }

  /** Deletion works one character at a time: it distributes over concatenation,
      keeps an allowed character and drops any other, so the allowed characters
      are kept in their order. */
  lemma {:induction false} DeleteConcat(a: string, b: string, c: char)
    ensures DeleteDisallowed(a + b) == DeleteDisallowed(a) + DeleteDisallowed(b)
    ensures DeleteDisallowed([c]) == if IsAllowed(c) then [c] else []
  {
    DeleteIsExpand(a + b);
    DeleteIsExpand(a);
    DeleteIsExpand(b);
    ExpandAppend(a, b, KeepAllowed);
    assert [c][1..] == [];
  }

  /** Deleting disallowed characters commutes with dropping whitespace. */
  lemma {:induction false} NonSpaceOfDeleted(s: string)
    ensures NonSpace(DeleteDisallowed(s)) == DeleteDisallowed(NonSpace(s))
    decreases |s|
  {
    if s != [] {
      NonSpaceOfDeleted(s[1..]);
      if IsAllowed(s[0]) {
        var d := DeleteDisallowed(s[1..]);
        assert ([s[0]] + d)[0] == s[0] && ([s[0]] + d)[1..] == d;
        if !IsSpace(s[0]) {
          var n := NonSpace(s[1..]);
          assert ([s[0]] + n)[0] == s[0] && ([s[0]] + n)[1..] == n;
        }
      } else if !IsSpace(s[0]) {
        var n := NonSpace(s[1..]);
        assert ([s[0]] + n)[0] == s[0] && ([s[0]] + n)[1..] == n;
      }
    }
  }

  /** `clean_text`: whitespace runs become one space, disallowed characters are
      deleted, and the ends are stripped. The result holds only allowed
      characters, its only whitespace is the plain space, it neither starts nor
      ends with whitespace, and its non-whitespace characters are exactly the
      allowed non-whitespace characters of the input, in order. */
  function CleanText(text: string): (r: string)
    ensures forall i :: 0 <= i < |r| ==> IsAllowed(r[i])
    ensures forall i :: 0 <= i < |r| && IsSpace(r[i]) ==> r[i] == ' '
    ensures |r| > 0 ==> !IsSpace(r[0]) && !IsSpace(r[|r| - 1])
    ensures |r| <= |text|
    ensures NonSpace(r) == DeleteDisallowed(NonSpace(text))
  {
    var collapsed := CollapseWhitespace(text);
    var deleted := DeleteDisallowed(collapsed);
    NonSpaceOfDeleted(collapsed);
    DeleteKeepsPlainSpaces(collapsed);
    StripKeepsAllowed(deleted);
    StripKeepsNonSpace(deleted);
    Strip(deleted)
  }

  /** The non-empty `DeleteDisallowed(w)` for each `w` of `ws`, in order. */
  function DeletedWords(ws: seq<string>): seq<string> {
    if ws == [] then []
    else
      var d := DeleteDisallowed(ws[0]);
      (if d == [] then [] else [d]) + DeletedWords(ws[1..])
  }

  /** Deleting characters inside a word leaves a word or nothing. */
  lemma {:induction false} WordsAfterDelete(ws: seq<string>)
    requires forall i :: 0 <= i < |ws| ==> IsWord(ws[i])
    ensures WordsAfter(ws, KeepAllowed) == DeletedWords(ws)
    decreases |ws|
  {
    if ws != [] {
      var w := ws[0];
      var d := DeleteDisallowed(w);
      DeleteIsExpand(w);
      if d != [] {
        forall i | 0 <= i < |d| ensures !IsSpace(d[i]) {
          var j :| 0 <= j < |w| && w[j] == d[i];
        }
        WordsOfWord(d);
      }
      WordsAfterDelete(ws[1..]);
    }
  }

  /** `clean_text` keeps the words of `text.split()` apart: the words of the
      cleaned text are the input's words with their disallowed characters
      deleted, those left empty dropped, in order. */
  lemma {:induction false} CleanTextWords(text: string)
    ensures Words(CleanText(text)) == DeletedWords(Words(text))
  {
    var c := CollapseWhitespace(text);
    var d := DeleteDisallowed(c);
    JoinOfWords(text);
    DeleteIsExpand(c);
    WordsOfExpand(c, KeepAllowed);
    WordsAfterDelete(Words(c));
    WordsOfStrip(d);
  }

  /** Deleting characters keeps the plain space as the only whitespace. */
  lemma {:induction false} DeleteKeepsPlainSpaces(s: string)
    requires forall i :: 0 <= i < |s| && IsSpace(s[i]) ==> s[i] == ' '
    ensures var d := DeleteDisallowed(s);
      forall i :: 0 <= i < |d| && IsSpace(d[i]) ==> d[i] == ' '
    decreases |s|
  {
    if s != [] {
      DeleteKeepsPlainSpaces(s[1..]);
    }
  }

  /** Stripping keeps a string's characters allowed and its whitespace plain. */
  lemma {:induction false} StripKeepsAllowed(s: string)
    requires forall i :: 0 <= i < |s| ==> IsAllowed(s[i])
    requires forall i :: 0 <= i < |s| && IsSpace(s[i]) ==> s[i] == ' '
    ensures var r := Strip(s);
      && (forall i :: 0 <= i < |r| ==> IsAllowed(r[i]))
      && (forall i :: 0 <= i < |r| && IsSpace(r[i]) ==> r[i] == ' ')
  {
    var r, a := Strip(s), LeadingSpaces(s);
    forall i | 0 <= i < |r| ensures r[i] == s[a + i] {
    }
  }

  /** Deletion can leave two spaces side by side: `"a @ b"` cleans to `"a  b"`. */
  lemma CleanTextCanKeepDoubleSpace()
    ensures CleanText("a @ b") == "a  b"
  {
    CollapseOfExample();
    DeleteOfExample();
    assert Strip("a  b") == "a  b";
  }

  /** `"a @ b"` has no whitespace run to collapse. */
  lemma CollapseOfExample()
    ensures CollapseWhitespace("a @ b") == "a @ b"
  {
    var s := "a @ b";
    assert s[1..] == " @ b" && s[2..] == "@ b" && s[3..] == " b" && s[4..] == "b" && s[5..] == "";
    assert IsSpace(' ') && !IsSpace('a') && !IsSpace('@') && !IsSpace('b');
    assert CollapseFrom("", false) == [];
    assert CollapseFrom("b", true) == "b";
    assert CollapseFrom(" b", false) == " b";
    assert CollapseFrom("@ b", true) == "@ b";
    assert CollapseFrom(" @ b", false) == " @ b";
  }

  /** Deleting `@` from `"a @ b"` leaves the spaces on both sides of it. */
  lemma DeleteOfExample()
    ensures DeleteDisallowed("a @ b") == "a  b"
  {
    var s := "a @ b";
    assert s[1..] == " @ b" && s[2..] == "@ b" && s[3..] == " b" && s[4..] == "b" && s[5..] == "";
    assert !IsAllowed('@');
    assert DeleteDisallowed("") == "";
    assert DeleteDisallowed("b") == "b";
    assert DeleteDisallowed(" b") == " b";
    assert DeleteDisallowed("@ b") == " b";
    assert DeleteDisallowed(" @ b") == "  b";
  }

  // ---------------------------------------------------------------------------
  // chunk_text

  /** The word windows `words[i:i + size]` for `i` in `range(start, len(words), step)`. */
  function WindowsFrom(words: seq<string>, size: nat, step: nat, start: nat): seq<seq<string>>
    requires step > 0
    decreases |words| - start
  {
    if start >= |words| then []
    else [words[start..Min(start + size, |words|)]] + WindowsFrom(words, size, step, start + step)
  }

  function Windows(words: seq<string>, size: nat, step: nat): seq<seq<string>>
    requires step > 0
  {
    WindowsFrom(words, size, step, 0)
  }

  /** The test of `chunk_text`: the chunk, stripped, is longer than 50 characters. */
  predicate IsSubstantial(chunk: string) {
    |Strip(chunk)| > 50
  }

  /** The same test on a chunk that is already stripped. */
  predicate IsLongChunk(chunk: string) {
    |chunk| > 50
  }

  /** The joined windows that pass the test `keep`, in window order. */
  function Kept(ws: seq<seq<string>>, keep: string -> bool): seq<string> {
    if ws == [] then []
    else (if keep(Join(ws[0])) then [Join(ws[0])] else []) + Kept(ws[1..], keep)
  }

  /** What `chunk_text(text, chunk_size, overlap)` returns: the joined windows
      longer than 50 characters. A joined window has no whitespace at either
      end, so this is the source's test on the stripped chunk
      (`SubstantialIsLong`). */
  function Chunks(text: string, chunkSize: nat, overlap: int): seq<string>
    requires overlap < chunkSize
  {
    Kept(Windows(Words(text), chunkSize, chunkSize - overlap), IsLongChunk)
  }

  /** `chunk_text`: split the text into words, then slide a window of
      `chunkSize` words forward by `chunkSize - overlap` words and keep the
      windows whose stripped text is longer than 50 characters. */
  method ChunkText(text: string, chunkSize: nat, overlap: int) returns (chunks: seq<string>)
    requires overlap < chunkSize
    ensures chunks == Chunks(text, chunkSize, overlap)
  {
    var words := Words(text);
    SubstantialIsLong();
    chunks := KeepWindows(words, chunkSize, chunkSize - overlap, IsSubstantial, IsLongChunk);
  }

  /** Every entry is a `split()` token. */
  predicate AllWords(ws: seq<string>) {
    forall i :: 0 <= i < |ws| ==> IsWord(ws[i])
  }

  /** A space-joined list of words has no whitespace at either end, so testing
      it stripped is testing it as it is. */
  lemma SubstantialIsLong()
    ensures forall ws {:trigger AllWords(ws)} :: AllWords(ws) ==> (IsSubstantial(Join(ws)) <==> IsLongChunk(Join(ws)))
  {
    forall ws | AllWords(ws) ensures IsSubstantial(Join(ws)) <==> IsLongChunk(Join(ws)) {
      JoinOfWordsIsStripped(ws);
    }
  }

  /** The loop of `chunk_text`: for `i` in `range(0, len(words), step)`, join
      `words[i:i + size]` and append it when it passes `keep` (in `chunk_text`,
      the test `len(chunk.strip()) > 50`). The result is the windows that pass
      `spec`, a test that agrees with `keep` on every space-joined list of words. */
  method KeepWindows(words: seq<string>, size: nat, step: nat, keep: string -> bool, spec: string -> bool)
    returns (chunks: seq<string>)
    requires step > 0 && AllWords(words)
    requires forall ws {:trigger AllWords(ws)} :: AllWords(ws) ==> (keep(Join(ws)) <==> spec(Join(ws)))
    ensures chunks == Kept(Windows(words, size, step), spec)
  {
    chunks := [];
    var i: nat := 0;
    ghost var all := Kept(Windows(words, size, step), spec);
    KeptLoopStart(words, size, step, spec);
    while i < |words|
      invariant KeptSoFar(chunks, words, size, step, i, spec, all)
      decreases |words| - i
    {
      var window := words[i..Min(i + size, |words|)];
      assert AllWords(window);
      var chunk := Join(window);
      KeptLoopStep(chunks, words, size, step, i, spec, all);
      if keep(chunk) {
        chunks := chunks + [chunk];
      }
      i := i + step;
    }
    KeptLoopDone(chunks, words, size, step, i, spec, all);
  }

  /** The loop invariant of `chunk_text`: the chunks kept so far, followed by
      those of the windows from `i` on, are all the chunks. */
  predicate KeptSoFar(chunks: seq<string>, words: seq<string>, size: nat, step: nat, i: nat,
                      keep: string -> bool, spec: seq<string>)
    requires step > 0
  {
    chunks + Kept(WindowsFrom(words, size, step, i), keep) == spec
  }

  lemma {:induction false} KeptLoopStart(words: seq<string>, size: nat, step: nat, keep: string -> bool)
    requires step > 0
    ensures KeptSoFar([], words, size, step, 0, keep, Kept(Windows(words, size, step), keep))
  {
    assert [] + Kept(Windows(words, size, step), keep) == Kept(Windows(words, size, step), keep);
  }

  lemma {:induction false} KeptLoopDone(chunks: seq<string>, words: seq<string>, size: nat, step: nat, i: nat,
                     keep: string -> bool, spec: seq<string>)
    requires step > 0 && i >= |words|
    requires KeptSoFar(chunks, words, size, step, i, keep, spec)
    ensures chunks == spec
  {
    assert chunks + [] == chunks;
  }

  /** The loop invariant of `chunk_text` survives one iteration. */
  lemma {:induction false} KeptLoopStep(chunks: seq<string>, words: seq<string>, size: nat, step: nat, i: nat,
                     keep: string -> bool, spec: seq<string>)
    requires step > 0 && i < |words|
    requires KeptSoFar(chunks, words, size, step, i, keep, spec)
    ensures var chunk := Join(words[i..Min(i + size, |words|)]);
      KeptSoFar(if keep(chunk) then chunks + [chunk] else chunks, words, size, step, i + step, keep, spec)
  {
    var chunk := Join(words[i..Min(i + size, |words|)]);
    var rest := Kept(WindowsFrom(words, size, step, i + step), keep);
    KeptStep(words, size, step, i, keep);
    if keep(chunk) {
      AppendAssoc(chunks, [chunk], rest);
    } else {
      assert [] + rest == rest;
    }
  }

  /** One step of `chunk_text`'s loop: the window at `i` is kept or dropped,
      then the windows from `i + step` follow. */
  lemma {:induction false} KeptStep(words: seq<string>, size: nat, step: nat, i: nat, keep: string -> bool)
    requires step > 0 && i < |words|
    ensures var chunk := Join(words[i..Min(i + size, |words|)]);
      Kept(WindowsFrom(words, size, step, i), keep)
      == (if keep(chunk) then [chunk] else []) + Kept(WindowsFrom(words, size, step, i + step), keep)
  {
    var window := words[i..Min(i + size, |words|)];
    var rest := WindowsFrom(words, size, step, i + step);
    assert WindowsFrom(words, size, step, i) == [window] + rest;
    assert ([window] + rest)[0] == window && ([window] + rest)[1..] == rest;
  }

  /** There are just enough windows from `start` to reach the last word. */
  lemma {:induction false} WindowsFromCount(words: seq<string>, size: nat, step: nat, start: nat)
    requires step > 0
    ensures var q := |WindowsFrom(words, size, step, start)|;
      && (start >= |words| ==> q == 0)
      && (start < |words| ==> (q - 1) * step < |words| - start <= q * step)
    decreases |words| - start
  {
    if start < |words| {
      var q := |WindowsFrom(words, size, step, start)|;
      WindowsFromCount(words, size, step, start + step);
      assert q * step == (q - 1) * step + step;
    }
  }

  /** The k-th window from `start` is `words[start + k * step ..]`, clipped to
      `size` words and to the end of the list. */
  lemma {:induction false} WindowsFromAt(words: seq<string>, size: nat, step: nat, start: nat)
    requires step > 0
    ensures var ws := WindowsFrom(words, size, step, start);
      forall k :: 0 <= k < |ws| ==>
        start + k * step < |words| && ws[k] == words[start + k * step..Min(start + k * step + size, |words|)]
    decreases |words| - start
  {
    if start < |words| {
      var ws := WindowsFrom(words, size, step, start);
      var rest := WindowsFrom(words, size, step, start + step);
      WindowsFromAt(words, size, step, start + step);
      assert ws == [ws[0]] + rest;
      forall k | 1 <= k < |ws|
        ensures start + k * step < |words| && ws[k] == words[start + k * step..Min(start + k * step + size, |words|)]
      {
        assert ws[k] == rest[k - 1];
        assert start + step + (k - 1) * step == start + k * step;
      }
    }
  }

  /** Every window holds at most `size` words, each of them one of the split words. */
  lemma {:induction false} WindowsFromOfWords(words: seq<string>, size: nat, step: nat, start: nat)
    requires step > 0
    requires forall i :: 0 <= i < |words| ==> IsWord(words[i])
    ensures forall j :: 0 <= j < |WindowsFrom(words, size, step, start)| ==>
              |WindowsFrom(words, size, step, start)[j]| <= size
              && forall i :: 0 <= i < |WindowsFrom(words, size, step, start)[j]| ==> IsWord(WindowsFrom(words, size, step, start)[j][i])
    decreases |words| - start
  {
    if start < |words| {
      var ws := WindowsFrom(words, size, step, start);
      var rest := WindowsFrom(words, size, step, start + step);
      WindowsFromOfWords(words, size, step, start + step);
      assert ws == [ws[0]] + rest;
      var w := ws[0];
      assert forall i :: 0 <= i < |w| ==> w[i] == words[start + i];
      forall j | 1 <= j < |ws| ensures |ws[j]| <= size && forall i :: 0 <= i < |ws[j]| ==> IsWord(ws[j][i]) {
        assert ws[j] == rest[j - 1];
      }
    }
  }

  /** `chunk_text`'s windows: the k-th covers `words[k*step .. k*step + size)`,
      clipped at the end, and their number is the ceiling of `|words| / step`. */
  lemma {:induction false} WindowsShape(words: seq<string>, size: nat, step: nat)
    requires step > 0
    ensures var ws := Windows(words, size, step);
      && |ws| == CeilDiv(|words|, step)
      && forall k :: 0 <= k < |ws| ==>
           k * step < |words| && ws[k] == words[k * step..Min(k * step + size, |words|)]
  {
    WindowsCount(words, size, step);
    WindowsFromAt(words, size, step, 0);
  }

  /** The number of windows is the ceiling of `|words| / step`. */
  lemma {:induction false} WindowsCount(words: seq<string>, size: nat, step: nat)
    requires step > 0
    ensures |Windows(words, size, step)| == CeilDiv(|words|, step)
  {
    WindowsFromCount(words, size, step, 0);
    var q := |Windows(words, size, step)|;
    if |words| > 0 {
      CeilingDivision(|words|, step, q);
    } else {
      assert (step - 1) / step == 0;
    }
  }

  /** The ceiling of `n / d`. */
  function CeilDiv(n: nat, d: nat): nat
    requires d > 0
  {
    (n + d - 1) / d
  }

  /** `q` with `(q - 1) * d < n <= q * d` is the ceiling of `n / d`. */
  lemma {:induction false} CeilingDivision(n: nat, d: nat, q: nat)
    requires d > 0 && n > 0
    requires (q - 1) * d < n <= q * d
    ensures q == (n + d - 1) / d
  {
    assert q * d - d == (q - 1) * d;
    DivisionUnique(n + d - 1, d, q);
  }

  /** Division is determined by its bounds: `q * d <= x < q * d + d` gives `x / d == q`. */
  lemma {:induction false} DivisionUnique(x: int, d: int, q: int)
    requires d > 0 && q * d <= x < q * d + d
    ensures x / d == q
  {
    var c, m := x / d, x % d;
    assert (c - q) * d == (x - q * d) - m;
    if c > q {
      MulAtLeast(c - q, d);
    } else if c < q {
      MulAtLeast(q - c, d);
    }
  }

  lemma {:induction false} MulAtLeast(k: int, d: int)
    requires k >= 1 && d > 0
    ensures k * d >= d
  {
  }

  /** Consecutive full windows share exactly `size - step` (the overlap) words. */
  lemma {:induction false} WindowsOverlap(words: seq<string>, size: nat, step: nat, k: nat)
    requires 0 < step <= size
    requires k + 1 < |Windows(words, size, step)|
    requires (k * step) + size <= |words|
    ensures var ws := Windows(words, size, step);
      |ws[k]| == size && |ws[k + 1]| >= size - step && ws[k][step..] == ws[k + 1][..size - step]
  {
    var ws := Windows(words, size, step);
    WindowsShape(words, size, step);
    var a, b := k * step, (k + 1) * step;
    assert b == a + step;
    assert ws[k] == words[a..a + size];
    var e := Min(b + size, |words|);
    assert ws[k + 1] == words[b..e] && a + size <= e;
    assert ws[k][step..] == words[b..a + size];
    assert ws[k + 1][..size - step] == words[b..a + size];
  }

  /** Characterises the filter: the kept chunks are the substantial windows, in order. */
  lemma {:induction false} KeptSpec(ws: seq<seq<string>>, keep: string -> bool, c: string)
    ensures c in Kept(ws, keep) <==> exists k :: 0 <= k < |ws| && c == Join(ws[k]) && keep(c)
    ensures |Kept(ws, keep)| <= |ws|
    decreases |ws|
  {
    if ws != [] {
      KeptSpec(ws[1..], keep, c);
      if exists k :: 0 <= k < |ws[1..]| && c == Join(ws[1..][k]) && keep(c) {
        var k :| 0 <= k < |ws[1..]| && c == Join(ws[1..][k]) && keep(c);
        assert ws[k + 1] == ws[1..][k];
      }
      if exists k :: 0 <= k < |ws| && c == Join(ws[k]) && keep(c) {
        var k :| 0 <= k < |ws| && c == Join(ws[k]) && keep(c);
        if k > 0 {
          assert ws[1..][k - 1] == ws[k];
        }
      }
    }
  }

  /** Every chunk `chunk_text` returns is longer than 50 characters, has at most
      `chunkSize` words, and is the join of a window of the text's words. */
  lemma {:induction false} ChunkBounds(text: string, chunkSize: nat, overlap: int, c: string)
    requires overlap < chunkSize
    requires c in Chunks(text, chunkSize, overlap)
    ensures |c| > 50
    ensures |Words(c)| <= chunkSize
    ensures Words(c) in Windows(Words(text), chunkSize, chunkSize - overlap)
  {
    KeptWindowBounds(Words(text), chunkSize, chunkSize - overlap, IsLongChunk, c);
  }

  /** Whatever the test, a kept string passed it and re-splits into one of the
      windows, so into at most `size` words. */
  lemma {:induction false} KeptWindowBounds(words: seq<string>, size: nat, step: nat, keep: string -> bool, c: string)
    requires step > 0
    requires forall i :: 0 <= i < |words| ==> IsWord(words[i])
    requires c in Kept(Windows(words, size, step), keep)
    ensures keep(c)
    ensures |Words(c)| <= size
    ensures Words(c) in Windows(words, size, step)
  {
    var ws := Windows(words, size, step);
    KeptSpec(ws, keep, c);
    WindowsFromOfWords(words, size, step, 0);
    var k :| 0 <= k < |ws| && c == Join(ws[k]) && keep(c);
    WordsOfJoin(ws[k]);
  }

  lemma {:induction false} ChunksOfBlankText(text: string, chunkSize: nat, overlap: int)
    requires overlap < chunkSize
    requires forall i :: 0 <= i < |text| ==> IsSpace(text[i])
    ensures Chunks(text, chunkSize, overlap) == []
  {
    WordsEmptyIff(text);
    assert Words(text) == [];
  }

  /** There are at most `ceil(|words| / step)` chunks, one per window at most. */
  lemma {:induction false} ChunkCount(text: string, chunkSize: nat, overlap: int)
    requires overlap < chunkSize
    ensures |Chunks(text, chunkSize, overlap)| <= CeilDiv(|Words(text)|, chunkSize - overlap)
  {
    KeptWindowCount(Words(text), chunkSize, chunkSize - overlap, IsLongChunk);
  }

  /** Whatever the test, no more strings are kept than there are windows. */
  lemma {:induction false} KeptWindowCount(words: seq<string>, size: nat, step: nat, keep: string -> bool)
    requires step > 0
    ensures |Kept(Windows(words, size, step), keep)| <= CeilDiv(|words|, step)
  {
    WindowsCount(words, size, step);
    KeptSpec(Windows(words, size, step), keep, "");
  }

  // ---------------------------------------------------------------------------
  // The ingester's pages and metadata

  /** A metadata record: either a scraped page chunk or one of the two form entries. */
  datatype Meta =
    | PageChunk(url: string, title: string, chunkId: nat, source: string)
    | FormEntry(url: string, title: string, kind: string)

  /** What the fetch-and-parse oracle gives for a URL: the raw title text (empty
      when the page has no title) and the raw text of the chosen content region. */
  datatype RawPage = RawPage(titleText: string, contentText: string)

  /** What `extract_content` returns on success. */
  datatype Page = Page(url: string, title: string, content: string)

  const BaseUrl: string := "https://annisa.org"

  const TargetPages: seq<string> := [
    "/", "/about", "/services", "/mental-health", "/blog", "/advocacy",
    "/food-pantry", "/donate", "/volunteer", "/about-us", "/team", "/gallery",
    "/contact-us", "/roadmap", "/family-violence", "/ecrf"
  ]

  const PageSource: string := "annisa.org"
  const ChunkSize: nat := 500
  const Overlap: int := 50

  /** Index of the first `/` at or after position `i` of `u`, or `|u|`. */
  function SlashFrom(u: string, i: nat): (k: nat)
    requires i <= |u|
    ensures i <= k <= |u|
    ensures forall j :: i <= j < k ==> u[j] != '/'
    ensures k < |u| ==> u[k] == '/'
    decreases |u| - i
  {
    if i == |u| || u[i] == '/' then i else SlashFrom(u, i + 1)
  }

  /** The scheme and host of an `https://` URL: everything before its path. */
  function HostOf(u: string): string
    requires |u| >= 8
  {
    u[..SlashFrom(u, 8)]
  }

  /** The path of an `https://` URL: from the first `/` after the host on. */
  function PathOf(u: string): string
    requires |u| >= 8
  {
    u[SlashFrom(u, 8)..]
  }

  /** A base URL with no path: `https://` and a host without `/`. */
  predicate IsOrigin(base: string) {
    |base| > 8 && base[..8] == "https://" && forall i :: 8 <= i < |base| ==> base[i] != '/'
  }

  /** A path that `urljoin` resolves against the base's host: empty or absolute. */
  predicate IsRootPath(path: string) {
    path == [] || path[0] == '/'
  }

  /** `urljoin(base, path)` for a base with no path and an empty or absolute
      path, the only case both scrapers use: the result keeps the base's scheme
      and host, and its path is `path`. Other bases and relative paths are not
      modelled; on them the concatenation differs from `urljoin`. */
  function UrlJoin(base: string, path: string): (r: string)
    ensures |r| == |base| + |path|
    ensures IsOrigin(base) && IsRootPath(path) ==> HostOf(r) == base && PathOf(r) == path
  {
    var r := base + path;
    if IsOrigin(base) && IsRootPath(path) then
      var k := SlashFrom(r, 8);
      assert forall j :: 8 <= j < |base| ==> r[j] == base[j];
      assert |base| < |r| ==> r[|base|] == '/';
      assert k == |base|;
      r
    else r
  }

  /** Both target lists meet `UrlJoin`'s restriction: the base has no path and
      every target path is absolute. */
  lemma TargetPathsRooted()
    ensures IsOrigin(BaseUrl)
    ensures forall i :: 0 <= i < |TargetPages| ==> IsRootPath(TargetPages[i])
  {
  }

  /** `extract_content`: the oracle's failure is `None`; on success the title and
      the content are cleaned with `clean_text`. */
  function ExtractContent(url: string, fetched: Option<RawPage>): (r: Option<Page>)
    ensures fetched.None? <==> r.None?
    ensures r.Some? ==> r.value.url == url && r.value.content == CleanText(fetched.value.contentText)
                        && r.value.title == CleanText(fetched.value.titleText)
  {
    match fetched
    case None => None
    case Some(raw) => Some(Page(url, CleanText(raw.titleText), CleanText(raw.contentText)))
  }

  /** The extracted page for each target path, in order. */
  function Pages(fetch: string -> Option<RawPage>): seq<Option<Page>> {
    seq(|TargetPages|, i requires 0 <= i < |TargetPages| =>
      ExtractContent(UrlJoin(BaseUrl, TargetPages[i]), fetch(UrlJoin(BaseUrl, TargetPages[i]))))
  }

  predicate HasContent(p: Option<Page>) {
    p.Some? && p.value.content != ""
  }

  /** The chunks one page contributes. */
  function PageChunks(p: Option<Page>): seq<string> {
    if HasContent(p) then Chunks(p.value.content, ChunkSize, Overlap) else []
  }

  /** The metadata one page contributes, one record per chunk, numbered from 0. */
  function PageMetas(p: Option<Page>): seq<Meta> {
    if HasContent(p) then
      seq(|PageChunks(p)|, i requires 0 <= i => PageChunk(p.value.url, p.value.title, i, PageSource))
    else []
  }

  /** What `f` gives for each element of `ps`, concatenated in order. */
  function Concat<P, T>(ps: seq<P>, f: P -> seq<T>): seq<T> {
    if ps == [] then []
    else Concat(ps[..|ps| - 1], f) + f(ps[|ps| - 1])
  }

  /** All chunks the pages contribute, page after page. */
  function ScrapedChunks(pages: seq<Option<Page>>): seq<string> {
    Concat(pages, PageChunks)
  }

  /** All metadata the pages contribute, page after page. */
  function ScrapedMetas(pages: seq<Option<Page>>): seq<Meta> {
    Concat(pages, PageMetas)
  }

  /** One more element appends exactly what `f` gives for it. */
  lemma {:induction false} ConcatStep<P, T>(ps: seq<P>, f: P -> seq<T>, k: nat)
    requires k < |ps|
    ensures Concat(ps[..k + 1], f) == Concat(ps[..k], f) + f(ps[k])
  {
    assert ps[..k + 1][..k] == ps[..k];
  }

  /** Scraping one more page appends that page's chunks and metadata. */
  lemma {:induction false} ScrapedStep(pages: seq<Option<Page>>, k: nat)
    requires k < |pages|
    ensures ScrapedChunks(pages[..k + 1]) == ScrapedChunks(pages[..k]) + PageChunks(pages[k])
    ensures ScrapedMetas(pages[..k + 1]) == ScrapedMetas(pages[..k]) + PageMetas(pages[k])
  {
    ConcatStep(pages, PageChunks, k);
    ConcatStep(pages, PageMetas, k);
  }

  /** When `f` and `g` give equally long lists for every element, so do their
      concatenations. */
  lemma {:induction false} ConcatSameLength<P, T, U>(ps: seq<P>, f: P -> seq<T>, g: P -> seq<U>)
    requires forall p :: |f(p)| == |g(p)|
    ensures |Concat(ps, f)| == |Concat(ps, g)|
    decreases |ps|
  {
    if ps != [] {
      ConcatSameLength(ps[..|ps| - 1], f, g);
    }
  }

  /** Every element of the concatenation comes from what `f` gives for some element. */
  lemma {:induction false} ConcatFrom<P, T>(ps: seq<P>, f: P -> seq<T>, j: nat)
    requires j < |Concat(ps, f)|
    ensures exists k, i :: 0 <= k < |ps| && 0 <= i < |f(ps[k])| && Concat(ps, f)[j] == f(ps[k])[i]
    decreases |ps|
  {
    var init := ps[..|ps| - 1];
    var c := Concat(init, f);
    if j < |c| {
      ConcatFrom(init, f, j);
      var k, i :| 0 <= k < |init| && 0 <= i < |f(init[k])| && c[j] == f(init[k])[i];
      assert init[k] == ps[k];
    } else {
      assert Concat(ps, f)[j] == f(ps[|ps| - 1])[j - |c|];
    }
  }

  /** The scraped chunks and metadata stay aligned; every record is a page chunk
      from `annisa.org`, and every chunk is longer than 50 characters. */
  lemma {:induction false} ScrapedAligned(pages: seq<Option<Page>>)
    ensures |ScrapedChunks(pages)| == |ScrapedMetas(pages)|
    ensures forall j :: 0 <= j < |ScrapedMetas(pages)| ==>
              ScrapedMetas(pages)[j].PageChunk? && ScrapedMetas(pages)[j].source == PageSource
    ensures forall j :: 0 <= j < |ScrapedChunks(pages)| ==> |ScrapedChunks(pages)[j]| > 50
  {
    PageMetasAligned();
    ConcatSameLength(pages, PageChunks, PageMetas);
    forall j | 0 <= j < |ScrapedMetas(pages)|
      ensures ScrapedMetas(pages)[j].PageChunk? && ScrapedMetas(pages)[j].source == PageSource
    {
      ConcatFrom(pages, PageMetas, j);
    }
    forall j | 0 <= j < |ScrapedChunks(pages)| ensures |ScrapedChunks(pages)[j]| > 50 {
      ConcatFrom(pages, PageChunks, j);
      var k, i :| 0 <= k < |pages| && 0 <= i < |PageChunks(pages[k])| && ScrapedChunks(pages)[j] == PageChunks(pages[k])[i];
      ChunkBounds(pages[k].value.content, ChunkSize, Overlap, PageChunks(pages[k])[i]);
    }
  }

  /** Elements for which `f` gives nothing add nothing. */
  lemma {:induction false} ConcatOfEmpty<P, T>(ps: seq<P>, f: P -> seq<T>)
    requires forall i :: 0 <= i < |ps| ==> f(ps[i]) == []
    ensures Concat(ps, f) == []
    decreases |ps|
  {
    if ps != [] {
      ConcatOfEmpty(ps[..|ps| - 1], f);
    }
  }

  /** Pages that failed or came back empty contribute nothing. */
  lemma {:induction false} FailedPagesAddNothing(pages: seq<Option<Page>>)
    requires forall i :: 0 <= i < |pages| ==> !HasContent(pages[i])
    ensures ScrapedChunks(pages) == [] && ScrapedMetas(pages) == []
  {
    ConcatOfEmpty(pages, PageChunks);
    ConcatOfEmpty(pages, PageMetas);
  }

  /** The concatenation for a prefix is a prefix of the whole. */
  lemma {:induction false} ConcatPrefix<P, T>(ps: seq<P>, f: P -> seq<T>, m: nat)
    requires m <= |ps|
    ensures Concat(ps[..m], f) <= Concat(ps, f)
    decreases |ps| - m
  {
    if m < |ps| {
      var init := ps[..|ps| - 1];
      assert init[..m] == ps[..m];
      ConcatPrefix(init, f, m);
    } else {
      assert ps[..m] == ps;
    }
  }

  /** The concatenation over two runs is the concatenation of the two. */
  lemma {:induction false} ConcatAppend<P, T>(a: seq<P>, b: seq<P>, f: P -> seq<T>)
    ensures Concat(a + b, f) == Concat(a, f) + Concat(b, f)
    decreases |b|
  {
    if b == [] {
      assert a + b == a;
    } else {
      var init := b[..|b| - 1];
      assert (a + b)[..|a + b| - 1] == a + init;
      assert (a + b)[|a + b| - 1] == b[|b| - 1];
      ConcatAppend(a, init, f);
    }
  }

  /** The scraped lists for a prefix of the pages are prefixes of the whole. */
  lemma {:induction false} ScrapedPrefix(pages: seq<Option<Page>>, m: nat)
    requires m <= |pages|
    ensures ScrapedChunks(pages[..m]) <= ScrapedChunks(pages)
    ensures ScrapedMetas(pages[..m]) <= ScrapedMetas(pages)
  {
    ConcatPrefix(pages, PageChunks, m);
    ConcatPrefix(pages, PageMetas, m);
  }

  /** What `f` gives for element `k` sits contiguously in the concatenation,
      right after what it gives for the elements before. */
  lemma {:induction false} ConcatBlock<P, T>(ps: seq<P>, f: P -> seq<T>, k: nat, i: nat)
    requires k < |ps| && i < |f(ps[k])|
    ensures |Concat(ps[..k], f)| + i < |Concat(ps, f)|
    ensures Concat(ps, f)[|Concat(ps[..k], f)| + i] == f(ps[k])[i]
  {
    ConcatStep(ps, f, k);
    ConcatPrefix(ps, f, k + 1);
    assert Concat(ps[..k + 1], f)[|Concat(ps[..k], f)| + i] == f(ps[k])[i];
  }

  /** Page `k`'s chunks sit contiguously after those of the pages before it, and
      its i-th chunk carries chunk id i and that page's url and title. */
  lemma {:induction false} PageBlock(pages: seq<Option<Page>>, k: nat, i: nat)
    requires k < |pages| && HasContent(pages[k])
    requires i < |PageChunks(pages[k])|
    ensures var off := |ScrapedChunks(pages[..k])|;
      && off + i < |ScrapedChunks(pages)| && off + i < |ScrapedMetas(pages)|
      && ScrapedChunks(pages)[off + i] == PageChunks(pages[k])[i]
      && ScrapedMetas(pages)[off + i] == PageChunk(pages[k].value.url, pages[k].value.title, i, PageSource)
  {
    PageMetasAligned();
    ConcatBlocks(pages, PageChunks, PageMetas, k, i);
    PageMetaAt(pages[k], i);
    var f: Option<Page> -> seq<string> := PageChunks;
    assert f(pages[k]) == PageChunks(pages[k]);
    assert ScrapedChunks(pages) == Concat(pages, f) && ScrapedChunks(pages[..k]) == Concat(pages[..k], f);
  }

  /** The blocks of two concatenations whose parts are equally long line up. */
  lemma {:induction false} ConcatBlocks<P, T, U>(ps: seq<P>, f: P -> seq<T>, g: P -> seq<U>, k: nat, i: nat)
    requires forall p :: |f(p)| == |g(p)|
    requires k < |ps| && i < |f(ps[k])|
    ensures |Concat(ps[..k], f)| == |Concat(ps[..k], g)|
    ensures |Concat(ps[..k], f)| + i < |Concat(ps, f)| && |Concat(ps[..k], f)| + i < |Concat(ps, g)|
    ensures Concat(ps, f)[|Concat(ps[..k], f)| + i] == f(ps[k])[i]
    ensures Concat(ps, g)[|Concat(ps[..k], f)| + i] == g(ps[k])[i]
  {
    ConcatSameLength(ps[..k], f, g);
    ConcatBlock(ps, f, k, i);
    ConcatBlock(ps, g, k, i);
  }

  /** The i-th record of a page carries chunk id i and the page's url and title. */
  lemma {:induction false} PageMetaAt(p: Option<Page>, i: nat)
    requires HasContent(p) && i < |PageMetas(p)|
    ensures PageMetas(p)[i] == PageChunk(p.value.url, p.value.title, i, PageSource)
  {
  }

  /** A page contributes one metadata record per chunk. */
  lemma PageMetasAligned()
    ensures forall p :: |PageChunks(p)| == |PageMetas(p)|
  {
  }

  // ---------------------------------------------------------------------------
  // The two form documents

  const VolunteerFormUrl: string := "https://docs.google.com/forms/d/e/1FAIpQLSdska_omS24UValnvU5wlWxcQjI9TynfDbJJa9KkgbRUHvztA/viewform"
  const AssistanceFormUrl: string := "https://docs.google.com/forms/d/e/1FAIpQLSfA9R_H1KDM5AHDbZ82HczE8oq6XxpiH_Z17BK5PGwLdQBCjQ/viewform"

  const VolunteerFormMeta: Meta := FormEntry(VolunteerFormUrl, "An-Nisa Volunteer Application Form", "volunteer_form")
  const AssistanceFormMeta: Meta := FormEntry(AssistanceFormUrl, "An-Nisa Domestic Violence Assistance Form", "assistance_form")

  /** `'\n'.join(lines)`: the lines of a triple-quoted literal put back together. */
  function JoinLines(lines: seq<string>): string {
    if |lines| == 0 then ""
    else if |lines| == 1 then lines[0]
    else lines[0] + "\n" + JoinLines(lines[1..])
  }

  /** The volunteer form text literal, before `.strip()`, line by line. */
  const VolunteerFormText: string := JoinLines([
      "",
      "        An-Nisa Volunteer Opportunities - Join Our Team!",
      "        ",
      "        We welcome volunteers to join our mission of supporting women and families. We have volunteer opportunities in multiple departments:",
      "        ",
      "        Volunteer Departments Available:",
      "        - Education",
      "        - Mental Health  ",
      "        - Advocacy & Legislation",
      "        - Administration",
      "        - Marketing",
      "        - Mentorship",
      "        - Events",
      "        - Youth Programs",
      "        ",
      "        To volunteer with An-Nisa, please fill out our volunteer application form. The form asks for:",
      "        - Your contact information",
      "        - Education level",
      "        - Which department you're interested in",
      "        - Why you want to volunteer",
      "        - How many hours you can commit per week",
      "        - What skills and services you can offer",
      "        ",
      "        Once you submit the form, a staff member will follow up with the volunteer on-boarding process.",
      "        ",
      "        Apply to volunteer: https://docs.google.com/forms/d/e/1FAIpQLSdska_omS24UValnvU5wlWxcQjI9TynfDbJJa9KkgbRUHvztA/viewform",
      "        ",
      "        For more information about volunteering, email info@annisa.org",
      "        "
    ])

  /** The domestic violence assistance form text literal, before `.strip()`, line by line. */
  const AssistanceFormText: string := JoinLines([
      "",
      "        Domestic Violence Assistance and Support Services",
      "        ",
      "        An-Nisa provides confidential support and assistance for individuals experiencing domestic violence. We understand that seeking help can be difficult, and we're here to support you through this process.",
      "        ",
      "        If you or someone you know needs domestic violence assistance, we have a confidential intake form available. This form allows you to request support services safely and privately.",
      "        ",
      "        Our domestic violence support services may include:",
      "        - Safety planning",
      "        - Resource referrals",
      "        - Advocacy support",
      "        - Connection to local services",
      "        - Emotional support",
      "        ",
      "        To request domestic violence assistance confidentially: https://docs.google.com/forms/d/e/1FAIpQLSfA9R_H1KDM5AHDbZ82HczE8oq6XxpiH_Z17BK5PGwLdQBCjQ/viewform",
      "        ",
      "        For immediate safety concerns, please contact local emergency services at 911.",
      "        For additional support, you can also email info@annisa.org",
      "        "
    ])

  // ---------------------------------------------------------------------------
  // AnNisaContentIngester

  class Ingester {
    var chunks: seq<string>
    var metadata: seq<Meta>

    /** The two lists are index-aligned. */
    ghost predicate Valid()
      reads this
    {
      |chunks| == |metadata|
    }

    constructor ()
      ensures Valid() && chunks == [] && metadata == []
    {
      chunks := [];
      metadata := [];
    }

    /** `scrape_all_pages`: for each target page that was fetched and has
        content, append its chunks and one metadata record per chunk. */
    method ScrapeAllPages(fetch: string -> Option<RawPage>)
      requires Valid()
      modifies this
      ensures Valid()
      ensures chunks == old(chunks) + ScrapedChunks(Pages(fetch))
      ensures metadata == old(metadata) + ScrapedMetas(Pages(fetch))
    {
      ghost var pages := Pages(fetch);
      for k := 0 to |TargetPages|
        invariant Valid()
        invariant chunks == old(chunks) + ScrapedChunks(pages[..k])
        invariant metadata == old(metadata) + ScrapedMetas(pages[..k])
      {
        var url := UrlJoin(BaseUrl, TargetPages[k]);
        var contentData := ExtractContent(url, fetch(url));
        assert contentData == pages[k];
        ScrapedStep(pages, k);
        AppendAssoc(old(chunks), ScrapedChunks(pages[..k]), PageChunks(pages[k]));
        AppendAssoc(old(metadata), ScrapedMetas(pages[..k]), PageMetas(pages[k]));
        AddPage(contentData);
      }
      assert pages[..|TargetPages|] == pages;
    }

    /** The body of the loop of `scrape_all_pages` for one extracted page: when
        it has content, chunk it and append each chunk with its metadata. */
    method AddPage(page: Option<Page>)
      requires Valid()
      modifies this
      ensures Valid()
      ensures chunks == old(chunks) + PageChunks(page)
      ensures metadata == old(metadata) + PageMetas(page)
    {
      if page.Some? && page.value.content != "" {
        var textChunks := ChunkText(page.value.content, ChunkSize, Overlap);
        ghost var metas := PageMetas(page);
        for i := 0 to |textChunks|
          invariant chunks == old(chunks) + textChunks[..i]
          invariant metadata == old(metadata) + metas[..i]
        {
          AppendPrefixStep(old(chunks), textChunks, i);
          AppendPrefixStep(old(metadata), metas, i);
          chunks := chunks + [textChunks[i]];
          metadata := metadata + [PageChunk(page.value.url, page.value.title, i, PageSource)];
        }
        AppendWhole(old(chunks), textChunks);
        AppendWhole(old(metadata), metas);
      } else {
        AppendEmpty(chunks);
        AppendEmpty(metadata);
      }
    }

    /** `add_google_forms_info`: append the two form texts, stripped, with their
        metadata; nothing earlier changes. */
    method AddGoogleFormsInfo()
      requires Valid()
      modifies this
      ensures Valid()
      ensures chunks == old(chunks) + [Strip(VolunteerFormText), Strip(AssistanceFormText)]
      ensures metadata == old(metadata) + [VolunteerFormMeta, AssistanceFormMeta]
    {
      AppendTwo(chunks, Strip(VolunteerFormText), Strip(AssistanceFormText));
      AppendTwo(metadata, VolunteerFormMeta, AssistanceFormMeta);
      chunks := chunks + [Strip(VolunteerFormText)];
      metadata := metadata + [VolunteerFormMeta];
      chunks := chunks + [Strip(AssistanceFormText)];
      metadata := metadata + [AssistanceFormMeta];
    }

    /** `process_urls`: scrape the pages, add the forms, and report whether any
        chunk exists; since the forms are always added, it always succeeds. */
    method ProcessUrls(fetch: string -> Option<RawPage>) returns (ok: bool)
      requires Valid()
      modifies this
      ensures Valid()
      ensures chunks == old(chunks) + ScrapedChunks(Pages(fetch)) + [Strip(VolunteerFormText), Strip(AssistanceFormText)]
      ensures metadata == old(metadata) + ScrapedMetas(Pages(fetch)) + [VolunteerFormMeta, AssistanceFormMeta]
      ensures ok <==> |chunks| != 0
      ensures ok
    {
      ScrapeAllPages(fetch);
      AddGoogleFormsInfo();
      if |chunks| == 0 {
        return false;
      }
      return true;
    }
  }
}
