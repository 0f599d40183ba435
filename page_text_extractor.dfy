/** backend/page_text_extractor.py: a survey tool that pulls the readable text
    out of a fixed list of site pages, cleans it, counts it, and summarises the
    pages with the most text first. Fetching and HTML parsing are an oracle that
    yields, per URL, the page title and the texts of the candidate elements. */
module PageTextExtractor {
  import opened TextOps
  import Ingest

  /** `re.sub(r'[^\w\s\.\,\!\?\;\:\-\(\)]', ' ', s)`: every disallowed
      character becomes one space, everything else is kept in place. */
  function ReplaceDisallowed(s: string): (r: string)
    ensures |r| == |s|
    ensures forall i :: 0 <= i < |s| ==> IsAllowed(r[i]) && r[i] == (if IsAllowed(s[i]) then s[i] else ' ')
  {
    if s == [] then []
    else [if IsAllowed(s[0]) then s[0] else ' '] + ReplaceDisallowed(s[1..])
  }

  /** What replacement does to one character. */
  function SpaceForDisallowed(c: char): string {
    if IsAllowed(c) then [c] else [' ']
  }

  /** Replacement is the character-by-character rewrite `SpaceForDisallowed`. */
  lemma {:induction false} ReplaceIsExpand(s: string)
    ensures ReplaceDisallowed(s) == Expand(s, SpaceForDisallowed)
    decreases |s|
  {
    if s != [] {
      ReplaceIsExpand(s[1..]);
    }
  }

  /** Collapsing whitespace first does not change the words replacement leaves. */
  lemma {:induction false} WordsOfReplaceCollapsed(t: string)
    ensures Words(ReplaceDisallowed(CollapseWhitespace(t))) == Words(ReplaceDisallowed(t))
  {
    var c := CollapseWhitespace(t);
    JoinOfWords(t);
    ReplaceIsExpand(c);
    ReplaceIsExpand(t);
    WordsOfExpand(c, SpaceForDisallowed);
    WordsOfExpand(t, SpaceForDisallowed);
  }

  /** `clean_text` on a string: the words that remain once every disallowed
      character is a space, joined by single spaces. */
  lemma {:induction false} CleanTextJoin(t: string)
    ensures CleanText(Some(t)) == Join(Words(ReplaceDisallowed(t)))
  {
    if t != "" {
      var replaced := ReplaceDisallowed(CollapseWhitespace(t));
      JoinOfWords(replaced);
      WordsOfReplaceCollapsed(t);
    }
  }

  /** Replacing disallowed characters by spaces keeps exactly the allowed
      non-whitespace characters: the same ones the ingester's deletion keeps. */
  lemma {:induction false} NonSpaceOfReplaced(s: string)
    ensures NonSpace(ReplaceDisallowed(s)) == Ingest.DeleteDisallowed(NonSpace(s))
    decreases |s|
  {
    if s != [] {
      NonSpaceOfReplaced(s[1..]);
      var c := if IsAllowed(s[0]) then s[0] else ' ';
      var rest := ReplaceDisallowed(s[1..]);
      assert ([c] + rest)[0] == c && ([c] + rest)[1..] == rest;
      if !IsSpace(s[0]) {
        var n := NonSpace(s[1..]);
        assert ([s[0]] + n)[0] == s[0] && ([s[0]] + n)[1..] == n;
      }
    }
  }

  /** Collapsing whitespace introduces no character other than the space. */
  lemma {:induction false} CollapseKeepsAllowed(s: string, inRun: bool)
    requires forall i :: 0 <= i < |s| ==> IsAllowed(s[i])
    ensures forall i :: 0 <= i < |CollapseFrom(s, inRun)| ==> IsAllowed(CollapseFrom(s, inRun)[i])
    decreases |s|
  {
    if s != [] {
      CollapseKeepsAllowed(s[1..], IsSpace(s[0]));
    }
  }

  /** A string whose only whitespace is single, separated spaces is left alone
      by the collapse (when the scan does not start inside a run, or the string
      does not start with whitespace). */
  lemma {:induction false} CollapseOfCollapsed(s: string, inRun: bool)
    requires forall i :: 0 <= i < |s| && IsSpace(s[i]) ==> s[i] == ' '
    requires forall i :: 0 <= i < |s| - 1 ==> !(IsSpace(s[i]) && IsSpace(s[i + 1]))
    requires inRun && |s| > 0 ==> !IsSpace(s[0])
    ensures CollapseFrom(s, inRun) == s
    decreases |s|
  {
    if s != [] {
      CollapseOfCollapsed(s[1..], IsSpace(s[0]));
      assert [s[0]] + s[1..] == s;
    }
  }

  /** A string of allowed characters only is left alone by the replacement. */
  lemma {:induction false} ReplaceOfAllowed(s: string)
    requires forall i :: 0 <= i < |s| ==> IsAllowed(s[i])
    ensures ReplaceDisallowed(s) == s
    decreases |s|
  {
    if s != [] {
      ReplaceOfAllowed(s[1..]);
      assert [s[0]] + s[1..] == s;
    }
  }

  /** Stripping a string whose only whitespace is single spaces yields a string
      with the same property. */
  lemma {:induction false} StripKeepsSingleSpaces(s: string)
    requires forall i :: 0 <= i < |s| ==> IsAllowed(s[i])
    requires forall i :: 0 <= i < |s| && IsSpace(s[i]) ==> s[i] == ' '
    requires forall i :: 0 <= i < |s| - 1 ==> !(IsSpace(s[i]) && IsSpace(s[i + 1]))
    ensures var r := Strip(s);
      && (forall i :: 0 <= i < |r| ==> IsAllowed(r[i]))
      && (forall i :: 0 <= i < |r| && IsSpace(r[i]) ==> r[i] == ' ')
      && (forall i :: 0 <= i < |r| - 1 ==> !(IsSpace(r[i]) && IsSpace(r[i + 1])))
  {
    var r, a := Strip(s), LeadingSpaces(s);
    forall i | 0 <= i < |r| ensures r[i] == s[a + i] {
    }
  }

  /** The output of `clean_text`: only allowed characters, the plain space as
      the only whitespace, never two spaces together, none at either end. */
  predicate IsClean(r: string) {
    && (forall i :: 0 <= i < |r| ==> IsAllowed(r[i]))
    && (forall i :: 0 <= i < |r| && IsSpace(r[i]) ==> r[i] == ' ')
    && (forall i :: 0 <= i < |r| - 1 ==> !(IsSpace(r[i]) && IsSpace(r[i + 1])))
    && (|r| > 0 ==> !IsSpace(r[0]) && !IsSpace(r[|r| - 1]))
  }

  /** `clean_text`: no text or empty text gives `""`; otherwise whitespace is
      collapsed, disallowed characters become spaces, whitespace is collapsed
      again and the ends are stripped. The result is clean, no longer than the
      input, and keeps exactly the allowed non-whitespace characters, in order. */
  function CleanText(text: Option<string>): (r: string)
    ensures (text.None? || text.value == "") ==> r == ""
    ensures IsClean(r)
    ensures text.Some? ==> |r| <= |text.value|
    ensures text.Some? ==> NonSpace(r) == Ingest.DeleteDisallowed(NonSpace(text.value))
  {
    if text.None? || text.value == "" then ""
    else
      var once := CollapseWhitespace(text.value);
      var replaced := ReplaceDisallowed(once);
      var twice := CollapseWhitespace(replaced);
      NonSpaceOfReplaced(once);
      CollapseKeepsAllowed(replaced, false);
      StripKeepsSingleSpaces(twice);
      StripKeepsNonSpace(twice);
      Strip(twice)
  }

  /** Cleaning is idempotent: a cleaned text comes back unchanged. */
  lemma {:induction false} CleanTextIdempotent(text: Option<string>)
    ensures CleanText(Some(CleanText(text))) == CleanText(text)
  {
    var c := CleanText(text);
    if c != "" {
      CleanOfClean(c);
    }
  }

  /** Every step of the cleaner leaves a clean text alone. */
  lemma {:induction false} CleanOfClean(c: string)
    requires IsClean(c)
    ensures CleanText(Some(c)) == c
  {
    CollapseOfCollapsed(c, false);
    assert CollapseWhitespace(c) == c;
    ReplaceOfAllowed(c);
    assert Strip(c) == c;
  }

  /** Unlike the ingester's cleaner, which deletes disallowed characters and can
      leave two spaces together (`Ingest.CleanTextCanKeepDoubleSpace`), this one
      replaces them by spaces and collapses again: `"a @ b"` cleans to `"a b"`. */
  lemma CleanTextCollapsesAgain()
    ensures CleanText(Some("a @ b")) == "a b"
  {
    Ingest.CollapseOfExample();
    ReplaceOfExample();
    CollapseOfReplaced();
    assert Strip("a b") == "a b";
  }

  /** Replacing `@` in `"a @ b"` gives three spaces in a row. */
  lemma ReplaceOfExample()
    ensures ReplaceDisallowed("a @ b") == "a   b"
  {
    var s := "a @ b";
    assert !IsAllowed('@');
    assert ReplaceDisallowed(s[3..]) == " b";
    assert ReplaceDisallowed(s[2..]) == "  b";
  }

  /** The second collapse turns those three spaces back into one. */
  lemma CollapseOfReplaced()
    ensures CollapseWhitespace("a   b") == "a b"
  {
    var r := "a   b";
    assert IsSpace(' ') && !IsSpace('a') && !IsSpace('b');
    assert CollapseFrom(r[4..], true) == "b";
    assert CollapseFrom(r[3..], true) == "b";
    assert CollapseFrom(r[2..], true) == "b";
    assert CollapseFrom(r[1..], false) == " b";
  }

  // ---------------------------------------------------------------------------
  // One page

  /** What the parser yields for a fetched page: the `<title>` text, if any, and
      `get_text(strip=True)` of each candidate element of the main content area
      (or of the body), in document order. */
  datatype PageDoc = PageDoc(title: Option<string>, elements: seq<string>)

  /** The record for one page. */
  datatype PageText = PageText(url: string, title: string, text: string, wordCount: nat, charCount: nat)

  /** Elements with meaningful text: longer than 20 characters. */
  predicate IsMeaningful(text: string) {
    |text| > 20
  }

  /** The meaningful elements, in document order. */
  function Meaningful(elements: seq<string>): seq<string> {
    if elements == [] then []
    else
      var last := elements[|elements| - 1];
      Meaningful(elements[..|elements| - 1]) + (if IsMeaningful(last) then [last] else [])
  }

  /** The filter keeps exactly the meaningful elements, and keeps document order:
      filtering two runs one after the other concatenates their results. */
  lemma {:induction false} MeaningfulSpec(a: seq<string>, b: seq<string>)
    ensures Meaningful(a + b) == Meaningful(a) + Meaningful(b)
    ensures forall t :: t in Meaningful(b) <==> t in b && IsMeaningful(t)
    decreases |b|
  {
    if b == [] {
      assert a + b == a;
    } else {
      var init, last := b[..|b| - 1], b[|b| - 1];
      assert (a + b)[..|a + b| - 1] == a + init;
      assert (a + b)[|a + b| - 1] == last;
      MeaningfulSpec(a, init);
      assert b == init + [last];
    }
  }

  /** The record built from a parsed page: the meaningful element texts joined
      by spaces and cleaned, the title or `"No title"`, and the counts. */
  function PageTextOf(url: string, doc: PageDoc): PageText {
    var cleaned := CleanText(Some(Join(Meaningful(doc.elements))));
    PageText(url, if doc.title.Some? then doc.title.value else "No title", cleaned, |Words(cleaned)|, |cleaned|)
  }

  /** The counts of a page record: `char_count` is the length of the cleaned
      text, `word_count` the number of its `split()` tokens, there are no more
      words than characters, and a page has no words exactly when it has no
      characters. */
  lemma {:induction false} PageTextCounts(url: string, doc: PageDoc)
    ensures var p := PageTextOf(url, doc);
      && p.url == url && IsClean(p.text)
      && p.charCount == |p.text| && p.wordCount == |Words(p.text)|
      && p.wordCount <= p.charCount
      && (p.wordCount == 0 <==> p.charCount == 0)
  {
    var p := PageTextOf(url, doc);
    WordsEmptyIff(p.text);
  }

  /** `extract_text_from_url` given what the fetch and parse produced: `None`
      (a 404, another status, or an exception) gives `None`; otherwise the
      meaningful element texts are collected in order, and the page record is
      built from them. */
  method ExtractTextFromUrl(url: string, fetched: Option<PageDoc>) returns (result: Option<PageText>)
    ensures fetched.None? <==> result.None?
    ensures fetched.Some? ==> result == Some(PageTextOf(url, fetched.value))
  {
    if fetched.None? {
      return None;
    }
    var elements := fetched.value.elements;
    var textElements: seq<string> := [];
    for i := 0 to |elements|
      invariant textElements == Meaningful(elements[..i])
    {
      assert elements[..i + 1][..i] == elements[..i];
      if |elements[i]| > 20 {
        textElements := textElements + [elements[i]];
      }
    }
    assert elements[..|elements|] == elements;
    var fullText := Join(textElements);
    var cleaned := CleanText(Some(fullText));
    var title := if fetched.value.title.Some? then fetched.value.title.value else "No title";
    result := Some(PageText(url, title, cleaned, |Words(cleaned)|, |cleaned|));
  }

  // ---------------------------------------------------------------------------
  // All pages

  const PagesToCheck: seq<string> := [
    "", "/about", "/services", "/programs", "/volunteer", "/donate", "/contact", "/events",
    "/resources", "/news", "/blog", "/team", "/mission", "/get-involved", "/community"
  ]

  /** Every path checked is empty or absolute, so `UrlJoin` applies. */
  lemma PagesToCheckRooted()
    ensures forall i :: 0 <= i < |PagesToCheck| ==> Ingest.IsRootPath(PagesToCheck[i])
  {
  }

  /** The URL checked for each path. */
  function PageUrls(): (urls: seq<string>)
    ensures |urls| == |PagesToCheck|
  {
    UrlsFor(PagesToCheck)
  }

  /** `urljoin(base_url, page)` for each path, in order. */
  function UrlsFor(paths: seq<string>): (urls: seq<string>)
    ensures |urls| == |paths|
  {
    seq(|paths|, i requires 0 <= i < |paths| => Ingest.UrlJoin(Ingest.BaseUrl, paths[i]))
  }

  /** The records of the pages that were extracted, in list order; pages whose
      extraction failed are left out. */
  function Extracted(urls: seq<string>, fetch: string -> Option<PageDoc>): seq<PageText> {
    Collected(urls, ExtractWith(fetch))
  }

  /** The record for one URL, when its page was fetched. */
  function ExtractWith(fetch: string -> Option<PageDoc>): string -> Option<PageText> {
    url => if fetch(url).Some? then Some(PageTextOf(url, fetch(url).value)) else None
  }

  /** The values `f` gives, in order, skipping the elements it gives nothing for. */
  function Collected<S, T>(xs: seq<S>, f: S -> Option<T>): seq<T> {
    if xs == [] then []
    else
      var x := xs[|xs| - 1];
      Collected(xs[..|xs| - 1], f) + (if f(x).Some? then [f(x).value] else [])
  }

  /** One more element adds what `f` gives for it, if anything. */
  lemma {:induction false} CollectedStep<S, T>(xs: seq<S>, f: S -> Option<T>, k: nat)
    requires k < |xs|
    ensures Collected(xs[..k + 1], f)
      == Collected(xs[..k], f) + (if f(xs[k]).Some? then [f(xs[k]).value] else [])
  {
    assert xs[..k + 1][..k] == xs[..k];
  }

  /** Nothing is collected exactly when `f` gives nothing for every element, and
      every collected value is what `f` gives for some element. */
  lemma {:induction false} CollectedSpec<S, T>(xs: seq<S>, f: S -> Option<T>)
    ensures Collected(xs, f) == [] <==> forall i :: 0 <= i < |xs| ==> f(xs[i]).None?
    ensures |Collected(xs, f)| <= |xs|
    ensures forall p :: p in Collected(xs, f) ==> exists i :: 0 <= i < |xs| && f(xs[i]) == Some(p)
    decreases |xs|
  {
    if xs != [] {
      var init := xs[..|xs| - 1];
      CollectedSpec(init, f);
      forall p | p in Collected(xs, f)
        ensures exists i :: 0 <= i < |xs| && f(xs[i]) == Some(p)
      {
        if p in Collected(init, f) {
          var i :| 0 <= i < |init| && f(init[i]) == Some(p);
          assert xs[i] == init[i];
        } else {
          assert f(xs[|xs| - 1]) == Some(p);
        }
      }
      if forall i :: 0 <= i < |init| ==> f(init[i]).None? {
        if f(xs[|xs| - 1]).None? {
          forall i | 0 <= i < |xs| ensures f(xs[i]).None? {
            if i < |init| { assert xs[i] == init[i]; }
          }
        }
      } else {
        var i :| 0 <= i < |init| && f(init[i]).Some?;
        assert xs[i] == init[i];
      }
    }
  }

  /** Nothing is extracted exactly when every page fails, and every record
      belongs to a URL whose page was fetched. */
  lemma ExtractedSpec(urls: seq<string>, fetch: string -> Option<PageDoc>)
    ensures Extracted(urls, fetch) == [] <==> forall i :: 0 <= i < |urls| ==> fetch(urls[i]).None?
    ensures |Extracted(urls, fetch)| <= |urls|
    ensures forall p :: p in Extracted(urls, fetch) ==>
      exists i :: 0 <= i < |urls| && fetch(urls[i]).Some? && p == PageTextOf(urls[i], fetch(urls[i]).value)
  {
    var f := ExtractWith(fetch);
    CollectedSpec(urls, f);
    forall p | p in Extracted(urls, fetch)
      ensures exists i :: 0 <= i < |urls| && fetch(urls[i]).Some? && p == PageTextOf(urls[i], fetch(urls[i]).value)
    {
      var i :| 0 <= i < |urls| && f(urls[i]) == Some(p);
    }
  }

  /** `results` ordered by `char_count`, most first. */
  predicate SortedByChars(rs: seq<PageText>) {
    forall i, j :: 0 <= i < j < |rs| ==> rs[i].charCount >= rs[j].charCount
  }

  /** The records with a given `char_count`, in order. */
  function WithChars(rs: seq<PageText>, k: nat): seq<PageText> {
    if rs == [] then []
    else (if rs[0].charCount == k then [rs[0]] else []) + WithChars(rs[1..], k)
  }

  /** Insert `x` before the first record with no more characters than it, so
      that it stays ahead of later records with the same count. */
  function Insert(x: PageText, rs: seq<PageText>): (r: seq<PageText>)
    ensures multiset(r) == multiset(rs) + multiset{x}
  {
    if rs == [] then [x]
    else if rs[0].charCount > x.charCount then
      assert rs == [rs[0]] + rs[1..];
      [rs[0]] + Insert(x, rs[1..])
    else [x] + rs
  }

  /** `results.sort(key=lambda x: x['char_count'], reverse=True)`; Python's sort
      is stable also when reversed, so records with equal counts keep their order. */
  function SortByChars(rs: seq<PageText>): (r: seq<PageText>)
    ensures multiset(r) == multiset(rs)
  {
    if rs == [] then []
    else
      assert rs == [rs[0]] + rs[1..];
      Insert(rs[0], SortByChars(rs[1..]))
  }

  lemma {:induction false} InsertSorted(x: PageText, rs: seq<PageText>)
    requires SortedByChars(rs)
    ensures SortedByChars(Insert(x, rs))
    decreases |rs|
  {
    if rs != [] && rs[0].charCount > x.charCount {
      InsertSorted(x, rs[1..]);
      var tail := Insert(x, rs[1..]);
      forall j | 0 <= j < |tail| ensures rs[0].charCount >= tail[j].charCount {
        assert tail[j] in multiset(tail);
        assert tail[j] == x || tail[j] in rs[1..];
      }
    }
  }

  lemma {:induction false} InsertStable(x: PageText, rs: seq<PageText>, k: nat)
    ensures WithChars(Insert(x, rs), k) == (if x.charCount == k then [x] else []) + WithChars(rs, k)
    decreases |rs|
  {
    if rs != [] && rs[0].charCount > x.charCount {
      InsertStable(x, rs[1..], k);
      WithCharsCons(rs[0], Insert(x, rs[1..]), k);
      if x.charCount == k {
        assert rs[0].charCount != k;
      } else {
        assert WithChars(Insert(x, rs[1..]), k) == WithChars(rs[1..], k);
      }
    } else if rs != [] {
      WithCharsCons(x, rs, k);
    }
  }

  /** The records with count `k` of a list with one record in front. */
  lemma {:induction false} WithCharsCons(y: PageText, ys: seq<PageText>, k: nat)
    ensures WithChars([y] + ys, k) == (if y.charCount == k then [y] else []) + WithChars(ys, k)
  {
    assert ([y] + ys)[0] == y && ([y] + ys)[1..] == ys;
  }

  /** The sort orders by `char_count`, most first, keeps every record, and is
      stable: the records with any given count are in their original order. */
  lemma {:induction false} SortByCharsSpec(rs: seq<PageText>)
    ensures SortedByChars(SortByChars(rs))
    ensures multiset(SortByChars(rs)) == multiset(rs)
    ensures forall k :: WithChars(SortByChars(rs), k) == WithChars(rs, k)
    decreases |rs|
  {
    if rs != [] {
      SortByCharsSpec(rs[1..]);
      InsertSorted(rs[0], SortByChars(rs[1..]));
      forall k ensures WithChars(SortByChars(rs), k) == WithChars(rs, k) {
        InsertStable(rs[0], SortByChars(rs[1..]), k);
      }
    }
  }

  /** `sum(r['char_count'] for r in results)`. */
  function TotalChars(rs: seq<PageText>): nat {
    if rs == [] then 0 else rs[0].charCount + TotalChars(rs[1..])
  }

  /** `sum(r['word_count'] for r in results)`. */
  function TotalWords(rs: seq<PageText>): nat {
    if rs == [] then 0 else rs[0].wordCount + TotalWords(rs[1..])
  }

  lemma {:induction false} InsertTotals(x: PageText, rs: seq<PageText>)
    ensures TotalChars(Insert(x, rs)) == x.charCount + TotalChars(rs)
    ensures TotalWords(Insert(x, rs)) == x.wordCount + TotalWords(rs)
    decreases |rs|
  {
    if rs != [] && rs[0].charCount > x.charCount {
      InsertTotals(x, rs[1..]);
      var tail := Insert(x, rs[1..]);
      assert ([rs[0]] + tail)[0] == rs[0] && ([rs[0]] + tail)[1..] == tail;
    } else if rs != [] {
      assert ([x] + rs)[0] == x && ([x] + rs)[1..] == rs;
    }
  }

  /** Sorting changes neither total. */
  lemma {:induction false} SortKeepsTotals(rs: seq<PageText>)
    ensures TotalChars(SortByChars(rs)) == TotalChars(rs)
    ensures TotalWords(SortByChars(rs)) == TotalWords(rs)
    decreases |rs|
  {
    if rs != [] {
      SortKeepsTotals(rs[1..]);
      InsertTotals(rs[0], SortByChars(rs[1..]));
    }
  }

  /** The summary `extract_all_pages` reports: the sorted records and the totals. */
  datatype Summary = Summary(results: seq<PageText>, totalChars: nat, totalWords: nat)

  /** The loop of `extract_all_pages`: each path's URL is fetched and
      extracted in list order, and the successful records are collected. */
  method ExtractPages(paths: seq<string>, fetch: string -> Option<PageDoc>) returns (results: seq<PageText>)
    ensures results == Extracted(UrlsFor(paths), fetch)
  {
    ghost var urls, f := UrlsFor(paths), ExtractWith(fetch);
    results := [];
    for k := 0 to |paths|
      invariant results == Collected(urls[..k], f)
    {
      var url := Ingest.UrlJoin(Ingest.BaseUrl, paths[k]);
      var result := ExtractTextFromUrl(url, fetch(url));
      assert urls[k] == url && f(url) == result;
      CollectedStep(urls, f, k);
      if result.Some? {
        results := results + [result.value];
      }
    }
    assert urls[..|urls|] == urls;
  }

  /** `extract_all_pages` given the fetch-and-parse oracle: every page is tried
      in list order and the successful records are collected; with none the
      method returns `None`, otherwise the records sorted by `char_count`, most
      first and stable among ties, with the totals of the collected records. */
  method ExtractAllPages(fetch: string -> Option<PageDoc>) returns (summary: Option<Summary>)
    ensures summary.None? <==> forall i :: 0 <= i < |PageUrls()| ==> fetch(PageUrls()[i]).None?
    ensures summary.Some? ==>
      var found := Extracted(PageUrls(), fetch);
      && summary.value.results == SortByChars(found)
      && SortedByChars(summary.value.results)
      && multiset(summary.value.results) == multiset(found)
      && (forall k :: WithChars(summary.value.results, k) == WithChars(found, k))
      && summary.value.totalChars == TotalChars(found)
      && summary.value.totalWords == TotalWords(found)
  {
    ghost var urls := PageUrls();
    var results := ExtractPages(PagesToCheck, fetch);
    ExtractedSpec(urls, fetch);
    if results == [] {
      return None;
    }
    results := SortByChars(results);
    SortByCharsSpec(Extracted(urls, fetch));
    SortKeepsTotals(Extracted(urls, fetch));
    var totalChars := TotalChars(results);
    var totalWords := TotalWords(results);
    summary := Some(Summary(results, totalChars, totalWords));
  }
}
