# An-Nisa chatbot backend: text and selection pipeline

This project models the text-processing and result-selection core of the
An-Nisa Hope Center retrieval-augmented chatbot backend and proves properties of it.

- **Ingestion** (`backend/ingest.py`, module `Ingest`). Pages of annisa.org are
  cleaned and split into overlapping word windows ("chunks"). Chunks of at most
  50 characters are dropped. Every chunk gets a metadata record, and two fixed
  Google Forms entries are appended at the end. The `Ingester` class holds the
  `chunks` and `metadata` lists that its methods extend in place. The loop of
  `chunk_text` tests `len(chunk.strip()) > 50`. Its specification `Chunks` tests
  the joined window's own length, and `Ingest.SubstantialIsLong` proves that
  the two tests agree on a space-join of words.
- **Query side** (`backend/app.py`, module `App`):
  - The `Chatbot` class holds the loaded snapshot (chunks, embeddings, metadata)
    and whether a completion client is set up.
  - `search_knowledge_base` picks the `top_k` best-scoring chunks above 0.1.
  - `generate_response` builds the context text sent to the completion service.
  - The `/`, `/chat` and `/search` handlers become pure functions from a request
    body to a status and a reply.
- **Page text extractor** (`backend/page_text_extractor.py`, module
  `PageTextExtractor`). Its own cleaner replaces disallowed characters by spaces
  and collapses again. It keeps element texts longer than 20 characters and
  counts words and characters. It then sorts the page records by character
  count, most first and stable, and sums the totals.
- **Shared string operations** (module `TextOps`). These are Python's `\s`
  class, `re.sub(r'\s+', ' ', …)`, `str.strip()`, `str.split()` and `' '.join`.

The model takes these as inputs:

- **Network fetching and HTML parsing:** oracles that return an optional page
  record per URL.
- **The embedding model and cosine similarity:** a similarity function over
  stored vectors.
- **`np.argsort`:** an index permutation whose scores ascend.
- **The completion service:** an optional answer.

## Model

| member | source | states |
|---|---|---|
| TextOps.CollapseWhitespace | backend/ingest.py:52 | `re.sub(r'\s+', ' ', s)` is no longer than `s` and keeps its non-whitespace characters in order. Its only whitespace is the plain space, and no two whitespace characters are adjacent. It starts (ends) with a space exactly when `s` starts (ends) with whitespace. |
| TextOps.CollapseLast | backend/ingest.py:52 | the collapse ends with the input's last character when that is not whitespace, and with a single space when it is |
| TextOps.WordsOfCollapseFrom | backend/ingest.py:52 | collapsing whitespace runs keeps `split()` unchanged |
| TextOps.JoinOfWords | backend/ingest.py:52-55 | the collapse keeps the words of `s`, and `' '.join(s.split())` equals the stripped collapse of `s` |
| TextOps.JoinOfSingleSpaced | backend/ingest.py:52-55 | text with single plain spaces and no whitespace at either end is the space-join of its own words |
| TextOps.StripKeepsSingleSpaced | backend/ingest.py:55 | stripping keeps "single plain spaces only" |
| TextOps.Strip | backend/ingest.py:55 | `strip()` returns the slice after the leading whitespace; everything cut from the end is whitespace; the result has no whitespace at either end; a string with non-whitespace ends is returned unchanged |
| TextOps.StripKeepsNonSpace | backend/ingest.py:55 | stripping removes whitespace only: the non-whitespace characters are unchanged |
| TextOps.NonSpaceOfPadded | backend/ingest.py:55 | whitespace around a slice adds no non-whitespace characters |
| TextOps.Words | backend/ingest.py:109 | `split()` yields at most `len(s)` tokens, each non-empty and whitespace-free; `WordsOfJoin` and `JoinOfWords` pin down which tokens these are |
| TextOps.WordsOfWordThen | backend/ingest.py:109 | a word followed by nothing or by whitespace is the first token of `split()` |
| TextOps.WordsSplitAtSpace | backend/ingest.py:109 | `split()` of `x + y` is `split()` of `x` followed by `split()` of `y` when `y` is empty or starts with whitespace |
| TextOps.WordsOfSpacesThen | backend/ingest.py:109 | leading whitespace adds no tokens |
| TextOps.WordsOfPadded | backend/ingest.py:109 | whitespace around a slice adds no tokens |
| TextOps.WordsOfStrip | backend/ingest.py:55 | stripping keeps `split()` unchanged |
| TextOps.CollapseOfWordThen | backend/ingest.py:52 | a word passes through the collapse unchanged, and the collapse goes on after it outside a run |
| TextOps.ExpandAppend | backend/ingest.py:54 | a character-by-character rewrite of `a + b` is the rewrite of `a` followed by that of `b` |
| TextOps.WordsOfExpand | backend/page_text_extractor.py:49 | a character rewrite that keeps whitespace acts on `split()` word by word: the tokens of the rewritten text are the tokens of each rewritten word, in order |
| TextOps.WordsEmptyIff | backend/ingest.py:109 | `split()` is empty exactly when the text is empty or all whitespace |
| TextOps.WordsOfJoin | backend/ingest.py:113 | round trip: splitting the space-join of a list of words gives the list back |
| TextOps.JoinOfWordsIsStripped | backend/ingest.py:113-114 | a space-join of words has no whitespace at either end, so `chunk.strip()` is the chunk itself |
| Ingest.DeleteDisallowed | backend/ingest.py:54 | deleting `[^\w\s.,!?;:\-()]` leaves only allowed characters, each taken from the input; `DeleteConcat` says which ones and in what order |
| Ingest.DeleteIsExpand | backend/ingest.py:54 | deletion is the character-by-character rewrite that keeps an allowed character and drops any other |
| Ingest.DeleteConcat | backend/ingest.py:54 | deletion distributes over concatenation, keeps an allowed character and drops a disallowed one, so the allowed characters are kept in order |
| Ingest.NonSpaceOfDeleted | backend/ingest.py:54 | deleting disallowed characters commutes with dropping whitespace |
| Ingest.CleanText | backend/ingest.py:49-55 | `clean_text`: every output character is a word character, whitespace or kept punctuation. Its only whitespace is the space, with none at either end. It is no longer than the input, and its non-whitespace characters are exactly the allowed non-whitespace input characters, in order. `CleanTextWords` states which words remain. |
| Ingest.WordsAfterDelete | backend/ingest.py:54 | deleting characters inside a word leaves one word or nothing |
| Ingest.CleanTextWords | backend/ingest.py:49-55 | `clean_text(t).split()` is, in order, `DeleteDisallowed(w)` for each `w` of `t.split()` that keeps a character: words are never merged or split |
| Ingest.DeleteKeepsPlainSpaces | backend/ingest.py:54 | deleting after the collapse keeps the plain space as the only whitespace |
| Ingest.StripKeepsAllowed | backend/ingest.py:55 | stripping keeps every character allowed and every whitespace character a plain space |
| Ingest.CleanTextCanKeepDoubleSpace | backend/ingest.py:52-55 | deletion happens after the collapse, so `"a @ b"` cleans to `"a  b"` with two adjacent spaces |
| Ingest.ChunkText | backend/ingest.py:107-117 | `chunk_text` returns exactly the joined windows longer than 50 characters, in window order |
| Ingest.KeepWindows | backend/ingest.py:112-115 | the loop over `range(0, len(words), step)` with the source's test on `chunk.strip()` keeps exactly the windows a test that agrees with it on joined words keeps, in order |
| Ingest.SubstantialIsLong | backend/ingest.py:113-114 | on a space-join of words, `len(chunk.strip()) > 50` holds exactly when `len(chunk) > 50` |
| Ingest.KeptSpec | backend/ingest.py:113-115 | a string is kept iff it is the join of some window and passes the test; there are no more kept strings than windows |
| Ingest.WindowsShape | backend/ingest.py:112-113 | there are ceil(n / step) windows, and the k-th is `words[k*step : k*step + chunk_size]` clipped to the text |
| Ingest.WindowsCount | backend/ingest.py:112 | the number of windows is ceil(len(words) / (chunk_size - overlap)) |
| Ingest.WindowsFromCount | backend/ingest.py:112 | the range starting at `start` has q steps with (q-1)*step < n - start <= q*step |
| Ingest.WindowsFromAt | backend/ingest.py:112-113 | the k-th window of the range starting at `start` is `words[start + k*step : start + k*step + size]`, clipped |
| Ingest.WindowsFromOfWords | backend/ingest.py:113 | every window holds at most `chunk_size` entries, all of them words |
| Ingest.WindowsOverlap | backend/ingest.py:112-113 | consecutive full windows share exactly `chunk_size - step` (= `overlap`) words |
| Ingest.KeptWindowBounds | backend/ingest.py:112-115 | every kept join passes the test, has at most `chunk_size` words, and its words form one of the windows |
| Ingest.KeptWindowCount | backend/ingest.py:112-115 | at most ceil(len(words) / step) joins are kept |
| Ingest.ChunkBounds | backend/ingest.py:112-115 | every chunk is longer than 50 characters, has at most `chunk_size` words, and its words form one of the windows |
| Ingest.ChunksOfBlankText | backend/ingest.py:109-117 | empty or whitespace-only text gives no chunks |
| Ingest.ChunkCount | backend/ingest.py:112-115 | there are at most ceil(len(words) / (chunk_size - overlap)) chunks |
| Ingest.UrlJoin | backend/ingest.py:124 | `urljoin(base, path)` modelled as concatenation, valid only for a base with no path and a path that is empty or absolute: then the result keeps the base's scheme and host and has `path` as its path |
| Ingest.TargetPathsRooted | backend/ingest.py:21-47 | the base URL has no path and every target path is absolute, so `UrlJoin`'s restriction holds for `scrape_all_pages` |
| Ingest.ExtractContent | backend/ingest.py:94-105 | `extract_content` is `None` exactly when the fetch or parse failed; otherwise the URL, the cleaned title and the cleaned content |
| Ingest.ConcatAppend | backend/app.py:108-113 | what a loop appends per element, over two runs, is the concatenation of the two |
| Ingest.ConcatSameLength | backend/ingest.py:131-138 | per-element blocks of equal length give concatenations of equal length |
| Ingest.ConcatFrom | backend/ingest.py:131-138 | every entry of the concatenation comes from the block of some element |
| Ingest.ConcatPrefix | backend/ingest.py:123-138 | the concatenation for a prefix of the elements is a prefix of the whole |
| Ingest.ConcatBlocks | backend/ingest.py:131-138 | the blocks of element k sit at the same offset in two concatenations whose blocks have equal lengths |
| Ingest.ScrapedStep | backend/ingest.py:123-138 | one more page appends exactly that page's chunks and metadata |
| Ingest.ScrapedAligned | backend/ingest.py:131-138 | the scraped chunks and metadata have equal lengths. Every record is a page-chunk record with source `annisa.org`. Every chunk is longer than 50 characters. |
| Ingest.FailedPagesAddNothing | backend/ingest.py:127 | pages that failed or have empty content contribute nothing |
| Ingest.ScrapedPrefix | backend/ingest.py:123-138 | the lists only grow: the result after the first m pages is a prefix of the final one |
| Ingest.PageBlock | backend/ingest.py:131-138 | a page's chunks form one contiguous block. The block sits after the earlier pages' chunks. The i-th chunk in it carries `chunk_id` i and that page's URL and title. |
| Ingest.Ingester.constructor | backend/ingest.py:25-27 | an ingester starts with empty, aligned lists |
| Ingest.Ingester.ScrapeAllPages | backend/ingest.py:119-145 | `scrape_all_pages` appends to `chunks` exactly the chunks of the pages fetched in target order, and to `metadata` their records. It keeps the two lists aligned. |
| Ingest.Ingester.AddPage | backend/ingest.py:127-138 | one iteration of `scrape_all_pages`: a page with content appends its chunks and one record per chunk, numbered from 0; anything else appends nothing; the lists stay aligned |
| Ingest.Ingester.AddGoogleFormsInfo | backend/ingest.py:176-246 | `add_google_forms_info` appends the two stripped form texts and their two records, in order, keeping alignment |
| Ingest.Ingester.ProcessUrls | backend/ingest.py:248-268 | `process_urls` leaves the scraped chunks followed by the two form chunks. It returns `True` exactly when `chunks` is non-empty, which the forms guarantee. |
| App.Reverse | backend/app.py:82 | `[::-1]` has the same length, and its k-th element is the k-th from the end |
| App.TopIndicesShape | backend/app.py:82 | `argsort(s)[-top_k:][::-1]` lists argsort positions from the end. An index is selected exactly when its argsort position is at or after the slice start. |
| App.TopIndicesCount | backend/app.py:82 | at most `top_k` indices for `top_k >= 1`; for `top_k == 0` the slice `[-0:]` selects every index |
| App.TopIndicesDescending | backend/app.py:82 | the selected indices are valid and in non-increasing score order, whatever order argsort gives to ties |
| App.HitsOfStep | backend/app.py:86-93 | each loop step appends a hit ranked `i + 1` exactly when the score exceeds 0.1 |
| App.HitsOfDescending | backend/app.py:86-93 | over descending scores, the failing indices form a suffix. The j-th hit comes from the j-th selected index, has rank j + 1 and scores above 0.1. |
| App.SearchProperties | backend/app.py:69-95 | there are no results without embeddings or chunks, and at most `top_k` for `top_k >= 1`. Every score is above 0.1 and the ranks are exactly 1..n. Each result's content, metadata and score come from one index. Scores are non-increasing. |
| App.UnselectedScoresNoHigher | backend/app.py:82 | no index outside the selection scores above a selected one |
| App.SearchSelectsHighest | backend/app.py:79-93 | every result is among the `top_k` highest scores: no unselected index scores above it |
| App.CollectHits | backend/app.py:84-95 | the loop over `enumerate(top_indices)` returns exactly the hits of the selected indices above 0.1, ranked by position |
| App.Chatbot.constructor | backend/app.py:30-38 | the chatbot holds an aligned snapshot and the client flag |
| App.Chatbot.SearchKnowledgeBase | backend/app.py:69-99 | the loop's results equal the model's search, with none when nothing is loaded, at most `top_k`, each above 0.1 and ranked by position |
| App.ContextAppend | backend/app.py:108-113 | the context of two runs of chunks is the concatenation of their contexts |
| App.ContextEmptyIff | backend/app.py:108-113 | the context is empty exactly when there are no chunks, and each chunk adds at least 20 characters |
| App.ContextSingle | backend/app.py:112-113 | one chunk's context is `Content: …\nSource: …\n\n` |
| App.Chatbot.GenerateResponse | backend/app.py:101-156 | with no client, the "trouble connecting" apology. Otherwise the context is built chunk by chunk in order. A failed completion gives the "technical difficulties" apology, and an answer is returned stripped. |
| App.HealthCheck | backend/app.py:161-169 | status 200 and healthy; the knowledge base counts as loaded exactly when the chunk count is positive, and the count is the number of chunks |
| App.Chat | backend/app.py:171-205 | a body that fails to parse gives 500. A missing message gives 400 "No message provided", and a blank one gives 400 "Empty message". Otherwise the answer is 200: with no hits, the no-information reply and no `chunks_used`; with hits, the generated answer and their count. |
| App.SearchEndpoint | backend/app.py:207-226 | a `null` or unparsable body gives 500; an absent or empty query gives 400 "No query provided"; otherwise 200 with the query and its `top_k=5` results |
| App.ChatChunksUsed | backend/app.py:186-201 | composed with the knowledge-base search, `chunks_used` is between 1 and 3. A snapshot with nothing loaded always gets the no-information reply. |
| App.SearchEndpointResults | backend/app.py:217-222 | composed with the knowledge-base search, `/search` returns at most 5 results, each above 0.1, best first |
| PageTextExtractor.ReplaceDisallowed | backend/page_text_extractor.py:49 | the replacement is one-for-one: same length, all characters allowed, each allowed character kept in place and each disallowed one replaced by a space |
| PageTextExtractor.ReplaceIsExpand | backend/page_text_extractor.py:49 | replacement is the character-by-character rewrite that keeps an allowed character and turns any other into a space |
| PageTextExtractor.WordsOfReplaceCollapsed | backend/page_text_extractor.py:47-49 | collapsing whitespace before the replacement does not change the tokens the replacement leaves |
| PageTextExtractor.NonSpaceOfReplaced | backend/page_text_extractor.py:49 | replacing by spaces keeps the same non-whitespace characters that deleting keeps |
| PageTextExtractor.CollapseKeepsAllowed | backend/page_text_extractor.py:51 | collapsing introduces no character other than the space |
| PageTextExtractor.CollapseOfCollapsed | backend/page_text_extractor.py:47 | text whose whitespace is already single spaces is unchanged by the collapse |
| PageTextExtractor.ReplaceOfAllowed | backend/page_text_extractor.py:49 | text of allowed characters only is unchanged by the replacement |
| PageTextExtractor.StripKeepsSingleSpaces | backend/page_text_extractor.py:53 | stripping keeps "allowed characters, single plain spaces" |
| PageTextExtractor.CleanText | backend/page_text_extractor.py:41-53 | no text or empty text gives `""`. Otherwise the output has only allowed characters, single plain spaces, none adjacent and none at either end. It is no longer than the input and keeps exactly the allowed non-whitespace characters, in order. `CleanTextJoin` states the exact result. |
| PageTextExtractor.CleanTextJoin | backend/page_text_extractor.py:41-53 | `clean_text(t)` is `' '.join(s.split())` for `s` the text with every disallowed character replaced by a space |
| PageTextExtractor.CleanTextIdempotent | backend/page_text_extractor.py:41-53 | cleaning a cleaned text changes nothing |
| PageTextExtractor.CleanOfClean | backend/page_text_extractor.py:41-53 | a clean text (allowed characters, single plain spaces, none at the ends) comes back unchanged |
| PageTextExtractor.CleanTextCollapsesAgain | backend/page_text_extractor.py:47-53 | the second collapse removes the double space: `"a @ b"` cleans to `"a b"`, where the ingester's cleaner gives `"a  b"` |
| PageTextExtractor.MeaningfulSpec | backend/page_text_extractor.py:92-103 | the filter keeps exactly the element texts longer than 20 characters, in document order |
| PageTextExtractor.PageTextCounts | backend/page_text_extractor.py:106-121 | `char_count` is the cleaned length and `word_count` the number of `split()` tokens. There are no more words than characters, and no words exactly when no characters. The text is clean. |
| PageTextExtractor.ExtractTextFromUrl | backend/page_text_extractor.py:55-125 | a failed fetch gives `None`. Otherwise the loop collects the meaningful texts in order, and the record holds their cleaned join, the title or "No title", and the counts. |
| PageTextExtractor.CollectedSpec | backend/page_text_extractor.py:134-139 | a loop that appends what it gets for each element collects nothing exactly when it gets nothing for every element; every collected value comes from some element |
| PageTextExtractor.CollectedStep | backend/page_text_extractor.py:134-139 | one more element appends what it gives, if anything |
| PageTextExtractor.PagesToCheckRooted | backend/page_text_extractor.py:23-39 | every path checked is empty or absolute, so `UrlJoin` applies to the default base |
| PageTextExtractor.ExtractPages | backend/page_text_extractor.py:132-142 | the loop over `pages_to_check` collects, in order, the record of every page that was extracted |
| PageTextExtractor.ExtractedSpec | backend/page_text_extractor.py:134-139 | nothing is collected exactly when every page failed. Every record belongs to a fetched URL, and there are no more records than URLs. |
| PageTextExtractor.SortByChars | backend/page_text_extractor.py:153 | the sort is a permutation of the records |
| PageTextExtractor.InsertSorted | backend/page_text_extractor.py:153 | inserting into a list sorted by `char_count`, most first, keeps it sorted |
| PageTextExtractor.WithCharsCons | backend/page_text_extractor.py:153 | the records with a given count in a list are the first record, if it has that count, then those of the rest |
| PageTextExtractor.InsertStable | backend/page_text_extractor.py:153 | an inserted record goes ahead of the later records with the same count |
| PageTextExtractor.SortByCharsSpec | backend/page_text_extractor.py:153 | the sort is non-increasing in `char_count`, a permutation, and stable: records with equal counts keep their order |
| PageTextExtractor.InsertTotals | backend/page_text_extractor.py:155-156 | inserting a record adds its counts to both totals |
| PageTextExtractor.SortKeepsTotals | backend/page_text_extractor.py:153-156 | sorting changes neither `total_chars` nor `total_words` |
| PageTextExtractor.ExtractAllPages | backend/page_text_extractor.py:127-173 | the result is `None` exactly when every page failed. Otherwise it holds the collected records sorted by count, most first, and as a stable permutation. `total_chars` and `total_words` are the sums over the records. |

## Left out

- HTTP fetching and HTML parsing (`requests`, BeautifulSoup, the selector fallbacks, status checks) are oracles. Also left out: the choice between main-content and body elements, `get_text`, and the `time.sleep` pauses.
- The SentenceTransformer encoders, `cosine_similarity`, and the pickle output of the ingester are not modelled. Scores are a function of the stored vector, and `np.argsort` is a permutation with ascending scores whose tie order is free.
- The embedding model differs between ingestion (`paraphrase-MiniLM-L3-v2`) and query time (`all-MiniLM-L6-v2`). This is a configuration mismatch with no counterpart in the model.
- The completion call, its prompt texts and its parameters are left out. The service is an input returning an optional answer. The unused `sources` set in `generate_response` is left out.
- Loading the snapshot from disk is left out, along with the API key lookup, Flask routing, CORS, logging and all printing (progress, summaries, the preview and file output of `save_results_to_file`).
- App.Chatbot.SearchKnowledgeBase: requires an aligned snapshot; a snapshot whose lists disagree in length is not modelled. Exceptions from encoding the query are likewise outside the model.
- Ingest.ChunkText: requires `chunk_size > overlap`. Python's `range` raises for a zero step and is empty for a negative one, and only the defaults 500 and 50 are ever passed.
- Ingest.UrlJoin: `urljoin` is modelled as concatenation, which agrees with it only for a base with no path and a path that is empty or absolute. Both target lists and the default base meet that (`TargetPathsRooted`, `PagesToCheckRooted`); relative paths and bases with a path are not modelled.
- TextOps.IsWordChar: `\w` is ASCII letters, digits and `_`. Python's Unicode `\w` also matches non-ASCII letters and digits, which the model treats as disallowed.
- App.Chat: bodies are JSON `null`, a parse failure, or an object with string values. A non-string `message` (whose `.strip()` raises) and non-object JSON bodies are not modelled. The search and the generator are total.
- App.SearchEndpoint: the same body restriction as `App.Chat`.
- PageTextExtractor.SortByChars: `results.sort` sorts the Python list in place. The model sorts the sequence as a value, with an insertion sort that has the same stable result.
- backend/inspect_pkl.py, frontend/src/Chat.jsx and backend/gunicorn.conf.py are not part of this model (a diagnostic printer, the React UI and deployment settings).
