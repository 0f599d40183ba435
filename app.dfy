/** The query side of backend/app.py: selecting the best-scoring chunks,
    assembling the context for the completion service, and the decisions of the
    `/`, `/chat` and `/search` handlers. The embedding model, cosine similarity,
    `np.argsort` and the completion service are inputs. */
module App {
  import opened TextOps
  import Ingest

  type Embedding = seq<real>

  /** The loaded snapshot: `chunks`, `embeddings` (`None` until loaded) and `metadata`. */
  datatype Snapshot = Snapshot(chunks: seq<string>, embeddings: Option<seq<Embedding>>, metadata: seq<Ingest.Meta>)

  /** One search result: `{content, metadata, score, rank}`. */
  datatype SearchHit = SearchHit(content: string, metadata: Ingest.Meta, score: real, rank: nat)

  /** Only scores strictly above this are returned. */
  const Threshold: real := 0.1

  /** The snapshot's three lists are index-aligned. */
  predicate Aligned(kb: Snapshot) {
    |kb.metadata| == |kb.chunks| && (kb.embeddings.Some? ==> |kb.embeddings.value| == |kb.chunks|)
  }

  /** `cosine_similarity(query_embedding, embeddings)[0]`, with the similarity to
      the query embedding given as a function of the stored vector. */
  function Scores(embeddings: seq<Embedding>, similarity: Embedding -> real): (r: seq<real>)
    ensures |r| == |embeddings|
  {
    seq(|embeddings|, i requires 0 <= i < |embeddings| => similarity(embeddings[i]))
  }

  /** `np.argsort(scores)`: every index exactly once, scores ascending; the order
      among equal scores is not fixed. */
  predicate IsArgsort(order: seq<nat>, scores: seq<real>) {
    && |order| == |scores|
    && (forall q :: 0 <= q < |order| ==> order[q] < |scores|)
    && (forall i :: 0 <= i < |scores| ==> i in order)
    && (forall p, q :: 0 <= p < q < |order| ==> order[p] != order[q])
    && (forall p, q :: 0 <= p < q < |order| ==> scores[order[p]] <= scores[order[q]])
  }

  /** What a search may be given: an aligned snapshot and, once embeddings are
      loaded, one score per stored vector and their argsort. */
  predicate SearchInputsOk(kb: Snapshot, scores: seq<real>, order: seq<nat>) {
    Aligned(kb) && (kb.embeddings.Some? ==> |scores| == |kb.chunks| && IsArgsort(order, scores))
  }

  /** `s[::-1]`: the k-th element is the k-th from the end. */
  function Reverse<T>(s: seq<T>): (r: seq<T>)
    ensures |r| == |s|
    ensures forall k :: 0 <= k < |s| ==> r[k] == s[|s| - 1 - k]
  {
    if s == [] then [] else Reverse(s[1..]) + [s[0]]
  }

  /** Where the slice `a[-topK:]` of a list of length `n` starts: the last
      `topK` elements for `topK > 0`, but everything for `topK == 0`, because
      `-0` is `0`, and `a[m:]` for `topK == -m`. */
  function TopStart(n: nat, topK: int): nat {
    if topK > 0 then (if topK >= n then 0 else n - topK)
    else if -topK >= n then n
    else -topK
  }

  /** `np.argsort(scores)[-top_k:][::-1]`. */
  function TopIndices(order: seq<nat>, topK: int): seq<nat> {
    Reverse(order[TopStart(|order|, topK)..])
  }

  /** The selected indices, highest score first: the a-th is the a-th from the
      end of the argsort, and an index is selected exactly when its position in
      the argsort is at or after the slice start. */
  lemma {:induction false} TopIndicesShape(order: seq<nat>, topK: int)
    ensures var top, start := TopIndices(order, topK), TopStart(|order|, topK);
      && start <= |order| && |top| == |order| - start
      && (forall a :: 0 <= a < |top| ==> top[a] == order[|order| - 1 - a])
      && (forall q :: start <= q < |order| ==> order[q] in top)
      && (forall x :: x in top ==> exists q :: start <= q < |order| && order[q] == x)
  {
    var top, start := TopIndices(order, topK), TopStart(|order|, topK);
    var tail := order[start..];
    forall q | start <= q < |order| ensures order[q] in top {
      assert top[|order| - 1 - q] == tail[|tail| - 1 - (|order| - 1 - q)] == order[q];
    }
    forall x | x in top ensures exists q :: start <= q < |order| && order[q] == x {
      var a :| 0 <= a < |top| && top[a] == x;
      assert order[|order| - 1 - a] == x;
    }
  }

  /** For `top_k >= 1` at most `top_k` indices are selected; for `top_k == 0`
      the slice `[-0:]` selects every index. */
  lemma {:induction false} TopIndicesCount(order: seq<nat>, topK: int)
    ensures topK >= 1 ==> |TopIndices(order, topK)| <= topK
    ensures topK == 0 ==> |TopIndices(order, topK)| == |order|
  {
    TopIndicesShape(order, topK);
  }

  /** The selected indices come in non-increasing score order. */
  predicate Descending(top: seq<nat>, scores: seq<real>) {
    && (forall a :: 0 <= a < |top| ==> top[a] < |scores|)
    && (forall a, b :: 0 <= a < b < |top| ==> scores[top[a]] >= scores[top[b]])
  }

  function MakeHit(kb: Snapshot, scores: seq<real>, idx: nat, rank: nat): SearchHit
    requires Aligned(kb) && idx < |kb.chunks| && idx < |scores|
  {
    SearchHit(kb.chunks[idx], kb.metadata[idx], scores[idx], rank)
  }

  /** The results the loop over `enumerate(top)` builds: one hit, ranked by its
      position plus one, per index whose score is above the threshold. */
  function HitsOf(kb: Snapshot, scores: seq<real>, top: seq<nat>): seq<SearchHit>
    requires Aligned(kb) && |scores| == |kb.chunks|
    requires forall a :: 0 <= a < |top| ==> top[a] < |scores|
  {
    if top == [] then []
    else
      var idx := top[|top| - 1];
      HitsOf(kb, scores, top[..|top| - 1])
      + (if scores[idx] > Threshold then [MakeHit(kb, scores, idx, |top|)] else [])
  }

  /** One more index of the loop: the hits of `top[..i + 1]` extend those of `top[..i]`. */
  lemma {:induction false} HitsOfStep(kb: Snapshot, scores: seq<real>, top: seq<nat>, i: nat)
    requires Aligned(kb) && |scores| == |kb.chunks|
    requires forall a :: 0 <= a < |top| ==> top[a] < |scores|
    requires i < |top|
    ensures HitsOf(kb, scores, top[..i + 1])
      == HitsOf(kb, scores, top[..i]) + (if scores[top[i]] > Threshold then [MakeHit(kb, scores, top[i], i + 1)] else [])
  {
    assert top[..i + 1][..i] == top[..i];
  }

  /** On indices in non-increasing score order, those failing the threshold
      form a suffix: the hits are exactly the passing prefix, the j-th hit comes
      from the j-th index and has rank j + 1. */
  lemma {:induction false} HitsOfDescending(kb: Snapshot, scores: seq<real>, top: seq<nat>)
    requires Aligned(kb) && |scores| == |kb.chunks|
    requires Descending(top, scores)
    ensures var hits := HitsOf(kb, scores, top);
      && |hits| <= |top|
      && (forall j :: 0 <= j < |hits| ==> hits[j] == MakeHit(kb, scores, top[j], j + 1) && scores[top[j]] > Threshold)
      && (forall a :: 0 <= a < |top| && scores[top[a]] > Threshold ==> a < |hits|)
    decreases |top|
  {
    if top != [] {
      var init, idx := top[..|top| - 1], top[|top| - 1];
      assert forall a :: 0 <= a < |init| ==> init[a] == top[a];
      assert Descending(init, scores);
      HitsOfDescending(kb, scores, init);
      var prev, hits := HitsOf(kb, scores, init), HitsOf(kb, scores, top);
      if scores[idx] > Threshold {
        forall a | 0 <= a < |init| ensures scores[init[a]] > Threshold {
          assert scores[top[a]] >= scores[top[|top| - 1]];
        }
        assert |prev| == |init|;
        assert hits == prev + [MakeHit(kb, scores, idx, |top|)];
      } else {
        assert hits == prev;
      }
      forall j | 0 <= j < |hits|
        ensures hits[j] == MakeHit(kb, scores, top[j], j + 1) && scores[top[j]] > Threshold
      {
        if j < |prev| {
          assert hits[j] == prev[j];
        }
      }
    }
  }

  /** The loop over `enumerate(top)`: a hit for each index above the threshold. */
  method CollectHits(kb: Snapshot, scores: seq<real>, top: seq<nat>) returns (results: seq<SearchHit>)
    requires Aligned(kb) && |scores| == |kb.chunks|
    requires forall a :: 0 <= a < |top| ==> top[a] < |scores|
    ensures results == HitsOf(kb, scores, top)
  {
    results := [];
    for i := 0 to |top|
      invariant results == HitsOf(kb, scores, top[..i])
    {
      var idx := top[i];
      HitsOfStep(kb, scores, top, i);
      if scores[idx] > Threshold {
        results := results + [SearchHit(kb.chunks[idx], kb.metadata[idx], scores[idx], i + 1)];
      } else {
        AppendEmpty(results);
      }
    }
    assert top[..|top|] == top;
  }

  /** `search_knowledge_base` on a snapshot: nothing without embeddings or
      chunks, otherwise the hits of the `top_k` best indices. */
  function Search(kb: Snapshot, scores: seq<real>, order: seq<nat>, topK: int): seq<SearchHit>
    requires SearchInputsOk(kb, scores, order)
  {
    if kb.embeddings.None? || |kb.chunks| == 0 then []
    else HitsOf(kb, scores, TopIndices(order, topK))
  }

  /** The selected indices are valid and in non-increasing score order. */
  lemma {:induction false} TopIndicesDescending(scores: seq<real>, order: seq<nat>, topK: int)
    requires IsArgsort(order, scores)
    ensures Descending(TopIndices(order, topK), scores)
  {
    var top := TopIndices(order, topK);
    TopIndicesShape(order, topK);
    forall a, b | 0 <= a < b < |top| ensures scores[top[a]] >= scores[top[b]] {
      assert top[a] == order[|order| - 1 - a] && top[b] == order[|order| - 1 - b];
    }
  }

  /** What `search_knowledge_base` promises: at most `top_k` results for
      `top_k >= 1`; every score above 0.1; ranks exactly 1..n; the j-th result's
      content, metadata and score all come from the j-th selected index; scores
      non-increasing. */
  lemma {:induction false} SearchProperties(kb: Snapshot, scores: seq<real>, order: seq<nat>, topK: int)
    requires SearchInputsOk(kb, scores, order)
    ensures var r := Search(kb, scores, order, topK);
      && (kb.embeddings.None? || |kb.chunks| == 0 ==> r == [])
      && (topK >= 1 ==> |r| <= topK)
      && (forall j :: 0 <= j < |r| ==> r[j].score > Threshold && r[j].rank == j + 1)
      && (forall j :: 0 <= j < |r| ==>
            (j < |TopIndices(order, topK)| && TopIndices(order, topK)[j] < |kb.chunks|
             && r[j] == MakeHit(kb, scores, TopIndices(order, topK)[j], j + 1)))
      && (forall j1, j2 :: 0 <= j1 < j2 < |r| ==> r[j1].score >= r[j2].score)
  {
    if kb.embeddings.Some? && |kb.chunks| > 0 {
      var top := TopIndices(order, topK);
      TopIndicesDescending(scores, order, topK);
      TopIndicesCount(order, topK);
      HitsOfDescending(kb, scores, top);
    }
  }

  /** No index left out of the selection scores above a selected one. */
  lemma {:induction false} UnselectedScoresNoHigher(scores: seq<real>, order: seq<nat>, topK: int, a: nat, i: nat)
    requires IsArgsort(order, scores)
    requires a < |TopIndices(order, topK)|
    requires i < |scores| && i !in TopIndices(order, topK)
    ensures scores[i] <= scores[TopIndices(order, topK)[a]]
  {
    var top, start := TopIndices(order, topK), TopStart(|order|, topK);
    TopIndicesShape(order, topK);
    assert i in order;
    var q :| 0 <= q < |order| && order[q] == i;
    assert q < start;
    assert top[a] == order[|order| - 1 - a];
  }

  /** The results are among the `top_k` highest scores: no index left out of the
      selection scores above any returned result. */
  lemma {:induction false} SearchSelectsHighest(kb: Snapshot, scores: seq<real>, order: seq<nat>, topK: int, j: nat, i: nat)
    requires SearchInputsOk(kb, scores, order) && kb.embeddings.Some?
    requires j < |Search(kb, scores, order, topK)|
    requires i < |scores| && i !in TopIndices(order, topK)
    ensures scores[i] <= Search(kb, scores, order, topK)[j].score
  {
    SearchProperties(kb, scores, order, topK);
    var r := Search(kb, scores, order, topK);
    assert r[j].score == scores[TopIndices(order, topK)[j]];
    UnselectedScoresNoHigher(scores, order, topK, j, i);
  }

  const TroubleConnecting: string := "Sorry, I'm having trouble connecting to the AI service. Please try again later."
  const TechnicalDifficulties: string := "I'm having some technical difficulties right now. Please try asking your question again, or visit annisa.org for more information."
  const NoInformation: string := "I don't have specific information about that topic. For the most up-to-date details, I'd recommend visiting annisa.org directly or reaching out to them - they'll be happy to help!"

  /** The context block for one retrieved chunk. */
  function ContextEntry(hit: SearchHit): string {
    "Content: " + hit.content + "\n" + "Source: " + hit.metadata.url + "\n\n"
  }

  /** The context text for the retrieved chunks, in order. */
  function Context(hits: seq<SearchHit>): string {
    Ingest.Concat(hits, ContextEntry)
  }

  /** The context of two runs of chunks is the concatenation of their contexts. */
  lemma {:induction false} ContextAppend(a: seq<SearchHit>, b: seq<SearchHit>)
    ensures Context(a + b) == Context(a) + Context(b)
  {
    Ingest.ConcatAppend(a, b, ContextEntry);
  }

  /** The context is empty exactly when there are no chunks, and each chunk adds
      at least the 20 characters of its entry's labels and separators. */
  lemma {:induction false} ContextEmptyIff(hits: seq<SearchHit>)
    ensures Context(hits) == "" <==> hits == []
    ensures |Context(hits)| >= 20 * |hits|
    decreases |hits|
  {
    if hits != [] {
      ContextEmptyIff(hits[..|hits| - 1]);
    }
  }

  /** A single chunk's context is its entry. */
  lemma {:induction false} ContextSingle(hit: SearchHit)
    ensures Context([hit]) == "Content: " + hit.content + "\nSource: " + hit.metadata.url + "\n\n"
  {
    assert [hit][..0] == [];
    assert Context([hit]) == Context([]) + ContextEntry(hit);
  }

  /** The loaded chatbot: the snapshot's three lists and whether the completion
      client was set up. */
  class Chatbot {
    var chunks: seq<string>
    var embeddings: Option<seq<Embedding>>
    var metadata: seq<Ingest.Meta>
    var clientReady: bool

    ghost predicate Valid()
      reads this
    {
      Aligned(KnowledgeBase())
    }

    function KnowledgeBase(): Snapshot
      reads this
    {
      Snapshot(chunks, embeddings, metadata)
    }

    /** A chatbot over a loaded snapshot. */
    constructor (kb: Snapshot, clientReady: bool)
      requires Aligned(kb)
      ensures Valid() && KnowledgeBase() == kb && this.clientReady == clientReady
    {
      chunks, embeddings, metadata := kb.chunks, kb.embeddings, kb.metadata;
      this.clientReady := clientReady;
    }

    /** `search_knowledge_base`: the results are the model's `Search` of the
        snapshot, at most `top_k` of them, each above the threshold and ranked
        by position. */
    method SearchKnowledgeBase(similarity: Embedding -> real, order: seq<nat>, topK: int) returns (results: seq<SearchHit>)
      requires Valid()
      requires embeddings.Some? ==> IsArgsort(order, Scores(embeddings.value, similarity))
      ensures results == Search(KnowledgeBase(), if embeddings.Some? then Scores(embeddings.value, similarity) else [], order, topK)
      ensures embeddings.None? || |chunks| == 0 ==> results == []
      ensures topK >= 1 ==> |results| <= topK
      ensures forall j :: 0 <= j < |results| ==> results[j].score > Threshold && results[j].rank == j + 1
    {
      var kb := KnowledgeBase();
      ghost var scores := if embeddings.Some? then Scores(embeddings.value, similarity) else [];
      SearchProperties(kb, scores, order, topK);
      if embeddings.None? || |chunks| == 0 {
        return [];
      }
      var similarities := Scores(embeddings.value, similarity);
      var topIndices := TopIndices(order, topK);
      TopIndicesDescending(similarities, order, topK);
      results := CollectHits(kb, similarities, topIndices);
    }

    /** `generate_response`: without a client, the fixed apology; otherwise the
        context is built chunk by chunk and handed, with the query, to the
        completion service, whose failure gives the second apology and whose
        answer is returned stripped. */
    method GenerateResponse(query: string, contextChunks: seq<SearchHit>, complete: (string, string) -> Option<string>)
      returns (answer: string)
      ensures !clientReady ==> answer == TroubleConnecting
      ensures clientReady ==> answer == AnswerOf(complete(Context(contextChunks), query))
    {
      if !clientReady {
        return TroubleConnecting;
      }
      var contextText := "";
      for i := 0 to |contextChunks|
        invariant contextText == Context(contextChunks[..i])
      {
        assert contextChunks[..i + 1][..i] == contextChunks[..i];
        contextText := contextText + "Content: " + contextChunks[i].content + "\n";
        contextText := contextText + "Source: " + contextChunks[i].metadata.url + "\n\n";
      }
      assert contextChunks[..|contextChunks|] == contextChunks;
      answer := AnswerOf(complete(contextText, query));
    }
  }

  /** The completion's answer stripped, or the apology when the call failed. */
  function AnswerOf(completion: Option<string>): string {
    match completion
    case None => TechnicalDifficulties
    case Some(text) => Strip(text)
  }

  // ---------------------------------------------------------------------------
  // The request handlers

  /** A JSON response: an HTTP status and the fields of the body. */
  datatype Reply =
    | ErrorReply(error: string)
    | ChatReply(response: string, chunksUsed: Option<nat>)
    | SearchReply(query: string, results: seq<SearchHit>)
    | HealthReply(status: string, service: string, knowledgeBaseLoaded: bool, chunksCount: nat)

  datatype Response = Response(status: nat, reply: Reply)

  /** What `request.get_json()` yields: a parse failure (which raises), JSON
      `null`, or an object whose values are strings. */
  datatype Body = Malformed | Null | Object(fields: map<string, string>)

  const InternalError: string := "Internal server error"

  /** `GET /`: always healthy; the knowledge base counts as loaded exactly when
      it holds at least one chunk. */
  function HealthCheck(kb: Snapshot): (r: Response)
    ensures r.status == 200 && r.reply.HealthReply?
    ensures r.reply.status == "healthy" && r.reply.service == "AnNisa Chatbot API"
    ensures r.reply.knowledgeBaseLoaded <==> r.reply.chunksCount > 0
    ensures r.reply.chunksCount == |kb.chunks|
  {
    Response(200, HealthReply("healthy", "AnNisa Chatbot API", |kb.chunks| > 0, |kb.chunks|))
  }

  /** Whether a `/chat` body carries a message: it is a non-empty object with a
      `message` field. */
  predicate HasMessage(body: Body) {
    body.Object? && "message" in body.fields
  }

  /** `POST /chat`, given the knowledge-base search and the response generator.
      A body that fails to parse raises inside the handler and becomes a 500;
      no message, or one that is blank once stripped, is a 400; otherwise the
      stripped message is searched with `top_k=3`: no hits give the fixed
      no-information reply without `chunks_used`, and hits give the generated
      answer and their count. */
  function Chat(body: Body, search: (string, int) -> seq<SearchHit>, generate: (string, seq<SearchHit>) -> string): (r: Response)
    ensures r.status == 500 <==> body.Malformed?
    ensures r.status == 500 ==> r.reply == ErrorReply(InternalError)
    ensures r.status == 400 <==> !body.Malformed? && (!HasMessage(body) || Strip(body.fields["message"]) == "")
    ensures r.status == 400 ==> r.reply == ErrorReply(if HasMessage(body) then "Empty message" else "No message provided")
    ensures r.status == 200 <==> HasMessage(body) && Strip(body.fields["message"]) != ""
    ensures r.status == 200 ==>
      var msg := Strip(body.fields["message"]);
      var hits := search(msg, 3);
      r.reply.ChatReply?
      && (r.reply.chunksUsed.None? <==> hits == [])
      && (hits == [] ==> r.reply.response == NoInformation)
      && (hits != [] ==> r.reply == ChatReply(generate(msg, hits), Some(|hits|)))
  {
    match body
    case Malformed => Response(500, ErrorReply(InternalError))
    case Null => Response(400, ErrorReply("No message provided"))
    case Object(fields) =>
      if "message" !in fields then Response(400, ErrorReply("No message provided"))
      else
        var msg := Strip(fields["message"]);
        if msg == "" then Response(400, ErrorReply("Empty message"))
        else
          var hits := search(msg, 3);
          if hits == [] then Response(200, ChatReply(NoInformation, None))
          else Response(200, ChatReply(generate(msg, hits), Some(|hits|)))
  }

  /** `POST /search`: `data.get('query', '')` on a `null` body raises, as does a
      body that fails to parse, giving a 500; an absent or empty query is a 400
      (the query is not stripped); otherwise the query and its `top_k=5`
      results. */
  function SearchEndpoint(body: Body, search: (string, int) -> seq<SearchHit>): (r: Response)
    ensures r.status == 500 <==> !body.Object?
    ensures r.status == 500 ==> r.reply == ErrorReply(InternalError)
    ensures r.status == 400 <==> body.Object? && ("query" !in body.fields || body.fields["query"] == "")
    ensures r.status == 400 ==> r.reply == ErrorReply("No query provided")
    ensures r.status == 200 ==>
      (body.Object? && "query" in body.fields && r.reply == SearchReply(body.fields["query"], search(body.fields["query"], 5)))
  {
    if !body.Object? then Response(500, ErrorReply(InternalError))
    else
      var query := if "query" in body.fields then body.fields["query"] else "";
      if query == "" then Response(400, ErrorReply("No query provided"))
      else Response(200, SearchReply(query, search(query, 5)))
  }

  /** The chatbot's search over a snapshot, with the query's scores and their
      argsort given per query. */
  function Retriever(kb: Snapshot, scoresFor: string -> seq<real>, orderFor: string -> seq<nat>): (string, int) -> seq<SearchHit> {
    (q: string, k: int) => if SearchInputsOk(kb, scoresFor(q), orderFor(q)) then Search(kb, scoresFor(q), orderFor(q), k) else []
  }

  /** Composed with the knowledge-base search, `/chat` reports between one and
      three chunks used, and a snapshot without embeddings or chunks always
      yields the no-information reply. */
  lemma {:induction false} ChatChunksUsed(body: Body, kb: Snapshot, scoresFor: string -> seq<real>, orderFor: string -> seq<nat>,
                       generate: (string, seq<SearchHit>) -> string)
    requires forall q :: SearchInputsOk(kb, scoresFor(q), orderFor(q))
    ensures var r := Chat(body, Retriever(kb, scoresFor, orderFor), generate);
      && (r.status == 200 && r.reply.chunksUsed.Some? ==> 1 <= r.reply.chunksUsed.value <= 3)
      && (r.status == 200 && (kb.embeddings.None? || |kb.chunks| == 0) ==> r.reply == ChatReply(NoInformation, None))
  {
    if HasMessage(body) {
      var msg := Strip(body.fields["message"]);
      SearchProperties(kb, scoresFor(msg), orderFor(msg), 3);
    }
  }

  /** Composed with the knowledge-base search, `/search` returns at most five
      results, each scoring above the threshold, best first. */
  lemma {:induction false} SearchEndpointResults(body: Body, kb: Snapshot, scoresFor: string -> seq<real>, orderFor: string -> seq<nat>)
    requires forall q :: SearchInputsOk(kb, scoresFor(q), orderFor(q))
    ensures var r := SearchEndpoint(body, Retriever(kb, scoresFor, orderFor));
      r.status == 200 ==>
        && |r.reply.results| <= 5
        && (forall j :: 0 <= j < |r.reply.results| ==> r.reply.results[j].score > Threshold)
        && (forall j1, j2 :: 0 <= j1 < j2 < |r.reply.results| ==> r.reply.results[j1].score >= r.reply.results[j2].score)
  {
    if body.Object? && "query" in body.fields {
      var q := body.fields["query"];
      SearchProperties(kb, scoresFor(q), orderFor(q), 5);
    }
  }
}
