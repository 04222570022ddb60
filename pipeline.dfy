/** The bookkeeping of the retrieval-augmented pipeline: positional string
    ids and `{'text': chunk}` records on ingestion, and the assembly of the
    `question` / `context` / `answer` record on a query.  The embedder, the
    nearest-neighbour index, the vector store and the text generator are
    collaborators: the store is a map from id to metadata, the search and the
    generator are functions handed to the model, and any exception they
    raise is the `Raised` outcome. */
module Pipeline {
  import opened Helpers

  datatype Option<T> = None | Some(value: T)

  /** What a call into a collaborator gives back: a value, or an exception. */
  datatype Outcome<T> = Ok(value: T) | Raised

  /** A metadata record: a dictionary from string keys to string values. */
  type Metadata = map<string, string>

  /** The vector store's collection: a metadata record per id. */
  type Collection = map<string, Metadata>

  /** The nearest-neighbour index after `build_index`: it holds items
      `0 .. items - 1`, item `i` for the `i`-th embedding. */
  datatype Retriever = Retriever(items: nat)

  /** The dictionary `run` returns. */
  datatype QueryResult = QueryResult(question: string, context: string, answer: string)

  const NoInformationAnswer: string := "I'm sorry, I don't have information on that topic."
  const ApologyAnswer: string := "I'm sorry, something went wrong while processing your request."

  /** The token budget `run` hands to the generator. */
  const MaxNewTokens: nat := 150

  // ---------------------------------------------------------------------
  // Ids: Python's `str` on a non-negative integer, and its inverse.

  function DigitChar(d: nat): (c: char)
    requires d < 10
    ensures '0' <= c <= '9'
  {
    ('0' as int + d) as char
  }

  predicate AllDigits(s: string) {
    forall i :: 0 <= i < |s| ==> '0' <= s[i] <= '9'
  }

  /** `str(n)`: the decimal digits of `n`, with no leading zero except in "0". */
  function NatToString(n: nat): (s: string)
    ensures s != [] && AllDigits(s)
    ensures s[0] == '0' <==> n == 0
    decreases n
  {
    if n < 10 then [DigitChar(n)] else NatToString(n / 10) + [DigitChar(n % 10)]
  }

  /** `int(s)` on a string of decimal digits. */
  function StringToNat(s: string): nat
    requires AllDigits(s)
  {
    if s == [] then 0 else StringToNat(s[..|s| - 1]) * 10 + (s[|s| - 1] as int - '0' as int)
  }

  /** Reading an id back gives the number it was made from. */
  lemma {:induction false} StringToNatOfNatToString(n: nat)
    ensures StringToNat(NatToString(n)) == n
    decreases n
  {
    if n >= 10 {
      var s := NatToString(n);
      StringToNatOfNatToString(n / 10);
      assert s[..|s| - 1] == NatToString(n / 10);
    }
  }

  /** Different numbers get different ids. */
  lemma NatToStringInjective(m: nat, n: nat)
    ensures NatToString(m) == NatToString(n) <==> m == n
  {
    if NatToString(m) == NatToString(n) {
      StringToNatOfNatToString(m);
      StringToNatOfNatToString(n);
    }
  }

  /** No id occurs twice. */
  predicate Distinct(ids: seq<string>) {
    forall i, j :: 0 <= i < j < |ids| ==> ids[i] != ids[j]
  }

  /** `[str(i) for i in range(n)]`: the positional ids of `n` chunks. */
  function DocIds(n: nat): (ids: seq<string>)
    ensures |ids| == n
    ensures forall i :: 0 <= i < n ==> ids[i] == NatToString(i)
    ensures Distinct(ids)
  {
    var ids := seq(n, (i: nat) => NatToString(i));
    forall i, j | 0 <= i < j < n ensures ids[i] != ids[j] {
      NatToStringInjective(i, j);
    }
    ids
  }

  /** `[str(id) for id in retrieved_ids]`. */
  function IdStrings(hits: seq<nat>): (ids: seq<string>)
    ensures |ids| == |hits|
    ensures forall i :: 0 <= i < |hits| ==> ids[i] == NatToString(hits[i])
  {
    seq(|hits|, i requires 0 <= i < |hits| => NatToString(hits[i]))
  }

  // ---------------------------------------------------------------------
  // Records.

  /** `metadata.get('text', '')`. */
  function TextOf(m: Metadata): string {
    if "text" in m then m["text"] else ""
  }

  /** `[{'text': chunk} for chunk in chunks]`: one record per chunk, in order,
      holding exactly that chunk under the key "text". */
  function Metadatas(chunks: seq<string>): (metas: seq<Metadata>)
    ensures |metas| == |chunks|
    ensures forall i :: 0 <= i < |chunks| ==> metas[i].Keys == {"text"} && TextOf(metas[i]) == chunks[i]
  {
    seq(|chunks|, i requires 0 <= i < |chunks| => map["text" := chunks[i]])
  }

  /** `collection.add(ids=..., metadatas=...)` as an in-order map update: the
      collection gains the given ids and keeps every other record. */
  function AddRecords(collection: Collection, ids: seq<string>, metas: seq<Metadata>): (r: Collection)
    requires |ids| == |metas|
    ensures r.Keys == collection.Keys + set id | id in ids
    ensures forall k :: k in collection && k !in ids ==> r[k] == collection[k]
    decreases |ids|
  {
    if ids == [] then collection
    else AddRecords(collection[ids[0] := metas[0]], ids[1..], metas[1..])
  }

  /** With distinct ids, each id holds its own record afterwards. */
  lemma {:induction false} AddRecordsLookup(collection: Collection, ids: seq<string>, metas: seq<Metadata>)
    requires |ids| == |metas|
    requires Distinct(ids)
    ensures forall i :: 0 <= i < |ids| ==> AddRecords(collection, ids, metas)[ids[i]] == metas[i]
    decreases |ids|
  {
    if ids != [] {
      var c := collection[ids[0] := metas[0]];
      var tail := ids[1..];
      assert forall i, j :: 0 <= i < j < |tail| ==> tail[i] == ids[i + 1] && tail[j] == ids[j + 1];
      AddRecordsLookup(c, tail, metas[1..]);
      assert ids[0] !in tail by {
        forall j | 0 <= j < |tail| ensures tail[j] != ids[0] {
          assert tail[j] == ids[j + 1];
        }
      }
      forall i | 0 <= i < |ids| ensures AddRecords(collection, ids, metas)[ids[i]] == metas[i] {
        if i > 0 {
          assert ids[i] == tail[i - 1];
        }
      }
    }
  }

  /** The collection an ingest of `chunks` leaves behind in an empty store. */
  function Ingested(chunks: seq<string>): Collection {
    AddRecords(map[], DocIds(|chunks|), Metadatas(chunks))
  }

  // ---------------------------------------------------------------------
  // Lookup of the retrieved ids.

  /** The text one id contributes: its record's text, or nothing. */
  function TextsOfOne(collection: Collection, id: string): seq<string> {
    if id in collection then [TextOf(collection[id])] else []
  }

  /** The texts the loop of `run` collects: for each id in order, the text of
      its record, skipping ids the collection has no record for.  At most one
      text per id. */
  function LookupTexts(collection: Collection, ids: seq<string>): (docs: seq<string>)
    ensures |docs| <= |ids|
  {
    if ids == [] then []
    else
      var last := ids[|ids| - 1];
      LookupTexts(collection, ids[..|ids| - 1]) + TextsOfOne(collection, last)
  }

  /** One step of the loop in `run`: the step its invariant is kept by. */
  lemma LookupTextsSnoc(collection: Collection, ids: seq<string>, id: string)
    ensures LookupTexts(collection, ids + [id]) == LookupTexts(collection, ids) + TextsOfOne(collection, id)
  {
    assert (ids + [id])[..|ids|] == ids;
  }

  /** Order is kept: the texts for `a + b` are those for `a`, then those for `b`. */
  lemma {:induction false} LookupTextsAppend(collection: Collection, a: seq<string>, b: seq<string>)
    ensures LookupTexts(collection, a + b) == LookupTexts(collection, a) + LookupTexts(collection, b)
    decreases |b|
  {
    if b == [] {
      assert a + b == a;
    } else {
      var b', id := b[..|b| - 1], b[|b| - 1];
      calc {
        LookupTexts(collection, a + b);
        { assert a + b == (a + b') + [id]; }
        LookupTexts(collection, (a + b') + [id]);
        { LookupTextsSnoc(collection, a + b', id); }
        LookupTexts(collection, a + b') + TextsOfOne(collection, id);
        { LookupTextsAppend(collection, a, b'); }
        (LookupTexts(collection, a) + LookupTexts(collection, b')) + TextsOfOne(collection, id);
        LookupTexts(collection, a) + (LookupTexts(collection, b') + TextsOfOne(collection, id));
        { LookupTextsSnoc(collection, b', id); assert b' + [id] == b; }
        LookupTexts(collection, a) + LookupTexts(collection, b);
      }
    }
  }

  /** An id without a record is skipped, and nothing else changes. */
  lemma LookupTextsSkipsMissing(collection: Collection, a: seq<string>, id: string, b: seq<string>)
    requires id !in collection
    ensures LookupTexts(collection, a + [id] + b) == LookupTexts(collection, a + b)
  {
    calc {
      LookupTexts(collection, a + [id] + b);
      { LookupTextsAppend(collection, a + [id], b); }
      LookupTexts(collection, a + [id]) + LookupTexts(collection, b);
      { LookupTextsSnoc(collection, a, id); assert LookupTexts(collection, a) + [] == LookupTexts(collection, a); }
      LookupTexts(collection, a) + LookupTexts(collection, b);
      { LookupTextsAppend(collection, a, b); }
      LookupTexts(collection, a + b);
    }
  }

  /** A record without a "text" key contributes the empty string. */
  lemma LookupTextsUntitled(collection: Collection, id: string)
    requires id in collection && "text" !in collection[id]
    ensures LookupTexts(collection, [id]) == [""]
  {
    assert [id][..0] == [];
  }

  /** When every id has a record, there is one text per id, in order. */
  lemma {:induction false} LookupTextsAllPresent(collection: Collection, ids: seq<string>)
    requires forall i :: 0 <= i < |ids| ==> ids[i] in collection
    ensures |LookupTexts(collection, ids)| == |ids|
    ensures forall i :: 0 <= i < |ids| ==> LookupTexts(collection, ids)[i] == TextOf(collection[ids[i]])
    decreases |ids|
  {
    if ids != [] {
      var init := ids[..|ids| - 1];
      assert forall i :: 0 <= i < |init| ==> init[i] == ids[i];
      LookupTextsAllPresent(collection, init);
    }
  }

  /** Ids agree between index and store: after ingesting `chunks` into an
      empty store, every retrieved item below `|chunks|` resolves, through its
      string id, to exactly its own chunk, and nothing is skipped. */
  lemma FreshIngestResolves(chunks: seq<string>, hits: seq<nat>)
    requires forall i :: 0 <= i < |hits| ==> hits[i] < |chunks|
    ensures |LookupTexts(Ingested(chunks), IdStrings(hits))| == |hits|
    ensures forall i :: 0 <= i < |hits| ==> LookupTexts(Ingested(chunks), IdStrings(hits))[i] == chunks[hits[i]]
  {
    var store := Ingested(chunks);
    var docIds := DocIds(|chunks|);
    var ids := IdStrings(hits);
    AddRecordsLookup(map[], docIds, Metadatas(chunks));
    forall i | 0 <= i < |hits| ensures ids[i] in store && store[ids[i]] == Metadatas(chunks)[hits[i]] {
      assert ids[i] == docIds[hits[i]];
    }
    LookupTextsAllPresent(store, ids);
  }

  // ---------------------------------------------------------------------
  // Collaborators.

  /** The search a retriever actually performs: Annoy only ever returns items
      it was given, so every id is below the number of items. */
  ghost predicate HonestSearch(nearest: (Retriever, string, int) -> Outcome<seq<nat>>) {
    forall index: Retriever, q: string, k: int ::
      nearest(index, q, k).Ok? ==>
        forall j :: 0 <= j < |nearest(index, q, k).value| ==> nearest(index, q, k).value[j] < index.items
  }

  /** The retrieval the pipeline performs after ingesting `chunks` resolves,
      for any query, to exactly the chunks the index returned. */
  lemma IngestedSearchResolves(chunks: seq<string>, nearest: (Retriever, string, int) -> Outcome<seq<nat>>,
                               query: string, topK: int)
    requires HonestSearch(nearest)
    requires nearest(Retriever(|chunks|), PreprocessText(query), topK).Ok?
    ensures var hits := nearest(Retriever(|chunks|), PreprocessText(query), topK).value;
      var docs := LookupTexts(Ingested(chunks), IdStrings(hits));
      |docs| == |hits| && forall i :: 0 <= i < |hits| ==> docs[i] == chunks[hits[i]]
  {
    var hits := nearest(Retriever(|chunks|), PreprocessText(query), topK).value;
    FreshIngestResolves(chunks, hits);
  }

  /** The prompt handed to the generator, built from the original query. */
  function Prompt(query: string, context: string): string {
    "Question: " + query + "\nContext: " + context + "\nAnswer:"
  }

  /** The record every failure ends in. */
  function Apology(query: string): QueryResult {
    QueryResult(query, "", ApologyAnswer)
  }

  // ---------------------------------------------------------------------
  // The pipeline object.

  class RAGPipeline {
    /** The text generator: prompt and token budget to generated text. */
    const generate: (string, nat) -> Outcome<string>
    /** The store's collection. */
    var collection: Collection
    /** The retriever; `None` until a document has been ingested, unless one
        was handed to the constructor. */
    var retriever: Option<Retriever>

    constructor (generate: (string, nat) -> Outcome<string>, collection: Collection, retriever: Option<Retriever>)
      ensures this.generate == generate && this.collection == collection && this.retriever == retriever
    {
      this.generate := generate;
      this.collection := collection;
      this.retriever := retriever;
    }

    /** What the retriever gives back for the preprocessed query: an
        exception when there is no retriever yet. */
    function Search(query: string, topK: int, nearest: (Retriever, string, int) -> Outcome<seq<nat>>): Outcome<seq<nat>>
      reads this
    {
      match retriever
      case None => Raised
      case Some(index) => nearest(index, PreprocessText(query), topK)
    }

    /** `process_and_store_document` on the paragraph texts of a document:
        chunk the text, store one record per chunk under ids "0" .. "n-1",
        and replace the retriever by one over the `n` chunks.  A document
        with no chunk raises and leaves the pipeline as it was. */
    method ProcessAndStoreDocument(paragraphs: seq<string>) returns (docIds: Outcome<seq<string>>)
      modifies this
      ensures var chunks := ChunkText(ReadDocx(paragraphs));
        if chunks == [] then
          docIds == Raised && collection == old(collection) && retriever == old(retriever)
        else
          docIds == Ok(DocIds(|chunks|))
          && collection == AddRecords(old(collection), DocIds(|chunks|), Metadatas(chunks))
          && retriever == Some(Retriever(|chunks|))
    {
      var documentText := ReadDocx(paragraphs);
      var chunks := ChunkText(documentText);
      if chunks == [] {
        // There are no embeddings to take the dimension of.
        return Raised;
      }
      var ids := DocIds(|chunks|);
      var metadatas := Metadatas(chunks);
      collection := AddRecords(collection, ids, metadatas);
      retriever := Some(Retriever(|chunks|));
      return Ok(ids);
    }

    /** The loop of `run` over the retrieved ids: look each one up and keep
        the text of its record, skipping ids the collection has no record
        for. */
    method RelevantDocs(ids: seq<string>) returns (relevantDocs: seq<string>)
      ensures relevantDocs == LookupTexts(collection, ids)
    {
      relevantDocs := [];
      var k := 0;
      while k < |ids|
        invariant 0 <= k <= |ids|
        invariant relevantDocs == LookupTexts(collection, ids[..k])
      {
        var id := ids[k];
        assert ids[..k + 1] == ids[..k] + [id];
        LookupTextsSnoc(collection, ids[..k], id);
        if id in collection {
          relevantDocs := relevantDocs + [TextOf(collection[id])];
        }
        k := k + 1;
      }
      assert ids[..k] == ids;
    }

    /** `run`: retrieve, look the hits up, and assemble the result.  The
        question is always the original query; a failure anywhere gives the
        apology record; no hits give the no-information record; otherwise
        the context is the looked-up texts joined by spaces, and the answer
        is either those texts joined by blank lines or what the generator
        makes of the prompt. */
    method Run(query: string, topK: int, generateResponse: bool,
               nearest: (Retriever, string, int) -> Outcome<seq<nat>>) returns (r: QueryResult)
      ensures r.question == query
      ensures Search(query, topK, nearest).Raised? ==> r == Apology(query)
      ensures Search(query, topK, nearest) == Ok([]) ==> r == QueryResult(query, "", NoInformationAnswer)
      ensures Search(query, topK, nearest).Ok? && Search(query, topK, nearest).value != [] ==>
        var docs := LookupTexts(collection, IdStrings(Search(query, topK, nearest).value));
        var context := Join(docs, " ");
        if !generateResponse then
          r == QueryResult(query, context, Join(docs, "\n\n"))
        else
          match generate(Prompt(query, context), MaxNewTokens)
          case Raised => r == Apology(query)
          case Ok(answer) => r == QueryResult(query, context, answer)
    {
      var retrieved := Search(query, topK, nearest);
      if retrieved.Raised? {
        return Apology(query);
      }
      var hits := retrieved.value;
      if hits == [] {
        return QueryResult(query, "", NoInformationAnswer);
      }
      var relevantDocs := RelevantDocs(IdStrings(hits));
      var context := Join(relevantDocs, " ");
      if generateResponse {
        var answer := generate(Prompt(query, context), MaxNewTokens);
        if answer.Raised? {
          return Apology(query);
        }
        return QueryResult(query, context, answer.value);
      }
      return QueryResult(query, context, Join(relevantDocs, "\n\n"));
    }
  }

  /** The chunks at the given positions, in the given order. */
  function Picked(chunks: seq<string>, hits: seq<nat>): (r: seq<string>)
    requires forall i :: 0 <= i < |hits| ==> hits[i] < |chunks|
    ensures |r| == |hits|
    ensures forall i :: 0 <= i < |hits| ==> r[i] == chunks[hits[i]]
  {
    seq(|hits|, i requires 0 <= i < |hits| => chunks[hits[i]])
  }

  /** After an ingest into an empty store, looking up in-range items gives
      exactly the chunks at those positions. */
  lemma PickedIsLookup(chunks: seq<string>, hits: seq<nat>)
    requires forall i :: 0 <= i < |hits| ==> hits[i] < |chunks|
    ensures LookupTexts(Ingested(chunks), IdStrings(hits)) == Picked(chunks, hits)
  {
    FreshIngestResolves(chunks, hits);
  }

  /** A new pipeline over an empty store ingests one document and is asked one
      question without generation.  A document without chunks makes the
      ingest raise, and the exception reaches the caller.  Otherwise the
      answer comes from exactly the chunks the search picked, in the order it
      picked them. */
  method AskAfterIngest(generate: (string, nat) -> Outcome<string>, paragraphs: seq<string>,
                        query: string, topK: int, nearest: (Retriever, string, int) -> Outcome<seq<nat>>)
    returns (r: Outcome<QueryResult>)
    requires HonestSearch(nearest)
    ensures var chunks := ChunkText(ReadDocx(paragraphs));
      var found := nearest(Retriever(|chunks|), PreprocessText(query), topK);
      if chunks == [] then r == Raised
      else if found.Raised? then r == Ok(Apology(query))
      else if found.value == [] then r == Ok(QueryResult(query, "", NoInformationAnswer))
      else
        var picked := Picked(chunks, found.value);
        r == Ok(QueryResult(query, Join(picked, " "), Join(picked, "\n\n")))
  {
    var pipeline := new RAGPipeline(generate, map[], None);
    var docIds := pipeline.ProcessAndStoreDocument(paragraphs);
    if docIds.Raised? {
      return Raised;
    }
    var chunks := ChunkText(ReadDocx(paragraphs));
    ghost var found := nearest(Retriever(|chunks|), PreprocessText(query), topK);
    assert pipeline.collection == Ingested(chunks) && pipeline.Search(query, topK, nearest) == found;
    if found.Ok? && found.value != [] {
      IngestedSearchResolves(chunks, nearest, query, topK);
      PickedIsLookup(chunks, found.value);
    }
    var result := pipeline.Run(query, topK, false, nearest);
    return Ok(result);
  }
}
