/** Retrieving documents from the vector store for a query (app/tools/rag/search.py). */
module RagSearch {
  import opened Errors
  import opened PyText

  /** An embedding vector; its components are not inspected. */
  type Vector = seq<real>

  /** A search hit, given by its payload's "text" entry. */
  datatype Hit = Hit(text: Option<string>)

  const DefaultTopK := 5
  const NoDocuments := "No se encontraron documentos relevantes para esta consulta en la colección especificada."
  const NoDocumentsDeprecated := "No relevant documents found for the query."

  /** The hits' texts that are truthy, in the order the store returned them. */
  function Contributing(hits: seq<Hit>): seq<string>
  {
    if hits == [] then []
    else
      var last := hits[|hits| - 1];
      Contributing(hits[..|hits| - 1]) + (if last.text.Some? && last.text.value != "" then [last.text.value] else [])
  }

  /** The texts separated by blank lines, or the sentinel when there is none. */
  function FormatHits(hits: seq<Hit>, sentinel: string): string
  {
    var docs := Contributing(hits);
    if docs == [] then sentinel else JoinWith("\n\n", docs)
  }

  /** `rag_qdrant_search`: embed the query, ask the store for `topK` hits, format them. Failures of the
      embedding model or the store are not caught. */
  function RagQdrantSearch(query: string, collection: string, topK: int := DefaultTopK,
                           embed: string -> Result<Vector>,
                           search: (string, Vector, int) -> Result<seq<Hit>>): Result<string>
  {
    var vector := embed(query);
    if vector.Err? then Err(vector.exc)
    else
      var results := search(collection, vector.value, topK);
      if results.Err? then Err(results.exc) else Ok(FormatHits(results.value, NoDocuments))
  }

  /** `rag_qdrant_search_deprecated`: the same search with an English sentinel. */
  function RagQdrantSearchDeprecated(query: string, collection: string, topK: int,
                                     embed: string -> Result<Vector>,
                                     search: (string, Vector, int) -> Result<seq<Hit>>): Result<string>
  {
    var vector := embed(query);
    if vector.Err? then Err(vector.exc)
    else
      var results := search(collection, vector.value, topK);
      if results.Err? then Err(results.exc) else Ok(FormatHits(results.value, NoDocumentsDeprecated))
  }

  // ---------------------------------------------------------------- lemmas

  /** Filtering distributes over concatenation, so the backend order is kept. */
  lemma {:induction false} ContributingAppend(a: seq<Hit>, b: seq<Hit>)
    ensures Contributing(a + b) == Contributing(a) + Contributing(b)
    decreases |b|
  {
    if b == [] {
      assert a + b == a;
    } else {
      var front := b[..|b| - 1];
      assert (a + b)[..|a + b| - 1] == a + front;
      ContributingAppend(a, front);
    }
  }

  /** Exactly the non-empty texts contribute. */
  lemma {:induction false} ContributingExact(hits: seq<Hit>)
    ensures forall d :: d in Contributing(hits) <==> d != "" && Hit(Some(d)) in hits
  {
    if hits != [] {
      var front := hits[..|hits| - 1];
      ContributingExact(front);
      SplitLast(hits);
    }
  }

  /** A search that finds no text returns the sentinel; otherwise the texts joined by blank lines. */
  lemma FormatSpec(hits: seq<Hit>, sentinel: string)
    ensures (forall h :: h in hits ==> h.text.None? || h.text.value == "") ==> FormatHits(hits, sentinel) == sentinel
    ensures Contributing(hits) != [] ==> FormatHits(hits, sentinel) == JoinWith("\n\n", Contributing(hits))
  {
    NothingContributes(hits);
  }

  lemma {:induction false} NothingContributes(hits: seq<Hit>)
    ensures (forall h :: h in hits ==> h.text.None? || h.text.value == "") ==> Contributing(hits) == []
  {
    if hits != [] {
      var front := hits[..|hits| - 1];
      NothingContributes(front);
      assert forall h :: h in front ==> h in hits;
    }
  }

  /** Errors of the embedding model and of the store come out unchanged; the store is asked for `topK` hits. */
  lemma SearchPropagates(query: string, collection: string, topK: int,
                         embed: string -> Result<Vector>, search: (string, Vector, int) -> Result<seq<Hit>>)
    ensures embed(query).Err? ==> RagQdrantSearch(query, collection, topK, embed, search) == Err(embed(query).exc)
    ensures embed(query).Ok? && search(collection, embed(query).value, topK).Err? ==>
            RagQdrantSearch(query, collection, topK, embed, search) == Err(search(collection, embed(query).value, topK).exc)
    ensures embed(query).Ok? && search(collection, embed(query).value, topK).Ok? ==>
            RagQdrantSearch(query, collection, topK, embed, search) ==
            Ok(FormatHits(search(collection, embed(query).value, topK).value, NoDocuments))
  {
  }

  /** The two variants differ only in the sentinel. */
  lemma VariantsAgree(query: string, collection: string, topK: int,
                      embed: string -> Result<Vector>, search: (string, Vector, int) -> Result<seq<Hit>>)
    ensures var a := RagQdrantSearch(query, collection, topK, embed, search);
            var b := RagQdrantSearchDeprecated(query, collection, topK, embed, search);
            && (a.Err? ==> a == b)
            && (a.Ok? ==> b.Ok?)
            && (a.Ok? ==>
                  var hits := search(collection, embed(query).value, topK).value;
                  if Contributing(hits) == [] then a.value == NoDocuments && b.value == NoDocumentsDeprecated
                  else a == b)
  {
  }
}
