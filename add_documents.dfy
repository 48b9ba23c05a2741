/** Embedding documents and storing them in a vector-store collection (app/tools/rag/add_documents.py). */
module AddDocuments {
  import opened Errors
  import opened PyText
  import opened RagSearch

  /** A point handed to the store: a fresh id, the vector and the document as payload text. */
  datatype Point = Point(id: string, vector: Vector, text: string)

  /** The dictionary the tool returns: `{"result": …}` or `{"error": …}`. */
  datatype ToolReply = Added(result: string) | Failed(error: string)

  /** The reply and the points that were handed to the store, if it was called. */
  datatype AddOutcome = AddOutcome(reply: ToolReply, upserted: Option<seq<Point>>)

  const NoDocumentsToAdd := "No documents to add."

  /** The points comprehension: documents and vectors paired by position, as `zip` does; `newId(i)` is the
      i-th `uuid4()` drawn. */
  function MakePoints(documents: seq<string>, vectors: seq<Vector>, newId: nat -> string): seq<Point>
  {
    var n := Min(|documents|, |vectors|);
    seq(n, i requires 0 <= i < n => Point(newId(i), vectors[i], documents[i]))
  }

  /** `add_documents_tool`: no call for an empty list; otherwise embed, build the points and upsert them.
      Every exception is returned as its text and none is raised. */
  function AddDocumentsTool(collection: string, documents: seq<string>,
                            embed: seq<string> -> Result<seq<Vector>>,
                            upsert: (string, seq<Point>) -> Option<Exc>,
                            newId: nat -> string): AddOutcome
  {
    if documents == [] then AddOutcome(Failed(NoDocumentsToAdd), None)
    else
      var vectors := embed(documents);
      if vectors.Err? then AddOutcome(Failed(ExcText(vectors.exc)), None)
      else
        var points := MakePoints(documents, vectors.value, newId);
        var failure := upsert(collection, points);
        if failure.Some? then AddOutcome(Failed(ExcText(failure.value)), Some(points))
        else AddOutcome(Added(NatToString(|points|) + " documents added to '" + collection + "'."), Some(points))
  }

  // ---------------------------------------------------------------- lemmas

  /** An empty list is refused before the embedding model or the store is called. */
  lemma EmptyRefused(collection: string, embed: seq<string> -> Result<seq<Vector>>,
                     embed2: seq<string> -> Result<seq<Vector>>, upsert: (string, seq<Point>) -> Option<Exc>,
                     newId: nat -> string)
    ensures AddDocumentsTool(collection, [], embed, upsert, newId) == AddOutcome(Failed("No documents to add."), None)
    ensures AddDocumentsTool(collection, [], embed, upsert, newId) == AddDocumentsTool(collection, [], embed2, upsert, newId)
  {
  }

  /** There are as many points as the shorter of the two lists; each carries its document, its vector and the
      id drawn for its position, so ids are distinct whenever the generator never repeats. */
  lemma PointsSpec(documents: seq<string>, vectors: seq<Vector>, newId: nat -> string)
    ensures var ps := MakePoints(documents, vectors, newId);
            && |ps| == Min(|documents|, |vectors|)
            && (forall i :: 0 <= i < |ps| ==> ps[i] == Point(newId(i), vectors[i], documents[i]))
            && ((forall a: nat, b: nat :: a != b ==> newId(a) != newId(b)) ==>
                  forall i, j :: 0 <= i < j < |ps| ==> ps[i].id != ps[j].id)
  {
  }

  /** A successful upsert reports the number of points and the collection; every failure becomes an error reply. */
  lemma AddOutcomeSpec(collection: string, documents: seq<string>, embed: seq<string> -> Result<seq<Vector>>,
                       upsert: (string, seq<Point>) -> Option<Exc>, newId: nat -> string)
    requires documents != []
    ensures var o := AddDocumentsTool(collection, documents, embed, upsert, newId);
            && (embed(documents).Err? ==> o == AddOutcome(Failed(ExcText(embed(documents).exc)), None))
            && (embed(documents).Ok? ==>
                  var ps := MakePoints(documents, embed(documents).value, newId);
                  && o.upserted == Some(ps)
                  && (upsert(collection, ps).Some? ==> o.reply == Failed(ExcText(upsert(collection, ps).value)))
                  && (upsert(collection, ps).None? ==>
                        o.reply == Added(NatToString(|ps|) + " documents added to '" + collection + "'.")))
  {
  }
}
