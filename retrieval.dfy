/**
 * Query answering (`query_notes`, and `query_folder` which does the same): check
 * the subject's collection, retrieve the four nearest chunks, and ask the
 * language model with a fixed prompt built from them. Every failure becomes a
 * response carrying an error rather than an exception.
 */
module Retrieval {
  import opened Options
  import opened Text
  import opened VectorIndex
  import opened Collaborators

  /** `n_results` of the similarity query. */
  const TopK: nat := 4

  const Separator := "\n\n"

  const Instruction :=
    "Based on the following context, answer the question. If the answer cannot be found in the context, say so."

  /** One entry of `source_documents`: the chunk text with its id and distance as metadata. */
  datatype SourceDocument = SourceDocument(content: string, id: string, distance: real)

  datatype QueryError =
    | CollectionNotFound(subject: string)
    | NoDocuments(subject: string)
    | MissingApiKey
    | ProcessingFailed(detail: string)

  function ErrorMessage(e: QueryError): string
  {
    match e
    case CollectionNotFound(s) => "Collection '" + s + "' not found. Please ingest documents first."
    case NoDocuments(s) => "No documents found for subject '" + s + "'. Please upload and process files first."
    case MissingApiKey => "GROQ_API_KEY" + " not found in environment variables"
    case ProcessingFailed(detail) => "Query processing failed: " + detail
  }

  lemma ErrorInitial(e: QueryError)
    ensures |ErrorMessage(e)| > 0
    ensures ErrorMessage(e)[0] == match e
      case CollectionNotFound(_) => 'C'
      case NoDocuments(_) => 'N'
      case MissingApiKey => 'G'
      case ProcessingFailed(_) => 'Q'
  {
    match e
    case CollectionNotFound(s) =>
      assert ErrorMessage(e) == "Collection '" + (s + "' not found. Please ingest documents first.");
    case NoDocuments(s) =>
      assert ErrorMessage(e) == "No documents found for subject '" + (s + "'. Please upload and process files first.");
    case MissingApiKey =>
      assert "GROQ_API_KEY"[0] == 'G';
    case ProcessingFailed(d) =>
      assert ErrorMessage(e) == "Query processing failed: " + d;
  }

  /**
   * The error strings determine the error: the kind by its first character, the
   * subject or detail by what lies between the fixed text around it.
   */
  lemma ErrorMessageInjective(e: QueryError, f: QueryError)
    requires ErrorMessage(e) == ErrorMessage(f)
    ensures e == f
  {
    var m := ErrorMessage(e);
    ErrorInitial(e);
    ErrorInitial(f);
    match e
    case CollectionNotFound(s) =>
      assert m[12..|m| - 43] == s;
      assert ErrorMessage(f)[12..|m| - 43] == f.subject;
    case NoDocuments(s) =>
      assert m[32..|m| - 41] == s;
      assert ErrorMessage(f)[32..|m| - 41] == f.subject;
    case MissingApiKey =>
    case ProcessingFailed(d) =>
      assert m[25..] == d;
      assert ErrorMessage(f)[25..] == f.detail;
  }

  /** The response object; `error` is absent on success. */
  datatype QueryResponse = QueryResponse(error: Option<QueryError>, query: string, answer: string, sources: seq<SourceDocument>)

  /** `if not groq_api_key`: both an unset and an empty variable count as missing. */
  predicate HasApiKey(key: Option<string>)
  {
    key.Some? && key.value != ""
  }

  /** Whether the `ids` and `distances` lists reach as far as the `documents` list. */
  predicate Aligned(r: QueryResult)
  {
    |r.ids| >= |r.documents| && |r.distances| >= |r.documents|
  }

  /** The records of an aligned query result: record `i` pairs document `i` with id `i` and distance `i`. */
  function Sources(r: QueryResult): seq<SourceDocument>
    requires Aligned(r)
  {
    seq(|r.documents|, i requires 0 <= i < |r.documents| => SourceDocument(r.documents[i], r.ids[i], r.distances[i]))
  }

  function Contents(sources: seq<SourceDocument>): seq<string>
  {
    seq(|sources|, i requires 0 <= i < |sources| => sources[i].content)
  }

  /** The context: the retrieved texts in retrieval order, a blank line between neighbours. */
  function Context(sources: seq<SourceDocument>): string
  {
    Join(Contents(sources), Separator)
  }

  function Prompt(context: string, query: string): string
  {
    Instruction + "\n\nContext:\n" + context + "\n\nQuestion: " + query + "\n\nAnswer:"
  }

  /**
   * The conversion loop: one record per returned document, in result order. When
   * `ids` or `distances` is shorter than `documents` the indexing fails part-way,
   * which `None` stands for.
   */
  method ConvertResults(r: QueryResult) returns (docs: Option<seq<SourceDocument>>)
    ensures docs.Some? <==> Aligned(r)
    ensures docs.Some? ==> |docs.value| == |r.documents|
    ensures docs.Some? ==> forall i :: 0 <= i < |r.documents| ==>
      docs.value[i] == SourceDocument(r.documents[i], r.ids[i], r.distances[i])
  {
    var retrieved: seq<SourceDocument> := [];
    for i := 0 to |r.documents|
      invariant i <= |r.ids| && i <= |r.distances|
      invariant |retrieved| == i
      invariant forall j :: 0 <= j < i ==> retrieved[j] == SourceDocument(r.documents[j], r.ids[j], r.distances[j])
    {
      if i >= |r.ids| || i >= |r.distances| {
        return None;
      }
      retrieved := retrieved + [SourceDocument(r.documents[i], r.ids[i], r.distances[i])];
    }
    return Some(retrieved);
  }

  /**
   * `query_notes` / `query_folder` against the store, with `apiKey` the value of
   * `GROQ_API_KEY`. The ghost `prompted` is the prompt handed to the language model,
   * if the model was called at all. The store is only read.
   */
  method QueryNotes(store: Store, subject: string, query: string, apiKey: Option<string>, caps: Capabilities)
    returns (resp: QueryResponse, ghost prompted: Option<string>)
    ensures resp.query == query
    ensures resp.error.Some? ==> resp.answer == ""
    ensures resp.error.Some? && resp.error.value != MissingApiKey ==> resp.sources == []
    ensures |resp.sources| <= TopK
    ensures subject !in store.collections ==>
      resp == QueryResponse(Some(CollectionNotFound(subject)), query, "", []) && prompted.None?
    ensures subject in store.collections && store.collections[subject] == [] ==>
      resp == QueryResponse(Some(NoDocuments(subject)), query, "", []) && prompted.None?
    ensures subject in store.collections && store.collections[subject] != [] ==>
      var retrieved := Sources(Nearest(store.collections[subject], caps.embed(query), TopK, caps.distance));
      var prompt := Prompt(Context(retrieved), query);
      if !HasApiKey(apiKey) then
        resp == QueryResponse(Some(MissingApiKey), query, "", retrieved) && prompted.None?
      else
        prompted == Some(prompt) &&
        match caps.complete(prompt)
        case Completed(answer) => resp == QueryResponse(None, query, answer, retrieved)
        case ProviderError(detail) => resp == QueryResponse(Some(ProcessingFailed(detail)), query, "", [])
  {
    prompted := None;
    if subject !in store.collections {
      return QueryResponse(Some(CollectionNotFound(subject)), query, "", []), prompted;
    }
    var count := store.Count(subject);
    if count == 0 {
      return QueryResponse(Some(NoDocuments(subject)), query, "", []), prompted;
    }
    var embedding := caps.embed(query);
    var hits := store.Query(subject, embedding, TopK, caps.distance);
    var converted := ConvertResults(hits);
    // The store's hits are always aligned, so the conversion cannot fail here.
    var retrieved := converted.GetOr([]);
    assert retrieved == Sources(hits);
    if !HasApiKey(apiKey) {
      return QueryResponse(Some(MissingApiKey), query, "", retrieved), prompted;
    }
    var context := Context(retrieved);
    var prompt := Prompt(context, query);
    prompted := Some(prompt);
    var completion := caps.complete(prompt);
    match completion {
      case Completed(answer) =>
        resp := QueryResponse(None, query, answer, retrieved);
      case ProviderError(detail) =>
        resp := QueryResponse(Some(ProcessingFailed(detail)), query, "", []);
    }
  }

  /** A record that reports a stored entry: its text and its id. */
  predicate IsStored(doc: SourceDocument, entries: seq<Entry>)
  {
    exists j :: 0 <= j < |entries| && doc.id == entries[j].id && doc.content == entries[j].document
  }

  /**
   * Retrieval never invents a source: from a collection of `n` entries exactly
   * `min(4, n)` records come back, each the text and id of a stored entry.
   */
  lemma RetrievedAreStored(entries: seq<Entry>, query: Vector, distance: (Vector, Vector) -> real)
    ensures Aligned(Nearest(entries, query, TopK, distance))
    ensures |Sources(Nearest(entries, query, TopK, distance))| == Min(TopK, |entries|)
    ensures forall doc :: doc in Sources(Nearest(entries, query, TopK, distance)) ==> IsStored(doc, entries)
  {
    var r := Nearest(entries, query, TopK, distance);
    var s := Sources(r);
    forall doc | doc in s
      ensures IsStored(doc, entries)
    {
      var i :| 0 <= i < |s| && s[i] == doc;
      assert doc.id == r.ids[i] == entries[i].id;
      assert doc.content == r.documents[i] == entries[i].document;
    }
  }

  /**
   * The context holds every retrieved text, in retrieval order, at its offset,
   * with exactly a blank line between consecutive texts.
   */
  lemma ContextLayout(sources: seq<SourceDocument>, i: nat)
    requires i < |sources|
    ensures var parts := Contents(sources);
      && Offset(parts, Separator, i) + |sources[i].content| <= |Context(sources)|
      && Context(sources)[Offset(parts, Separator, i)..Offset(parts, Separator, i) + |sources[i].content|] == sources[i].content
      && (i + 1 == |sources| ==> |Context(sources)| == Offset(parts, Separator, i) + |sources[i].content|)
      && (i + 1 < |sources| ==>
            Offset(parts, Separator, i + 1) <= |Context(sources)|
            && Context(sources)[Offset(parts, Separator, i) + |sources[i].content|..Offset(parts, Separator, i + 1)] == "\n\n")
  {
    JoinPartAt(Contents(sources), Separator, i);
    JoinLength(Contents(sources), Separator);
    if i + 1 < |sources| {
      JoinSeparatorAt(Contents(sources), Separator, i);
    }
  }

  /**
   * The prompt layout: the instruction, then `Context:` and the context on the next
   * line, then the question, then the answer cue at the very end.
   */
  lemma PromptLayout(context: string, query: string)
    ensures var p := Prompt(context, query);
      var c := |Instruction| + 11;
      var q := c + |context| + 12;
      && |p| == q + |query| + 9
      && p[..|Instruction|] == Instruction
      && p[|Instruction|..c] == "\n\nContext:\n"
      && p[c..c + |context|] == context
      && p[c + |context|..q] == "\n\nQuestion: "
      && p[q..q + |query|] == query
      && p[q + |query|..] == "\n\nAnswer:"
  {
  }
}
