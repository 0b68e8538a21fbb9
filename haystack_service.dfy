/** The deterministic parts of the retrieval-augmented query service
    (`services/haystack_service.py`): the connection string handed to the
    vector store, the metadata step of the indexing pipeline, the metadata
    an indexed file carries, the retrieval filter, the history conversion,
    and what `query` makes of the pipeline's output. Embedding, retrieval,
    prompt rendering and generation are one function given as a parameter. */
module Haystack {
  import opened Common
  import opened PyStr
  import opened Uuids

  const ASYNCPG_SCHEME: string := "postgresql+asyncpg://"
  const PG_SCHEME: string := "postgresql://"

  /** The psycopg connection string built from `DATABASE_URL`: a missing
      or empty URL gives `""`, and the asyncpg scheme is swapped for the
      plain one. */
  function PgConnectionString(databaseUrl: Option<string>): (r: string)
    ensures databaseUrl.None? ==> r == ""
    ensures var s := databaseUrl.GetOr("");
            if StartsWith(s, ASYNCPG_SCHEME) then r == PG_SCHEME + s[|ASYNCPG_SCHEME|..]
            else r == s
  {
    var s := databaseUrl.GetOr("");
    if StartsWith(s, ASYNCPG_SCHEME) then ReplaceFirst(s, ASYNCPG_SCHEME, PG_SCHEME) else s
  }

  /** The rewritten string never carries the asyncpg scheme, so rewriting
      it again changes nothing. */
  lemma PgConnectionStringIdempotent(databaseUrl: Option<string>)
    ensures !StartsWith(PgConnectionString(databaseUrl), ASYNCPG_SCHEME)
    ensures PgConnectionString(Some(PgConnectionString(databaseUrl))) == PgConnectionString(databaseUrl)
  {
    var s := databaseUrl.GetOr("");
    var r := PgConnectionString(databaseUrl);
    if StartsWith(s, ASYNCPG_SCHEME) {
      assert r[10] == PG_SCHEME[10] == ':';
      assert ASYNCPG_SCHEME[10] == '+';
      if |r| >= |ASYNCPG_SCHEME| {
        assert r[..|ASYNCPG_SCHEME|][10] != ASYNCPG_SCHEME[10];
      }
    }
  }

  /** A document of the indexing pipeline: `doc.meta` may be unset. Only
      its meta is changed here, so its text is fixed. */
  class Document {
    const content: string
    var meta: Option<map<string, string>>

    constructor (content: string, meta: Option<map<string, string>>)
      ensures this.content == content && this.meta == meta
    {
      this.content := content;
      this.meta := meta;
    }
  }

  /** `dict.update`: the keys of `m` take `m`'s values, the other keys of
      `a` keep theirs. */
  function Updated(a: map<string, string>, m: map<string, string>): (r: map<string, string>)
    ensures r.Keys == a.Keys + m.Keys
    ensures forall k :: k in m ==> r[k] == m[k]
    ensures forall k :: k in a && k !in m ==> r[k] == a[k]
  {
    a + m
  }

  /** Updating twice with the same `m` is updating once. */
  lemma UpdatedIdempotent(a: map<string, string>, m: map<string, string>)
    ensures Updated(Updated(a, m), m) == Updated(a, m)
  {
    var once, twice := Updated(a, m), Updated(Updated(a, m), m);
    assert twice.Keys == once.Keys;
    forall k | k in once ensures twice[k] == once[k] {
    }
  }

  /** `if meta:` a dictionary given and not empty. */
  predicate MetaGiven(meta: Option<map<string, string>>) {
    meta.Some? && |meta.value| > 0
  }

  /** The loop body of `MetadataAdder.run` for one document. */
  method AddMetadata(doc: Document, m: map<string, string>)
    modifies doc
    ensures doc.meta == Some(Updated(old(doc.meta).GetOr(map[]), m))
  {
    if doc.meta.None? {
      doc.meta := Some(map[]);
    }
    doc.meta := Some(Updated(doc.meta.value, m));
  }

  /** `MetadataAdder.run(documents, meta)`: each document's meta is
      updated in place with `meta`, a missing meta first set to `{}`. The
      same list comes back. A document listed twice is updated twice, to the
      same result. */
  method RunMetadataAdder(documents: seq<Document>, meta: Option<map<string, string>>)
    returns (out: seq<Document>)
    modifies set d | d in documents
    ensures out == documents
    ensures MetaGiven(meta) ==>
              forall d :: d in documents ==> d.meta == Some(Updated(old(d.meta).GetOr(map[]), meta.value))
    ensures !MetaGiven(meta) ==> forall d :: d in documents ==> d.meta == old(d.meta)
  {
    if MetaGiven(meta) {
      var m := meta.value;
      ghost var done: set<Document> := {};
      var i := 0;
      while i < |documents|
        invariant 0 <= i <= |documents|
        invariant forall j :: 0 <= j < i ==> documents[j] in done
        invariant forall d :: d in documents ==>
                    d.meta == if d in done then Some(Updated(old(d.meta).GetOr(map[]), m)) else old(d.meta)
      {
        var doc := documents[i];
        UpdatedIdempotent(old(doc.meta).GetOr(map[]), m);
        AddMetadata(doc, m);
        ghost var before := done;
        done := done + {doc};
        forall j | 0 <= j <= i ensures documents[j] in done {
          if j < i {
            assert documents[j] in before;
          }
        }
        i := i + 1;
      }
      assert forall d :: d in documents ==> d in done;
    }
    out := documents;
  }

  /** The `meta` that `process_document` hands to the metadata step. */
  function IndexMeta(filename: string, documentId: Uuid): (m: map<string, string>)
    ensures MetaGiven(Some(m))
    ensures m.Keys == {"filename", "document_id", "source"}
    ensures m["filename"] == filename && m["source"] == filename
    ensures m["document_id"] == UuidString(documentId)
  {
    map["filename" := filename, "document_id" := UuidString(documentId), "source" := filename]
  }

  /** What `process_document` reports. */
  datatype ProcessReport = ProcessReport(documentsProcessed: Option<nat>, success: bool)

  /** The retriever's filter: `{"field", "operator", "value"}`. */
  datatype Filter = Filter(field: string, operator: string, value: seq<string>)

  function IdStrings(ids: seq<Uuid>): (r: seq<string>)
    ensures |r| == |ids|
    ensures forall i :: 0 <= i < |ids| ==> r[i] == UuidString(ids[i])
  {
    if |ids| == 0 then [] else [UuidString(ids[0])] + IdStrings(ids[1..])
  }

  /** The filter `query` builds from `document_ids`, ids in input order. */
  function DocumentFilter(ids: seq<Uuid>): (f: Filter)
    ensures f.field == "meta.document_id" && f.operator == "in"
    ensures f.value == IdStrings(ids)
  {
    Filter("meta.document_id", "in", IdStrings(ids))
  }

  /** The filter's meaning: the value of the `meta.` field is one of the
      listed values. */
  predicate Matches(f: Filter, meta: map<string, string>) {
    StartsWith(f.field, "meta.") && f.operator == "in"
    && var key := f.field[5..]; key in meta && meta[key] in f.value
  }

  /** A passage indexed for `documentId` is retrievable under the filter of
      `ids` exactly when `documentId` is one of them. */
  lemma FilterSelectsDocuments(ids: seq<Uuid>, filename: string, documentId: Uuid)
    ensures Matches(DocumentFilter(ids), IndexMeta(filename, documentId)) <==> documentId in ids
  {
    var f := DocumentFilter(ids);
    assert f.field[5..] == "document_id";
    if documentId in ids {
      var i :| 0 <= i < |ids| && ids[i] == documentId;
      assert f.value[i] == UuidString(documentId);
    }
    if UuidString(documentId) in f.value {
      var i :| 0 <= i < |f.value| && f.value[i] == UuidString(documentId);
      UuidStringInjective(ids[i], documentId);
    }
  }

  /** The chat message types of the pipeline. */
  datatype ChatRole = UserRole | AssistantRole
  datatype PipelineMessage = PipelineMessage(role: ChatRole, text: string)

  /** `from_user(content)` for role `"user"`, `from_assistant(content)` for
      every other role. */
  function ConvertMessage(m: Message): (p: PipelineMessage)
    ensures p.text == m.content
    ensures p.role == UserRole <==> m.role == "user"
  {
    if m.role == "user" then PipelineMessage(UserRole, m.content)
    else PipelineMessage(AssistantRole, m.content)
  }

  /** The history handed to the prompt: one pipeline message per stored
      message, in order. */
  function ConvertHistory(h: seq<Message>): (r: seq<PipelineMessage>)
    ensures |r| == |h|
    ensures forall i :: 0 <= i < |h| ==> r[i] == ConvertMessage(h[i])
  {
    if |h| == 0 then [] else [ConvertMessage(h[0])] + ConvertHistory(h[1..])
  }

  /** The role name of a pipeline message. */
  function RoleName(p: PipelineMessage): string {
    if p.role == UserRole then "user" else "assistant"
  }

  /** Only roles the chat writes. */
  predicate ChatRoles(h: seq<Message>) {
    forall i :: 0 <= i < |h| ==> h[i].role == "user" || h[i].role == "assistant"
  }

  /** A history holding only `user` and `assistant` turns survives the
      conversion intact: nothing but the role's spelling is lost, and those
      two spellings are told apart. */
  lemma ConvertHistoryFaithful(h: seq<Message>)
    requires ChatRoles(h)
    ensures forall i :: 0 <= i < |h| ==>
              Message(RoleName(ConvertHistory(h)[i]), ConvertHistory(h)[i].text) == h[i]
  {
    forall i | 0 <= i < |h|
      ensures Message(RoleName(ConvertHistory(h)[i]), ConvertHistory(h)[i].text) == h[i]
    {
      assert ConvertHistory(h)[i] == ConvertMessage(h[i]);
    }
  }

  /** A passage the retriever returns. */
  datatype Passage = Passage(content: string, meta: map<string, string>, score: real)

  /** `doc.meta.get("filename", "Unknown")` */
  function FileNameOf(p: Passage): string {
    if "filename" in p.meta then p.meta["filename"] else "Unknown"
  }

  /** `f"{filename} (score: {doc.score:.3f})"`, with the float formatting
      given as `formatScore`. */
  function SourceLabel(p: Passage, formatScore: real -> string): (s: string)
    ensures StartsWith(s, FileNameOf(p))
  {
    FileNameOf(p) + " (score: " + formatScore(p.score) + ")"
  }

  /** The loop of `query` building `sources`: one label per passage, in
      retrieval order, duplicates kept. */
  method BuildSources(documents: seq<Passage>, formatScore: real -> string) returns (sources: seq<string>)
    ensures |sources| == |documents|
    ensures forall i :: 0 <= i < |documents| ==> sources[i] == SourceLabel(documents[i], formatScore)
  {
    sources := [];
    var i := 0;
    while i < |documents|
      invariant 0 <= i <= |documents|
      invariant |sources| == i
      invariant forall j :: 0 <= j < i ==> sources[j] == SourceLabel(documents[j], formatScore)
    {
      var doc := documents[i];
      var filename := if "filename" in doc.meta then doc.meta["filename"] else "Unknown";
      sources := sources + [filename + " (score: " + formatScore(doc.score) + ")"];
      i := i + 1;
    }
  }

  /** `any(question in doc.content for doc in documents)`, scanned left to
      right. */
  function AnyContains(question: string, documents: seq<Passage>): bool
    decreases |documents|
  {
    |documents| > 0 && (Contains(documents[0].content, question) || AnyContains(question, documents[1..]))
  }

  /** `_calculate_confidence`: 1.0 when the question occurs word for word in
      some passage, and no value (the implicit `None`) otherwise, also when
      nothing was retrieved. */
  function Confidence(question: string, documents: seq<Passage>): (c: Option<real>)
    ensures c.Some? ==> c.value == 1.0
    ensures c.Some? <==> exists i, k :: 0 <= i < |documents| && OccursAt(documents[i].content, question, k)
  {
    AnyContainsIff(question, documents);
    if AnyContains(question, documents) then Some(1.0) else None
  }

  lemma {:induction false} AnyContainsIff(question: string, documents: seq<Passage>)
    ensures AnyContains(question, documents) <==>
              exists i, k :: 0 <= i < |documents| && OccursAt(documents[i].content, question, k)
    decreases |documents|
  {
    if |documents| > 0 {
      var rest := documents[1..];
      AnyContainsIff(question, rest);
      ContainsIff(documents[0].content, question);
      if exists i, k :: 0 <= i < |rest| && OccursAt(rest[i].content, question, k) {
        var i, k :| 0 <= i < |rest| && OccursAt(rest[i].content, question, k);
        assert OccursAt(documents[i + 1].content, question, k);
      }
      if exists i, k :: 0 <= i < |documents| && OccursAt(documents[i].content, question, k) {
        var i, k :| 0 <= i < |documents| && OccursAt(documents[i].content, question, k);
        if i > 0 {
          assert OccursAt(rest[i - 1].content, question, k);
        }
      }
    }
  }

  /** What the pipeline is given: the embedder's text, the retriever's
      filter, and the prompt's question, history and date. */
  datatype RagRequest = RagRequest(
    question: string,
    filter: Filter,
    history: seq<PipelineMessage>,
    currentDate: string)

  /** What it answers: the generator's replies, and the retriever's
      documents when its output is included. */
  datatype RagOutput = RagOutput(replies: seq<string>, documents: Option<seq<Passage>>)

  /** The dictionary `query` returns. */
  datatype QueryResult = QueryResult(
    answer: string,
    sources: seq<string>,
    retrievedDocuments: nat,
    confidence: Option<real>)

  function Retrieved(out: RagOutput): seq<Passage> {
    out.documents.GetOr([])
  }

  /** `HaystackService`: the connection string it prepares, and the two
      pipelines it builds, given as functions. `pipeline` runs embedding,
      retrieval, prompt and generation on a request; `index` runs the
      converter, splitter, metadata step, embedder and writer on a file's
      content and the metadata to attach, answering the number of documents
      written; `formatScore` is the `:.3f` float formatting. */
  class HaystackService {
    const connectionString: string
    const pipeline: RagRequest -> Result<RagOutput>
    const index: (seq<byte>, map<string, string>) -> Result<nat>
    const formatScore: real -> string

    /** `HaystackService()`, `DATABASE_URL` read from the settings. */
    constructor (databaseUrl: Option<string>, pipeline: RagRequest -> Result<RagOutput>,
                 index: (seq<byte>, map<string, string>) -> Result<nat>, formatScore: real -> string)
      ensures connectionString == PgConnectionString(databaseUrl)
      ensures this.pipeline == pipeline && this.index == index && this.formatScore == formatScore
    {
      connectionString := PgConnectionString(databaseUrl);
      this.pipeline := pipeline;
      this.index := index;
      this.formatScore := formatScore;
    }

    /** What `query` sends down the pipeline. */
    function Request(question: string, documentIds: seq<Uuid>, chatHistory: seq<Message>,
                     currentDate: string): RagRequest {
      RagRequest(question, DocumentFilter(documentIds), ConvertHistory(chatHistory), currentDate)
    }

    /** `query(question, document_ids, chat_history)`, with today's date text
        given. An empty reply list makes `replies[0]` raise. */
    method Query(question: string, documentIds: seq<Uuid>, chatHistory: seq<Message>, currentDate: string)
      returns (r: Result<QueryResult>)
      ensures match pipeline(Request(question, documentIds, chatHistory, currentDate))
              case Err(e) => r == Err(e)
              case Ok(out) =>
                if |out.replies| == 0 then r == Err(Upstream("list index out of range"))
                else
                  var docs := Retrieved(out);
                  r.Ok? && r.value.answer == out.replies[0]
                  && |r.value.sources| == |docs|
                  && (forall i :: 0 <= i < |docs| ==> r.value.sources[i] == SourceLabel(docs[i], formatScore))
                  && r.value.retrievedDocuments == |docs|
                  && r.value.confidence == Confidence(question, docs)
    {
      var filters := DocumentFilter(documentIds);
      var history := ConvertHistory(chatHistory);
      var result := pipeline(RagRequest(question, filters, history, currentDate));
      if result.Err? {
        return Err(result.error);
      }
      if |result.value.replies| == 0 {
        return Err(Upstream("list index out of range"));
      }
      var response := result.value.replies[0];
      var documents := result.value.documents.GetOr([]);
      var sources := BuildSources(documents, formatScore);
      var confidence := Confidence(question, documents);
      r := Ok(QueryResult(response, sources, |documents|, confidence));
    }

    /** `process_document(file_content, filename, document_id)`, the
        temporary file left out: the indexing result, reported as written. */
    function ProcessDocument(content: seq<byte>, filename: string, documentId: Uuid): (r: Result<ProcessReport>)
      ensures r.Err? <==> index(content, IndexMeta(filename, documentId)).Err?
      ensures r.Err? ==> r.error == index(content, IndexMeta(filename, documentId)).error
      ensures r.Ok? ==> r.value.success
      ensures r.Ok? ==> r.value.documentsProcessed == Some(index(content, IndexMeta(filename, documentId)).value)
    {
      match index(content, IndexMeta(filename, documentId))
      case Ok(written) => Ok(ProcessReport(Some(written), true))
      case Err(e) => Err(e)
    }
  }
}
