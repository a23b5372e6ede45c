/**
 * The `/ask` endpoint of the API server: validate the query, collect context
 * and sources from the search hits, fill the prompt template, run the local
 * model or else the remote chat API, and return the trimmed answer with the
 * sources.
 *
 * The embedder and the vector search together are the parameter `search`
 * (the stripped query to the hit list, or `None` when the search raises),
 * whether the model file exists and the API key are plain inputs, the local
 * model is `local` (prompt to completion text) and the remote call is
 * `remote` (prompt to HTTP reply).
 */
module Ask {
  import opened Outcomes
  import opened Text

  /** A hit's payload; Qdrant may return `None` for it. Only string values are modelled. */
  type Payload = map<string, string>
  type Hit = Option<Payload>

  /** The decoded JSON body of the remote reply. */
  datatype Json =
    | JNull
    | JBool(b: bool)
    | JNum(n: int)
    | JStr(s: string)
    | JArr(items: seq<Json>)
    | JObj(fields: map<string, Json>)

  /** What the remote call gives back: an HTTP reply (its body JSON or not), or a network failure. */
  datatype RemoteReply = Reply(status: int, body: Option<Json>) | Unreachable

  /** Why a request fails. */
  datatype Failure =
    | HttpException(status: int, detail: string)  // raised on purpose, with its status
    | SearchFailed                                // the vector search raised
    | UpstreamFailed                              // the remote call or raise_for_status raised
    | MalformedReply                              // the reply body is not the expected JSON shape

  datatype AskResponse = AskResponse(answer: string, sources: seq<string>)

  datatype Backend = Local | Remote | Unconfigured

  const EmptyQueryDetail := "Query is empty"
  const UnconfiguredDetail := "Neither local model nor TOGETHER_API_KEY is available"
  const PromptHead := "Use the following context to answer the question.\n\n"
  const ContextSeparator := "\n\n"

  /** `payload.get(key)` read for its truth value: a missing key and '' are both false. */
  function Field(p: Payload, key: string): string {
    if key in p then p[key] else ""
  }

  /**
   * `payload.get(key) or payload.get(fallback)` on `hit.payload or {}`, with
   * '' standing for every false value: a non-empty `key` field wins, then
   * the `fallback` field.
   */
  function FieldOrElse(hit: Hit, key: string, fallback: string): (v: string)
    ensures hit.None? ==> v == ""
    ensures hit.Some? && key in hit.value && hit.value[key] != "" ==> v == hit.value[key]
    ensures v != "" ==> hit.Some? && ((key in hit.value && v == hit.value[key])
                                   || (fallback in hit.value && v == hit.value[fallback]))
    ensures v == "" ==> hit.None? || (Field(hit.value, key) == "" && Field(hit.value, fallback) == "")
  {
    var p := hit.GetOr(map[]);
    if Field(p, key) != "" then p[key] else Field(p, fallback)
  }

  /** `payload.get("text") or payload.get("page_content") or ""`. */
  function HitText(hit: Hit): string {
    FieldOrElse(hit, "text", "page_content")
  }

  /** `payload.get("url") or payload.get("source")`. */
  function HitSource(hit: Hit): string {
    FieldOrElse(hit, "url", "source")
  }

  /** What one hit adds to the context: its text when that is non-empty. */
  function ChunkOf(hit: Hit): (added: seq<string>)
    ensures added == [] || (|added| == 1 && added[0] != "")
  {
    var t := HitText(hit);
    if t != "" then [t] else []
  }

  /** What one hit adds to the sources: its url or source when that is non-empty. */
  function SourceOf(hit: Hit): (added: seq<string>)
    ensures added == [] || (|added| == 1 && added[0] != "")
  {
    var u := HitSource(hit);
    if u != "" then [u] else []
  }

  /** What the hits add, one after another, when each adds at most one entry. */
  function Gather(added: Hit -> seq<string>, hits: seq<Hit>): (out: seq<string>)
    requires forall hit :: |added(hit)| <= 1
    ensures |out| <= |hits|
  {
    if hits == [] then [] else Gather(added, hits[..|hits| - 1]) + added(hits[|hits| - 1])
  }

  /** The context chunks collected from `hits`: each non-empty hit text, in hit order. */
  function ContextChunks(hits: seq<Hit>): (chunks: seq<string>)
    ensures |chunks| <= |hits|
  {
    Gather(ChunkOf, hits)
  }

  /** The sources collected from `hits`: each non-empty hit source, in hit order. */
  function Sources(hits: seq<Hit>): (sources: seq<string>)
    ensures |sources| <= |hits|
  {
    Gather(SourceOf, hits)
  }

  /** Gathering a concatenation gathers each part in turn. */
  lemma {:induction false} GatherAppend(added: Hit -> seq<string>, a: seq<Hit>, b: seq<Hit>)
    requires forall hit :: |added(hit)| <= 1
    ensures Gather(added, a + b) == Gather(added, a) + Gather(added, b)
    decreases |b|
  {
    if b == [] {
      assert a + b == a;
    } else {
      var n, ab := |b| - 1, a + b;
      assert ab[..|ab| - 1] == a + b[..n];
      assert ab[|ab| - 1] == b[n];
      GatherAppend(added, a, b[..n]);
      var x, y, z := Gather(added, a), Gather(added, b[..n]), added(b[n]);
      assert Gather(added, ab) == (x + y) + z;
      assert (x + y) + z == x + (y + z);
    }
  }

  /** Gathering never yields an empty string when no single hit adds one. */
  lemma {:induction false} GatherNonEmpty(added: Hit -> seq<string>, hits: seq<Hit>)
    requires forall hit :: |added(hit)| <= 1
    requires forall hit :: added(hit) == [] || added(hit)[0] != ""
    ensures forall k :: 0 <= k < |Gather(added, hits)| ==> Gather(added, hits)[k] != ""
    decreases |hits|
  {
    if hits != [] {
      var n := |hits| - 1;
      GatherNonEmpty(added, hits[..n]);
      var front := Gather(added, hits[..n]);
      assert Gather(added, hits) == front + added(hits[n]);
      forall k | 0 <= k < |Gather(added, hits)| ensures Gather(added, hits)[k] != "" {
        if k >= |front| {
          assert Gather(added, hits)[k] == added(hits[n])[k - |front|];
        }
      }
    }
  }

  /** Neither list ever holds an empty string. */
  lemma CollectedNonEmpty(hits: seq<Hit>)
    ensures forall k :: 0 <= k < |ContextChunks(hits)| ==> ContextChunks(hits)[k] != ""
    ensures forall k :: 0 <= k < |Sources(hits)| ==> Sources(hits)[k] != ""
  {
    GatherNonEmpty(ChunkOf, hits);
    GatherNonEmpty(SourceOf, hits);
  }

  /** The `for hit in hits` loop of `ask`, appending to `context_chunks` and `sources`. */
  method CollectHits(hits: seq<Hit>) returns (chunks: seq<string>, sources: seq<string>)
    ensures chunks == ContextChunks(hits)
    ensures sources == Sources(hits)
  {
    chunks, sources := [], [];
    for i := 0 to |hits|
      invariant chunks == ContextChunks(hits[..i])
      invariant sources == Sources(hits[..i])
    {
      var payload := hits[i].GetOr(map[]);
      var text := if Field(payload, "text") != "" then payload["text"] else Field(payload, "page_content");
      if text != "" {
        chunks := chunks + [text];
      }
      var src := if Field(payload, "url") != "" then payload["url"] else Field(payload, "source");
      if src != "" {
        sources := sources + [src];
      }
      assert hits[..i + 1][..i] == hits[..i];
    }
    assert hits[..|hits|] == hits;
  }

  /**
   * Collection keeps hit order and drops nothing but empty entries: the
   * chunks of a concatenation are the chunks of each part, and likewise for
   * sources; neither list is deduplicated.
   */
  lemma CollectAppend(a: seq<Hit>, b: seq<Hit>)
    ensures ContextChunks(a + b) == ContextChunks(a) + ContextChunks(b)
    ensures Sources(a + b) == Sources(a) + Sources(b)
  {
    GatherAppend(ChunkOf, a, b);
    GatherAppend(SourceOf, a, b);
  }

  /** A hit contributes a chunk exactly when it has text, and a source exactly when it has a url or source. */
  lemma {:induction false} CollectOne(hit: Hit)
    ensures ContextChunks([hit]) == if HitText(hit) != "" then [HitText(hit)] else []
    ensures Sources([hit]) == if HitSource(hit) != "" then [HitSource(hit)] else []
  {
    assert [hit][..0] == [];
  }

  /**
   * Text and source are read independently: a hit with text but no url or
   * source adds a chunk and no source, so the two lists can differ in length,
   * and the same hit twice adds its text twice.
   */
  lemma ChunksAndSourcesIndependent(t: string)
    requires t != ""
    ensures var hit: Hit := Some(map["text" := t]);
      && ContextChunks([hit, hit]) == [t, t]
      && Sources([hit, hit]) == []
  {
    var hit: Hit := Some(map["text" := t]);
    CollectOne(hit);
    CollectAppend([hit], [hit]);
    assert [hit] + [hit] == [hit, hit];
  }

  /**
   * The prompt template: the fixed head, the chunks joined by blank lines,
   * then the question and the answer cue. With no chunks the context is
   * empty and the template is still filled.
   */
  function BuildPrompt(chunks: seq<string>, query: string): (prompt: string)
    ensures var context, tail := Join(ContextSeparator, chunks), "\n\nQuestion: " + query + "\nAnswer:";
      && |prompt| == |PromptHead| + |context| + |tail|
      && prompt[..|PromptHead|] == PromptHead
      && prompt[|PromptHead|..|PromptHead| + |context|] == context
      && prompt[|PromptHead| + |context|..] == tail
  {
    PromptHead + Join(ContextSeparator, chunks) + "\n\nQuestion: " + query + "\nAnswer:"
  }

  /** The prompt sent when no hit had text. */
  lemma EmptyContextPrompt(query: string)
    ensures BuildPrompt([], query)
      == "Use the following context to answer the question.\n\n\n\nQuestion: " + query + "\nAnswer:"
  {
  }

  /** The key counts as set unless it is missing or empty (`not TOGETHER_API_KEY`). */
  function KeySet(apiKey: Option<string>): (set_: bool)
    ensures !set_ <==> apiKey == None || apiKey == Some("")
  {
    apiKey.Some? && apiKey.value != ""
  }

  /**
   * The generator rule: the local model whenever its file exists, whatever
   * the key; else the remote API when the key is set; else nothing.
   */
  function SelectBackend(modelExists: bool, apiKey: Option<string>): (b: Backend)
    ensures b == Local <==> modelExists
    ensures b == Remote <==> !modelExists && KeySet(apiKey)
    ensures b == Unconfigured <==> !modelExists && !KeySet(apiKey)
  {
    if modelExists then Local else if KeySet(apiKey) then Remote else Unconfigured
  }

  /** `d.get(key, default)` on a JSON object. */
  function Get(fields: map<string, Json>, key: string, default: Json): Json {
    if key in fields then fields[key] else default
  }

  /**
   * `resp.json().get("choices", [{}])[0].get("message", {}).get("content", "").strip()`.
   * A missing key falls back to its default, so a missing `choices`,
   * `message` or `content` gives ''. Any other shape raises: an empty
   * `choices` list, a body, choice or message that is not an object, or a
   * content that is not a string.
   */
  function RemoteAnswer(body: Json): (r: Result<string, Failure>)
    ensures r.Ok? ==> Strip(r.value) == r.value
    ensures r.Err? ==> r.error == MalformedReply
    ensures body.JObj? && "choices" !in body.fields ==> r == Ok("")
    ensures body.JObj? && "choices" in body.fields && body.fields["choices"] == JArr([]) ==> r == Err(MalformedReply)
    ensures !body.JObj? ==> r == Err(MalformedReply)
  {
    match body
    case JObj(top) =>
      (match Get(top, "choices", JArr([JObj(map[])]))
       case JArr(choices) =>
         if choices == [] then Err(MalformedReply)
         else
           (match choices[0]
            case JObj(choice) =>
              (match Get(choice, "message", JObj(map[]))
               case JObj(message) =>
                 (match Get(message, "content", JStr(""))
                  case JStr(content) => StripIdempotent(content); Ok(Strip(content))
                  case _ => Err(MalformedReply))
               case _ => Err(MalformedReply))
            case _ => Err(MalformedReply))
       case _ => Err(MalformedReply))
    case _ => Err(MalformedReply)
  }

  /** The first choice's message content, trimmed, when every key along the path is present. */
  lemma RemoteAnswerPresent(content: string, choice: map<string, Json>, message: map<string, Json>, top: map<string, Json>, rest: seq<Json>)
    requires "content" in message && message["content"] == JStr(content)
    requires "message" in choice && choice["message"] == JObj(message)
    requires "choices" in top && top["choices"] == JArr([JObj(choice)] + rest)
    ensures RemoteAnswer(JObj(top)) == Ok(Strip(content))
  {
  }

  /** A choice without `message`, or a message object without `content`, answers ''. */
  lemma RemoteAnswerMissingParts(choice: map<string, Json>, top: map<string, Json>, rest: seq<Json>)
    requires "choices" in top && top["choices"] == JArr([JObj(choice)] + rest)
    ensures "message" !in choice ==> RemoteAnswer(JObj(top)) == Ok("")
    ensures "message" in choice && choice["message"].JObj? && "content" !in choice["message"].fields
      ==> RemoteAnswer(JObj(top)) == Ok("")
  {
  }

  /**
   * The remote branch after the request: `raise_for_status` fails on a
   * status from 400 to 599, a body that is not JSON fails in `resp.json()`,
   * and otherwise the answer is extracted from the body.
   */
  function RemoteReplyAnswer(reply: RemoteReply): (r: Result<string, Failure>)
    ensures reply.Unreachable? ==> r == Err(UpstreamFailed)
    ensures reply.Reply? && 400 <= reply.status < 600 ==> r == Err(UpstreamFailed)
    ensures reply.Reply? && !(400 <= reply.status < 600) && reply.body.None? ==> r == Err(MalformedReply)
    ensures reply.Reply? && !(400 <= reply.status < 600) && reply.body.Some? ==> r == RemoteAnswer(reply.body.value)
    ensures r.Ok? ==> Strip(r.value) == r.value
    ensures r.Err? ==> r.error == UpstreamFailed || r.error == MalformedReply
  {
    match reply
    case Unreachable => Err(UpstreamFailed)
    case Reply(status, body) =>
      if 400 <= status < 600 then Err(UpstreamFailed)
      else if body.None? then Err(MalformedReply)
      else RemoteAnswer(body.value)
  }

  /**
   * One generation: the local completion text, or the remote reply after
   * `raise_for_status`, trimmed of surrounding whitespace.
   */
  function Generate(backend: Backend, prompt: string, local: string -> string, remote: string -> RemoteReply)
    : (r: Result<string, Failure>)
    ensures r.Ok? ==> Strip(r.value) == r.value
    ensures backend == Local ==> r == Ok(Strip(local(prompt)))
    ensures backend == Unconfigured ==> r == Err(HttpException(500, UnconfiguredDetail))
    ensures backend == Remote ==> r == RemoteReplyAnswer(remote(prompt))
  {
    match backend
    case Local => StripIdempotent(local(prompt)); Ok(Strip(local(prompt)))
    case Unconfigured => Err(HttpException(500, UnconfiguredDetail))
    case Remote => RemoteReplyAnswer(remote(prompt))
  }

  /**
   * What `ask` answers: 400 for a query that strips to '', a failure when
   * the search raises, otherwise the generator's answer for the prompt built
   * from the hits for the stripped query, together with their sources.
   */
  function AskOutcome(
    query: string,
    search: string -> Option<seq<Hit>>,
    modelExists: bool,
    apiKey: Option<string>,
    local: string -> string,
    remote: string -> RemoteReply)
    : (r: Result<AskResponse, Failure>)
    ensures r.Err? && r.error.HttpException? ==>
      || (r.error == HttpException(400, EmptyQueryDetail) && Strip(query) == "")
      || (r.error == HttpException(500, UnconfiguredDetail) && !modelExists && !KeySet(apiKey))
    ensures r.Ok? ==> Strip(r.value.answer) == r.value.answer
  {
    var q := Strip(query);
    if q == "" then Err(HttpException(400, EmptyQueryDetail))
    else if search(q).None? then Err(SearchFailed)
    else
      var hits := search(q).value;
      var answer := Generate(SelectBackend(modelExists, apiKey), BuildPrompt(ContextChunks(hits), q), local, remote);
      if answer.Err? then Err(answer.error) else Ok(AskResponse(answer.value, Sources(hits)))
  }

  /** The endpoint `ask`, with its hit loop. */
  method HandleAsk(
    query: string,
    search: string -> Option<seq<Hit>>,
    modelExists: bool,
    apiKey: Option<string>,
    local: string -> string,
    remote: string -> RemoteReply)
    returns (r: Result<AskResponse, Failure>)
    ensures r == AskOutcome(query, search, modelExists, apiKey, local, remote)
  {
    var q := Strip(query);
    if q == "" {
      return Err(HttpException(400, EmptyQueryDetail));
    }
    var found := search(q);
    if found.None? {
      return Err(SearchFailed);
    }
    var chunks, sources := CollectHits(found.value);
    var prompt := BuildPrompt(chunks, q);
    var answer := Generate(SelectBackend(modelExists, apiKey), prompt, local, remote);
    if answer.Err? {
      return Err(answer.error);
    }
    return Ok(AskResponse(answer.value, sources));
  }

  /** Validation comes first: the request fails with 400 exactly when the query strips to ''. */
  lemma EmptyQueryRejected(
    query: string,
    search: string -> Option<seq<Hit>>,
    modelExists: bool,
    apiKey: Option<string>,
    local: string -> string,
    remote: string -> RemoteReply)
    ensures AskOutcome(query, search, modelExists, apiKey, local, remote) == Err(HttpException(400, EmptyQueryDetail))
      <==> Strip(query) == ""
  {
  }

  /** The remote path fails only with its own failures, never with an HTTP exception. */
  lemma RemoteNever400(prompt: string, local: string -> string, remote: string -> RemoteReply)
    ensures var r := Generate(Remote, prompt, local, remote);
      r.Err? ==> !r.error.HttpException?
  {
  }

  /**
   * A successful answer is trimmed, and the sources are the collected
   * sources of the hits for the stripped query, unchanged.
   */
  lemma AnsweredWithSources(
    query: string,
    search: string -> Option<seq<Hit>>,
    modelExists: bool,
    apiKey: Option<string>,
    local: string -> string,
    remote: string -> RemoteReply)
    requires AskOutcome(query, search, modelExists, apiKey, local, remote).Ok?
    ensures var r := AskOutcome(query, search, modelExists, apiKey, local, remote).value;
      && Strip(query) != "" && search(Strip(query)).Some?
      && r.sources == Sources(search(Strip(query)).value)
      && Strip(r.answer) == r.answer
  {
  }

  /**
   * Which generator answers: with the model file present the local
   * completion, stripped, whatever the key; with neither model nor key the
   * request fails with 500.
   */
  lemma GeneratorChoice(
    query: string,
    search: string -> Option<seq<Hit>>,
    modelExists: bool,
    apiKey: Option<string>,
    local: string -> string,
    remote: string -> RemoteReply)
    requires Strip(query) != "" && search(Strip(query)).Some?
    ensures var hits := search(Strip(query)).value;
      var prompt := BuildPrompt(ContextChunks(hits), Strip(query));
      var r := AskOutcome(query, search, modelExists, apiKey, local, remote);
      && (modelExists ==> r == Ok(AskResponse(Strip(local(prompt)), Sources(hits))))
      && (!modelExists && !KeySet(apiKey) ==> r == Err(HttpException(500, UnconfiguredDetail)))
  {
  }
}
