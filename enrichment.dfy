/**
 * The `process-memory` edge function (supabase/functions/process-memory/index.ts): it
 * authenticates the caller, fetches the memory by id and owner, asks the model gateway
 * for a summary, keywords, tags, importance and an insight, asks the embedding endpoint for
 * a vector, and writes the results back to the row, scoped by id and owner.
 *
 * The authentication service, the gateway, the embedding endpoint and `JSON.parse` are
 * oracles whose answers are parameters; the table is a `MemoryStore`. `Decide` states the
 * handler as a decision over those answers, and `Handle` runs it against the store.
 */
module Enrichment {
  import opened Wrappers
  import opened Strings
  import opened Memories

  /** The fields of the analysis, each possibly missing from the parsed JSON. */
  datatype Processed = Processed(
    summary: Option<string>,
    keywords: Option<seq<string>>,
    tags: Option<seq<string>>,
    importance: Option<int>,
    aiInsight: Option<string>)

  /** `JSON.parse` of the chosen text: None when it throws or gives null; a value without
      some field (a number, say) gives that field as missing. */
  type ArgsParser = string -> Option<Processed>

  /** The gateway's JSON: the first tool call, if there is one, with its `function.arguments`
      if present; and the message content, if present. */
  datatype AiBody = AiNotJson | AiJson(toolCall: Option<Option<string>>, content: Option<string>)

  /** The gateway's answer: an exception, or whether the response was ok, and its body. */
  datatype AiReply = AiThrew | AiAnswer(ok: bool, body: AiBody)

  /** The embedding endpoint's answer: an exception, a non-ok response, or an ok one with
      `data[0].embedding` if present. */
  datatype EmbeddingReply = EmbeddingThrew | EmbeddingNotOk | EmbeddingOk(embedding: Option<Vector>)

  /** What the caller sends: the Authorization header and the `memoryId` of the JSON body
      (None when the body is not JSON). */
  datatype Request = Request(authorization: Option<string>, memoryId: Option<string>)

  /** The services' answers for one call: whether the gateway key is configured, the user
      the token belongs to, the gateway, the argument parser, the embedding endpoint, and
      whether the update fails. */
  datatype Services = Services(
    keyConfigured: bool,
    user: Option<string>,
    ai: AiReply,
    parse: ArgsParser,
    embedding: EmbeddingReply,
    updateFails: bool)

  /** The response body: an error message, or `{ success: true, processed }`. */
  datatype Answer = Error(message: string) | Success(processed: Processed)

  /** The response, the text sent to the embedding endpoint, and the update that was
      issued, with the id and the owner it is scoped to. */
  datatype Outcome = Outcome(status: int, answer: Answer, embedded: Option<string>, update: Option<(string, string, Patch)>)

  const Unauthorized := "Unauthorized"
  const NotFound := "Memory not found"
  const AiFailed := "AI processing failed"
  const UpdateFailed := "Failed to update memory"
  const Generic := "An error occurred"

  function Fail(status: int, message: string): Outcome {
    Outcome(status, Error(message), None, None)
  }

  /** `authHeader?.startsWith("Bearer ")`. */
  predicate HasBearer(authorization: Option<string>) {
    authorization.Some? && StartsWith(authorization.value, "Bearer ")
  }

  /** The text given to `JSON.parse`: the tool call's arguments when there is a tool call,
      otherwise the message content, or "{}" when that is missing or empty. None when the
      tool call has no arguments: `JSON.parse(undefined)` throws. */
  function ChosenText(toolCall: Option<Option<string>>, content: Option<string>): (r: Option<string>)
    ensures toolCall.Some? ==> r == toolCall.value
    ensures toolCall.None? && content.Some? && content.value != "" ==> r == content
    ensures toolCall.None? && (content.None? || content.value == "") ==> r == Some("{}")
    ensures r.None? <==> toolCall == Some(None)
  {
    match toolCall
    case Some(args) => args
    case None => if content.Some? && content.value != "" then content else Some("{}")
  }

  /** `${processed.summary || ""} ${memory.content}`. */
  function EmbeddingInput(summary: Option<string>, content: string): (r: string)
    ensures |r| == |summary.GetOr("")| + 1 + |content|
    ensures StartsWith(r, summary.GetOr("")) && r[|r| - |content| - 1] == ' ' && OccursAt(r, content, |r| - |content|)
    ensures summary.None? ==> r == " " + content
  {
    var s := summary.GetOr("");
    var r := s + " " + content;
    assert r[|r| - |content|..] == content;
    assert r[..|s|] == s;
    r
  }

  /** The vector to store: present only for an ok answer that carried one. */
  function StoredEmbedding(e: EmbeddingReply): Option<Vector> {
    if e.EmbeddingOk? then e.embedding else None
  }

  /** A field of the parsed JSON as an update column: a missing field is left out of the
      payload (`JSON.stringify` drops `undefined`). */
  function Column<T>(x: Option<T>): Field<Option<T>> {
    match x
    case Some(v) => Put(Some(v))
    case None => Keep
  }

  /** `updateData`, extended with the embedding when there is one. A missing importance
      gives `NaN`, which is written as null. */
  function EnrichmentPatch(p: Processed, embedding: Option<Vector>): Patch {
    Patch(
      content := Keep,
      summary := Column(p.summary),
      keywords := Column(p.keywords),
      tags := Column(p.tags),
      importance := Put(ClampImportance(p.importance)),
      aiInsight := Column(p.aiInsight),
      embedding := if embedding.Some? then Put(embedding) else Keep)
  }

  /** The payload never writes the content, always writes a clamped importance, and writes
      the embedding exactly when one was produced. */
  lemma PatchShape(p: Processed, embedding: Option<Vector>)
    ensures var q := EnrichmentPatch(p, embedding);
      && q.content.Keep?
      && q.importance.Put? && q.importance.value.Some? == p.importance.Some?
      && (q.importance.value.Some? ==> 1 <= q.importance.value.value <= 10)
      && (p.importance.Some? && 1 <= p.importance.value <= 10 ==> q.importance.value == p.importance)
      && (q.embedding.Put? <==> embedding.Some?)
      && (q.embedding.Put? ==> q.embedding.value == embedding)
      && (q.summary.Put? <==> p.summary.Some?)
      && (q.aiInsight.Put? <==> p.aiInsight.Some?)
  {
  }

  /** The handler as a decision over the services' answers and the table. */
  function Decide(req: Request, sv: Services, rows: seq<Memory>): Outcome {
    if !HasBearer(req.authorization) then Fail(401, Unauthorized)
    else if !sv.keyConfigured then Fail(500, Generic)
    else if sv.user.None? then Fail(401, Unauthorized)
    else if req.memoryId.None? then Fail(500, Generic)
    else
      var user, id := sv.user.value, req.memoryId.value;
      match FindSingle(rows, id, user)
      case None => Fail(404, NotFound)
      case Some(memory) =>
        match sv.ai
        case AiThrew => Fail(500, Generic)
        case AiAnswer(ok, body) =>
          if !ok then Fail(500, AiFailed)
          else if body.AiNotJson? then Fail(500, Generic)
          else
            var text := ChosenText(body.toolCall, body.content);
            if text.None? then Fail(500, Generic)
            else
              match sv.parse(text.value)
              case None => Fail(500, Generic)
              case Some(p) =>
                var input := Some(EmbeddingInput(p.summary, memory.content));
                if sv.embedding.EmbeddingThrew? then Outcome(500, Error(Generic), input, None)
                else
                  var patch := EnrichmentPatch(p, StoredEmbedding(sv.embedding));
                  var update := Some((id, user, patch));
                  if sv.updateFails then Outcome(500, Error(UpdateFailed), input, update)
                  else Outcome(200, Success(p), input, update)
  }

  /** The table after the call: the issued update applied, unless it failed. */
  function After(rows: seq<Memory>, o: Outcome, updateFails: bool): seq<Memory> {
    match o.update
    case None => rows
    case Some(u) => if updateFails then rows else UpdateWhere(rows, u.0, Some(u.1), u.2)
  }

  /** Without a bearer token the caller is turned away before anything else happens: the
      answer is 401 whatever the services and the table are. */
  lemma NoBearerFirst(req: Request, sv: Services, sv2: Services, rows: seq<Memory>, rows2: seq<Memory>)
    requires !HasBearer(req.authorization)
    ensures Decide(req, sv, rows) == Decide(req, sv2, rows2) == Fail(401, Unauthorized)
  {
  }

  /** An id the user does not own (or that matches more than one row) gives 404 with no
      update, whatever the gateway, the parser and the embedding endpoint answer. */
  lemma NotFoundBeforeAi(req: Request, sv: Services, ai: AiReply, parse: ArgsParser, e: EmbeddingReply, rows: seq<Memory>)
    requires HasBearer(req.authorization) && sv.keyConfigured && sv.user.Some? && req.memoryId.Some?
    requires FindSingle(rows, req.memoryId.value, sv.user.value).None?
    ensures Decide(req, sv, rows) == Fail(404, NotFound)
    ensures Decide(req, sv, rows) == Decide(req, sv.(ai := ai, parse := parse, embedding := e), rows)
  {
  }

  /** With unique ids, the fetch fails exactly when the user owns no row with that id. */
  lemma NotFoundIffNotOwned(req: Request, sv: Services, rows: seq<Memory>)
    requires UniqueIds(rows)
    requires HasBearer(req.authorization) && sv.keyConfigured && sv.user.Some? && req.memoryId.Some?
    ensures Decide(req, sv, rows).status == 404 <==>
      !exists m :: m in rows && m.id == req.memoryId.value && m.userId == sv.user.value
  {
    FindSingleFindsOwned(rows, req.memoryId.value, sv.user.value);
  }

  /** A non-ok gateway answer gives 500 and leaves the table unchanged. */
  lemma AiFailureWritesNothing(req: Request, sv: Services, rows: seq<Memory>)
    requires sv.ai.AiAnswer? && !sv.ai.ok
    ensures var o := Decide(req, sv, rows);
      o.update.None? && After(rows, o, sv.updateFails) == rows
      && (o.status == 401 || o.status == 404 || o.status == 500)
  {
  }

  /** A non-ok embedding answer, or an ok one without a vector, does not stop the handler:
      the update is still issued, without an `embedding` column, and succeeds unless the
      store fails. */
  lemma EmbeddingNotFatal(req: Request, sv: Services, rows: seq<Memory>)
    requires sv.embedding.EmbeddingNotOk? || sv.embedding == EmbeddingOk(None)
    requires Decide(req, sv.(embedding := EmbeddingOk(Some([]))), rows).update.Some?
    ensures var o := Decide(req, sv, rows);
      o.update.Some? && o.update.value.2.embedding.Keep?
      && (o.status == 200 <==> !sv.updateFails)
  {
  }

  /** An embedding call that throws, or whose ok body is not JSON, is caught by the outer
      handler: the answer is 500 and no update is issued, so the analysis is lost. */
  lemma EmbeddingThrewIsFatal(req: Request, sv: Services, rows: seq<Memory>)
    requires sv.embedding.EmbeddingThrew?
    ensures var o := Decide(req, sv, rows);
      o.status != 200 && o.update.None? && After(rows, o, sv.updateFails) == rows
    ensures var o := Decide(req, sv, rows);
      o.embedded.Some? ==> o == Outcome(500, Error(Generic), o.embedded, None)
  {
  }

  /** A tool call without `function.arguments` makes `JSON.parse(undefined)` throw: 500,
      nothing parsed from the content and nothing written. */
  lemma ToolCallWithoutArguments(req: Request, sv: Services, rows: seq<Memory>)
    requires sv.ai.AiAnswer? && sv.ai.body.AiJson? && sv.ai.body.toolCall == Some(None)
    ensures var o := Decide(req, sv, rows);
      o.status != 200 && o.update.None? && o.embedded.None? && After(rows, o, sv.updateFails) == rows
  {
  }

  /** Whatever happens, the call changes only the selected user's row with that id, never
      its content, identity or timestamps, and any importance it writes is in 1..10. */
  lemma WriteIsScoped(req: Request, sv: Services, rows: seq<Memory>, k: int)
    requires 0 <= k < |rows|
    ensures var o := Decide(req, sv, rows);
      var r := After(rows, o, sv.updateFails);
      && |r| == |rows|
      && r[k].content == rows[k].content && r[k].id == rows[k].id && r[k].userId == rows[k].userId
      && r[k].createdAt == rows[k].createdAt && r[k].updatedAt == rows[k].updatedAt
      && (r[k] != rows[k] ==> o.update.Some? && sv.user == Some(rows[k].userId) && req.memoryId == Some(rows[k].id))
      && (r[k].importance != rows[k].importance ==> r[k].importance.None? || 1 <= r[k].importance.value <= 10)
  {
    var o := Decide(req, sv, rows);
    if o.update.Some? && !sv.updateFails {
      var u := o.update.value;
      UpdateIsolation(rows, u.0, u.1, u.2, k);
      assert u.2.content.Keep?;
      assert u.0 == req.memoryId.value && u.1 == sv.user.value;
      PatchShape(Processed(None, None, None, None, None), None);
    }
  }

  /** A successful call answers 200 with the parsed analysis and writes it to the row. */
  lemma SuccessWrites(req: Request, sv: Services, rows: seq<Memory>)
    requires Decide(req, sv, rows).status == 200
    ensures var o := Decide(req, sv, rows);
      && o.answer.Success? && o.update.Some? && !sv.updateFails
      && o.update.value == (req.memoryId.value, sv.user.value, EnrichmentPatch(o.answer.processed, StoredEmbedding(sv.embedding)))
      && FindSingle(rows, req.memoryId.value, sv.user.value).Some?
  {
  }

  /** The handler, run against the table; the `let`s `processed` and `embedding` and the
      payload `updateData` are built step by step as in the function. */
  method Handle(store: MemoryStore, req: Request, sv: Services) returns (status: int, answer: Answer, embedded: Option<string>)
    modifies store
    ensures var o := Decide(req, sv, old(store.rows));
      && status == o.status && answer == o.answer && embedded == o.embedded
      && store.rows == After(old(store.rows), o, sv.updateFails)
  {
    embedded := None;
    if !HasBearer(req.authorization) {
      return 401, Error(Unauthorized), None;
    }
    if !sv.keyConfigured {
      return 500, Error(Generic), embedded;
    }
    if sv.user.None? {
      return 401, Error(Unauthorized), None;
    }
    var userId := sv.user.value;
    if req.memoryId.None? {
      return 500, Error(Generic), embedded;
    }
    var memoryId := req.memoryId.value;
    var memory := FindSingle(store.rows, memoryId, userId);
    if memory.None? {
      return 404, Error(NotFound), None;
    }
    if sv.ai.AiThrew? {
      return 500, Error(Generic), embedded;
    }
    if !sv.ai.ok {
      return 500, Error(AiFailed), None;
    }
    if sv.ai.body.AiNotJson? {
      return 500, Error(Generic), embedded;
    }
    var body := sv.ai.body;
    var processed: Option<Processed>;
    if body.toolCall.Some? {
      if body.toolCall.value.None? {
        return 500, Error(Generic), embedded;
      }
      processed := sv.parse(body.toolCall.value.value);
    } else {
      var content := if body.content.Some? && body.content.value != "" then body.content.value else "{}";
      processed := sv.parse(content);
    }
    if processed.None? {
      return 500, Error(Generic), embedded;
    }
    var p := processed.value;
    embedded := Some(EmbeddingInput(p.summary, memory.value.content));
    var embedding: Option<Vector> := None;
    match sv.embedding {
      case EmbeddingThrew =>
        return 500, Error(Generic), embedded;
      case EmbeddingNotOk =>
      case EmbeddingOk(e) =>
        embedding := e;
    }
    var updateData := Patch(Keep, Column(p.summary), Column(p.keywords), Column(p.tags),
                            Put(ClampImportance(p.importance)), Column(p.aiInsight), Keep);
    if embedding.Some? {
      updateData := updateData.(embedding := Put(embedding));
    }
    if sv.updateFails {
      return 500, Error(UpdateFailed), embedded;
    }
    store.Update(memoryId, Some(userId), updateData);
    return 200, Success(p), embedded;
  }
}
