/**
 * The `chat` edge function (supabase/functions/chat/index.ts): it picks the last user
 * message as the query, retrieves memories by vector search with an importance-ordered
 * fallback, renders them into the system prompt, forwards the conversation to the model
 * gateway and maps the gateway's status. The embedding endpoint, the `match_memories`
 * search, the fallback query and the gateway are oracles: their answers are parameters,
 * and the model records the requests that are issued.
 */
module ChatFunction {
  import opened Wrappers
  import opened Strings
  import opened Memories
  import ChatStream

  /** A message of the request body, with its role as a string. */
  datatype Message = Message(role: string, content: string)

  /** The message as the panel sends it. */
  function Wire(m: ChatStream.Msg): Message {
    Message(if m.role == ChatStream.User then "user" else "assistant", m.content)
  }

  function WireAll(ms: seq<ChatStream.Msg>): (r: seq<Message>)
    ensures |r| == |ms|
    ensures forall k :: 0 <= k < |ms| ==> r[k] == Wire(ms[k])
  {
    seq(|ms|, k requires 0 <= k < |ms| => Wire(ms[k]))
  }

  /** The message at `k` is the last one whose role is "user". */
  predicate LastUserAt(messages: seq<Message>, k: int) {
    0 <= k < |messages| && messages[k].role == "user"
    && forall j :: k < j < |messages| ==> messages[j].role != "user"
  }

  /** `[...messages].reverse().find(m => m.role === "user")?.content || ""`. */
  function LastUserQuery(messages: seq<Message>): (q: string)
    ensures (forall k :: 0 <= k < |messages| ==> messages[k].role != "user") ==> q == ""
    ensures (exists k :: 0 <= k < |messages| && messages[k].role == "user") ==>
      exists k :: LastUserAt(messages, k) && q == messages[k].content
    decreases |messages|
  {
    if messages == [] then ""
    else
      var n := |messages| - 1;
      if messages[n].role == "user" then messages[n].content
      else
        var q := LastUserQuery(messages[..n]);
        LastUserInPrefix(messages);
        q
  }

  /** When the last message is not the user's, the last user message lies in the rest. */
  lemma LastUserInPrefix(messages: seq<Message>)
    requires messages != [] && messages[|messages| - 1].role != "user"
    ensures var p := messages[..|messages| - 1];
      && (forall k :: 0 <= k < |p| ==> p[k] == messages[k])
      && (forall k :: LastUserAt(p, k) ==> LastUserAt(messages, k))
      && ((exists k :: 0 <= k < |messages| && messages[k].role == "user") ==>
          exists k :: 0 <= k < |p| && p[k].role == "user")
  {
  }

  /** The query of a turn sent by the panel is the text the user just sent. */
  lemma QueryIsNewMessage(before: seq<ChatStream.Msg>, text: string)
    ensures LastUserQuery(WireAll(before + [ChatStream.Msg(ChatStream.User, text)])) == text
  {
    var ms := WireAll(before + [ChatStream.Msg(ChatStream.User, text)]);
    assert ms[|ms| - 1] == Message("user", text);
  }

  /** A row as the search and the fallback query return it. */
  datatype Recalled = Recalled(content: string, summary: Option<string>, importance: Option<int>)

  /** The answer of the embedding endpoint: an exception, or whether the response was ok
      together with `data[0].embedding` if present. */
  datatype EmbedReply = EmbedThrew | EmbedAnswer(ok: bool, embedding: Option<Vector>)

  /** The answer of the `match_memories` call: an exception, or its `data` (null on error). */
  datatype SearchReply = SearchThrew | SearchData(matches: Option<seq<Recalled>>)

  /** The arguments of the `match_memories` call. */
  datatype SearchRequest = SearchRequest(embedding: Vector, threshold: real, count: nat, userId: string)

  /** `.from("memories").select(…).eq("user_id", userId).order("importance", desc).limit(count)`. */
  datatype FallbackQuery = FallbackQuery(userId: string, byImportanceDescending: bool, limit: nat)

  const MatchThreshold: real := 0.3
  const MatchCount: nat := 5
  const FallbackLimit: nat := 5

  /** What the semantic search contributes: its matches when the embedding response was
      ok and carried a vector and the search answered, nothing otherwise. */
  function Semantic(embed: EmbedReply, search: SearchReply): seq<Recalled> {
    if embed.EmbedAnswer? && embed.ok && embed.embedding.Some? && search.SearchData? then
      search.matches.GetOr([])
    else []
  }

  /** The memories retrieved for the prompt. */
  function Retrieved(embed: EmbedReply, search: SearchReply, fallback: Option<seq<Recalled>>): seq<Recalled> {
    var s := Semantic(embed, search);
    if |s| == 0 then fallback.GetOr([]) else s
  }

  /** The search branch and its fallback, with `relevantMemories` reassigned in each.
      Every failure of the embedding call or the search is swallowed. */
  method Retrieve(userId: string, embed: EmbedReply, search: SearchReply, fallback: Option<seq<Recalled>>)
    returns (relevant: seq<Recalled>, searchCall: Option<SearchRequest>, fallbackCall: Option<FallbackQuery>)
    ensures relevant == Retrieved(embed, search, fallback)
    ensures searchCall.Some? <==> embed.EmbedAnswer? && embed.ok && embed.embedding.Some?
    ensures searchCall.Some? ==> searchCall.value == SearchRequest(embed.embedding.value, MatchThreshold, MatchCount, userId)
    ensures fallbackCall.Some? <==> |Semantic(embed, search)| == 0
    ensures fallbackCall.Some? ==> fallbackCall.value == FallbackQuery(userId, true, FallbackLimit)
  {
    relevant := [];
    searchCall := None;
    fallbackCall := None;
    match embed {
      case EmbedThrew =>
      case EmbedAnswer(ok, embedding) =>
        if ok && embedding.Some? {
          searchCall := Some(SearchRequest(embedding.value, MatchThreshold, MatchCount, userId));
          match search {
            case SearchThrew =>
            case SearchData(matches) =>
              relevant := matches.GetOr([]);
          }
        }
    }
    if |relevant| == 0 {
      fallbackCall := Some(FallbackQuery(userId, true, FallbackLimit));
      relevant := fallback.GetOr([]);
    }
  }

  /** The fallback is used exactly when the search produced nothing, and the search
      results are used unchanged otherwise. */
  lemma RetrievalPrefersSearch(embed: EmbedReply, search: SearchReply, fallback: Option<seq<Recalled>>)
    ensures var s := Semantic(embed, search);
      && (|s| > 0 ==> Retrieved(embed, search, fallback) == s)
      && (|s| == 0 ==> Retrieved(embed, search, fallback) == fallback.GetOr([]))
      && (embed.EmbedThrew? || !embed.ok || embed.embedding.None? || search.SearchThrew? ==>
            Retrieved(embed, search, fallback) == fallback.GetOr([]))
  {
  }

  const ContextHeader := "\n\nRelevant memories " + "from the user's knowledge base:\n"
  const NoMemories := "\n\nThe user has " + "no stored memories yet."

  /** `m.summary || m.content`. */
  function Shown(m: Recalled): string {
    if m.summary.Some? && m.summary.value != "" then m.summary.value else m.content
  }

  /** `[Memory ${i + 1}] ${m.summary || m.content} (importance: ${m.importance}/10)`. */
  function ContextLine(i: nat, m: Recalled): string {
    "[Memory " + NatToString(i + 1) + "] " + Shown(m) + " (importance: " + RenderImportance(m.importance) + "/10)"
  }

  function ContextLines(ms: seq<Recalled>): (r: seq<string>)
    ensures |r| == |ms|
    ensures forall i :: 0 <= i < |ms| ==> r[i] == ContextLine(i, ms[i])
  {
    seq(|ms|, i requires 0 <= i < |ms| => ContextLine(i, ms[i]))
  }

  /** The memory block of the system prompt. */
  function MemoryContext(ms: seq<Recalled>): string {
    if |ms| > 0 then ContextHeader + Join(ContextLines(ms), "\n") else NoMemories
  }

  /** The sentinel appears exactly when there are no memories. */
  lemma ContextSentinel(ms: seq<Recalled>)
    ensures MemoryContext(ms) == NoMemories <==> ms == []
  {
    if ms != [] {
      var r := MemoryContext(ms);
      assert |ContextHeader| > 2 && ContextHeader[2] == 'R';
      assert r[2] == ContextHeader[2];
      assert NoMemories[2] == 'T';
    }
  }

  /** When no shown text holds a line break, the block after the header reads back as one
      numbered line per memory, in order. */
  lemma ContextReadsBack(ms: seq<Recalled>)
    requires ms != []
    requires forall m :: m in ms ==> '\n' !in Shown(m)
    ensures var r := MemoryContext(ms);
      StartsWith(r, ContextHeader) && Split(r[|ContextHeader|..], '\n') == ContextLines(ms)
  {
    var lines := ContextLines(ms);
    forall i | 0 <= i < |lines| ensures '\n' !in lines[i] {
      LineHasNoBreak(i, ms[i]);
    }
    SplitJoin(lines, '\n');
    var r := MemoryContext(ms);
    assert r[..|ContextHeader|] == ContextHeader;
    assert r[|ContextHeader|..] == Join(lines, "\n");
  }

  /** Conversely, a memory whose shown summary or content holds a line break spans several
      lines of the block, so the block no longer reads back as one line per memory. */
  lemma BrokenMemorySpansLines(ms: seq<Recalled>, i: int)
    requires 0 <= i < |ms| && '\n' in Shown(ms[i])
    ensures var r := MemoryContext(ms);
      StartsWith(r, ContextHeader) && Split(r[|ContextHeader|..], '\n') != ContextLines(ms)
  {
    var line := ContextLine(i, ms[i]);
    var pre := "[Memory " + NatToString(i + 1) + "] ";
    var post := " (importance: " + RenderImportance(ms[i].importance) + "/10)";
    assert line == pre + Shown(ms[i]) + post;
    var j :| 0 <= j < |Shown(ms[i])| && Shown(ms[i])[j] == '\n';
    assert line[|pre| + j] == '\n';
    assert '\n' in ContextLines(ms)[i];
    var r := MemoryContext(ms);
    assert r[..|ContextHeader|] == ContextHeader;
  }

  lemma LineHasNoBreak(i: nat, m: Recalled)
    requires '\n' !in Shown(m)
    ensures '\n' !in ContextLine(i, m)
  {
    var n := NatToString(i + 1);
    var imp := RenderImportance(m.importance);
    assert forall k :: 0 <= k < |n| ==> n[k] != '\n';
    var line := ContextLine(i, m);
    assert line == "[Memory " + n + "] " + Shown(m) + " (importance: " + imp + "/10)";
  }

  /** The number of line `i` reads back as `i + 1`. */
  lemma LineNumberReadsBack(i: nat, m: Recalled)
    ensures var line := ContextLine(i, m);
      var n := NatToString(i + 1);
      StartsWith(line, "[Memory ") && line[|"[Memory "|..|"[Memory "| + |n|] == n && ParseDigits(n) == i + 1
  {
    var n := NatToString(i + 1);
    var line := ContextLine(i, m);
    assert line == "[Memory " + (n + ("] " + Shown(m) + " (importance: " + RenderImportance(m.importance) + "/10)"));
    NatToStringRoundTrip(i + 1);
  }

  /** The instructions before the memory block, one line per element. */
  const InstructionLines: seq<string> := [
    "You are RECALLION, an AI Memory Brain assistant. You help users by answering questions based on their stored memories and knowledge.",
    "",
    "You have access to the user's memory base and should:",
    "1. Ground your answers in the user's stored memories when relevant",
    "2. Clearly indicate which memories you're referencing",
    "3. Be honest when you don't have relevant memories to draw from",
    "4. Provide thoughtful, insightful answers that connect different memories",
    "5. Keep responses concise but comprehensive"]
  const PromptOpening := Join(InstructionLines, "\n") + "\n\n"
  const PromptClosing := "\n\nWhen referencing memories, mention them naturally in your response. Be conversational and helpful."

  /** A text placed between a fixed opening and a fixed closing. */
  function Framed(opening: string, text: string, closing: string): (r: string)
    ensures |r| == |opening| + |text| + |closing|
    ensures StartsWith(r, opening) && OccursAt(r, text, |opening|) && r[|opening| + |text|..] == closing
  {
    var r := opening + text + closing;
    assert r[..|opening|] == opening;
    assert r[|opening|..|opening| + |text|] == text;
    r
  }

  /** The system prompt: the fixed instructions with the memory block between them. */
  function SystemPrompt(ms: seq<Recalled>): string {
    Framed(PromptOpening, MemoryContext(ms), PromptClosing)
  }

  /** The memory block sits unchanged right after the instructions, so the prompt
      contains it. */
  lemma PromptHoldsContext(ms: seq<Recalled>)
    ensures OccursAt(SystemPrompt(ms), MemoryContext(ms), |PromptOpening|)
    ensures Contains(SystemPrompt(ms), MemoryContext(ms))
  {
    ContainsIffOccurs(SystemPrompt(ms), MemoryContext(ms));
  }

  /** `[{ role: "system", content: systemPrompt }, ...messages]`. */
  function Forwarded(prompt: string, messages: seq<Message>): (r: seq<Message>)
    ensures |r| == |messages| + 1 && r[0] == Message("system", prompt) && r[1..] == messages
  {
    [Message("system", prompt)] + messages
  }

  /** The request body: not JSON (with the parser's message); JSON whose `messages` is
      missing or not an array, so that `[...messages]` throws (with the runtime's message);
      or its `messages` and `userId` (taken as given, not authenticated). */
  datatype Incoming =
    | NotJson(message: string)
    | NoMessages(message: string)
    | ChatRequest(messages: seq<Message>, userId: string)

  /** The gateway's answer: an exception with its message, or a status and the event stream. */
  datatype Gateway = GatewayThrew(message: string) | GatewayAnswer(status: int, stream: seq<string>)

  /** What the function responds: the gateway's event stream, or a JSON error with a status. */
  datatype Response = EventStream(chunks: seq<string>) | Failure(status: int, error: string)

  const KeyMissing := "LOVABLE_API_KEY not configured"
  const RateLimited := "Rate limits exceeded"
  const PaymentRequired := "Payment required"
  const GatewayError := "AI gateway error"

  /** The status mapping of a gateway answer. */
  function Relay(status: int, stream: seq<string>): Response {
    if ChatStream.IsOk(status) then EventStream(stream)
    else if status == 429 then Failure(429, RateLimited)
    else if status == 402 then Failure(402, PaymentRequired)
    else Failure(500, GatewayError)
  }

  /** 429 and 402 are passed on, every other non-ok status becomes 500, and an ok answer's
      stream passes through unchanged. */
  lemma RelayStatuses(status: int, stream: seq<string>)
    ensures Relay(status, stream).EventStream? <==> ChatStream.IsOk(status)
    ensures Relay(status, stream).EventStream? ==> Relay(status, stream).chunks == stream
    ensures Relay(status, stream) == Failure(429, RateLimited) <==> status == 429
    ensures Relay(status, stream) == Failure(402, PaymentRequired) <==> status == 402
    ensures Relay(status, stream).Failure? && status != 429 && status != 402 ==> Relay(status, stream).status == 500
  {
  }

  /** The handler; `keyConfigured` says whether the gateway key is set. It returns the
      response, the text given to the embedding endpoint and the conversation sent to the
      gateway, if any. An exception anywhere becomes a 500 carrying its message. */
  method Handle(request: Incoming, keyConfigured: bool, embed: EmbedReply, search: SearchReply,
                fallback: Option<seq<Recalled>>, gateway: Gateway)
    returns (response: Response, embedded: Option<string>, sent: Option<seq<Message>>)
    ensures request.NotJson? ==> response == Failure(500, request.message) && embedded.None? && sent.None?
    ensures !request.NotJson? && !keyConfigured ==> response == Failure(500, KeyMissing) && embedded.None? && sent.None?
    ensures request.NoMessages? && keyConfigured ==> response == Failure(500, request.message) && embedded.None? && sent.None?
    ensures request.ChatRequest? && keyConfigured ==>
      var ms := Retrieved(embed, search, fallback);
      && embedded == Some(LastUserQuery(request.messages))
      && sent == Some(Forwarded(SystemPrompt(ms), request.messages))
      && response == match gateway
           case GatewayThrew(message) => Failure(500, message)
           case GatewayAnswer(status, stream) => Relay(status, stream)
  {
    embedded, sent := None, None;
    if request.NotJson? {
      return Failure(500, request.message), None, None;
    }
    if !keyConfigured {
      return Failure(500, KeyMissing), None, None;
    }
    if request.NoMessages? {
      return Failure(500, request.message), None, None;
    }
    var messages := request.messages;
    var query := LastUserQuery(messages);
    embedded := Some(query);
    var relevant, searchCall, fallbackCall := Retrieve(request.userId, embed, search, fallback);
    var prompt := SystemPrompt(relevant);
    sent := Some(Forwarded(prompt, messages));
    match gateway {
      case GatewayThrew(message) =>
        response := Failure(500, message);
      case GatewayAnswer(status, stream) =>
        if !ChatStream.IsOk(status) {
          if status == 429 {
            response := Failure(429, RateLimited);
          } else if status == 402 {
            response := Failure(402, PaymentRequired);
          } else {
            response := Failure(500, GatewayError);
          }
        } else {
          response := EventStream(stream);
        }
    }
  }
}
