# echomind-ai memory core in Dafny

This project models the core of the echomind-ai memory assistant. Users store short text
"memories". Three Supabase edge functions and three React components work on them:

- `process-memory` enriches one memory. It asks the model gateway for a summary, keywords,
  tags, an importance and an insight, asks the embedding endpoint for a vector, and writes
  the results to the row, scoped by id and owner.
- `chat` retrieves memories for the last user message. It first tries vector search over
  the embeddings (`match_memories`, threshold 0.3, at most 5). When that gives nothing, it
  falls back to the owner's five most important memories. It renders the memories into the
  system prompt, forwards the conversation to the gateway and relays its event stream or
  its error status.
- `review-memories` lists the caller's memories newest first. It sends the first twenty to
  the gateway in one prompt, then writes each returned review, in order, to the row with
  that id owned by the caller: a clamped importance and an insight.
- The chat panel's `send` posts the transcript. It then consumes the answer as a
  line-framed event stream (`data: {json}` lines, `[DONE]` at the end) whose chunk
  boundaries need not match its lines. It grows the assistant message as deltas arrive,
  and after the last read it flushes what is left in the buffer.
- The memory sidebar keeps the list of memories with add, delete, edit and reload. It
  derives the tag list and the tag chips, and filters the list by a case-insensitive
  search and a tag.
- The insights panel shows the important memories (importance 7 or more, at most five)
  and the five most recently updated ones.

The services (authentication, the model gateway, the embedding endpoint, `match_memories`,
`JSON.parse`) are oracles whose answers are parameters. Each handler is stated as a
decision function over those answers (`Decide`, `Relay`, `SendOutcome`). Each handler is
also run as a method against a `MemoryStore`, a class whose `rows` field stands for the
`memories` table. The methods `Update`, `Insert` and `Delete` change that field in place.

The stream consumer is modelled in two layers:

- `Drain` specifies the inner `indexOf("\n")` loop over the buffer. `Feed` and `FeedAll`
  specify the outer read loop, and `Flush` the flush.
- The class `StreamConsumer` runs the same loops in place over its `buffer`, `soFar`, `done`
  and `transcript` fields. Each method is proved against those functions.

The main stream properties are these:

- Appending input never changes what was already drained (`DrainAppend`).
- The final text does not depend on how the stream is cut into chunks
  (`ChunkSplitIrrelevant`). This holds as long as no complete line fails to parse and only
  blank text follows `[DONE]`.
- A complete line that fails to parse is put back, and parsing it again fails again. From
  then on the read loop appends nothing, whatever arrives (`FeedAllWhenBlocked`). The text
  of the lines behind it surfaces only in the flush.

`process-memory` and `review-memories` share the importance clamp into 1..10 (`Clamp`).
A missing importance is written as null, because `Math.max(1, Math.min(10, undefined))` is
NaN, which JSON renders as null. Two sidebar operations are scoped by id alone, as in the
code: the sidebar's delete (`.delete().eq("id", id)`) and its edit
(`.update(...).eq("id", id)`). `UpdateWhere` with owner `None` models these.

In four places the code does something other than what the system evidently intends.
The model follows the code in each:

- Intended: a complete line whose payload fails to parse is reported as a malformed frame
  and skipped, and reading goes on with the next line. The code puts such a line back into
  the buffer and stops the inner loop until more input arrives. `StuckLeavesBlocked` and
  `FeedAllWhenBlocked` state what follows from that: the reader never gets past it.
- Intended: an owner-scoped query uses an owner id that the server has verified. The
  `chat` function uses the `userId` of the request body as given, for the search and for
  the fallback query.
- Intended: an update or delete of another user's memory fails and leaves the row as it
  was. The sidebar's delete and edit filter by id only. Row-level security in the
  database, which is not part of this model, is what would stop them.
- Intended: enrichment survives any failure of the embedding call and writes the analysis
  without a vector. The code survives only a non-ok answer and an ok answer without a
  vector. A `fetch` that throws, or an ok body that is not JSON, reaches the handler's
  outer `catch`: the answer is 500 and nothing is written. `EmbeddingThrewIsFatal` states
  this.

## Model

| member | source | states |
|---|---|---|
| Strings.Trim | src/components/ChatPanel.tsx:28-29 | the trimmed text is no longer than the input and has no white space at either end |
| Strings.TrimIsInner | src/components/ChatPanel.tsx:29 | what `trim` keeps is a contiguous piece of the input, with only white space before and after it |
| Strings.TrimUnpadded | src/components/ChatPanel.tsx:81 | `trim` leaves a string unchanged exactly when it has no white space at either end |
| Strings.TrimEmptyIffBlank | src/components/ChatPanel.tsx:78 | `line.trim() === ""` holds exactly when every character of the line is white space |
| Strings.TrimAppendSpace | src/components/ChatPanel.tsx:77-78 | a trailing white-space character such as "\r" does not change the trimmed text |
| Strings.Find | src/components/ChatPanel.tsx:74 | `indexOf("\n")` gives the first position holding "\n", with the length standing for -1, and no earlier position holds it |
| Strings.FindAppend | src/components/ChatPanel.tsx:71-74 | the first "\n" of a buffer is still the first after more text is appended, and when there is none the search continues into the new text |
| Strings.StartsWithAppend | src/components/ChatPanel.tsx:78-79 | appending a character a prefix does not contain does not change whether a string starts with that prefix |
| Strings.ContainsIffOccurs | src/components/MemorySidebar.tsx:109-110 | `includes` holds exactly when some slice of the string equals the searched text |
| Strings.ToLower | src/components/MemorySidebar.tsx:109-110 | `toLowerCase` keeps the length and lowers each character in place |
| Strings.Split | src/components/ChatPanel.tsx:109 | `split("\n")` gives at least one piece and no piece holds the separator |
| Strings.JoinSplit | src/components/ChatPanel.tsx:109 | joining the pieces of a split with the separator gives back the split string |
| Strings.SplitJoin | supabase/functions/chat/index.ts:70-72 | splitting a join of separator-free pieces gives back the pieces |
| Strings.NatToString | supabase/functions/chat/index.ts:71 | the rendering of a number in a template string is a non-empty string of decimal digits |
| Strings.IntToString | supabase/functions/review-memories/index.ts:56 | an integer renders as decimal digits with at most a leading minus sign |
| Strings.NatToStringRoundTrip | supabase/functions/chat/index.ts:71 | the decimal rendering of a number reads back as that number |
| Lists.Filter | src/components/MemorySidebar.tsx:106-113 | `filter` keeps exactly the entries its predicate accepts, and no more entries than it was given |
| Lists.FilterSubsequence | src/components/MemorySidebar.tsx:106-113 | `filter` keeps the order of what it keeps |
| Lists.FilterKeepsAll | src/components/MemorySidebar.tsx:106-108 | a filter that accepts every entry returns the list unchanged |
| Lists.Take | src/components/InsightsPanel.tsx:33 | `slice(0, n)` is a prefix of at most `n` entries, the whole list when it is short, and exactly `n` entries otherwise |
| Lists.PrefixSubsequence | src/components/InsightsPanel.tsx:33 | a prefix is an order-preserving subsequence |
| Lists.SubsequenceTrans | src/components/InsightsPanel.tsx:33 | slicing a filtered list is still an order-preserving subsequence of the original |
| Lists.SubsequenceMembers | src/components/MemorySidebar.tsx:106-113 | every entry of a subsequence is an entry of the list |
| Memories.ApplyPatch | supabase/functions/process-memory/index.ts:143-158 | a partial update sets every column it writes to the written value, and keeps the id, owner, image, timestamps and every column it does not write |
| Memories.UpdateWhere | supabase/functions/process-memory/index.ts:154-158 | `.update(p).eq("id", id).eq("user_id", owner)` patches exactly the selected rows and leaves every other row as it was, in place |
| Memories.UpdateIsolation | supabase/functions/review-memories/index.ts:124-131 | an owner-scoped update never changes a row of another owner or with another id, and never changes a row's identity |
| Memories.Matching | supabase/functions/process-memory/index.ts:43-48 | the rows with that id and that owner, and only those |
| Memories.FindSingle | supabase/functions/process-memory/index.ts:43-54 | `.single()` returns only a row with that id and owner, and returns nothing when there is no such row |
| Memories.MatchingAtMostOne | supabase/functions/process-memory/index.ts:43-48 | with unique ids at most one row matches an id and an owner, and exactly one when such a row exists |
| Memories.NothingMatching | supabase/functions/process-memory/index.ts:43-48 | an id that no row has matches nothing |
| Memories.FindSingleFindsOwned | supabase/functions/process-memory/index.ts:43-54 | with unique ids the lookup finds a row exactly when the caller owns a row with that id |
| Memories.Clamp | supabase/functions/process-memory/index.ts:147 | `Math.max(1, Math.min(10, x))` lies in 1..10, is `x` inside that range, 1 below it and 10 above it |
| Memories.ClampImportance | supabase/functions/review-memories/index.ts:127 | a present importance is clamped into 1..10 and kept when already in range; a missing one stays missing, since it is written as null |
| Memories.RenderImportance | supabase/functions/chat/index.ts:71 | the rendering of an importance in a template string never holds a line break |
| Memories.WithoutRemoves | src/components/MemorySidebar.tsx:75-79 | delete-by-id keeps, in order, exactly the rows with another id, and changes nothing when no row has that id |
| Memories.MemoryStore.Update | supabase/functions/process-memory/index.ts:154-158 | the table after a filtered update is `UpdateWhere` of the table before |
| Memories.MemoryStore.Insert | src/components/MemorySidebar.tsx:48-52 | an insert appends the new row and keeps every other row |
| Memories.MemoryStore.Delete | src/components/MemorySidebar.tsx:75 | a delete by id removes exactly the rows with that id |
| ChatStream.StripCR | src/components/ChatPanel.tsx:77 | a line ending in "\r" loses exactly that character; any other line is unchanged |
| ChatStream.ClassifyStripCR | src/components/ChatPanel.tsx:77-82 | removing a second trailing "\r" does not change how a line is classified |
| ChatStream.ClassifyWithCR | src/components/ChatPanel.tsx:77-82 | a line with a trailing "\r" is classified like the line without it |
| ChatStream.BlankLineSkipped | src/components/ChatPanel.tsx:78 | a blank line appends nothing and lets the loop go on |
| ChatStream.DataLineAction | src/components/ChatPanel.tsx:79-99 | a `data: ` line whose payload parses appends exactly its delta text, or nothing when there is none |
| ChatStream.DoneLineAction | src/components/ChatPanel.tsx:82-85 | the `data: [DONE]` line ends the stream |
| ChatStream.DrainStep | src/components/ChatPanel.tsx:74-104 | one turn of the inner loop: a continuing line adds its text and the loop goes on with the rest, `[DONE]` stops with the rest kept, and a rejected line is put back in front of the rest |
| ChatStream.DrainLeavesLastLine | src/components/ChatPanel.tsx:74-76 | when the inner loop runs out of complete lines, what is left is exactly the text after the last "\n" of the buffer |
| ChatStream.DrainAppend | src/components/ChatPanel.tsx:71-104 | draining a buffer with more text appended is draining the buffer and then resuming on what it left plus the new text, so input that arrives later never changes what was already read |
| ChatStream.DrainPastLine | src/components/ChatPanel.tsx:74-99 | a complete line that continues contributes its text in front of what the rest of the buffer contributes |
| ChatStream.DrainToSentinel | src/components/ChatPanel.tsx:82-85 | a complete `[DONE]` line stops the loop and leaves the rest of the buffer untouched |
| ChatStream.DrainRejected | src/components/ChatPanel.tsx:100-103 | a complete line that fails to parse is put back, without its "\r", in front of the rest, and nothing is added |
| ChatStream.ReadingRejectsRetry | src/components/ChatPanel.tsx:100-103 | the panel's line treatment rejects a put-back line again, so retrying it cannot get past it |
| ChatStream.RejectedAgain | src/components/ChatPanel.tsx:77-103 | the line a rejection puts back holds no "\n" and is rejected again |
| ChatStream.StuckLeavesBlocked | src/components/ChatPanel.tsx:100-103 | after the loop stops at a malformed line, the buffer starts with a complete line that will be rejected |
| ChatStream.BlockedStaysBlocked | src/components/ChatPanel.tsx:71-103 | once the buffer starts with a rejected line, more input adds no text and leaves it blocked |
| ChatStream.FeedAllAppend | src/components/ChatPanel.tsx:68-105 | reading two runs of chunks is reading the first run and then the second from where it left off |
| ChatStream.FeedAllAfterDone | src/components/ChatPanel.tsx:68-85 | once `[DONE]` has been read, further chunks change nothing |
| ChatStream.FeedAllWhenBlocked | src/components/ChatPanel.tsx:68-105 | once blocked by a malformed line, the read loop adds no text whatever arrives, never sees `[DONE]` and stays blocked |
| ChatStream.FeedAllFollowsDrain | src/components/ChatPanel.tsx:68-105 | without malformed lines and with only blank text after `[DONE]`, the read loop over any chunking has the text, the end flag and the leftover of one drain of the concatenation |
| ChatStream.FlushBlank | src/components/ChatPanel.tsx:108 | a blank buffer flushes to nothing |
| ChatStream.ChunkSplitIrrelevant | src/components/ChatPanel.tsx:68-131 | the final assistant text is the text of the whole stream read at once, whatever the chunk boundaries |
| ChatStream.SingleChunk | src/components/ChatPanel.tsx:68-131 | a stream delivered in one chunk yields the text of the whole stream read at once |
| ChatStream.SameTextForAnySplit | src/components/ChatPanel.tsx:68-131 | two chunkings of the same stream give the same final assistant text |
| ChatStream.OneLine | src/components/ChatPanel.tsx:74-130 | an unterminated last line gives in the flush the text it would give on its own in the loop |
| ChatStream.FlushAgreesWithDrain | src/components/ChatPanel.tsx:107-131 | the flush treats a leftover line as the inner loop would have once it were terminated |
| ChatStream.TwoEventsThenDone | src/components/ChatPanel.tsx:74-104 | two events then `[DONE]`, each followed by a blank line, give the two texts in order and stop |
| ChatStream.TwoEventsForAnySplit | src/components/ChatPanel.tsx:68-131 | two events then `[DONE]` give the two texts concatenated, however the stream is chunked |
| ChatStream.HelloForAnySplit | src/components/ChatPanel.tsx:68-131 | the events "Hel" and "lo" then `[DONE]` give "Hello", however the stream is chunked |
| ChatStream.EndsAtSentinel | src/components/ChatPanel.tsx:82-108 | a stream that reaches `[DONE]` with only blank text after it ends with exactly the text read before the sentinel |
| ChatStream.Upsert | src/components/ChatPanel.tsx:92-98 | the running text becomes the last message: it replaces the content of a trailing assistant message and keeps everything before it, or it is appended as a new assistant message |
| ChatStream.UpsertTwice | src/components/ChatPanel.tsx:92-98 | a later upsert overwrites an earlier one, so the transcript holds only the latest running text |
| ChatStream.StreamConsumer.constructor | src/components/ChatPanel.tsx:64-66 | the consumer starts with an empty buffer, no text, not done, and the given transcript |
| ChatStream.StreamConsumer.Extend | src/components/ChatPanel.tsx:90-98 | a non-empty delta extends the running text and the transcript shows it; the buffer and the end flag are untouched |
| ChatStream.StreamConsumer.TakeLine | src/components/ChatPanel.tsx:75-103 | one complete line is cut from the buffer: a continuing line adds its text, `[DONE]` sets the end flag, a malformed line is put back and the loop stops |
| ChatStream.StreamConsumer.FeedChunk | src/components/ChatPanel.tsx:71-104 | appending a chunk and running the inner loop in place gives the state that `Feed` specifies |
| ChatStream.StreamConsumer.ReadAll | src/components/ChatPanel.tsx:68-105 | reading chunk after chunk until they run out or `[DONE]` gives the state that `FeedAll` specifies |
| ChatStream.StreamConsumer.FlushPiece | src/components/ChatPanel.tsx:110-129 | one piece of the flush adds the text it would give as a line, and nothing for an empty piece, `[DONE]` or a parse failure |
| ChatStream.StreamConsumer.FlushRest | src/components/ChatPanel.tsx:107-131 | the flush leaves the running text equal to the loop's text followed by the flush of the leftover buffer |
| ChatStream.SendOutcomeExtends | src/components/ChatPanel.tsx:29-139 | `send` never rewrites the transcript: it is the old one, the user message, and then at most two assistant messages |
| ChatStream.SendFailures | src/components/ChatPanel.tsx:49-60 | 429 and 402 add nothing after the user message; an unreachable server, another non-ok status or a missing body add exactly the apology |
| ChatStream.ChatPanel.constructor | src/components/ChatPanel.tsx:16-18 | the panel starts with no messages, an empty input and no request running |
| ChatStream.ChatPanel.Send | src/components/ChatPanel.tsx:27-139 | nothing happens for blank input, without a user or while loading; otherwise the trimmed input is appended as a user message, the transcript including it is posted, the answer is streamed into the transcript, the input is cleared and loading ends |
| ChatFunction.WireAll | src/components/ChatPanel.tsx:44 | the posted messages are the transcript's messages, one for one, with their roles as strings |
| ChatFunction.LastUserQuery | supabase/functions/chat/index.ts:23 | the query is the content of the last user message, and "" when there is none |
| ChatFunction.QueryIsNewMessage | src/components/ChatPanel.tsx:29-44 | the query the chat function extracts from a `send` request is exactly the user message just added |
| ChatFunction.Retrieve | supabase/functions/chat/index.ts:26-66 | the search is issued exactly when the embedding answer is ok and carries a vector, with threshold 0.3, count 5 and the caller's id; the fallback query by descending importance, limit 5, is issued exactly when the search gave nothing; the result is `Retrieved` |
| ChatFunction.RetrievalPrefersSearch | supabase/functions/chat/index.ts:40-66 | search results win when there are any; otherwise the fallback's rows are used, or none; an embedding or search failure never escapes and always degrades to the fallback |
| ChatFunction.ContextLines | supabase/functions/chat/index.ts:71 | one line per retrieved memory, in order and numbered from 1 |
| ChatFunction.ContextSentinel | supabase/functions/chat/index.ts:69-73 | the "no stored memories" sentinel appears exactly when nothing was retrieved |
| ChatFunction.ContextReadsBack | supabase/functions/chat/index.ts:69-73 | when no shown summary or content holds a line break, the memory block under the header splits back at "\n" into exactly one rendered line per memory, in order |
| ChatFunction.BrokenMemorySpansLines | supabase/functions/chat/index.ts:69-73 | when some shown summary or content holds a line break, the block does not split back into one line per memory |
| ChatFunction.LineNumberReadsBack | supabase/functions/chat/index.ts:71 | line `i` starts with `[Memory ` and a number that reads back as `i + 1` |
| ChatFunction.Framed | supabase/functions/chat/index.ts:75-86 | a text framed by a fixed opening and closing sits unchanged right after the opening, with the closing after it |
| ChatFunction.PromptHoldsContext | supabase/functions/chat/index.ts:75-86 | the system prompt contains the memory block unchanged, right after the fixed instructions |
| ChatFunction.Forwarded | supabase/functions/chat/index.ts:96-99 | the gateway receives the system prompt first and then the request's messages unchanged |
| ChatFunction.RelayStatuses | supabase/functions/chat/index.ts:104-124 | an ok gateway answer's stream passes through unchanged; 429 and 402 are passed on with their own messages; every other failure becomes 500 |
| ChatFunction.Handle | supabase/functions/chat/index.ts:12-129 | a body that is not JSON, a missing key, or (with the key set) a body without a `messages` array gives 500 with the error's message and issues no request; otherwise the last user message is embedded, the conversation with the system prompt over the retrieved memories is sent, and the gateway's answer is relayed, or its exception becomes 500 |
| Enrichment.ChosenText | supabase/functions/process-memory/index.ts:111-119 | the tool call's arguments are parsed when there is a tool call, otherwise the message content, and "{}" when that is missing or empty; there is no text to parse exactly when the tool call has no arguments, where `JSON.parse(undefined)` throws |
| Enrichment.ToolCallWithoutArguments | supabase/functions/process-memory/index.ts:112-119 | a tool call without arguments does not fall back to the content: the call fails, nothing is embedded and the table is unchanged |
| Enrichment.EmbeddingInput | supabase/functions/process-memory/index.ts:130 | the embedded text is the summary, or "", then a space, then the memory's content |
| Enrichment.PatchShape | supabase/functions/process-memory/index.ts:143-152 | the update never writes the content; it always writes a clamped importance, null when missing; it writes the embedding exactly when one was returned, and the summary and insight exactly when present |
| Enrichment.NoBearerFirst | supabase/functions/process-memory/index.ts:13-18 | without a bearer token the answer is 401, whatever the services and the table |
| Enrichment.NotFoundBeforeAi | supabase/functions/process-memory/index.ts:43-54 | a memory the caller does not own gives 404 before the gateway is consulted, whatever it would answer |
| Enrichment.NotFoundIffNotOwned | supabase/functions/process-memory/index.ts:43-54 | for an authenticated, configured call, 404 is answered exactly when the caller owns no row with that id |
| Enrichment.AiFailureWritesNothing | supabase/functions/process-memory/index.ts:104-109 | a failed gateway answer issues no update, leaves the table unchanged and ends in 401, 404 or 500 |
| Enrichment.EmbeddingNotFatal | supabase/functions/process-memory/index.ts:134-152 | a non-ok embedding answer, or an ok one without a vector, still writes the analysis, without the embedding column, and success depends only on the update |
| Enrichment.EmbeddingThrewIsFatal | supabase/functions/process-memory/index.ts:122-140 | an embedding call that throws, or whose body is not JSON, ends in the outer catch: 500, no update, table unchanged |
| Enrichment.WriteIsScoped | supabase/functions/process-memory/index.ts:154-158 | the call changes only the caller's row with that id, never its content, identity or timestamps, and any importance it writes is in 1..10 or null |
| Enrichment.SuccessWrites | supabase/functions/process-memory/index.ts:154-169 | a 200 answer means the caller owns the memory and the enrichment patch was written, scoped by id and owner |
| Enrichment.Handle | supabase/functions/process-memory/index.ts:12-174 | the handler answers as `Decide` does, and the table afterwards holds exactly its update applied, unless that update failed |
| Review.Excerpt | supabase/functions/review-memories/index.ts:56 | the excerpt is the first 200 characters of the content, or all of it when shorter |
| Review.ExcerptCuts | supabase/functions/review-memories/index.ts:56 | a short content is quoted whole, and a long one is cut to a 200-character prefix |
| Review.PromptLines | supabase/functions/review-memories/index.ts:55-57 | one line per memory for at most the first twenty, numbered from 1, in the listing's order |
| Review.PromptSeesFirstTwenty | supabase/functions/review-memories/index.ts:55 | memories beyond the twentieth never change the prompt |
| Review.ReviewPatch | supabase/functions/review-memories/index.ts:126-129 | a review writes only a clamped importance and, when present, the insight |
| Review.ReviewKeeps | supabase/functions/review-memories/index.ts:123-132 | the loop keeps each row's identity, content, summary, keywords, tags, embedding and timestamps, never touches another user's row, and writes importances only in 1..10 or null |
| Review.ReviewUnnamed | supabase/functions/review-memories/index.ts:123-132 | a row that no applied review names is left unchanged |
| Review.LastReviewWins | supabase/functions/review-memories/index.ts:123-132 | for a row named several times, the last applied review decides its importance and its insight |
| Review.ClampExamples | supabase/functions/review-memories/index.ts:127 | new importances 0 and 11 become 1 and 10, 7 stays 7, and a missing one stays missing |
| Review.NothingListed | supabase/functions/review-memories/index.ts:49-53 | with no memories, or a listing error, the answer is "No memories to review", no prompt is sent and nothing is written |
| Review.AiFailureReviewsNothing | supabase/functions/review-memories/index.ts:107-112 | a failed gateway answer writes nothing and does not succeed with reviews |
| Review.ReviewedCount | supabase/functions/review-memories/index.ts:114-134 | `reviewed` counts every review returned, and is 0 when there is no tool call |
| Review.ToolCallWithoutArguments | supabase/functions/review-memories/index.ts:115-118 | a tool call without arguments makes the parse throw: no success with reviews, and the table is unchanged |
| Review.ApplyReviews | supabase/functions/review-memories/index.ts:123-132 | the sequential update loop leaves the table as `ReviewedRows` states |
| Review.ListingScoped | supabase/functions/review-memories/index.ts:43-57 | once the caller is known, the listing is issued for the caller's own rows newest first, and any prompt is rendered from that listing's answer |
| Review.PromptShowsOnlyOwn | supabase/functions/review-memories/index.ts:43-57 | when the store answers the owner-scoped listing with the owner's rows, every prompt line renders one of the caller's rows, so no other user's memory reaches the gateway |
| Review.Handle | supabase/functions/review-memories/index.ts:12-141 | the handler answers as `Decide` does, issues the listing `Decide` records, and leaves the table as `After` states |
| Sidebar.FlatTags | src/components/MemorySidebar.tsx:104 | the flattened tags are exactly the tags of some memory, with missing tags treated as none |
| Sidebar.Distinct | src/components/MemorySidebar.tsx:104 | a `Set` made into an array holds each of the input's values exactly once |
| Sidebar.DistinctInFirstOccurrenceOrder | src/components/MemorySidebar.tsx:104 | the distinct tags come in the order of their first occurrence |
| Sidebar.AllTagsOnce | src/components/MemorySidebar.tsx:104 | the tag list holds every tag of some memory, each once, in the order of first occurrence |
| Sidebar.Chips | src/components/MemorySidebar.tsx:177 | the chips are the first eight tags of the tag list, or all of them when there are fewer |
| Sidebar.Toggle | src/components/MemorySidebar.tsx:182 | clicking the active chip clears the filter; clicking another chip selects it |
| Sidebar.FilteredIsSubsequence | src/components/MemorySidebar.tsx:106-113 | the list shown holds, in their order, exactly the memories that match the search and the tag, and all memories when there is neither |
| Sidebar.ToLowerIdempotent | src/components/MemorySidebar.tsx:109-110 | lowering twice is lowering once |
| Sidebar.SearchIgnoresCase | src/components/MemorySidebar.tsx:107-110 | the search ignores its own letter case, and a non-empty search matches exactly when its lowered text occurs in the lowered content or summary |
| Sidebar.ChipNarrowsAndClears | src/components/MemorySidebar.tsx:111 | selecting a chip keeps exactly the searched memories that carry its tag, and clicking it again gives back the searched list |
| Sidebar.NewRow | src/components/MemorySidebar.tsx:48-52 | a new row holds the given id, the caller as owner and the content, with nothing derived yet |
| Sidebar.ContentPatch | src/components/MemorySidebar.tsx:86-89 | an edit writes the content column and no other |
| Sidebar.EditWritesContentOnly | src/components/MemorySidebar.tsx:86-89 | an edit changes the content of the rows with that id and leaves every other column and row unchanged |
| Sidebar.MemorySidebar.constructor | src/components/MemorySidebar.tsx:18-25 | the initial state: no memories, no search, no filter, no add box, no edit |
| Sidebar.MemorySidebar.Load | src/components/MemorySidebar.tsx:27-39 | without a user no query is issued; otherwise the caller's rows are listed newest first, a reload without error replaces the list by the answer, and an error keeps it; no other state changes |
| Sidebar.MemorySidebar.HandleAdd | src/components/MemorySidebar.tsx:45-72 | without a user or with blank text nothing changes; a failed insert changes no data and ends saving; a successful one appends the trimmed row to the table, puts it first in the list, clears and closes the add box and asks for its enrichment |
| Sidebar.MemorySidebar.Added | src/components/MemorySidebar.tsx:51-57 | an accepted insert appends the row to the table, puts it first in the list, clears the add text and closes the add box, and changes nothing else |
| Sidebar.MemorySidebar.HandleDelete | src/components/MemorySidebar.tsx:74-82 | a delete that succeeds removes the rows with that id from both the table and the list; a failed one changes neither |
| Sidebar.MemorySidebar.StartEdit | src/components/MemorySidebar.tsx:257-260 | the edit box opens on the memory's id and content and nothing else changes |
| Sidebar.MemorySidebar.HandleEdit | src/components/MemorySidebar.tsx:84-102 | blank text or a failed update changes nothing; otherwise the trimmed content is written to the rows with that id, the edit box closes, enrichment is requested and the list is reloaded |
| Sidebar.MemorySidebar.ClickChip | src/components/MemorySidebar.tsx:177-182 | clicking a shown chip toggles the tag filter, and nothing else changes |
| Insights.TopMemoriesAreImportant | src/components/InsightsPanel.tsx:33 | at most five memories, each with importance of at least 7, in the list's order; exactly the first qualifying ones, five of them when at least five qualify, and all of them when five or fewer do |
| Insights.InsertNewest | src/components/InsightsPanel.tsx:34-35 | one insertion step of the sort adds the entry and keeps every other entry |
| Insights.InsertKeepsNewestFirst | src/components/InsightsPanel.tsx:34-35 | an insertion into a newest-first list keeps it newest first |
| Insights.SortNewest | src/components/InsightsPanel.tsx:34-35 | the sorted copy is a permutation of the memories, ordered by non-increasing `updated_at` |
| Insights.SortedCopy | src/components/InsightsPanel.tsx:34 | the sort works on a copy with the same entries, as many of them as in the list |
| Insights.PrefixIsNewest | src/components/InsightsPanel.tsx:34-36 | an entry that a prefix of a newest-first list leaves out is no newer than any entry it keeps |
| Insights.RecentMemoriesAreNewest | src/components/InsightsPanel.tsx:34-36 | at most five memories, newest first and taken from the list, none more often than it occurs there; no memory left out is newer than one shown; five when there are at least five; and all of them when there are at most five |

## Left out

- Network I/O, the Supabase client and the model gateway are not modelled as code. Their
  answers are parameters (the `Services` records, `Reply`, `EmbedReply`, `SearchReply`,
  `Gateway`), and the model records the requests issued.
- `JSON.parse` and the optional-chaining reads of its result are oracles (`Parser`,
  `ArgsParser`, `ReviewsParser`), so nothing here depends on JSON syntax.
- JSON `null` and an absent field are not told apart. A field left out of an update payload
  is `Keep`, an explicit null is `Put(None)`, and a non-integer importance is not modelled.
  Memories.ClampImportance: an explicit `null` importance is clamped to 1 by the code,
  since `Math.min(10, null)` is 0. The model treats it as missing and writes null.
- ChatFunction.MemoryContext: a memory's summary or content is put into its context line
  as it is. Memory text typed in the sidebar can hold line breaks, and such a memory then
  spans several lines of the block (`BrokenMemorySpansLines`). Its text can also imitate a
  `[Memory k]` line. `ContextReadsBack` holds only for memories without line breaks.
- The `TextDecoder`: chunks are already-decoded strings.
- Review.Excerpt: lengths and cuts count characters, not UTF-16 code units as JavaScript's
  `length` and `slice` do. Text with characters outside the Basic Multilingual Plane is cut
  later than `slice(0, 200)` cuts it, and never in the middle of a surrogate pair.
- `trim` covers the ASCII white space, U+00A0 and U+FEFF, not every Unicode space.
  `toLowerCase` lowers only the ASCII letters.
- Timestamps are integers. `created_at` renders in decimal in the review prompt, and
  `new Date(...).getTime()` is the integer itself.
- Memories.ApplyPatch: an update is taken to leave `updated_at` as it was. No code here
  writes it, and a database trigger that sets it on update is not part of this model. So
  `Insights.RecentMemories` orders by the time the model gives a row at insert.
- The average importance and the health score of the insights panel
  (src/components/InsightsPanel.tsx:29-46) are floating-point presentation figures.
- React rendering, toasts, the loading spinner, scrolling and the asynchronous scheduling
  of state updates are not modelled. Each handler runs to its end in one step.
- The queries that order or limit rows are oracles: the chat fallback by importance, the
  review listing and the sidebar's load by `created_at`, and the insights panel's load.
  Their results are parameters. The model records the query each issues, with its owner
  (`FallbackQuery`, `Listing`); `ListedFrom` states what a faithful answer to a listing is.
  The filters on id and owner are modelled on the rows for the single fetch of
  `process-memory`, the updates and the delete.
- `match_memories` is an oracle. Its similarity ranking and threshold are the database's.
- Environment variables are booleans (`keyConfigured`). The CORS headers and the OPTIONS
  preflight answer are not modelled.
- ChatFunction.Handle: the `userId` of the request body is taken as given, as the code
  does. No authentication of it is modelled.
- Review.ReviewedRows: the results of the individual review updates are not checked by the
  code. Which updates land is a parameter (`landed`).
- Sidebar.MemorySidebar.HandleAdd: the row that the insert returns is the oracle parameter
  `created` (its id and timestamp). The reload after the enrichment request is not part of
  this method: `Load` models it.
- Sidebar.MemorySidebar.Load: `data || []` with null data and no error is folded into the
  error case.
- Enrichment.Decide: a JSON error in the embedding response is folded into
  `EmbeddingThrew`. A body without `memoryId` is an id that matches no row.
- Enrichment.Decide and ChatFunction.Handle: the message of a thrown value that is not an
  `Error` ("Unknown error") is not told apart. The model carries one message string.
- Insights.SortNewest: the sort is a stable insertion sort with the same comparator. Its
  stability, and invalid dates (a NaN comparator result), are not stated.
- ChatStream.StreamConsumer: the class is stated for any per-line treatment `step`. The
  panel uses `Reading(parse)`.
- ChatStream.ChunkSplitIrrelevant: chunk independence is proved only for streams in which
  no complete line fails to parse and only blank text follows `[DONE]`. Either of those
  can make the result depend on the chunk boundaries.
