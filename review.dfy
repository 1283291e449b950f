/**
 * The `review-memories` edge function (supabase/functions/review-memories/index.ts): it
 * lists the caller's memories newest first, renders the first twenty into a prompt, asks
 * the model gateway for reviews, and applies each review, in order, to the row with that
 * id owned by the caller: a clamped importance and an insight.
 *
 * The claims service, the listing query (its order is the database's), the gateway and
 * `JSON.parse` are oracles; the table is a `MemoryStore` that the update loop changes in
 * place. `Outcome` states the handler as a decision, `ReviewedRows` the loop.
 */
module Review {
  import opened Wrappers
  import opened Strings
  import opened Memories

  /** One element of `reviews`: a memory id, `new_importance` and `review_insight`,
      the last two possibly missing. */
  datatype Review = Review(id: string, newImportance: Option<int>, insight: Option<string>)

  /** `JSON.parse(toolCall.function.arguments).reviews`: None when the parse throws or gives
      null, otherwise the `reviews` field, if present. */
  type ReviewsParser = string -> Option<Option<seq<Review>>>

  /** The gateway's JSON: the first tool call, if there is one, with its
      `function.arguments` if present. */
  datatype AiBody = AiNotJson | AiJson(toolCall: Option<Option<string>>)

  datatype AiReply = AiThrew | AiAnswer(ok: bool, body: AiBody)

  /** The services' answers for one call: whether the gateway key is configured, the
      `sub` claim of the token, the listing of the caller's memories newest first (None
      on a query error), the gateway, the parser, and which of the updates, by position,
      the store applies (their results are not checked). */
  datatype Services = Services(
    keyConfigured: bool,
    user: Option<string>,
    listed: Option<seq<Memory>>,
    ai: AiReply,
    parse: ReviewsParser,
    landed: nat -> bool)

  datatype Answer = Error(message: string) | NothingToReview | Reviewed(count: nat)

  /** The response, the listing query issued (if any), the prompt sent to the gateway (if
      any) and the reviews applied. */
  datatype Outcome = Outcome(status: int, answer: Answer, listing: Option<Listing>, prompt: Option<string>, reviews: seq<Review>)

  const Unauthorized := "Unauthorized"
  const AiFailed := "AI review failed"
  const Generic := "An error occurred"
  const PromptLimit: nat := 20
  const ExcerptLimit: nat := 200
  const PromptIntro := "Review these memories:\n"

  /** `s.slice(0, 200)`. */
  function Excerpt(s: string): (r: string)
    ensures |r| == Min(|s|, ExcerptLimit) && r == s[..|r|]
  {
    if |s| <= ExcerptLimit then s else s[..ExcerptLimit]
  }

  /** `[${i + 1}] ID: ${m.id} | Content: ${excerpt} | Importance: ${m.importance}/10 | Created: ${m.created_at}`. */
  function PromptLine(i: nat, m: Memory): string {
    "[" + NatToString(i + 1) + "] ID: " + m.id + " | Content: " + Excerpt(m.content)
    + " | Importance: " + RenderImportance(m.importance) + "/10 | Created: " + IntToString(m.createdAt)
  }

  /** One line for each of the first twenty memories, numbered from 1. */
  function PromptLines(ms: seq<Memory>): (r: seq<string>)
    ensures |r| == Min(|ms|, PromptLimit)
    ensures forall i :: 0 <= i < |r| ==> r[i] == PromptLine(i, ms[i])
  {
    var n := Min(|ms|, PromptLimit);
    seq(n, i requires 0 <= i < n => PromptLine(i, ms[i]))
  }

  /** The user message of the review request. */
  function ReviewPrompt(ms: seq<Memory>): string {
    PromptIntro + Join(PromptLines(ms), "\n")
  }

  /** A memory beyond the twentieth never reaches the prompt: the prompt depends only on
      the first twenty. */
  lemma PromptSeesFirstTwenty(ms: seq<Memory>, more: seq<Memory>)
    requires |ms| >= PromptLimit
    ensures ReviewPrompt(ms + more) == ReviewPrompt(ms)
  {
    var a, b := PromptLines(ms + more), PromptLines(ms);
    assert forall i :: 0 <= i < |a| ==> (ms + more)[i] == ms[i];
    assert a == b;
  }

  /** The excerpt is the whole content when it is short, and its first 200 characters otherwise. */
  lemma ExcerptCuts(s: string)
    ensures |s| <= ExcerptLimit ==> Excerpt(s) == s
    ensures |s| > ExcerptLimit ==> |Excerpt(s)| == ExcerptLimit && StartsWith(s, Excerpt(s))
  {
  }

  /** The columns a review writes: a clamped importance (null when missing) and the insight
      (left out when missing). */
  function ReviewPatch(r: Review): (p: Patch)
    ensures p.content.Keep? && p.summary.Keep? && p.keywords.Keep? && p.tags.Keep? && p.embedding.Keep?
    ensures p.importance == Put(ClampImportance(r.newImportance))
    ensures p.aiInsight == if r.insight.Some? then Put(r.insight) else Keep
  {
    Patch(Keep, Keep, Keep, Keep, Put(ClampImportance(r.newImportance)),
          if r.insight.Some? then Put(r.insight) else Keep, Keep)
  }

  /** The table after the first `|rs|` turns of the update loop. */
  function ReviewedRows(rows: seq<Memory>, rs: seq<Review>, user: string, landed: nat -> bool): (r: seq<Memory>)
    ensures |r| == |rows|
    decreases |rs|
  {
    if rs == [] then rows
    else
      var n := |rs| - 1;
      var before := ReviewedRows(rows, rs[..n], user, landed);
      if landed(n) then UpdateWhere(before, rs[n].id, Some(user), ReviewPatch(rs[n])) else before
  }

  /** The loop keeps every row in place with its identity, content, summary, keywords,
      tags, embedding and timestamps; and it changes no row of another user. */
  lemma {:induction false} ReviewKeeps(rows: seq<Memory>, rs: seq<Review>, user: string, landed: nat -> bool, k: int)
    requires 0 <= k < |rows|
    ensures var r := ReviewedRows(rows, rs, user, landed);
      && |r| == |rows|
      && r[k].id == rows[k].id && r[k].userId == rows[k].userId && r[k].content == rows[k].content
      && r[k].summary == rows[k].summary && r[k].keywords == rows[k].keywords && r[k].tags == rows[k].tags
      && r[k].embedding == rows[k].embedding && r[k].imageUrl == rows[k].imageUrl
      && r[k].createdAt == rows[k].createdAt && r[k].updatedAt == rows[k].updatedAt
      && (rows[k].userId != user ==> r[k] == rows[k])
      && (r[k].importance != rows[k].importance ==> r[k].importance.None? || 1 <= r[k].importance.value <= 10)
    decreases |rs|
  {
    if rs != [] {
      var n := |rs| - 1;
      ReviewKeeps(rows, rs[..n], user, landed, k);
      var before := ReviewedRows(rows, rs[..n], user, landed);
      if landed(n) {
        UpdateIsolation(before, rs[n].id, user, ReviewPatch(rs[n]), k);
      }
    }
  }

  /** A row that no applied review names is left as it was. */
  lemma {:induction false} ReviewUnnamed(rows: seq<Memory>, rs: seq<Review>, user: string, landed: nat -> bool, k: int)
    requires 0 <= k < |rows|
    requires forall j :: 0 <= j < |rs| && landed(j) ==> rs[j].id != rows[k].id
    ensures ReviewedRows(rows, rs, user, landed)[k] == rows[k]
    decreases |rs|
  {
    if rs != [] {
      var n := |rs| - 1;
      ReviewUnnamed(rows, rs[..n], user, landed, k);
      if landed(n) {
        ReviewKeeps(rows, rs[..n], user, landed, k);
      }
    }
  }

  /** Reviews are applied in order: the caller's row takes the importance of the last
      applied review naming it, clamped, and that review's insight if it has one. */
  lemma {:induction false} LastReviewWins(rows: seq<Memory>, rs: seq<Review>, user: string, landed: nat -> bool, k: int, j: int)
    requires 0 <= k < |rows| && rows[k].userId == user
    requires 0 <= j < |rs| && landed(j) && rs[j].id == rows[k].id
    requires forall i :: j < i < |rs| && landed(i) ==> rs[i].id != rows[k].id
    ensures var r := ReviewedRows(rows, rs, user, landed);
      && r[k].importance == ClampImportance(rs[j].newImportance)
      && (rs[j].insight.Some? ==> r[k].aiInsight == rs[j].insight)
    decreases |rs|
  {
    var n := |rs| - 1;
    var before := ReviewedRows(rows, rs[..n], user, landed);
    ReviewKeeps(rows, rs[..n], user, landed, k);
    if j == n {
      assert Selected(before[k], rs[n].id, Some(user));
    } else {
      LastReviewWins(rows, rs[..n], user, landed, k, j);
      if landed(n) {
        assert !Selected(before[k], rs[n].id, Some(user));
      }
    }
  }

  /** `Math.max(1, Math.min(10, …))` on a review with importance 0, 11 and 7. */
  lemma ClampExamples()
    ensures ClampImportance(Some(0)) == Some(1) && ClampImportance(Some(11)) == Some(10)
    ensures ClampImportance(Some(7)) == Some(7) && ClampImportance(None) == None
  {
  }

  /** `authHeader?.startsWith("Bearer ")`. */
  predicate HasBearer(authorization: Option<string>) {
    authorization.Some? && StartsWith(authorization.value, "Bearer ")
  }

  function Fail(status: int, message: string, listing: Option<Listing>, prompt: Option<string>): Outcome {
    Outcome(status, Error(message), listing, prompt, [])
  }

  /** The handler as a decision over the services' answers. */
  function Decide(authorization: Option<string>, sv: Services): Outcome {
    if !HasBearer(authorization) then Fail(401, Unauthorized, None, None)
    else if !sv.keyConfigured then Fail(500, Generic, None, None)
    else if sv.user.None? then Fail(401, Unauthorized, None, None)
    else
      var listing := Some(Listing(sv.user.value, true));
      if sv.listed.None? || sv.listed.value == [] then Outcome(200, NothingToReview, listing, None, [])
      else
        var prompt := Some(ReviewPrompt(sv.listed.value));
        match sv.ai
        case AiThrew => Fail(500, Generic, listing, prompt)
        case AiAnswer(ok, body) =>
          if !ok then Fail(500, AiFailed, listing, prompt)
          else if body.AiNotJson? then Fail(500, Generic, listing, prompt)
          else if body.toolCall.None? then Outcome(200, Reviewed(0), listing, prompt, [])
          else if body.toolCall.value.None? then Fail(500, Generic, listing, prompt)
          else
            match sv.parse(body.toolCall.value.value)
            case None => Fail(500, Generic, listing, prompt)
            case Some(field) =>
              var reviews := field.GetOr([]);
              Outcome(200, Reviewed(|reviews|), listing, prompt, reviews)
  }

  /** The table after the call. */
  function After(rows: seq<Memory>, o: Outcome, user: Option<string>, landed: nat -> bool): seq<Memory> {
    if user.Some? then ReviewedRows(rows, o.reviews, user.value, landed) else rows
  }

  /** The listing is issued, once the caller is known, for the caller's own rows newest
      first; and any prompt is rendered from that listing's answer. */
  lemma ListingScoped(authorization: Option<string>, sv: Services)
    ensures var o := Decide(authorization, sv);
      o.listing.Some? <==> HasBearer(authorization) && sv.keyConfigured && sv.user.Some?
    ensures var o := Decide(authorization, sv);
      o.listing.Some? ==> o.listing.value == Listing(sv.user.value, true)
    ensures var o := Decide(authorization, sv);
      o.prompt.Some? ==> o.listing.Some? && sv.listed.Some? && o.prompt.value == ReviewPrompt(sv.listed.value)
  {
  }

  /** A prompt line that renders, at position `i`, some row of `user` in the table. */
  predicate RendersOwn(line: string, i: nat, rows: seq<Memory>, user: string) {
    exists m :: m in rows && m.userId == user && line == PromptLine(i, m)
  }

  /** When the store answers the owner-scoped listing with the owner's rows, every line of
      the prompt renders one of the caller's own rows: no other user's memory reaches the
      gateway. */
  lemma PromptShowsOnlyOwn(rows: seq<Memory>, user: string, listed: seq<Memory>)
    requires ListedFrom(rows, Listing(user, true), listed)
    ensures var lines := PromptLines(listed);
      forall i :: 0 <= i < |lines| ==> RendersOwn(lines[i], i, rows, user)
  {
    var lines := PromptLines(listed);
    forall i | 0 <= i < |lines|
      ensures RendersOwn(lines[i], i, rows, user)
    {
      assert listed[i] in listed;
    }
  }

  /** Nothing listed: the fixed message, no gateway call and no update. */
  lemma NothingListed(authorization: Option<string>, sv: Services, rows: seq<Memory>)
    requires HasBearer(authorization) && sv.keyConfigured && sv.user.Some?
    requires sv.listed.None? || sv.listed.value == []
    ensures var o := Decide(authorization, sv);
      o.answer == NothingToReview && o.prompt.None? && After(rows, o, sv.user, sv.landed) == rows
  {
  }

  /** A failed gateway call changes no memory. */
  lemma AiFailureReviewsNothing(authorization: Option<string>, sv: Services, rows: seq<Memory>)
    requires sv.ai.AiThrew? || !sv.ai.ok
    ensures var o := Decide(authorization, sv);
      o.status != 200 || o.answer == NothingToReview
    ensures After(rows, Decide(authorization, sv), sv.user, sv.landed) == rows
  {
  }

  /** `reviewed` counts the reviews returned, whether or not they name a row of the caller,
      and without a tool call there are none. */
  lemma ReviewedCount(authorization: Option<string>, sv: Services)
    ensures var o := Decide(authorization, sv);
      o.answer.Reviewed? ==> o.answer.count == |o.reviews|
    ensures var o := Decide(authorization, sv);
      o.answer.Reviewed? && sv.ai.body.toolCall.None? ==> o.answer.count == 0 && o.reviews == []
  {
  }

  /** A tool call without `function.arguments` makes `JSON.parse(undefined)` throw: 500 and
      no review is applied. */
  lemma ToolCallWithoutArguments(authorization: Option<string>, sv: Services, rows: seq<Memory>)
    requires sv.ai.AiAnswer? && sv.ai.body.AiJson? && sv.ai.body.toolCall == Some(None)
    ensures var o := Decide(authorization, sv);
      o.status != 200 || o.answer == NothingToReview
    ensures After(rows, Decide(authorization, sv), sv.user, sv.landed) == rows
  {
  }

  /** The sequential update loop: each review is written, in order, to the row with its id
      owned by the caller. */
  method ApplyReviews(store: MemoryStore, reviews: seq<Review>, user: string, landed: nat -> bool)
    modifies store
    ensures store.rows == ReviewedRows(old(store.rows), reviews, user, landed)
  {
    ghost var rows0 := store.rows;
    for k := 0 to |reviews|
      invariant store.rows == ReviewedRows(rows0, reviews[..k], user, landed)
    {
      assert reviews[..k + 1][..k] == reviews[..k];
      var review := reviews[k];
      if landed(k) {
        store.Update(review.id, Some(user), ReviewPatch(review));
      }
    }
    assert reviews[..|reviews|] == reviews;
  }

  /** The handler, run against the table. */
  method Handle(store: MemoryStore, authorization: Option<string>, sv: Services)
    returns (status: int, answer: Answer, listing: Option<Listing>, prompt: Option<string>)
    modifies store
    ensures var o := Decide(authorization, sv);
      && status == o.status && answer == o.answer && listing == o.listing && prompt == o.prompt
      && store.rows == After(old(store.rows), o, sv.user, sv.landed)
  {
    listing, prompt := None, None;
    if !HasBearer(authorization) {
      return 401, Error(Unauthorized), None, None;
    }
    if !sv.keyConfigured {
      return 500, Error(Generic), None, None;
    }
    if sv.user.None? {
      return 401, Error(Unauthorized), None, None;
    }
    var userId := sv.user.value;
    listing := Some(Listing(userId, true));
    if sv.listed.None? || |sv.listed.value| == 0 {
      return 200, NothingToReview, listing, None;
    }
    var memories := sv.listed.value;
    prompt := Some(PromptIntro + Join(PromptLines(memories), "\n"));
    if sv.ai.AiThrew? {
      return 500, Error(Generic), listing, prompt;
    }
    if !sv.ai.ok {
      return 500, Error(AiFailed), listing, prompt;
    }
    if sv.ai.body.AiNotJson? {
      return 500, Error(Generic), listing, prompt;
    }
    var reviews: seq<Review> := [];
    if sv.ai.body.toolCall.Some? {
      if sv.ai.body.toolCall.value.None? {
        return 500, Error(Generic), listing, prompt;
      }
      var parsed := sv.parse(sv.ai.body.toolCall.value.value);
      if parsed.None? {
        return 500, Error(Generic), listing, prompt;
      }
      reviews := parsed.value.GetOr([]);
    }
    ApplyReviews(store, reviews, userId, sv.landed);
    return 200, Reviewed(|reviews|), listing, prompt;
  }
}
