/**
 * The `memories` table as the functions and the panels see it: one row per memory,
 * partial updates, the equality filters `.eq("id", …)` and `.eq("user_id", …)`,
 * and the importance clamp shared by enrichment and review.
 */
module Memories {
  import opened Wrappers
  import opened Strings
  import opened Lists

  /** An embedding vector. */
  type Vector = seq<real>

  /** A row of the `memories` table; the derived fields are null until enrichment,
      and timestamps are modelled as integers. */
  datatype Memory = Memory(
    id: string,
    userId: string,
    content: string,
    summary: Option<string>,
    keywords: Option<seq<string>>,
    tags: Option<seq<string>>,
    importance: Option<int>,
    aiInsight: Option<string>,
    embedding: Option<Vector>,
    imageUrl: Option<string>,
    createdAt: int,
    updatedAt: int)

  /** One column of an update payload: left out of the payload, or written. */
  datatype Field<T> = Keep | Put(value: T)

  function Written<T>(f: Field<T>, current: T): T {
    match f
    case Keep => current
    case Put(v) => v
  }

  /** The columns an `.update({...})` call may write. */
  datatype Patch = Patch(
    content: Field<string>,
    summary: Field<Option<string>>,
    keywords: Field<Option<seq<string>>>,
    tags: Field<Option<seq<string>>>,
    importance: Field<Option<int>>,
    aiInsight: Field<Option<string>>,
    embedding: Field<Option<Vector>>)

  /** The row after a partial update: written columns take the new value, every other
      column, the identity and the timestamps keep theirs. */
  function ApplyPatch(m: Memory, p: Patch): (r: Memory)
    ensures r.id == m.id && r.userId == m.userId && r.imageUrl == m.imageUrl
    ensures r.createdAt == m.createdAt && r.updatedAt == m.updatedAt
    ensures p.content.Keep? ==> r.content == m.content
    ensures p.summary.Keep? ==> r.summary == m.summary
    ensures p.keywords.Keep? ==> r.keywords == m.keywords
    ensures p.tags.Keep? ==> r.tags == m.tags
    ensures p.importance.Keep? ==> r.importance == m.importance
    ensures p.aiInsight.Keep? ==> r.aiInsight == m.aiInsight
    ensures p.embedding.Keep? ==> r.embedding == m.embedding
    ensures p.content.Put? ==> r.content == p.content.value
    ensures p.summary.Put? ==> r.summary == p.summary.value
    ensures p.keywords.Put? ==> r.keywords == p.keywords.value
    ensures p.tags.Put? ==> r.tags == p.tags.value
    ensures p.importance.Put? ==> r.importance == p.importance.value
    ensures p.aiInsight.Put? ==> r.aiInsight == p.aiInsight.value
    ensures p.embedding.Put? ==> r.embedding == p.embedding.value
  {
    m.(content := Written(p.content, m.content),
       summary := Written(p.summary, m.summary),
       keywords := Written(p.keywords, m.keywords),
       tags := Written(p.tags, m.tags),
       importance := Written(p.importance, m.importance),
       aiInsight := Written(p.aiInsight, m.aiInsight),
       embedding := Written(p.embedding, m.embedding))
  }

  /** `.select("*").eq("user_id", owner).order("created_at", { ascending: false })`:
      the listing of one owner's rows, newest first when `newestFirst`. */
  datatype Listing = Listing(userId: string, newestFirst: bool)

  /** The store answers a listing only with rows of the table owned by the listing's owner. */
  predicate ListedFrom(rows: seq<Memory>, q: Listing, listed: seq<Memory>) {
    forall m :: m in listed ==> m in rows && m.userId == q.userId
  }

  /** `.eq("id", id)`, and `.eq("user_id", owner)` when an owner is given. */
  predicate Selected(m: Memory, id: string, owner: Option<string>) {
    m.id == id && (owner.None? || m.userId == owner.value)
  }

  /** The table after `.update(p).eq("id", id)[.eq("user_id", owner)]`. */
  function UpdateWhere(rows: seq<Memory>, id: string, owner: Option<string>, p: Patch): (r: seq<Memory>)
    ensures |r| == |rows|
    ensures forall k :: 0 <= k < |rows| ==> r[k] == if Selected(rows[k], id, owner) then ApplyPatch(rows[k], p) else rows[k]
  {
    seq(|rows|, k requires 0 <= k < |rows| => if Selected(rows[k], id, owner) then ApplyPatch(rows[k], p) else rows[k])
  }

  /** An owner-scoped update never touches a row of another owner, nor a row with another id,
      and leaves every row's identity in place. */
  lemma UpdateIsolation(rows: seq<Memory>, id: string, owner: string, p: Patch, k: int)
    requires 0 <= k < |rows|
    ensures var r := UpdateWhere(rows, id, Some(owner), p);
      && r[k].id == rows[k].id && r[k].userId == rows[k].userId
      && (rows[k].userId != owner || rows[k].id != id ==> r[k] == rows[k])
  {
  }

  /** The rows that `.eq("id", id).eq("user_id", owner)` select, in table order. */
  function Matching(rows: seq<Memory>, id: string, owner: string): (r: seq<Memory>)
    ensures forall m :: m in r <==> m in rows && m.id == id && m.userId == owner
  {
    if rows == [] then []
    else (if rows[0].id == id && rows[0].userId == owner then [rows[0]] else [])
         + Matching(rows[1..], id, owner)
  }

  /** `.select("*").eq("id", id).eq("user_id", owner).single()`: the row when exactly one
      row matches, and an error (None) otherwise. */
  function FindSingle(rows: seq<Memory>, id: string, owner: string): (r: Option<Memory>)
    ensures r.Some? ==> r.value in rows && r.value.id == id && r.value.userId == owner
    ensures (forall m :: m in rows ==> m.id != id || m.userId != owner) ==> r.None?
  {
    var ms := Matching(rows, id, owner);
    if |ms| == 1 then
      assert ms[0] in ms;
      Some(ms[0])
    else None
  }

  /** Row ids are a primary key. */
  predicate UniqueIds(rows: seq<Memory>) {
    forall i, j :: 0 <= i < j < |rows| ==> rows[i].id != rows[j].id
  }

  lemma {:induction false} NothingMatching(rows: seq<Memory>, id: string, owner: string)
    requires forall k :: 0 <= k < |rows| ==> rows[k].id != id
    ensures Matching(rows, id, owner) == []
  {
    if rows != [] {
      NothingMatching(rows[1..], id, owner);
    }
  }

  lemma {:induction false} MatchingAtMostOne(rows: seq<Memory>, id: string, owner: string)
    requires UniqueIds(rows)
    ensures |Matching(rows, id, owner)| <= 1
    ensures (exists m :: m in rows && m.id == id && m.userId == owner) ==> |Matching(rows, id, owner)| == 1
  {
    if rows != [] {
      var tail := rows[1..];
      assert UniqueIds(tail) by {
        forall i, j | 0 <= i < j < |tail| ensures tail[i].id != tail[j].id {
          assert tail[i] == rows[i + 1] && tail[j] == rows[j + 1];
        }
      }
      MatchingAtMostOne(tail, id, owner);
      if rows[0].id == id {
        forall k | 0 <= k < |tail| ensures tail[k].id != id {
          assert tail[k] == rows[k + 1];
        }
        NothingMatching(tail, id, owner);
      }
      if exists m :: m in rows && m.id == id && m.userId == owner {
        var m :| m in rows && m.id == id && m.userId == owner;
        if m != rows[0] {
          assert m in tail;
        }
      }
    }
  }

  /** With unique ids, the single-row fetch succeeds exactly when the user owns a row with that id. */
  lemma FindSingleFindsOwned(rows: seq<Memory>, id: string, owner: string)
    requires UniqueIds(rows)
    ensures FindSingle(rows, id, owner).Some? <==> exists m :: m in rows && m.id == id && m.userId == owner
  {
    MatchingAtMostOne(rows, id, owner);
  }

  function Min(a: int, b: int): int { if a < b then a else b }
  function Max(a: int, b: int): int { if a < b then b else a }

  /** `Math.max(1, Math.min(10, x))`: into the range 1..10, in-range values untouched. */
  function Clamp(x: int): (r: int)
    ensures 1 <= r <= 10
    ensures 1 <= x <= 10 ==> r == x
    ensures x < 1 ==> r == 1
    ensures x > 10 ==> r == 10
  {
    Max(1, Min(10, x))
  }

  /** The clamp applied to a possibly missing number: a missing one gives `NaN`, which is
      stored as null. */
  function ClampImportance(x: Option<int>): (r: Option<int>)
    ensures r.Some? <==> x.Some?
    ensures r.Some? ==> 1 <= r.value <= 10 && (1 <= x.value <= 10 ==> r.value == x.value)
  {
    match x
    case Some(v) => Some(Clamp(v))
    case None => None
  }

  /** `${m.importance}` in a template string. */
  function RenderImportance(x: Option<int>): (r: string)
    ensures '\n' !in r
  {
    match x
    case Some(v) => IntToString(v)
    case None => "null"
  }

  /** The rows without those whose id is `id`: `.delete().eq("id", id)` on the table,
      `prev.filter((m) => m.id !== id)` on a list. */
  function Without(rows: seq<Memory>, id: string): seq<Memory> {
    Filter(rows, (m: Memory) => m.id != id)
  }

  /** Removing an id drops every entry with that id, keeps every other entry in its
      original order, and changes nothing when no entry has that id. */
  lemma WithoutRemoves(rows: seq<Memory>, id: string)
    ensures var r := Without(rows, id);
      && SubsequenceOf(r, rows)
      && (forall m :: m in r <==> m in rows && m.id != id)
      && ((forall k :: 0 <= k < |rows| ==> rows[k].id != id) ==> r == rows)
  {
    FilterSubsequence(rows, (m: Memory) => m.id != id);
    if forall k :: 0 <= k < |rows| ==> rows[k].id != id {
      FilterKeepsAll(rows, (m: Memory) => m.id != id);
    }
  }

  /** The table behind the functions, updated in place by their `.update` calls. */
  class MemoryStore {
    var rows: seq<Memory>

    constructor(rows: seq<Memory>)
      ensures this.rows == rows
    {
      this.rows := rows;
    }

    /** `.update(p).eq("id", id)[.eq("user_id", owner)]`. */
    method Update(id: string, owner: Option<string>, p: Patch)
      modifies this
      ensures rows == UpdateWhere(old(rows), id, owner, p)
    {
      rows := UpdateWhere(rows, id, owner, p);
    }

    /** `.insert(...)` of the row the database returns. */
    method Insert(m: Memory)
      modifies this
      ensures rows == old(rows) + [m]
    {
      rows := rows + [m];
    }

    /** `.delete().eq("id", id)`. */
    method Delete(id: string)
      modifies this
      ensures rows == Without(old(rows), id)
    {
      rows := Without(rows, id);
    }
  }
}
