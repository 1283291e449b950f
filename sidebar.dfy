/**
 * The memory list of the sidebar (src/components/MemorySidebar.tsx): the list state and
 * its handlers (add, delete, edit, reload), the tag list derived from it, the search and
 * tag filter, and the tag chips.
 *
 * The database calls are oracles or go to a `MemoryStore`; toasts, rendering and the
 * asynchronous scheduling of state updates are not modelled: each handler runs to its end.
 */
module Sidebar {
  import opened Wrappers
  import opened Strings
  import opened Lists
  import opened Memories

  // ---------------------------------------------------------------------------------
  // The tag list

  /** `memories.flatMap((m) => m.tags || [])`. */
  function FlatTags(ms: seq<Memory>): (r: seq<string>)
    ensures forall t :: t in r <==> exists k :: 0 <= k < |ms| && t in ms[k].tags.GetOr([])
  {
    if ms == [] then []
    else
      var rest := FlatTags(ms[1..]);
      assert forall k :: 1 <= k < |ms| ==> ms[k] == ms[1..][k - 1];
      ms[0].tags.GetOr([]) + rest
  }

  /** The position of the first occurrence of `x`. */
  function FirstIndex(xs: seq<string>, x: string): (k: nat)
    requires x in xs
    ensures k < |xs| && xs[k] == x
    ensures forall j :: 0 <= j < k ==> xs[j] != x
  {
    if xs[0] == x then 0 else 1 + FirstIndex(xs[1..], x)
  }

  /** `Array.from(new Set(xs))`: a set remembers the order in which values were first added. */
  function Distinct(xs: seq<string>): (r: seq<string>)
    ensures forall i, j :: 0 <= i < j < |r| ==> r[i] != r[j]
    ensures forall x :: x in r <==> x in xs
    decreases |xs|
  {
    if xs == [] then []
    else
      var p := xs[..|xs| - 1];
      var d := Distinct(p);
      assert xs == p + [xs[|xs| - 1]];
      if xs[|xs| - 1] in d then d else d + [xs[|xs| - 1]]
  }

  /** Extending a list past its earlier entries does not move their first occurrences. */
  lemma FirstIndexPrefix(p: seq<string>, y: string, z: string)
    requires z in p
    ensures FirstIndex(p + [y], z) == FirstIndex(p, z)
  {
    var k := FirstIndex(p, z);
    assert (p + [y])[k] == z;
  }

  /** The entries of `r` come from `xs`, in the order of their first occurrences there. */
  predicate FirstOccurrenceOrder(r: seq<string>, xs: seq<string>) {
    && (forall i :: 0 <= i < |r| ==> r[i] in xs)
    && (forall i, j :: 0 <= i < j < |r| ==> FirstIndex(xs, r[i]) < FirstIndex(xs, r[j]))
  }

  /** The distinct values come in the order of their first occurrences. */
  lemma {:induction false} DistinctInFirstOccurrenceOrder(xs: seq<string>)
    ensures FirstOccurrenceOrder(Distinct(xs), xs)
    decreases |xs|
  {
    if xs != [] {
      var p := xs[..|xs| - 1];
      var y := xs[|xs| - 1];
      assert xs == p + [y];
      DistinctInFirstOccurrenceOrder(p);
      var d := Distinct(p);
      var r := Distinct(xs);
      assert r == if y in d then d else d + [y];
      forall i, j | 0 <= i < j < |r| ensures FirstIndex(xs, r[i]) < FirstIndex(xs, r[j]) {
        assert r[i] == d[i] && d[i] in p;
        FirstIndexPrefix(p, y, r[i]);
        assert FirstIndex(xs, r[i]) == FirstIndex(p, d[i]) < |p|;
        if j < |d| {
          assert r[j] == d[j] && d[j] in p;
          FirstIndexPrefix(p, y, r[j]);
          assert FirstIndex(xs, r[j]) == FirstIndex(p, d[j]);
          assert FirstIndex(p, d[i]) < FirstIndex(p, d[j]);
        } else {
          assert r[j] == y && y !in p;
          assert FirstIndex(xs, y) == |p|;
        }
      }
    }
  }

  /** `allTags`. */
  function AllTags(ms: seq<Memory>): seq<string> {
    Distinct(FlatTags(ms))
  }

  /** Every tag of every memory appears in `allTags` exactly once, in the order in which
      the tags are first met going down the list. */
  lemma AllTagsOnce(ms: seq<Memory>)
    ensures var r := AllTags(ms);
      && (forall t :: t in r <==> exists k :: 0 <= k < |ms| && t in ms[k].tags.GetOr([]))
      && (forall i, j :: 0 <= i < j < |r| ==> r[i] != r[j])
      && FirstOccurrenceOrder(r, FlatTags(ms))
  {
    DistinctInFirstOccurrenceOrder(FlatTags(ms));
  }

  const ChipLimit: nat := 8

  /** `allTags.slice(0, 8)`: the tags offered as chips. */
  function Chips(ms: seq<Memory>): (r: seq<string>)
    ensures |r| <= ChipLimit && |r| <= |AllTags(ms)| && r == AllTags(ms)[..|r|]
    ensures |AllTags(ms)| <= ChipLimit ==> r == AllTags(ms)
  {
    Take(AllTags(ms), ChipLimit)
  }

  /** The tag filter after a click on the chip `tag`: the active chip clears the filter,
      any other selects its tag. */
  function Toggle(current: Option<string>, tag: string): (r: Option<string>)
    ensures r.None? <==> current == Some(tag)
    ensures r.Some? ==> r.value == tag
  {
    if current == Some(tag) then None else Some(tag)
  }

  // ---------------------------------------------------------------------------------
  // The filter

  /** `!search || content.toLowerCase().includes(q) || summary?.toLowerCase().includes(q)`
      with `q = search.toLowerCase()`. */
  predicate MatchesSearch(m: Memory, search: string) {
    search == ""
    || Contains(ToLower(m.content), ToLower(search))
    || (m.summary.Some? && Contains(ToLower(m.summary.value), ToLower(search)))
  }

  /** `!tagFilter || (m.tags || []).includes(tagFilter)`; the empty tag is falsy and so
      filters nothing. */
  predicate MatchesTag(m: Memory, tag: Option<string>) {
    tag.None? || tag.value == "" || tag.value in m.tags.GetOr([])
  }

  predicate Shown(m: Memory, search: string, tag: Option<string>) {
    MatchesSearch(m, search) && MatchesTag(m, tag)
  }

  /** `filtered`. */
  function Filtered(ms: seq<Memory>, search: string, tag: Option<string>): seq<Memory> {
    Filter(ms, (m: Memory) => Shown(m, search, tag))
  }

  /** The filtered list is the memories that pass both filters, in their original order;
      with no search and no tag it is the whole list. */
  lemma FilteredIsSubsequence(ms: seq<Memory>, search: string, tag: Option<string>)
    ensures var r := Filtered(ms, search, tag);
      && SubsequenceOf(r, ms)
      && (forall m :: m in r <==> m in ms && MatchesSearch(m, search) && MatchesTag(m, tag))
    ensures Filtered(ms, "", None) == ms
  {
    FilterSubsequence(ms, (m: Memory) => Shown(m, search, tag));
    FilterKeepsAll(ms, (m: Memory) => Shown(m, "", None));
  }

  lemma {:induction false} ToLowerIdempotent(s: string)
    ensures ToLower(ToLower(s)) == ToLower(s)
  {
    assert forall i :: 0 <= i < |s| ==> LowerChar(LowerChar(s[i])) == LowerChar(s[i]);
  }

  /** The search ignores the case of the search text, and a non-empty search matches
      exactly when the lowercased text occurs in the lowercased content or summary. */
  lemma SearchIgnoresCase(m: Memory, search: string)
    ensures MatchesSearch(m, ToLower(search)) <==> MatchesSearch(m, search)
    ensures search != "" ==>
      (MatchesSearch(m, search) <==>
        (exists k :: OccursAt(ToLower(m.content), ToLower(search), k))
        || (m.summary.Some? && exists k :: OccursAt(ToLower(m.summary.value), ToLower(search), k)))
  {
    ToLowerIdempotent(search);
    ContainsIffOccurs(ToLower(m.content), ToLower(search));
    if m.summary.Some? {
      ContainsIffOccurs(ToLower(m.summary.value), ToLower(search));
    }
  }

  /** A selected tag narrows the search results to the memories carrying it; clicking
      the same chip again shows every search result. */
  lemma ChipNarrowsAndClears(ms: seq<Memory>, search: string, tag: string)
    requires tag != ""
    ensures forall m :: m in Filtered(ms, search, Toggle(None, tag)) <==>
      m in Filtered(ms, search, None) && tag in m.tags.GetOr([])
    ensures Filtered(ms, search, Toggle(Toggle(None, tag), tag)) == Filtered(ms, search, None)
  {
  }

  // ---------------------------------------------------------------------------------
  // The list state and its handlers

  /** The row `.insert({ user_id, content })` creates, as `.select().single()` returns it:
      the derived columns are null until enrichment. */
  function NewRow(id: string, user: string, content: string, at: int): (m: Memory)
    ensures m.id == id && m.userId == user && m.content == content
    ensures m.summary.None? && m.tags.None? && m.importance.None? && m.aiInsight.None? && m.embedding.None?
  {
    Memory(id, user, content, None, None, None, None, None, None, None, at, at)
  }

  /** `.update({ content })`: the content column only. */
  function ContentPatch(content: string): (p: Patch)
    ensures p.content == Put(content)
    ensures p.summary.Keep? && p.keywords.Keep? && p.tags.Keep? && p.importance.Keep?
    ensures p.aiInsight.Keep? && p.embedding.Keep?
  {
    Patch(Put(content), Keep, Keep, Keep, Keep, Keep, Keep)
  }

  /** An edit writes the trimmed content to every row with that id, whoever owns it, and
      leaves their enrichment and every other row as it was. */
  lemma EditWritesContentOnly(rows: seq<Memory>, id: string, text: string, k: int)
    requires 0 <= k < |rows|
    ensures var r := UpdateWhere(rows, id, None, ContentPatch(text));
      && (rows[k].id == id ==> r[k] == rows[k].(content := text))
      && (rows[k].id != id ==> r[k] == rows[k])
  {
  }

  class MemorySidebar {
    var memories: seq<Memory>
    var search: string
    var tagFilter: Option<string>
    var showAdd: bool
    var newContent: string
    var saving: bool
    var editingId: Option<string>
    var editContent: string

    constructor()
      ensures memories == [] && search == "" && tagFilter.None? && !showAdd
      ensures newContent == "" && !saving && editingId.None? && editContent == ""
    {
      memories := [];
      search := "";
      tagFilter := None;
      showAdd := false;
      newContent := "";
      saving := false;
      editingId := None;
      editContent := "";
    }

    /** The list on screen. */
    function Visible(): seq<Memory>
      reads this
    {
      Filtered(memories, search, tagFilter)
    }

    /** `fetchMemories`: nothing without a user; otherwise the caller's rows are listed
        newest first, and the list becomes the answer, or stays on an error. */
    method Load(user: Option<string>, reply: Option<seq<Memory>>)
      returns (query: Option<Listing>)
      modifies this
      ensures query == if user.Some? then Some(Listing(user.value, true)) else None
      ensures memories == if user.Some? && reply.Some? then reply.value else old(memories)
      ensures search == old(search) && tagFilter == old(tagFilter) && showAdd == old(showAdd)
      ensures newContent == old(newContent) && saving == old(saving)
      ensures editingId == old(editingId) && editContent == old(editContent)
    {
      query := None;
      if user.None? {
        return;
      }
      query := Some(Listing(user.value, true));
      if reply.Some? {
        memories := reply.value;
      }
    }

    /** `handleAdd`: nothing without a user or with blank content; otherwise the trimmed
        content is inserted and, on success, the new row is put first, the form is closed
        and the row is handed to enrichment. `created` is the id and timestamp the
        database gives the row, None when the insert fails. */
    method HandleAdd(user: Option<string>, table: MemoryStore, created: Option<(string, int)>)
      returns (process: Option<string>)
      modifies this, table
      ensures var text := Trim(old(newContent));
        if user.None? || |text| == 0 then
          && memories == old(memories) && newContent == old(newContent) && showAdd == old(showAdd)
          && saving == old(saving) && table.rows == old(table.rows) && process.None?
        else if created.None? then
          && memories == old(memories) && newContent == old(newContent) && showAdd == old(showAdd)
          && !saving && table.rows == old(table.rows) && process.None?
        else
          var row := NewRow(created.value.0, user.value, text, created.value.1);
          && memories == [row] + old(memories) && newContent == "" && !showAdd && !saving
          && table.rows == old(table.rows) + [row] && process == Some(row.id)
      ensures search == old(search) && tagFilter == old(tagFilter)
      ensures editingId == old(editingId) && editContent == old(editContent)
    {
      process := None;
      var text := Trim(newContent);
      if user.Some? && |text| > 0 {
        saving := true;
        if created.Some? {
          var row := NewRow(created.value.0, user.value, text, created.value.1);
          Added(row, table);
          process := Some(row.id);
        }
        saving := false;
      }
    }

    /** A row the table accepted: it goes first in the list and the form is reset. */
    method Added(row: Memory, table: MemoryStore)
      modifies this, table
      ensures memories == [row] + old(memories) && newContent == "" && !showAdd
      ensures table.rows == old(table.rows) + [row] && saving == old(saving)
      ensures search == old(search) && tagFilter == old(tagFilter)
      ensures editingId == old(editingId) && editContent == old(editContent)
    {
      table.Insert(row);
      memories := [row] + memories;
      newContent := "";
      showAdd := false;
    }

    /** `handleDelete(id)`: on success the rows with that id leave the table and the list. */
    method HandleDelete(id: string, table: MemoryStore, ok: bool)
      modifies this, table
      ensures memories == if ok then Without(old(memories), id) else old(memories)
      ensures table.rows == if ok then Without(old(table.rows), id) else old(table.rows)
      ensures search == old(search) && tagFilter == old(tagFilter) && showAdd == old(showAdd)
      ensures newContent == old(newContent) && saving == old(saving)
      ensures editingId == old(editingId) && editContent == old(editContent)
    {
      if ok {
        table.Delete(id);
        memories := Without(memories, id);
      }
    }

    /** The edit button of a row. */
    method StartEdit(m: Memory)
      modifies this
      ensures editingId == Some(m.id) && editContent == m.content
      ensures memories == old(memories) && search == old(search) && tagFilter == old(tagFilter)
      ensures showAdd == old(showAdd) && newContent == old(newContent) && saving == old(saving)
    {
      editingId := Some(m.id);
      editContent := m.content;
    }

    /** `handleEdit(id)`: nothing with blank content; otherwise the trimmed content is
        written to the rows with that id and, on success, the editor closes, the row goes
        to enrichment again and the list is reloaded. */
    method HandleEdit(id: string, table: MemoryStore, ok: bool)
      returns (process: Option<string>, reload: bool)
      modifies this, table
      ensures var text := Trim(old(editContent));
        if text == [] || !ok then
          table.rows == old(table.rows) && editingId == old(editingId) && process.None? && !reload
        else
          && table.rows == UpdateWhere(old(table.rows), id, None, ContentPatch(text))
          && editingId.None? && process == Some(id) && reload
      ensures memories == old(memories) && search == old(search) && tagFilter == old(tagFilter)
      ensures showAdd == old(showAdd) && newContent == old(newContent) && saving == old(saving)
      ensures editContent == old(editContent)
    {
      process, reload := None, false;
      var text := Trim(editContent);
      if text == [] || !ok {
        return;
      }
      table.Update(id, None, ContentPatch(text));
      editingId := None;
      process := Some(id);
      reload := true;
    }

    /** A click on one of the offered chips. */
    method ClickChip(tag: string)
      requires tag in Chips(memories)
      modifies this
      ensures tagFilter == Toggle(old(tagFilter), tag)
      ensures memories == old(memories) && search == old(search) && showAdd == old(showAdd)
      ensures newContent == old(newContent) && saving == old(saving)
      ensures editingId == old(editingId) && editContent == old(editContent)
    {
      tagFilter := if tagFilter == Some(tag) then None else Some(tag);
    }
  }
}
