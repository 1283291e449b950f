/**
 * The two lists of the insights panel (src/components/InsightsPanel.tsx): the important
 * memories and the recently updated ones, both derived from the panel's copy of the
 * caller's memories.
 */
module Insights {
  import opened Wrappers
  import opened Lists
  import opened Memories

  const ListLimit: nat := 5
  const TopThreshold := 7

  /** `(m.importance || 0) >= 7`: a missing importance counts as 0. */
  predicate Important(m: Memory) {
    m.importance.GetOr(0) >= TopThreshold
  }

  /** `topMemories`. */
  function TopMemories(ms: seq<Memory>): seq<Memory> {
    Take(Filter(ms, Important), ListLimit)
  }

  /** At most five entries, each with importance at least 7, in the list's order: the first
      qualifying memories, five of them when at least five qualify, and all of them when
      five or fewer do. */
  lemma TopMemoriesAreImportant(ms: seq<Memory>)
    ensures var r := TopMemories(ms);
      && |r| <= ListLimit
      && (forall i :: 0 <= i < |r| ==> r[i].importance.Some? && r[i].importance.value >= TopThreshold)
      && SubsequenceOf(r, ms)
      && r == Filter(ms, Important)[..|r|]
      && (|Filter(ms, Important)| >= ListLimit ==> |r| == ListLimit)
      && (|Filter(ms, Important)| <= ListLimit ==> forall m :: m in ms && Important(m) ==> m in r)
  {
    var f := Filter(ms, Important);
    var r := TopMemories(ms);
    FilterSubsequence(ms, Important);
    PrefixSubsequence(f, |r|);
    SubsequenceTrans(r, f, ms);
    forall i | 0 <= i < |r| ensures r[i].importance.Some? && r[i].importance.value >= TopThreshold {
      assert Important(f[i]);
    }
  }

  /** Newest first: non-increasing `updated_at`. */
  predicate NewestFirst(s: seq<Memory>) {
    forall i, j :: 0 <= i < j < |s| ==> s[i].updatedAt >= s[j].updatedAt
  }

  /** One insertion step of the sort with comparator `(a, b) => b.updated_at - a.updated_at`:
      `x` goes in front of the first strictly older entry, after any entry as new as it. */
  function InsertNewest(x: Memory, s: seq<Memory>): (r: seq<Memory>)
    ensures multiset(r) == multiset(s) + multiset{x}
  {
    if s == [] then [x]
    else if s[0].updatedAt < x.updatedAt then [x] + s
    else
      assert s == [s[0]] + s[1..];
      [s[0]] + InsertNewest(x, s[1..])
  }

  /** An entry as new as the head of a newest-first list can go in front of it. */
  lemma ConsNewestFirst(a: Memory, t: seq<Memory>)
    requires NewestFirst(t) && (t == [] || a.updatedAt >= t[0].updatedAt)
    ensures NewestFirst([a] + t)
  {
    var r := [a] + t;
    forall i, j | 0 <= i < j < |r| ensures r[i].updatedAt >= r[j].updatedAt {
      assert r[j] == t[j - 1];
      if i > 0 {
        assert r[i] == t[i - 1];
      }
    }
  }

  /** Inserting into a list that is newest first keeps it newest first. */
  lemma {:induction false} InsertKeepsNewestFirst(x: Memory, s: seq<Memory>)
    requires NewestFirst(s)
    ensures var r := InsertNewest(x, s);
      NewestFirst(r) && r != [] && (r[0] == x || (s != [] && r[0] == s[0]))
    decreases |s|
  {
    if s == [] {
    } else if s[0].updatedAt < x.updatedAt {
      ConsNewestFirst(x, s);
    } else {
      InsertKeepsNewestFirst(x, s[1..]);
      ConsNewestFirst(s[0], InsertNewest(x, s[1..]));
    }
  }

  /** `[...memories].sort(...)`: a sorted copy, newest first. */
  function SortNewest(ms: seq<Memory>): (r: seq<Memory>)
    ensures multiset(r) == multiset(ms)
    ensures NewestFirst(r)
    decreases |ms|
  {
    if ms == [] then []
    else
      var p := ms[..|ms| - 1];
      assert ms == p + [ms[|ms| - 1]];
      InsertKeepsNewestFirst(ms[|ms| - 1], SortNewest(p));
      InsertNewest(ms[|ms| - 1], SortNewest(p))
  }

  /** `recentMemories`. */
  function RecentMemories(ms: seq<Memory>): seq<Memory> {
    Take(SortNewest(ms), ListLimit)
  }

  /** The sorted copy holds the same entries, as many times each. */
  lemma SortedCopy(ms: seq<Memory>)
    ensures var s := SortNewest(ms);
      |s| == |ms| && forall x :: x in s <==> x in ms
  {
    var s := SortNewest(ms);
    assert |multiset(s)| == |multiset(ms)|;
    assert forall x :: x in s <==> x in multiset(s);
  }

  /** What a prefix of a newest-first list leaves out is no newer than what it keeps. */
  lemma PrefixIsNewest(s: seq<Memory>, n: nat, x: Memory)
    requires NewestFirst(s) && x in s && x !in Take(s, n)
    ensures forall i :: 0 <= i < |Take(s, n)| ==> x.updatedAt <= Take(s, n)[i].updatedAt
  {
    var j :| 0 <= j < |s| && s[j] == x;
  }

  /** At most five entries, newest first, all taken from the list; every memory left out is
      no newer than any shown; no entry more often than in the list; five when there are at
      least five, and all of them, in some order, when there are at most five. */
  lemma RecentMemoriesAreNewest(ms: seq<Memory>)
    ensures var r := RecentMemories(ms);
      && |r| <= ListLimit && NewestFirst(r)
      && (forall i :: 0 <= i < |r| ==> r[i] in ms)
      && multiset(r) <= multiset(ms)
      && (forall x :: x in ms && x !in r ==> forall i :: 0 <= i < |r| ==> x.updatedAt <= r[i].updatedAt)
      && (|ms| >= ListLimit ==> |r| == ListLimit)
      && (|ms| <= ListLimit ==> multiset(r) == multiset(ms))
  {
    var s := SortNewest(ms);
    var r := RecentMemories(ms);
    SortedCopy(ms);
    assert forall i :: 0 <= i < |r| ==> r[i] == s[i];
    assert s == r + s[|r|..];
    assert multiset(s) == multiset(r) + multiset(s[|r|..]);
    forall x | x in ms && x !in r ensures forall i :: 0 <= i < |r| ==> x.updatedAt <= r[i].updatedAt {
      PrefixIsNewest(s, ListLimit, x);
    }
  }
}
