/**
 * The string operations the application relies on, over `seq<char>`:
 * `trim`, `startsWith`, `endsWith`, `indexOf`, `includes`, `toLowerCase`,
 * `split`, `join` and the decimal rendering of numbers in template strings.
 */
module Strings {

  /** The white-space characters that `String.prototype.trim` removes (the ASCII ones,
      the no-break space and the byte-order mark). */
  predicate IsSpace(c: char) {
    c == ' ' || c == '\t' || c == '\n' || c == '\r' || c == '\U{B}' || c == '\U{C}'
    || c == '\U{A0}' || c == '\U{FEFF}'
  }

  /** A string that `trim` turns into "" (so that it is falsy). */
  predicate IsBlank(s: string) {
    forall i :: 0 <= i < |s| ==> IsSpace(s[i])
  }

  /** `s` with its leading white space removed. */
  function TrimStart(s: string): (r: string)
    ensures |r| <= |s| && r == s[|s| - |r|..]
    ensures r == [] || !IsSpace(r[0])
    ensures IsBlank(s[..|s| - |r|])
  {
    if s != [] && IsSpace(s[0]) then
      var r := TrimStart(s[1..]);
      PrefixCons(s, |s| - |r|);
      r
    else s
  }

  lemma PrefixCons(s: string, n: nat)
    requires 1 <= n <= |s|
    ensures s[..n] == [s[0]] + s[1..][..n - 1]
  {
  }

  /** `s` with its trailing white space removed. */
  function TrimEnd(s: string): (r: string)
    ensures |r| <= |s| && r == s[..|r|]
    ensures r == [] || !IsSpace(r[|r| - 1])
    ensures IsBlank(s[|r|..])
  {
    if s != [] && IsSpace(s[|s| - 1]) then
      var r := TrimEnd(s[..|s| - 1]);
      assert s[|r|..] == s[..|s| - 1][|r|..] + [s[|s| - 1]];
      r
    else s
  }

  /** JavaScript's `s.trim()`: a contiguous piece of `s` with blank margins and no
      white space at either end. */
  function Trim(s: string): (r: string)
    ensures |r| <= |s|
    ensures r == [] || (!IsSpace(r[0]) && !IsSpace(r[|r| - 1]))
  {
    TrimEnd(TrimStart(s))
  }

  /** No white space at either end. */
  predicate Unpadded(s: string) {
    s == [] || (!IsSpace(s[0]) && !IsSpace(s[|s| - 1]))
  }

  /** `trim` changes nothing exactly when there is no white space at either end. */
  lemma TrimUnpadded(s: string)
    ensures Trim(s) == s <==> Unpadded(s)
  {
    if Unpadded(s) {
      assert TrimStart(s) == s;
    }
  }

  /** What `trim` keeps is a contiguous piece of `s` whose margins are all white space. */
  lemma TrimIsInner(s: string)
    ensures exists k :: InnerAt(s, Trim(s), k)
  {
    var t := TrimStart(s);
    InnerOfTrims(s, t, TrimEnd(t));
    assert InnerAt(s, Trim(s), |s| - |t|);
  }

  /** A prefix `r` of a suffix `t` of `s`, with blank margins, sits at `|s| - |t|` inside `s`. */
  lemma InnerOfTrims(s: string, t: string, r: string)
    requires |t| <= |s| && t == s[|s| - |t|..] && |r| <= |t| && r == t[..|r|]
    requires IsBlank(s[..|s| - |t|]) && IsBlank(t[|r|..])
    ensures InnerAt(s, r, |s| - |t|)
  {
    var k := |s| - |t|;
    assert s[k + |r|..] == t[|r|..];
  }

  /** `r` is the piece of `s` at `k`, with only white space before and after it. */
  predicate InnerAt(s: string, r: string, k: int) {
    0 <= k <= |s| - |r| && r == s[k..k + |r|] && IsBlank(s[..k]) && IsBlank(s[k + |r|..])
  }

  /** Trimming yields "" exactly when every character is white space. */
  lemma TrimEmptyIffBlank(s: string)
    ensures Trim(s) == [] <==> IsBlank(s)
  {
  }

  lemma {:induction false} TrimStartAppend(s: string, c: char)
    requires IsSpace(c)
    ensures TrimStart(s + [c]) == if IsBlank(s) then [] else TrimStart(s) + [c]
    decreases |s|
  {
    if s == [] {
      TrimStartSpace([c]);
      assert [c][1..] == [];
    } else if IsSpace(s[0]) {
      TrimStartAppend(s[1..], c);
      TrimStartAppendSpace(s, c);
    } else {
      TrimStartAppendKeep(s, c);
    }
  }

  /** A leading white-space character is dropped before and after the append alike. */
  lemma TrimStartAppendSpace(s: string, c: char)
    requires IsSpace(c) && s != [] && IsSpace(s[0])
    requires TrimStart(s[1..] + [c]) == if IsBlank(s[1..]) then [] else TrimStart(s[1..]) + [c]
    ensures TrimStart(s + [c]) == if IsBlank(s) then [] else TrimStart(s) + [c]
  {
    AppendTail(s, c);
    BlankCons(s);
    TrimStartSpace(s);
    TrimStartSpace(s + [c]);
  }

  /** A string that starts with a visible character is its own trimmed start. */
  lemma TrimStartAppendKeep(s: string, c: char)
    requires s != [] && !IsSpace(s[0])
    ensures TrimStart(s + [c]) == TrimStart(s) + [c] && !IsBlank(s)
  {
    AppendTail(s, c);
  }

  lemma TrimStartSpace(s: string)
    requires s != [] && IsSpace(s[0])
    ensures TrimStart(s) == TrimStart(s[1..])
  {
  }

  lemma AppendTail(s: string, c: char)
    requires s != []
    ensures (s + [c])[0] == s[0] && (s + [c])[1..] == s[1..] + [c]
  {
  }

  /** A string is blank when its first character and the rest are. */
  lemma BlankCons(s: string)
    requires s != []
    ensures IsBlank(s) <==> IsSpace(s[0]) && IsBlank(s[1..])
  {
    if IsSpace(s[0]) && IsBlank(s[1..]) {
      forall i | 0 <= i < |s| ensures IsSpace(s[i]) {
        if i > 0 { assert s[i] == s[1..][i - 1]; }
      }
    }
  }

  /** A trailing white-space character does not change the trimmed text. */
  lemma TrimAppendSpace(s: string, c: char)
    requires IsSpace(c)
    ensures Trim(s + [c]) == Trim(s)
  {
    TrimStartAppend(s, c);
    if IsBlank(s) {
      TrimEmptyIffBlank(s);
    } else {
      var t := TrimStart(s);
      assert (t + [c])[..|t|] == t;
    }
  }

  /** `s.startsWith(p)`. */
  predicate StartsWith(s: string, p: string) {
    |p| <= |s| && s[..|p|] == p
  }

  lemma AppendEmpty(s: string)
    ensures s + "" == s
  {
  }

  /** A character that a prefix does not contain does not help the string start with it. */
  lemma StartsWithAppend(s: string, c: char, p: string)
    requires c !in p
    ensures StartsWith(s + [c], p) <==> StartsWith(s, p)
  {
    if |p| <= |s| {
      assert (s + [c])[..|p|] == s[..|p|];
    } else if |p| == |s| + 1 {
      assert (s + [c])[..|p|][|s|] != p[|s|];
    }
  }

  /** A white-space character appended to a string leaves it blank or not blank. */
  lemma BlankAppend(s: string, c: char)
    requires IsSpace(c)
    ensures IsBlank(s + [c]) <==> IsBlank(s)
  {
    assert forall k :: 0 <= k < |s| ==> (s + [c])[k] == s[k];
  }

  /** `s.endsWith(suffix)` for a one-character suffix. */
  predicate EndsWith(s: string, c: char) {
    s != [] && s[|s| - 1] == c
  }

  /** `s.indexOf(c)`, with `|s|` standing for -1: the first position holding `c`. */
  function Find(s: string, c: char): (i: nat)
    ensures i <= |s|
    ensures i < |s| ==> s[i] == c
    ensures forall k :: 0 <= k < i ==> s[k] != c
  {
    if s == [] then 0
    else if s[0] == c then 0
    else 1 + Find(s[1..], c)
  }

  /** The first occurrence inside `a` is also the first occurrence inside `a + b`. */
  lemma FindAppend(a: string, b: string, c: char)
    ensures Find(a + b, c) == if Find(a, c) < |a| then Find(a, c) else |a| + Find(b, c)
  {
    var i := Find(a + b, c);
    var j := Find(a, c);
    if j < |a| {
      assert (a + b)[j] == c;
    } else {
      var k := Find(b, c);
      if k < |b| { assert (a + b)[|a| + k] == c; }
      forall m | |a| <= m < |a| + k ensures (a + b)[m] != c {
        assert (a + b)[m] == b[m - |a|];
      }
    }
  }

  /** `s.includes(sub)`: `sub` occurs in `s` at some position. */
  predicate Contains(s: string, sub: string)
    decreases |s|
  {
    StartsWith(s, sub) || (s != [] && Contains(s[1..], sub))
  }

  /** `sub` occurs in `s` starting at position `k`. */
  predicate OccursAt(s: string, sub: string, k: int) {
    0 <= k <= |s| - |sub| && s[k..k + |sub|] == sub
  }

  /** `includes` means: some slice of `s` equals `sub`. */
  lemma {:induction false} ContainsIffOccurs(s: string, sub: string)
    ensures Contains(s, sub) <==> exists k :: OccursAt(s, sub, k)
    decreases |s|
  {
    if StartsWith(s, sub) {
      assert OccursAt(s, sub, 0);
    } else if s != [] {
      ContainsIffOccurs(s[1..], sub);
      if exists k :: OccursAt(s, sub, k) {
        var k :| OccursAt(s, sub, k);
        assert k != 0;
        assert OccursAt(s[1..], sub, k - 1);
      }
      if exists k :: OccursAt(s[1..], sub, k) {
        var k :| OccursAt(s[1..], sub, k);
        assert OccursAt(s, sub, k + 1);
      }
    }
  }

  function LowerChar(c: char): char {
    if 'A' <= c <= 'Z' then (c as int + 32) as char else c
  }

  /** `s.toLowerCase()` on the ASCII letters. */
  function ToLower(s: string): (r: string)
    ensures |r| == |s|
    ensures forall i :: 0 <= i < |s| ==> r[i] == LowerChar(s[i])
  {
    seq(|s|, i requires 0 <= i < |s| => LowerChar(s[i]))
  }

  /** `s.split(sep)` for a one-character separator: at least one piece, none holding `sep`. */
  function Split(s: string, sep: char): (r: seq<string>)
    ensures |r| >= 1
    ensures forall k :: 0 <= k < |r| ==> sep !in r[k]
    decreases |s|
  {
    var i := Find(s, sep);
    if i == |s| then [s]
    else [s[..i]] + Split(s[i + 1..], sep)
  }

  /** `xs.join(sep)`. */
  function Join(xs: seq<string>, sep: string): string
  {
    if xs == [] then ""
    else if |xs| == 1 then xs[0]
    else xs[0] + sep + Join(xs[1..], sep)
  }

  /** `s` is what lies before position `i`, the character there, and what follows. */
  lemma SplitAt(s: string, i: nat)
    requires i < |s|
    ensures s == s[..i] + [s[i]] + s[i + 1..]
  {
  }

  /** Joining the pieces of a split gives back the original string. */
  lemma {:induction false} JoinSplit(s: string, sep: char)
    ensures Join(Split(s, sep), [sep]) == s
    decreases |s|
  {
    var i := Find(s, sep);
    if i < |s| {
      JoinSplit(s[i + 1..], sep);
      SplitAt(s, i);
    }
  }

  /** Splitting a join of separator-free pieces gives back the pieces. */
  lemma {:induction false} SplitJoin(xs: seq<string>, sep: char)
    requires |xs| >= 1
    requires forall k :: 0 <= k < |xs| ==> sep !in xs[k]
    ensures Split(Join(xs, [sep]), sep) == xs
    decreases |xs|
  {
    if |xs| == 1 {
      assert Find(xs[0], sep) == |xs[0]|;
    } else {
      SplitCons(xs[0], Join(xs[1..], [sep]), sep);
      SplitJoin(xs[1..], sep);
      assert xs == [xs[0]] + xs[1..];
    }
  }

  /** A piece without the separator, then the separator: the split starts with that piece. */
  lemma SplitCons(x: string, rest: string, sep: char)
    requires sep !in x
    ensures Split(x + [sep] + rest, sep) == [x] + Split(rest, sep)
  {
    var s := x + [sep] + rest;
    FindAppend(x, [sep] + rest, sep);
    assert Find(x, sep) == |x|;
    assert s == x + ([sep] + rest);
    assert s[..|x|] == x;
    assert s[|x| + 1..] == rest;
  }

  predicate IsDigit(c: char) {
    '0' <= c <= '9'
  }

  function DigitChar(d: nat): (c: char)
    requires d < 10
    ensures IsDigit(c)
  {
    "0123456789"[d]
  }

  /** The decimal rendering of `n` in a template string. */
  function NatToString(n: nat): (r: string)
    ensures |r| >= 1
    ensures forall i :: 0 <= i < |r| ==> IsDigit(r[i])
  {
    if n < 10 then [DigitChar(n)]
    else NatToString(n / 10) + [DigitChar(n % 10)]
  }

  /** The decimal rendering of an integer, with a leading minus sign when negative. */
  function IntToString(i: int): (r: string)
    ensures |r| >= 1
    ensures forall k :: 0 <= k < |r| ==> IsDigit(r[k]) || (k == 0 && r[k] == '-')
  {
    if i < 0 then "-" + NatToString(-i) else NatToString(i)
  }

  /** The value of a string of decimal digits. */
  function ParseDigits(s: string): nat
    requires forall i :: 0 <= i < |s| ==> IsDigit(s[i])
  {
    if s == [] then 0
    else
      var d := s[|s| - 1];
      assert IsDigit(d);
      10 * ParseDigits(s[..|s| - 1]) + (d as int - '0' as int)
  }

  /** The rendering of a number reads back as that number. */
  lemma {:induction false} NatToStringRoundTrip(n: nat)
    ensures ParseDigits(NatToString(n)) == n
  {
    if n >= 10 {
      NatToStringRoundTrip(n / 10);
      var r := NatToString(n);
      assert r[..|r| - 1] == NatToString(n / 10);
    }
  }
}
