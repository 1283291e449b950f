/**
 * The chat panel's `send` (src/components/ChatPanel.tsx): it posts the transcript, then reads
 * the answer as a line-framed event stream. Decoded text chunks are appended to a buffer,
 * complete lines are cut at "\n" and classified, `data: ` payloads are given to a JSON
 * parser (an oracle here), and each non-empty delta grows the running assistant text,
 * which is upserted into the transcript. After the last read the buffer is flushed.
 *
 * The buffer loop is stated once over an arbitrary per-line action (`LineStep`), so that
 * its framing properties hold whatever a line means; `LineAction` is the panel's action.
 * `Drain` specifies the inner loop, `Feed`/`FeedAll` the read loop, `Flush` the flush,
 * and `StreamConsumer` runs them in place.
 */
module ChatStream {
  import opened Wrappers
  import opened Strings

  datatype Role = User | Assistant
  datatype Msg = Msg(role: Role, content: string)

  /** What `JSON.parse(payload)` followed by `parsed.choices?.[0]?.delta?.content` gives:
      an exception, or the delta text if there is one. */
  datatype Parsed = Malformed | Json(delta: Option<string>)
  type Parser = string -> Parsed

  /** How one line of the stream is treated. */
  datatype Frame = Skip | Done | Data(payload: string)

  const DataPrefix := "data: "
  const DoneSentinel := "[DONE]"
  const Apology := "Sorry, I encountered an error. Please try again."

  /** The line with one trailing "\r" removed, if it has one. */
  function StripCR(line: string): (r: string)
    ensures EndsWith(line, '\r') ==> r + "\r" == line
    ensures !EndsWith(line, '\r') ==> r == line
  {
    if EndsWith(line, '\r') then line[..|line| - 1] else line
  }

  /** Comment lines, blank lines (those `trim` empties, see `TrimEmptyIffBlank`) and lines
      without the `data: ` prefix are skipped; the payload of a data line is the rest of
      the line, trimmed. */
  function Classify(line: string): Frame {
    if StartsWith(line, ":") || IsBlank(line) then Skip
    else if !StartsWith(line, DataPrefix) then Skip
    else
      var p := Trim(line[|DataPrefix|..]);
      if p == DoneSentinel then Done else Data(p)
  }

  /** A second "\r" left at the end of a line does not change how it is treated. */
  lemma ClassifyStripCR(line: string)
    ensures Classify(StripCR(line)) == Classify(line)
  {
    if EndsWith(line, '\r') {
      var m := StripCR(line);
      assert line == m + ['\r'];
      ClassifyWithCR(m);
    }
  }

  lemma ClassifyWithCR(m: string)
    ensures Classify(m + ['\r']) == Classify(m)
  {
    var line := m + ['\r'];
    BlankAppend(m, '\r');
    StartsWithAppend(m, '\r', ":");
    StartsWithAppend(m, '\r', DataPrefix);
    if !StartsWith(m, ":") && !IsBlank(m) && StartsWith(m, DataPrefix) {
      assert line[|DataPrefix|..] == m[|DataPrefix|..] + ['\r'];
      TrimAppendSpace(m[|DataPrefix|..], '\r');
    }
  }

  /** `if (content)`: a missing or empty delta adds nothing. */
  function DeltaText(delta: Option<string>): string {
    delta.GetOr("")
  }

  /** What the inner loop does with one complete line: go on (having appended some text),
      stop at the end-of-stream sentinel, or put the (stripped) line back and stop. */
  datatype Action = Continue(text: string) | Finish | Reject(line: string)

  type LineStep = string -> Action

  /** The panel's treatment of one complete line, as cut from the buffer. */
  function LineAction(parse: Parser, raw: string): Action {
    var line := StripCR(raw);
    match Classify(line)
    case Skip => Continue("")
    case Done => Finish
    case Data(p) =>
      match parse(p)
      case Malformed => Reject(line)
      case Json(delta) => Continue(DeltaText(delta))
  }

  function Reading(parse: Parser): LineStep {
    raw => LineAction(parse, raw)
  }

  /** Why the inner loop stopped: no complete line is left, `[DONE]` was read, or a
      terminated line did not parse and was put back at the front of the buffer. */
  datatype Stop = NeedMore | Finished | Stuck

  /** The buffer the inner loop leaves, the text it appends, and why it stopped. */
  datatype Drained = Drained(rest: string, text: string, stop: Stop)

  /** The inner `while (indexOf("\n") !== -1)` loop over a buffer. */
  function Drain(step: LineStep, buf: string): Drained
    decreases |buf|
  {
    var i := Find(buf, '\n');
    if i == |buf| then Drained(buf, "", NeedMore)
    else
      var rest := buf[i + 1..];
      match step(buf[..i])
      case Continue(t) =>
        var d := Drain(step, rest);
        Drained(d.rest, t + d.text, d.stop)
      case Finish => Drained(rest, "", Finished)
      case Reject(line) => Drained(line + "\n" + rest, "", Stuck)
  }

  /** `r` is the text after the last "\n" of `buf`, and holds no "\n". */
  predicate LastLine(buf: string, r: string) {
    && '\n' !in r
    && |r| <= |buf| && r == buf[|buf| - |r|..]
    && (|r| == |buf| || buf[|buf| - |r| - 1] == '\n')
  }

  /** When the loop ran out of complete lines, what is left is exactly the text after the
      last "\n" of the buffer. */
  lemma {:induction false} DrainLeavesLastLine(step: LineStep, buf: string)
    requires Drain(step, buf).stop == NeedMore
    ensures LastLine(buf, Drain(step, buf).rest)
    decreases |buf|
  {
    var i := Find(buf, '\n');
    if i < |buf| {
      var line, rest := buf[..i], buf[i + 1..];
      SplitAtNewline(buf);
      DrainPastLine(step, line, rest, step(line).text);
      DrainLeavesLastLine(step, rest);
      TailOfTail(line, rest, Drain(step, rest).rest);
    }
  }

  /** The text after the last "\n" of what follows a line is the text after the last "\n". */
  lemma TailOfTail(line: string, rest: string, r: string)
    requires LastLine(rest, r)
    ensures LastLine(line + "\n" + rest, r)
  {
    var buf := line + "\n" + rest;
    assert buf[|buf| - |r|..] == rest[|rest| - |r|..];
    if |r| == |rest| {
      assert buf[|buf| - |r| - 1] == '\n';
    } else {
      assert buf[|buf| - |r| - 1] == rest[|rest| - |r| - 1];
    }
  }

  /** Reading `buf + more` goes on from where reading `buf` ran out of lines, and a stop
      stays a stop with `more` left after it. */
  predicate AppendLaw(step: LineStep, buf: string, more: string) {
    Drain(step, buf + more) == Resume(step, Drain(step, buf), more)
  }

  /** Where the inner loop is after `more` arrives behind what it left. */
  function Resume(step: LineStep, d: Drained, more: string): Drained {
    if d.stop == NeedMore then
      var e := Drain(step, d.rest + more);
      Drained(e.rest, d.text + e.text, e.stop)
    else Drained(d.rest + more, d.text, d.stop)
  }

  /** A loop outcome with `t` appended in front of its text. */
  function Prefixed(t: string, d: Drained): Drained {
    Drained(d.rest, t + d.text, d.stop)
  }

  lemma ResumePrefixed(step: LineStep, t: string, d: Drained, more: string)
    ensures Resume(step, Prefixed(t, d), more) == Prefixed(t, Resume(step, d, more))
  {
    if d.stop == NeedMore {
      var e := Drain(step, d.rest + more);
      assert t + (d.text + e.text) == t + d.text + e.text;
    }
  }

  /** Appending text to a buffer does not change how its complete lines are read. */
  lemma {:induction false} DrainAppend(step: LineStep, buf: string, more: string)
    ensures AppendLaw(step, buf, more)
    decreases |buf|
  {
    var i := Find(buf, '\n');
    if i == |buf| {
      DrainAppendNoLine(step, buf, more);
    } else {
      SplitAtNewline(buf);
      if step(buf[..i]).Continue? {
        DrainAppend(step, buf[i + 1..], more);
        DrainAppendContinue(step, buf[..i], buf[i + 1..], more, step(buf[..i]).text);
      } else {
        DrainAppendStop(step, buf[..i], buf[i + 1..], more);
      }
    }
  }

  lemma DrainAppendNoLine(step: LineStep, buf: string, more: string)
    requires Find(buf, '\n') == |buf|
    ensures AppendLaw(step, buf, more)
  {
    assert "" + Drain(step, buf + more).text == Drain(step, buf + more).text;
  }

  lemma DrainAppendContinue(step: LineStep, line: string, rest: string, more: string, t: string)
    requires '\n' !in line && step(line) == Continue(t) && AppendLaw(step, rest, more)
    ensures AppendLaw(step, line + "\n" + rest, more)
  {
    DrainPastLine(step, line, rest, t);
    DrainPastLine(step, line, rest + more, t);
    LineAppend(line, rest, more);
    ResumePrefixed(step, t, Drain(step, rest), more);
  }

  lemma LineAppend(line: string, rest: string, more: string)
    ensures line + "\n" + rest + more == line + "\n" + (rest + more)
  {
  }

  lemma DrainAppendStop(step: LineStep, line: string, rest: string, more: string)
    requires '\n' !in line && !step(line).Continue?
    ensures AppendLaw(step, line + "\n" + rest, more)
  {
    LineAppend(line, rest, more);
    if step(line).Finish? {
      DrainToSentinel(step, line, rest);
      DrainToSentinel(step, line, rest + more);
    } else {
      var l := step(line).line;
      DrainRejected(step, line, rest);
      DrainRejected(step, line, rest + more);
      LineAppend(l, rest, more);
    }
  }

  /** The buffer is its first line, the "\n" that ends it, and the rest. */
  lemma SplitAtNewline(buf: string)
    requires Find(buf, '\n') < |buf|
    ensures var i := Find(buf, '\n');
      '\n' !in buf[..i] && buf == buf[..i] + "\n" + buf[i + 1..]
  {
    var i := Find(buf, '\n');
    SplitAt(buf, i);
  }

  /** One turn of the inner loop: the first complete line is cut off and acted on. */
  lemma DrainStep(step: LineStep, buf: string)
    requires Find(buf, '\n') < |buf|
    ensures var i := Find(buf, '\n');
      var rest := buf[i + 1..];
      var d := Drain(step, rest);
      Drain(step, buf) ==
        match step(buf[..i])
        case Continue(t) => Drained(d.rest, t + d.text, d.stop)
        case Finish => Drained(rest, "", Finished)
        case Reject(line) => Drained(line + "\n" + rest, "", Stuck)
  {
  }

  /** The buffer starts with a complete line that the step rejects. */
  predicate Blocked(step: LineStep, buf: string) {
    var i := Find(buf, '\n');
    i < |buf| && step(buf[..i]).Reject?
  }

  /** The step rejects again, unchanged, any line it rejected once: retrying a line cannot
      get past it. */
  ghost predicate RejectsRetry(step: LineStep) {
    forall raw :: '\n' !in raw && step(raw).Reject? ==>
      '\n' !in step(raw).line && step(step(raw).line).Reject?
  }

  /** Parsing is deterministic and stripping "\r" a second time changes nothing, so the
      panel's step rejects a put-back line again. */
  lemma ReadingRejectsRetry(parse: Parser)
    ensures RejectsRetry(Reading(parse))
  {
    forall raw | '\n' !in raw && Reading(parse)(raw).Reject?
      ensures '\n' !in Reading(parse)(raw).line && Reading(parse)(Reading(parse)(raw).line).Reject?
    {
      RejectedAgain(parse, raw);
    }
  }

  lemma RejectedAgain(parse: Parser, raw: string)
    requires '\n' !in raw && LineAction(parse, raw).Reject?
    ensures var line := LineAction(parse, raw).line;
      '\n' !in line && LineAction(parse, line).Reject?
  {
    var line := StripCR(raw);
    StripCRPrefix(raw);
    match Classify(line)
    case Skip =>
    case Done =>
    case Data(p) =>
      ClassifyStripCR(line);
  }

  /** Removing the "\r" adds no line break. */
  lemma StripCRPrefix(raw: string)
    requires '\n' !in raw
    ensures '\n' !in StripCR(raw)
  {
    var line := StripCR(raw);
    assert forall k :: 0 <= k < |line| ==> line[k] == raw[k];
  }

  /** A line that was rejected is put back where it was, so the buffer is then blocked. */
  lemma {:induction false} StuckLeavesBlocked(step: LineStep, buf: string)
    requires RejectsRetry(step)
    requires Drain(step, buf).stop == Stuck
    ensures Blocked(step, Drain(step, buf).rest)
    decreases |buf|
  {
    var i := Find(buf, '\n');
    var line, rest := buf[..i], buf[i + 1..];
    SplitAtNewline(buf);
    match step(line)
    case Continue(t) =>
      DrainPastLine(step, line, rest, t);
      StuckLeavesBlocked(step, rest);
    case Reject(l) =>
      DrainRejected(step, line, rest);
      PutBackBlocked(step, l, rest);
  }

  /** A line the step rejects, at the front of the buffer, blocks it. */
  lemma PutBackBlocked(step: LineStep, line: string, rest: string)
    requires '\n' !in line && step(line).Reject?
    ensures Blocked(step, line + "\n" + rest)
  {
    FirstLine(line, rest);
  }

  /** A blocked buffer stays blocked whatever arrives after it, and reading it yields no
      text: the rejected line is retried on every later chunk and never gets past. */
  lemma BlockedStaysBlocked(step: LineStep, buf: string, more: string)
    requires RejectsRetry(step) && Blocked(step, buf)
    ensures var d := Drain(step, buf + more);
      d.stop == Stuck && d.text == "" && Blocked(step, d.rest)
  {
    var i := Find(buf, '\n');
    FindAppend(buf, more, '\n');
    assert (buf + more)[..i] == buf[..i];
    StuckLeavesBlocked(step, buf + more);
  }

  /** The state the read loop keeps between reads: `textBuffer`, `assistantSoFar`, `streamDone`. */
  datatype Reader = Reader(buffer: string, text: string, done: bool)

  const Opened := Reader("", "", false)

  /** One pass of the outer loop; once `[DONE]` was read there are no more reads. */
  function Feed(step: LineStep, r: Reader, chunk: string): Reader {
    if r.done then r
    else
      var d := Drain(step, r.buffer + chunk);
      Reader(d.rest, r.text + d.text, d.stop == Finished)
  }

  /** The outer loop over the chunks the reader delivers. */
  function FeedAll(step: LineStep, r: Reader, chunks: seq<string>): Reader
    decreases |chunks|
  {
    if chunks == [] then r
    else Feed(step, FeedAll(step, r, chunks[..|chunks| - 1]), chunks[|chunks| - 1])
  }

  function Concat(chunks: seq<string>): string
    decreases |chunks|
  {
    if chunks == [] then "" else Concat(chunks[..|chunks| - 1]) + chunks[|chunks| - 1]
  }

  lemma {:induction false} FeedAllAppend(step: LineStep, r: Reader, a: seq<string>, b: seq<string>)
    ensures FeedAll(step, r, a + b) == FeedAll(step, FeedAll(step, r, a), b)
    decreases |b|
  {
    if b == [] {
      assert a + b == a;
    } else {
      var b0 := b[..|b| - 1];
      assert (a + b)[..|a + b| - 1] == a + b0;
      assert (a + b)[|a + b| - 1] == b[|b| - 1];
      FeedAllAppend(step, r, a, b0);
    }
  }

  /** After `[DONE]`, further chunks change nothing: the reader is never read again. */
  lemma {:induction false} FeedAllAfterDone(step: LineStep, r: Reader, chunks: seq<string>)
    requires r.done
    ensures FeedAll(step, r, chunks) == r
    decreases |chunks|
  {
    if chunks != [] {
      FeedAllAfterDone(step, r, chunks[..|chunks| - 1]);
    }
  }

  /** Once blocked, every later chunk is only appended: the text never grows and `[DONE]`
      is never seen again. */
  lemma {:induction false} FeedAllWhenBlocked(step: LineStep, r: Reader, chunks: seq<string>)
    requires RejectsRetry(step)
    requires !r.done && Blocked(step, r.buffer)
    ensures var s := FeedAll(step, r, chunks);
      s.text == r.text && !s.done && Blocked(step, s.buffer)
    decreases |chunks|
  {
    if chunks != [] {
      var front := chunks[..|chunks| - 1];
      FeedAllWhenBlocked(step, r, front);
      var s := FeedAll(step, r, front);
      BlockedStaysBlocked(step, s.buffer, chunks[|chunks| - 1]);
      assert s.text + "" == s.text;
    }
  }

  /** One line of the flush: as in the loop, except that an empty piece and `[DONE]` are
      skipped and a payload that does not parse is ignored. */
  function FlushLine(step: LineStep, raw: string): string {
    if raw == "" then ""
    else
      match step(raw)
      case Continue(t) => t
      case Finish => ""
      case Reject(_) => ""
  }

  function FlushText(step: LineStep, lines: seq<string>): string
    decreases |lines|
  {
    if lines == [] then ""
    else FlushText(step, lines[..|lines| - 1]) + FlushLine(step, lines[|lines| - 1])
  }

  /** `if (textBuffer.trim()) for (raw of textBuffer.split("\n")) …`. */
  function Flush(step: LineStep, buf: string): string {
    if IsBlank(buf) then "" else FlushText(step, Split(buf, '\n'))
  }

  /** The final `assistantSoFar`: the text of the loop followed by that of the flush. */
  function FinalText(step: LineStep, r: Reader): string {
    r.text + Flush(step, r.buffer)
  }

  /** The read loop meets no rejected line, and what follows a `[DONE]` line is blank. */
  predicate Clean(step: LineStep, s: string) {
    var d := Drain(step, s);
    d.stop != Stuck && (d.stop == Finished ==> IsBlank(d.rest))
  }

  lemma {:induction false} FeedAllFollowsDrain(step: LineStep, chunks: seq<string>)
    requires Clean(step, Concat(chunks))
    ensures var r := FeedAll(step, Opened, chunks);
      var d := Drain(step, Concat(chunks));
      && r.text == d.text
      && r.done == (d.stop == Finished)
      && (d.stop == NeedMore ==> r.buffer == d.rest)
      && (d.stop == Finished ==> IsBlank(r.buffer))
    decreases |chunks|
  {
    if chunks == [] {
      assert Concat(chunks) == "";
    } else {
      var front := chunks[..|chunks| - 1];
      var c := chunks[|chunks| - 1];
      var s := Concat(front);
      DrainAppend(step, s, c);
      var d := Drain(step, s);
      if d.stop == Finished {
        forall k | 0 <= k < |d.rest| ensures IsSpace(d.rest[k]) {
          assert d.rest[k] == (d.rest + c)[k];
        }
      }
      FeedAllFollowsDrain(step, front);
    }
  }

  /** The text of the whole stream read as one chunk and then flushed. */
  function StreamText(step: LineStep, s: string): string {
    var d := Drain(step, s);
    d.text + Flush(step, d.rest)
  }

  lemma FlushBlank(step: LineStep, buf: string)
    requires IsBlank(buf)
    ensures Flush(step, buf) == ""
  {
  }

  /** The final assistant text depends only on the concatenation of the chunks, not on
      where the network split them, when no line is rejected and only blank text follows
      `[DONE]`. */
  lemma ChunkSplitIrrelevant(step: LineStep, chunks: seq<string>)
    requires Clean(step, Concat(chunks))
    ensures FinalText(step, FeedAll(step, Opened, chunks)) == StreamText(step, Concat(chunks))
  {
    FeedAllFollowsDrain(step, chunks);
    var r := FeedAll(step, Opened, chunks);
    var d := Drain(step, Concat(chunks));
    if d.stop == Finished {
      FlushBlank(step, r.buffer);
      FlushBlank(step, d.rest);
    }
  }

  /** Reading the stream as a single chunk is one of the splittings. */
  lemma SingleChunk(step: LineStep, s: string)
    ensures FinalText(step, FeedAll(step, Opened, [s])) == StreamText(step, s)
  {
    assert [s][..0] == [];
    assert "" + s == s;
    assert "" + Drain(step, s).text == Drain(step, s).text;
  }

  /** Two splittings of the same stream give the same final text. */
  lemma SameTextForAnySplit(step: LineStep, a: seq<string>, b: seq<string>)
    requires Concat(a) == Concat(b) && Clean(step, Concat(a))
    ensures FinalText(step, FeedAll(step, Opened, a)) == FinalText(step, FeedAll(step, Opened, b))
  {
    ChunkSplitIrrelevant(step, a);
    ChunkSplitIrrelevant(step, b);
  }

  /** A last line without "\n", once terminated, is read by one step of the loop; the flush
      gives it to the same step. */
  lemma OneLine(step: LineStep, line: string)
    requires '\n' !in line
    requires Drain(step, line + "\n").stop == NeedMore
    ensures step(line).Continue?
    ensures Drain(step, line + "\n").text == step(line).text
    ensures line != "" ==> FlushText(step, Split(line, '\n')) == step(line).text
  {
    var buf := line + "\n";
    FindAppend(line, "\n", '\n');
    assert buf[..|line|] == line && buf[|line| + 1..] == "";
    assert Find(line, '\n') == |line|;
    assert Split(line, '\n') == [line];
    assert [line][..0] == [];
    assert step(line).text + "" == step(line).text;
  }

  /** The flush reads a leftover line without "\n" as the loop reads it once terminated. */
  lemma FlushAgreesWithDrain(parse: Parser, line: string)
    requires '\n' !in line
    requires Drain(Reading(parse), line + "\n").stop == NeedMore
    ensures Flush(Reading(parse), line) == Drain(Reading(parse), line + "\n").text
  {
    OneLine(Reading(parse), line);
    assert Reading(parse)(line) == LineAction(parse, line);
    if IsBlank(line) {
      BlankLineSkipped(parse, line);
    }
  }

  /** A blank line adds nothing and does not stop the loop. */
  lemma BlankLineSkipped(parse: Parser, line: string)
    requires IsBlank(line)
    ensures LineAction(parse, line) == Continue("")
  {
    var r := StripCR(line);
    assert forall k :: 0 <= k < |r| ==> r[k] == line[k];
    assert IsBlank(r);
  }

  /** A payload as a server writes it: one line, already trimmed, not the sentinel. */
  predicate PlainPayload(p: string) {
    '\n' !in p && Unpadded(p) && p != DoneSentinel
  }

  lemma DataLineAction(parse: Parser, p: string)
    requires PlainPayload(p) && parse(p).Json?
    ensures LineAction(parse, DataPrefix + p) == Continue(DeltaText(parse(p).delta))
  {
    var line := DataPrefix + p;
    TrimUnpadded(p);
    assert !EndsWith(line, '\r') by {
      if p != [] { assert line[|line| - 1] == p[|p| - 1]; }
    }
    assert line[|DataPrefix|..] == p;
    assert line[..|DataPrefix|] == DataPrefix;
    assert line[..1] == ['d'];
    assert !IsBlank(line) by { assert !IsSpace(line[0]); }
  }

  lemma DoneLineAction(parse: Parser)
    ensures LineAction(parse, DataPrefix + DoneSentinel) == Finish
  {
    var line := DataPrefix + DoneSentinel;
    assert line[|DataPrefix|..] == DoneSentinel;
    assert line[..|DataPrefix|] == DataPrefix;
    assert line[..1] == ['d'];
    assert !IsBlank(line) by { assert !IsSpace(line[0]); }
    assert Trim(DoneSentinel) == DoneSentinel by {
      assert !IsSpace(DoneSentinel[0]) && !IsSpace(DoneSentinel[|DoneSentinel| - 1]);
    }
  }

  /** A terminated line with no "\n" inside is the first line of the buffer. */
  lemma FirstLine(line: string, rest: string)
    requires '\n' !in line
    ensures var buf := line + "\n" + rest;
      Find(buf, '\n') == |line| && buf[..|line|] == line && buf[|line| + 1..] == rest
  {
    var buf := line + "\n" + rest;
    assert buf == line + ("\n" + rest);
    FindAppend(line, "\n" + rest, '\n');
  }

  /** A first line the step lets through: the loop goes on with the rest. */
  lemma DrainPastLine(step: LineStep, line: string, rest: string, t: string)
    requires '\n' !in line && step(line) == Continue(t)
    ensures var d := Drain(step, rest);
      Drain(step, line + "\n" + rest) == Drained(d.rest, t + d.text, d.stop)
  {
    FirstLine(line, rest);
    DrainStep(step, line + "\n" + rest);
  }

  /** A first line that ends the stream: the rest stays in the buffer. */
  lemma DrainToSentinel(step: LineStep, line: string, rest: string)
    requires '\n' !in line && step(line) == Finish
    ensures Drain(step, line + "\n" + rest) == Drained(rest, "", Finished)
  {
    FirstLine(line, rest);
    DrainStep(step, line + "\n" + rest);
  }

  /** A first line the step rejects: it is put back and the loop stops. */
  lemma DrainRejected(step: LineStep, line: string, rest: string)
    requires '\n' !in line && step(line).Reject?
    ensures Drain(step, line + "\n" + rest) == Drained(step(line).line + "\n" + rest, "", Stuck)
  {
    FirstLine(line, rest);
    DrainStep(step, line + "\n" + rest);
  }

  /** An empty line the step skips changes nothing. */
  lemma DrainPastEmptyLine(step: LineStep, rest: string)
    requires step("") == Continue("")
    ensures Drain(step, "\n" + rest) == Drain(step, rest)
  {
    assert "\n" + rest == "" + "\n" + rest;
    DrainPastLine(step, "", rest, "");
    assert "" + Drain(step, rest).text == Drain(step, rest).text;
  }

  /** An event followed by an empty line. */
  lemma DrainPastEvent(step: LineStep, line: string, rest: string, t: string)
    requires '\n' !in line && step(line) == Continue(t) && step("") == Continue("")
    ensures var d := Drain(step, rest);
      Drain(step, line + "\n" + ("\n" + rest)) == Drained(d.rest, t + d.text, d.stop)
  {
    DrainPastLine(step, line, "\n" + rest, t);
    DrainPastEmptyLine(step, rest);
  }

  /** Two events, each followed by an empty line, and then the end of the stream. */
  lemma TwoEventsThenDone(step: LineStep, l1: string, l2: string, l3: string, t1: string, t2: string)
    requires '\n' !in l1 && '\n' !in l2 && '\n' !in l3
    requires step(l1) == Continue(t1) && step(l2) == Continue(t2) && step("") == Continue("")
    requires step(l3) == Finish
    ensures Drain(step, l1 + "\n" + ("\n" + (l2 + "\n" + ("\n" + (l3 + "\n" + "\n"))))) == Drained("\n", t1 + t2, Finished)
  {
    var tail3 := l3 + "\n" + "\n";
    DrainToSentinel(step, l3, "\n");
    DrainPastEvent(step, l2, tail3, t2);
    DrainPastEvent(step, l1, l2 + "\n" + ("\n" + tail3), t1);
    assert t1 + (t2 + "") == t1 + t2;
  }

  /** Two events and the end of the stream, however the network splits them. */
  lemma TwoEventsForAnySplit(step: LineStep, l1: string, l2: string, l3: string, t1: string, t2: string, chunks: seq<string>)
    requires '\n' !in l1 && '\n' !in l2 && '\n' !in l3
    requires step(l1) == Continue(t1) && step(l2) == Continue(t2) && step("") == Continue("")
    requires step(l3) == Finish
    requires Concat(chunks) == (l1 + "\n\n") + (l2 + "\n\n") + (l3 + "\n\n")
    ensures FinalText(step, FeedAll(step, Opened, chunks)) == t1 + t2
  {
    assert (l1 + "\n\n") + (l2 + "\n\n") + (l3 + "\n\n")
      == l1 + "\n" + ("\n" + (l2 + "\n" + ("\n" + (l3 + "\n" + "\n"))));
    TwoEventsThenDone(step, l1, l2, l3, t1, t2);
    assert IsBlank("\n");
    EndsAtSentinel(step, chunks, "\n", t1 + t2);
  }

  /** One server-sent event carrying payload `p`, with the empty line that ends it. */
  function Event(p: string): string {
    DataPrefix + p + "\n\n"
  }

  /** The "Hel" / "lo" / `[DONE]` stream gives "Hello" however it is split into chunks. */
  lemma HelloForAnySplit(parse: Parser, p1: string, p2: string, chunks: seq<string>)
    requires PlainPayload(p1) && PlainPayload(p2)
    requires parse(p1) == Json(Some("Hel")) && parse(p2) == Json(Some("lo"))
    requires Concat(chunks) == Event(p1) + Event(p2) + Event(DoneSentinel)
    ensures FinalText(Reading(parse), FeedAll(Reading(parse), Opened, chunks)) == "Hello"
  {
    HelloLines(parse, p1, p2);
    TwoEventsForAnySplit(Reading(parse), DataPrefix + p1, DataPrefix + p2, DataPrefix + DoneSentinel, "Hel", "lo", chunks);
  }

  /** How the panel reads the three lines of that stream and the empty lines between them. */
  lemma HelloLines(parse: Parser, p1: string, p2: string)
    requires PlainPayload(p1) && PlainPayload(p2)
    requires parse(p1) == Json(Some("Hel")) && parse(p2) == Json(Some("lo"))
    ensures '\n' !in DataPrefix + p1 && '\n' !in DataPrefix + p2 && '\n' !in DataPrefix + DoneSentinel
    ensures Reading(parse)(DataPrefix + p1) == Continue("Hel")
    ensures Reading(parse)(DataPrefix + p2) == Continue("lo")
    ensures Reading(parse)(DataPrefix + DoneSentinel) == Finish
    ensures Reading(parse)("") == Continue("")
  {
    assert '\n' !in DataPrefix + DoneSentinel;
    ReadingData(parse, p1);
    ReadingData(parse, p2);
    ReadingDone(parse);
    ReadingBlank(parse);
  }

  lemma ReadingData(parse: Parser, p: string)
    requires PlainPayload(p) && parse(p).Json?
    ensures '\n' !in DataPrefix + p
    ensures Reading(parse)(DataPrefix + p) == Continue(DeltaText(parse(p).delta))
  {
    DataLineAction(parse, p);
  }

  lemma ReadingDone(parse: Parser)
    ensures Reading(parse)(DataPrefix + DoneSentinel) == Finish
  {
    DoneLineAction(parse);
  }

  lemma ReadingBlank(parse: Parser)
    ensures Reading(parse)("") == Continue("")
  {
    BlankLineSkipped(parse, "");
  }

  /** The final text of a stream whose reading ends at `[DONE]` with only blank text left. */
  lemma EndsAtSentinel(step: LineStep, chunks: seq<string>, rest: string, t: string)
    requires Drain(step, Concat(chunks)) == Drained(rest, t, Finished) && IsBlank(rest)
    ensures FinalText(step, FeedAll(step, Opened, chunks)) == t
  {
    ChunkSplitIrrelevant(step, chunks);
    FlushBlank(step, rest);
    assert t + "" == t;
  }

  /** The transcript update for a new `assistantSoFar`: an open assistant message is
      replaced in place, otherwise one assistant message is appended. */
  function Upsert(msgs: seq<Msg>, text: string): (r: seq<Msg>)
    ensures r != [] && r[|r| - 1] == Msg(Assistant, text)
    ensures msgs != [] && msgs[|msgs| - 1].role == Assistant ==> |r| == |msgs| && r[..|msgs| - 1] == msgs[..|msgs| - 1]
    ensures !(msgs != [] && msgs[|msgs| - 1].role == Assistant) ==> r == msgs + [Msg(Assistant, text)]
  {
    var n := |msgs|;
    if n > 0 && msgs[n - 1].role == Assistant then
      msgs[..n - 1] + [msgs[n - 1].(content := text)]
    else msgs + [Msg(Assistant, text)]
  }

  /** Upserting twice is upserting the later text once: in whatever order the deferred
      state updates run, the transcript ends with the last text. */
  lemma UpsertTwice(msgs: seq<Msg>, a: string, b: string)
    ensures Upsert(Upsert(msgs, a), b) == Upsert(msgs, b)
  {
    var once := Upsert(msgs, a);
    var n := |msgs|;
    if n > 0 && msgs[n - 1].role == Assistant {
      assert once[..n - 1] == msgs[..n - 1];
    } else {
      assert once[..n] == msgs;
    }
  }

  /** The transcript that shows `text` as the open assistant message, if there is any text. */
  function Publish(base: seq<Msg>, text: string): seq<Msg> {
    if text == "" then base else Upsert(base, text)
  }

  /** What one turn of the inner loop leaves still to do, for the loop invariant of
      `StreamConsumer.FeedChunk`: the drain of the shortened buffer completes the drain of
      the whole one. */
  lemma LoopTurn(step: LineStep, buf: string, soFar: string, text0: string, goal: Drained)
    requires Find(buf, '\n') < |buf|
    requires var d := Drain(step, buf);
      d.rest == goal.rest && d.stop == goal.stop && soFar + d.text == text0 + goal.text
    ensures var i := Find(buf, '\n');
      var a := step(buf[..i]);
      var rest := buf[i + 1..];
      && (a.Continue? ==> |rest| < |buf| && var d := Drain(step, rest);
            d.rest == goal.rest && d.stop == goal.stop && soFar + a.text + d.text == text0 + goal.text)
      && (a.Finish? ==> rest == goal.rest && soFar == text0 + goal.text && goal.stop == Finished)
      && (a.Reject? ==> a.line + "\n" + rest == goal.rest && soFar == text0 + goal.text && goal.stop != Finished)
  {
    var i := Find(buf, '\n');
    DrainStep(step, buf);
    var rest := buf[i + 1..];
    var d := Drain(step, rest);
    match step(buf[..i])
    case Continue(t) =>
      assert soFar + t + d.text == soFar + (t + d.text);
    case Finish =>
      AppendEmpty(soFar);
    case Reject(l) =>
      AppendEmpty(soFar);
  }

  /** One more piece of the flush, for the loop invariant of `StreamConsumer.FlushRest`. */
  lemma FlushTextSnoc(step: LineStep, lines: seq<string>, k: nat, text0: string, before: string, after: string)
    requires k < |lines|
    requires before == text0 + FlushText(step, lines[..k])
    requires after == before + FlushLine(step, lines[k])
    ensures after == text0 + FlushText(step, lines[..k + 1])
  {
    assert lines[..k + 1][..k] == lines[..k];
  }

  lemma FeedAllSnoc(step: LineStep, r: Reader, chunks: seq<string>, k: nat)
    requires k < |chunks|
    ensures FeedAll(step, r, chunks[..k + 1]) == Feed(step, FeedAll(step, r, chunks[..k]), chunks[k])
  {
    assert chunks[..k + 1][..k] == chunks[..k];
  }

  /** The outer loop stops early only after `[DONE]`, when the remaining chunks would
      change nothing. */
  lemma FeedAllRest(step: LineStep, r: Reader, chunks: seq<string>, k: nat)
    requires k <= |chunks|
    requires k < |chunks| ==> FeedAll(step, r, chunks[..k]).done
    ensures FeedAll(step, r, chunks) == FeedAll(step, r, chunks[..k])
  {
    if k < |chunks| {
      FeedAllAppend(step, r, chunks[..k], chunks[k..]);
      assert chunks[..k] + chunks[k..] == chunks;
      FeedAllAfterDone(step, FeedAll(step, r, chunks[..k]), chunks[k..]);
    } else {
      assert chunks[..k] == chunks;
    }
  }

  /** The read-loop state of one `send`, run in place. */
  class StreamConsumer {
    /** The treatment of one complete line: `Reading(parse)` in the panel. */
    const step: LineStep
    /** The transcript when the stream opened. */
    ghost const initial: seq<Msg>
    var buffer: string
    var soFar: string
    var done: bool
    var transcript: seq<Msg>

    ghost predicate Valid()
      reads this
    {
      transcript == Publish(initial, soFar)
    }

    function State(): Reader
      reads this
    {
      Reader(buffer, soFar, done)
    }

    constructor(step: LineStep, messages: seq<Msg>)
      ensures Valid() && State() == Opened
      ensures this.step == step && initial == messages && transcript == messages
    {
      this.step := step;
      initial := messages;
      buffer, soFar, done := "", "", false;
      transcript := messages;
    }

    /** `assistantSoFar += content` and the upsert that shows it. */
    method Extend(text: string)
      requires Valid() && text != ""
      modifies this
      ensures Valid() && soFar == old(soFar) + text
      ensures buffer == old(buffer) && done == old(done)
    {
      var next := soFar + text;
      assert |next| == |soFar| + |text| > 0;
      if soFar != "" {
        UpsertTwice(initial, soFar, next);
      }
      transcript := Upsert(transcript, next);
      soFar := next;
    }

    /** One turn of the inner loop: the first complete line is cut from the buffer and
        handled as `LineAction` says; `stop` tells whether the loop breaks after it. */
    method TakeLine(i: nat) returns (stop: bool)
      requires Valid() && !done && i == Find(buffer, '\n') && i < |buffer|
      modifies this
      ensures Valid()
      ensures var a := step(old(buffer)[..i]);
        var rest := old(buffer)[i + 1..];
        && (a.Continue? ==> !stop && !done && buffer == rest && soFar == old(soFar) + a.text)
        && (a.Finish? ==> stop && done && buffer == rest && soFar == old(soFar))
        && (a.Reject? ==> stop && !done && buffer == a.line + "\n" + rest && soFar == old(soFar))
    {
      var line := buffer[..i];
      buffer := buffer[i + 1..];
      stop := false;
      match step(line) {
        case Continue(content) =>
          if content != "" {
            Extend(content);
          } else {
            AppendEmpty(soFar);
          }
        case Finish =>
          done := true;
          stop := true;
        case Reject(stripped) =>
          buffer := stripped + "\n" + buffer;
          stop := true;
      }
    }

    /** One read: the chunk is appended to the buffer and every complete line is consumed,
        until none is left, `[DONE]` is read, or a line does not parse. */
    method FeedChunk(chunk: string)
      requires Valid() && !done
      modifies this
      ensures Valid() && State() == Feed(step, old(State()), chunk)
    {
      ghost var goal := Drain(step, buffer + chunk);
      ghost var text0 := soFar;
      buffer := buffer + chunk;
      var stop := false;
      var i := Find(buffer, '\n');
      while !stop && i < |buffer|
        invariant Valid()
        invariant !stop ==> i == Find(buffer, '\n') && !done
        invariant !stop ==> var d := Drain(step, buffer);
          d.rest == goal.rest && d.stop == goal.stop && soFar + d.text == text0 + goal.text
        invariant stop ==> buffer == goal.rest && soFar == text0 + goal.text && done == (goal.stop == Finished)
        decreases if stop then 0 else |buffer| + 1
      {
        ghost var b0 := buffer;
        ghost var s0 := soFar;
        LoopTurn(step, b0, s0, text0, goal);
        stop := TakeLine(i);
        if !stop {
          i := Find(buffer, '\n');
        }
      }
      if !stop {
        AppendEmpty(soFar);
      }
    }

    /** The outer loop: read chunk after chunk until the reader is exhausted or `[DONE]`
        was read. */
    method ReadAll(chunks: seq<string>)
      requires Valid()
      modifies this
      ensures Valid() && State() == FeedAll(step, old(State()), chunks)
    {
      ghost var start := State();
      var k := 0;
      while k < |chunks| && !done
        invariant 0 <= k <= |chunks|
        invariant Valid() && State() == FeedAll(step, start, chunks[..k])
      {
        FeedAllSnoc(step, start, chunks, k);
        FeedChunk(chunks[k]);
        k := k + 1;
      }
      FeedAllRest(step, start, chunks, k);
    }

    /** One piece of the flush: handled like a line of the loop, except that an empty
        piece, `[DONE]` and a payload that does not parse are passed over. */
    method FlushPiece(raw: string)
      requires Valid()
      modifies this
      ensures Valid() && buffer == old(buffer) && done == old(done)
      ensures soFar == old(soFar) + FlushLine(step, raw)
    {
      if raw != "" {
        match step(raw) {
          case Continue(content) =>
            if content != "" {
              Extend(content);
            } else {
              AppendEmpty(soFar);
            }
          case Finish =>
            AppendEmpty(soFar);
          case Reject(_) =>
            AppendEmpty(soFar);
        }
      } else {
        AppendEmpty(soFar);
      }
    }

    /** The flush after the last read: every piece of a non-blank buffer is read once more. */
    method FlushRest()
      requires Valid()
      modifies this
      ensures Valid() && soFar == FinalText(step, old(State()))
      ensures buffer == old(buffer) && done == old(done)
    {
      ghost var text0 := soFar;
      if !IsBlank(buffer) {
        var lines := Split(buffer, '\n');
        for k := 0 to |lines|
          invariant Valid() && buffer == old(buffer) && done == old(done)
          invariant soFar == text0 + FlushText(step, lines[..k])
        {
          ghost var s0 := soFar;
          FlushPiece(lines[k]);
          FlushTextSnoc(step, lines, k, text0, s0, soFar);
        }
        assert lines[..|lines|] == lines;
      } else {
        AppendEmpty(soFar);
      }
    }
  }

  /** The body of an answer: the chunks the reader delivers, and whether a read fails
      after the last of them instead of reporting the end of the stream. */
  datatype Body = Body(chunks: seq<string>, breaks: bool)

  /** What `fetch` gives: an exception, or a status and maybe a body. */
  datatype Reply = Unreachable | Reply(status: int, body: Option<Body>)

  predicate IsOk(status: int) {
    200 <= status <= 299
  }

  /** The transcript after a stream: with the apology appended when a read failed before
      `[DONE]` (then nothing is flushed), otherwise with the flushed final text. */
  function Streamed(base: seq<Msg>, parse: Parser, body: Body): seq<Msg> {
    var step := Reading(parse);
    var r := FeedAll(step, Opened, body.chunks);
    if body.breaks && !r.done then Publish(base, r.text) + [Msg(Assistant, Apology)]
    else Publish(base, FinalText(step, r))
  }

  /** The transcript after `send`, from the one that holds the new user message. */
  function SendOutcome(base: seq<Msg>, parse: Parser, reply: Reply): seq<Msg> {
    match reply
    case Unreachable => base + [Msg(Assistant, Apology)]
    case Reply(status, body) =>
      if status == 429 || status == 402 then base
      else if !IsOk(status) || body.None? then base + [Msg(Assistant, Apology)]
      else Streamed(base, parse, body.value)
  }

  /** `send` never rewrites what was already there: the new transcript is the old one,
      the user message, and then at most an assistant answer and an apology. */
  lemma SendOutcomeExtends(base0: seq<Msg>, user: Msg, parse: Parser, reply: Reply)
    requires user.role == User
    ensures var base := base0 + [user];
      var r := SendOutcome(base, parse, reply);
      |base| <= |r| <= |base| + 2 && r[..|base|] == base
      && (forall k :: |base| <= k < |r| ==> r[k].role == Assistant)
  {
    var base := base0 + [user];
    var apology := Msg(Assistant, Apology);
    forall text: string
      ensures Publish(base, text)[..|base|] == base && |base| <= |Publish(base, text)| <= |base| + 1
      ensures forall k :: |base| <= k < |Publish(base, text)| ==> Publish(base, text)[k].role == Assistant
    {
      if text != "" {
        assert Upsert(base, text) == base + [Msg(Assistant, text)];
      }
    }
    match reply
    case Unreachable =>
      assert (base + [apology])[..|base|] == base;
    case Reply(status, body) =>
      if status == 429 || status == 402 {
      } else if !IsOk(status) || body.None? {
        assert (base + [apology])[..|base|] == base;
      } else {
        var r := FeedAll(Reading(parse), Opened, body.value.chunks);
        if body.value.breaks && !r.done {
          var p := Publish(base, r.text);
          assert (p + [apology])[..|p|] == p;
          assert (p + [apology])[..|base|] == p[..|base|];
        }
      }
  }

  /** Rate limiting and exhausted credits leave only the user message; every other
      failure before the stream adds exactly the apology. */
  lemma SendFailures(base: seq<Msg>, parse: Parser, reply: Reply)
    ensures reply.Reply? && (reply.status == 429 || reply.status == 402) ==> SendOutcome(base, parse, reply) == base
    ensures reply.Unreachable? || (reply.status != 429 && reply.status != 402 && (!IsOk(reply.status) || reply.body.None?))
      ==> SendOutcome(base, parse, reply) == base + [Msg(Assistant, Apology)]
  {
  }

  /** The panel's state: the transcript, the input box and the loading flag. */
  class ChatPanel {
    var messages: seq<Msg>
    var input: string
    var isLoading: bool

    constructor()
      ensures messages == [] && input == "" && !isLoading
    {
      messages, input, isLoading := [], "", false;
    }

    /** `send`: nothing happens for blank input, without a user, or while a request is
        running; otherwise the trimmed input becomes a user message, the transcript
        including it is posted (and returned), and the answer is streamed in. */
    method Send(signedIn: bool, parse: Parser, reply: Reply) returns (request: Option<seq<Msg>>)
      modifies this
      ensures IsBlank(old(input)) || !signedIn || old(isLoading) ==>
        request.None? && messages == old(messages) && input == old(input) && isLoading == old(isLoading)
      ensures !(IsBlank(old(input)) || !signedIn || old(isLoading)) ==>
        var base := old(messages) + [Msg(User, Trim(old(input)))];
        && request == Some(base)
        && messages == SendOutcome(base, parse, reply)
        && input == "" && !isLoading
    {
      if IsBlank(input) || !signedIn || isLoading {
        return None;
      }
      var base := messages + [Msg(User, Trim(input))];
      messages := base;
      input := "";
      isLoading := true;
      request := Some(base);
      match reply {
        case Unreachable =>
          messages := messages + [Msg(Assistant, Apology)];
        case Reply(status, body) =>
          if status == 429 || status == 402 {
          } else if !IsOk(status) || body.None? {
            messages := messages + [Msg(Assistant, Apology)];
          } else {
            var consumer := new StreamConsumer(Reading(parse), base);
            consumer.ReadAll(body.value.chunks);
            if body.value.breaks && !consumer.done {
              messages := consumer.transcript + [Msg(Assistant, Apology)];
            } else {
              consumer.FlushRest();
              messages := consumer.transcript;
            }
          }
      }
      isLoading := false;
    }
  }
}
