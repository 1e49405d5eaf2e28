/** The client's reading of the `text/event-stream` wire format: the buffer is
    cut into frames at each blank line (`"\n\n"`), and each frame is read as an
    event name and a data payload. This is the simplified variant the client
    implements, not the full algorithm of section 9.2.6 of the WHATWG HTML
    Living Standard: the default event name is `token`, `data:` lines are
    trimmed and joined with nothing between them, only `"\n\n"` ends a frame,
    and `id:`, `retry:`, comments and carriage returns have no meaning. */
module Sse {
  import opened Wrappers
  import opened Text

  /** The text that ends a frame. */
  const Delimiter: string := "\n\n"

  /** `p` occurs somewhere in `s`. */
  predicate Contains(s: string, p: string) {
    exists k: nat :: k <= |s| && OccursAt(s, p, k)
  }

  /** A frame as the client cuts it: it holds no blank line, and it does not end
      with a line feed (that line feed would have begun the delimiter). */
  predicate IsFrame(f: string) {
    !Contains(f + "\n", Delimiter)
  }

  // ---------------------------------------------------------------------------
  // Cutting the buffer into frames.

  /** One pass of the inner loop: the text before the first `"\n\n"` and the
      text after it, or None when the buffer holds no delimiter. */
  function CutFrame(buffer: string): (r: Option<(string, string)>)
    ensures r.None? <==> !Contains(buffer, Delimiter)
    ensures r.Some? ==> buffer == r.value.0 + Delimiter + r.value.1 && IsFrame(r.value.0)
  {
    var idx := IndexOf(buffer, Delimiter);
    if idx == -1 then None
    else
      var f, rest := buffer[..idx], buffer[idx + 2..];
      assert buffer == f + Delimiter + rest;
      FirstDelimiter(buffer, idx);
      Some((f, rest))
  }

  lemma FirstDelimiter(buffer: string, idx: nat)
    requires OccursAt(buffer, Delimiter, idx)
    requires forall k: nat :: k < idx ==> !OccursAt(buffer, Delimiter, k)
    ensures IsFrame(buffer[..idx])
  {
    var g := buffer[..idx] + "\n";
    assert g == buffer[..idx + 1];
    forall k: nat | k <= |g|
      ensures !OccursAt(g, Delimiter, k)
    {
      if k + 2 <= |g| {
        assert g[k..k + 2] == buffer[k..k + 2];
        assert !OccursAt(buffer, Delimiter, k);
      }
    }
  }

  /** A frame written out with its delimiter and followed by anything is cut
      back into that frame and what follows. */
  lemma CutFirst(f: string, t: string)
    requires IsFrame(f)
    ensures CutFrame(f + Delimiter + t) == Some((f, t))
  {
    var s := f + Delimiter + t;
    assert OccursAt(s, Delimiter, |f|);
    forall k: nat | k < |f|
      ensures !OccursAt(s, Delimiter, k)
    {
      assert s[k..k + 2] == (f + "\n")[k..k + 2];
      assert !OccursAt(f + "\n", Delimiter, k);
    }
    assert s[..|f|] == f && s[|f| + 2..] == t;
  }

  /** Frames written out one after another, each followed by the delimiter. */
  function Framed(fs: seq<string>): (r: string)
  {
    if fs == [] then "" else fs[0] + Delimiter + Framed(fs[1..])
  }

  lemma {:induction false} FramedAppend(a: seq<string>, b: seq<string>)
    ensures Framed(a + b) == Framed(a) + Framed(b)
  {
    if a == [] {
      assert a + b == b;
    } else {
      assert (a + b)[1..] == a[1..] + b;
      FramedAppend(a[1..], b);
    }
  }

  lemma FramedCons(f: string, fs: seq<string>, left: string)
    ensures Framed([f] + fs) + left == f + Delimiter + (Framed(fs) + left)
  {
    assert ([f] + fs)[1..] == fs;
    Assoc(f + Delimiter, Framed(fs), left);
  }

  /** Every frame the inner loop would cut from `buffer`, and the text left
      over, if no frame stopped it early. */
  function SplitFrames(buffer: string): (r: (seq<string>, string))
    ensures buffer == Framed(r.0) + r.1
    ensures forall i :: 0 <= i < |r.0| ==> IsFrame(r.0[i])
    ensures !Contains(r.1, Delimiter)
    decreases |buffer|
  {
    match CutFrame(buffer)
    case None => ([], buffer)
    case Some((f, rest)) =>
      var (fs, left) := SplitFrames(rest);
      FramedCons(f, fs, left);
      ([f] + fs, left)
  }

  /** The decomposition of a text into frames and a leftover without a
      delimiter is unique: whoever wrote those frames, the client cuts exactly
      them back out. */
  lemma {:induction false} SplitUnique(fs: seq<string>, rest: string)
    requires forall i :: 0 <= i < |fs| ==> IsFrame(fs[i])
    requires !Contains(rest, Delimiter)
    ensures SplitFrames(Framed(fs) + rest) == (fs, rest)
  {
    if fs != [] {
      var tail := Framed(fs[1..]) + rest;
      assert Framed(fs) + rest == fs[0] + Delimiter + tail;
      CutFirst(fs[0], tail);
      SplitUnique(fs[1..], rest);
      assert [fs[0]] + fs[1..] == fs;
    } else {
      assert Framed(fs) + rest == rest;
    }
  }

  /** Appending text to the buffer keeps the frames already complete and adds
      the frames completed by the leftover and the new text. */
  lemma SplitAppend(x: string, d: string)
    ensures SplitFrames(x + d).0 == SplitFrames(x).0 + SplitFrames(SplitFrames(x).1 + d).0
    ensures SplitFrames(x + d).1 == SplitFrames(SplitFrames(x).1 + d).1
  {
    var (f1, r1) := SplitFrames(x);
    var (f2, r2) := SplitFrames(r1 + d);
    FramedAppend(f1, f2);
    Assoc(Framed(f1), r1, d);
    Assoc(Framed(f1), Framed(f2), r2);
    assert x + d == Framed(f1 + f2) + r2;
    assert forall i :: 0 <= i < |f1 + f2| ==> IsFrame((f1 + f2)[i]);
    SplitUnique(f1 + f2, r2);
  }

  // ---------------------------------------------------------------------------
  // Reading one frame.

  /** `chunk.split("\n").filter(Boolean)`. */
  function Lines(chunk: string): seq<string> {
    NonEmpty(Split(chunk, '\n'))
  }

  /** The event name: that of the last `event:` line, trimmed, or `token` when
      the frame has none. */
  function EventName(lines: seq<string>): string
  {
    if lines == [] then "token"
    else
      var ln := lines[|lines| - 1];
      if StartsWith(ln, "event:") then JsTrim(ln[6..]) else EventName(lines[..|lines| - 1])
  }

  /** What one line adds to the payload: its text after `data:`, trimmed. */
  function DataPart(ln: string): string {
    if StartsWith(ln, "data:") then JsTrim(ln[5..]) else ""
  }

  /** The payload: every `data:` line's part, in order, with no separator. */
  function DataOf(lines: seq<string>): string
  {
    if lines == [] then "" else DataOf(lines[..|lines| - 1]) + DataPart(lines[|lines| - 1])
  }

  /** The index of the last `event:` line. */
  predicate LastEventAt(lines: seq<string>, k: int) {
    0 <= k < |lines| && StartsWith(lines[k], "event:")
    && forall j :: k < j < |lines| ==> !StartsWith(lines[j], "event:")
  }

  /** The last `event:` line decides the name. */
  lemma {:induction false} EventNameLastWins(lines: seq<string>, k: int)
    requires LastEventAt(lines, k)
    ensures EventName(lines) == JsTrim(lines[k][6..])
    decreases |lines|
  {
    if k < |lines| - 1 {
      var init := lines[..|lines| - 1];
      assert LastEventAt(init, k);
      EventNameLastWins(init, k);
    }
  }

  /** Without an `event:` line the name is `token`. */
  lemma {:induction false} EventNameDefault(lines: seq<string>)
    requires forall j :: 0 <= j < |lines| ==> !StartsWith(lines[j], "event:")
    ensures EventName(lines) == "token"
    decreases |lines|
  {
    if lines != [] {
      EventNameDefault(lines[..|lines| - 1]);
    }
  }

  /** The payload of consecutive lines is the payloads of the parts, in order. */
  lemma {:induction false} DataOfAppend(a: seq<string>, b: seq<string>)
    ensures DataOf(a + b) == DataOf(a) + DataOf(b)
    decreases |b|
  {
    if b == [] {
      assert a + b == a;
    } else {
      var b' := b[..|b| - 1];
      assert (a + b)[..|a + b| - 1] == a + b';
      assert (a + b)[|a + b| - 1] == b[|b| - 1];
      assert DataOf(a + b) == DataOf(a + b') + DataPart(b[|b| - 1]);
      DataOfAppend(a, b');
      Assoc(DataOf(a), DataOf(b'), DataPart(b[|b| - 1]));
    }
  }

  /** Lines that are not `data:` lines add nothing to the payload. */
  lemma {:induction false} DataOfNone(lines: seq<string>)
    requires forall j :: 0 <= j < |lines| ==> !StartsWith(lines[j], "data:")
    ensures DataOf(lines) == ""
    decreases |lines|
  {
    if lines != [] {
      DataOfNone(lines[..|lines| - 1]);
    }
  }

  /** The event name and payload of a frame, as the frame loop computes them. */
  function Interpret(chunk: string): (string, string) {
    var lines := Lines(chunk);
    (EventName(lines), DataOf(lines))
  }

  /** The frame loop's step from the first `i` lines to the first `i + 1`. */
  lemma LinesStep(lines: seq<string>, i: nat)
    requires i < |lines|
    ensures EventName(lines[..i + 1])
         == if StartsWith(lines[i], "event:") then JsTrim(lines[i][6..]) else EventName(lines[..i])
    ensures DataOf(lines[..i + 1]) == DataOf(lines[..i]) + DataPart(lines[i])
  {
    assert lines[..i + 1][..i] == lines[..i];
  }

  /** The frame loop itself: one pass over the frame's non-empty lines. */
  method InterpretFrame(chunk: string) returns (eventName: string, dataLine: string)
    ensures (eventName, dataLine) == Interpret(chunk)
  {
    var lines := NonEmpty(Split(chunk, '\n'));
    eventName := "token";
    dataLine := "";
    for i := 0 to |lines|
      invariant eventName == EventName(lines[..i])
      invariant dataLine == DataOf(lines[..i])
    {
      var ln := lines[i];
      LinesStep(lines, i);
      if StartsWith(ln, "event:") {
        eventName := JsTrim(ln[6..]);
      }
      if StartsWith(ln, "data:") {
        dataLine := dataLine + JsTrim(ln[5..]);
      }
    }
    assert lines[..|lines|] == lines;
  }

  // ---------------------------------------------------------------------------
  // Frames of the shape the server writes.

  /** A frame of one `event:` line and one `data:` line. */
  function EventFrame(name: string, data: string): string {
    "event: " + name + "\ndata: " + data
  }

  /** Such a frame reads as its name and its payload, each trimmed. */
  lemma EventFrameReads(name: string, data: string)
    requires '\n' !in name && '\n' !in data
    ensures Interpret(EventFrame(name, data)) == (JsTrim(" " + name), JsTrim(" " + data))
  {
    var a, b := "event: " + name, "data: " + data;
    EventFrameLines(name, data);
    TwoLinesName(a, b, name);
    TwoLinesData(a, b, data);
  }

  lemma EventFrameLines(name: string, data: string)
    requires '\n' !in name && '\n' !in data
    ensures Lines(EventFrame(name, data)) == ["event: " + name, "data: " + data]
  {
    var a, b := "event: " + name, "data: " + data;
    assert EventFrame(name, data) == a + "\n" + b;
    SplitTwo(a, b);
    assert a[0] == 'e' && b[0] == 'd';
    assert NonEmpty([a, b][1..]) == [b];
  }

  lemma TwoLinesName(a: string, b: string, name: string)
    requires a == "event: " + name && |b| > 0 && b[0] == 'd'
    ensures EventName([a, b]) == JsTrim(" " + name)
  {
    assert !StartsWith(b, "event:") by { assert |b| < 6 || b[..6][0] == 'd'; }
    assert [a, b][..1] == [a];
    assert a[..6] == "event:" && a[6..] == " " + name;
  }

  lemma TwoLinesData(a: string, b: string, data: string)
    requires |a| > 0 && a[0] == 'e' && b == "data: " + data
    ensures DataOf([a, b]) == JsTrim(" " + data)
  {
    assert !StartsWith(a, "data:") by { assert |a| < 5 || a[..5][0] == 'e'; }
    assert DataPart(a) == "";
    assert b[..5] == "data:" && b[5..] == " " + data;
    assert DataPart(b) == JsTrim(" " + data);
    assert [a, b][..1] == [a];
    assert [a][..0] == [];
    assert DataOf([a]) == "";
  }

  /** Splitting two lines that hold no line feed at the one between them. */
  lemma SplitTwo(a: string, b: string)
    requires '\n' !in a && '\n' !in b
    ensures Split(a + "\n" + b, '\n') == [a, b]
  {
    var s := a + "\n" + b;
    assert s[|a|] == '\n';
    assert s[..|a|] == a;
    var i := FirstIndex(s, '\n');
    assert i == |a|;
    assert s[..i] == a && s[i + 1..] == b;
  }

  /** ` x`.trim() gives back `x` when `x` neither begins nor ends with white space. */
  lemma TrimPadded(x: string)
    requires x != [] ==> !IsJsSpace(x[0]) && !IsJsSpace(x[|x| - 1])
    ensures JsTrim(" " + x) == x
  {
    StripExact(" ", x, "", IsJsSpace);
    assert " " + x + "" == " " + x;
  }
}
