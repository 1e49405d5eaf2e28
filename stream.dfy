/** The streaming part of the client's `send()`: the answer accumulated from
    the events of the stream (`answerText`, `citations`, `latency` and the text
    of the live bubble), the inner loop that cuts frames off the buffer, the
    outer loop over the decoded deliveries, and what that reading promises. */
module Stream {
  import opened Wrappers
  import opened Text
  import opened Json
  import opened Sse

  /** A thrown JavaScript error: its `name` and its `message`. */
  datatype JsError = JsError(name: string, message: string)

  /** `String(e.message || e)`: the message, or the error's own rendering
      (its name) when the message is empty. */
  function ErrorText(e: JsError): (r: string)
    ensures e.message != "" ==> r == e.message
    ensures e.message == "" ==> r == e.name
  {
    if e.message != "" then e.message else e.name
  }

  /** What `JSON.parse` throws on text it cannot read. */
  const BadJson: JsError := JsError("SyntaxError", "")

  /** What reading `.citations` of a `null` meta payload throws. */
  const NullMeta: JsError := JsError("TypeError", "")

  /** What drawing citations throws: `citations.forEach` on a value that is
      not an array, or `c.source` on a `null` entry. */
  const RenderFailure: JsError := JsError("TypeError", "")

  /** `renderAssistantWithCitations` draws the citations without throwing:
      they are an array with no `null` entry. Other entries are drawn as
      their `source` field, which is missing on a non-object. */
  predicate Renders(citations: Json) {
    citations.JArr? && forall k :: 0 <= k < |citations.items| ==> citations.items[k] != JNull
  }

  /** The prefix of every failure text the client shows or stores. */
  const FailurePrefix: string := "请求失败："

  /** The state the stream loop accumulates: `answerText`, `citations`,
      `latency` (None standing for `null`) and the text of the live bubble. */
  datatype Answer = Answer(text: string, citations: Json, latency: Option<Json>, bubble: string)

  /** The state before the first delivery. */
  const Initial: Answer := Answer("", JArr([]), None, "")

  // ---------------------------------------------------------------------------
  // One event.

  /** A `token` event with a non-empty payload: the decoded value, converted to
      text, is appended to the answer and shown. The contract is the
      specification of the step field by field; the lemmas about the server's
      frames read the answer off it. */
  function ApplyToken(a: Answer, data: string): (r: Result<Answer, JsError>)
    ensures r.Err? <==> Parse(data).None?
    ensures r.Ok? ==> r.value == a.(text := a.text + ToJsString(Parse(data).value),
                                    bubble := a.text + ToJsString(Parse(data).value))
  {
    match Parse(data)
    case None => Err(BadJson)
    case Some(token) =>
      var text := a.text + ToJsString(token);
      Ok(a.(text := text, bubble := text))
  }

  /** A `meta` event with a non-empty payload. A truthy `citations` field
      replaces the citations, a `latency_ms` field that is neither missing nor
      `null` replaces the latency, and a truthy `error` field is shown in the
      bubble; the answer text is never touched. The contract states each
      field's update on its own, as the lemmas about the server's frames use
      it. */
  function ApplyMeta(a: Answer, data: string): (r: Result<Answer, JsError>)
    ensures r.Err? <==> Parse(data).None? || Parse(data) == Some(JNull)
    ensures r.Ok? ==> r.value.text == a.text
    ensures r.Ok? ==> var meta := Parse(data).value;
      && (match Get(meta, "citations")
          case Some(c) => r.value.citations == if Truthy(c) then c else a.citations
          case None => r.value.citations == a.citations)
      && (match Get(meta, "latency_ms")
          case Some(l) => r.value.latency == if l != JNull then Some(l) else a.latency
          case None => r.value.latency == a.latency)
      && (match Get(meta, "error")
          case Some(e) => r.value.bubble == if Truthy(e) then FailurePrefix + ToJsString(e) else a.bubble
          case None => r.value.bubble == a.bubble)
  {
    match Parse(data)
    case None => Err(BadJson)
    case Some(meta) =>
      if meta == JNull then Err(NullMeta)
      else
        var c := Get(meta, "citations");
        var l := Get(meta, "latency_ms");
        var e := Get(meta, "error");
        Ok(Answer(a.text,
                  if c.Some? && Truthy(c.value) then c.value else a.citations,
                  if l.Some? && l.value != JNull then l else a.latency,
                  if e.Some? && Truthy(e.value) then FailurePrefix + ToJsString(e.value) else a.bubble))
  }

  /** The effect of one event other than `done`: events with an empty payload
      and events of any other name change nothing. */
  function Step(a: Answer, eventName: string, data: string): (r: Result<Answer, JsError>)
    ensures data == "" ==> r == Ok(a)
    ensures eventName != "token" && eventName != "meta" ==> r == Ok(a)
  {
    if data == "" then Ok(a)
    else if eventName == "token" then ApplyToken(a, data)
    else if eventName == "meta" then ApplyMeta(a, data)
    else Ok(a)
  }

  /** A meta event, given the three fields its payload decodes to. */
  lemma MetaStepWith(a: Answer, data: string, meta: Json, c: Option<Json>, l: Option<Json>, e: Option<Json>)
    requires data != "" && Parse(data) == Some(meta) && meta != JNull
    requires Get(meta, "citations") == c && Get(meta, "latency_ms") == l && Get(meta, "error") == e
    ensures Step(a, "meta", data) == Ok(Answer(a.text,
                                             if c.Some? && Truthy(c.value) then c.value else a.citations,
                                             if l.Some? && l.value != JNull then l else a.latency,
                                             if e.Some? && Truthy(e.value) then FailurePrefix + ToJsString(e.value) else a.bubble))
  {
    assert "meta" != "token" by { assert "meta"[0] != "token"[0]; }
  }

  /** The frame names the `done` event. */
  predicate IsDone(frame: string) {
    Interpret(frame).0 == "done"
  }

  /** The answer a sequence of frames yields, read in order up to the first
      `done` frame. */
  function FoldFrames(a: Answer, fs: seq<string>): Result<Answer, JsError>
    decreases |fs|
  {
    if fs == [] then Ok(a)
    else
      var (eventName, data) := Interpret(fs[0]);
      if eventName == "done" then Ok(a)
      else
        match Step(a, eventName, data)
        case Err(e) => Err(e)
        case Ok(b) => FoldFrames(b, fs[1..])
  }

  // ---------------------------------------------------------------------------
  // The two loops.

  /** The inner loop over one buffer: cut frames off the front and apply them
      until no delimiter is left or a `done` frame breaks the loop; the result
      carries the buffer as the loop leaves it. */
  function Pump(a: Answer, buffer: string): Result<(Answer, string), JsError>
    decreases |buffer|
  {
    match CutFrame(buffer)
    case None => Ok((a, buffer))
    case Some((chunk, rest)) =>
      var (eventName, data) := Interpret(chunk);
      if eventName == "done" then Ok((a, rest))
      else
        match Step(a, eventName, data)
        case Err(e) => Err(e)
        case Ok(b) => Pump(b, rest)
  }

  /** The outer loop: each delivery is appended to the buffer, which is then
      pumped. Whatever is still in the buffer when the deliveries run out is
      never read. */
  function Read(a: Answer, buffer: string, ds: seq<string>): Result<Answer, JsError>
    decreases |ds|
  {
    if ds == [] then Ok(a)
    else
      match Pump(a, buffer + ds[0])
      case Err(e) => Err(e)
      case Ok((b, rest)) => Read(b, rest, ds[1..])
  }

  /** The body of the frame loop for an event other than `done`: the
      `if` chain over the event name, with the JSON decoding that may throw. */
  method HandleEvent(a: Answer, eventName: string, dataLine: string) returns (r: Result<Answer, JsError>)
    ensures r == Step(a, eventName, dataLine)
  {
    var answerText, citations, latency, bubble := a.text, a.citations, a.latency, a.bubble;
    if eventName == "token" {
      if dataLine != "" {
        var token := Parse(dataLine);
        if token.None? {
          return Err(BadJson);
        }
        answerText := answerText + ToJsString(token.value);
        bubble := answerText;
      }
    } else if eventName == "meta" {
      if dataLine != "" {
        var meta := Parse(dataLine);
        if meta.None? {
          return Err(BadJson);
        }
        if meta.value == JNull {
          return Err(NullMeta);
        }
        var c := Get(meta.value, "citations");
        if c.Some? && Truthy(c.value) {
          citations := c.value;
        }
        var l := Get(meta.value, "latency_ms");
        if l.Some? && l.value != JNull {
          latency := l;
        }
        var e := Get(meta.value, "error");
        if e.Some? && Truthy(e.value) {
          bubble := FailurePrefix + ToJsString(e.value);
        }
      }
    }
    r := Ok(Answer(answerText, citations, latency, bubble));
  }

  /** The two nested loops of `send()` over the decoded deliveries of the
      response body; a thrown error ends the reading. */
  method ReadStream(ds: seq<string>) returns (r: Result<Answer, JsError>)
    ensures r == Read(Initial, "", ds)
  {
    var buffer := "";
    var answer := Initial;
    var i := 0;
    while i < |ds|
      invariant 0 <= i <= |ds|
      invariant Read(answer, buffer, ds[i..]) == Read(Initial, "", ds)
    {
      ghost var outer := buffer;
      buffer := buffer + ds[i];
      ghost var pumped := Pump(answer, buffer);
      assert Read(answer, outer, ds[i..]) == match pumped
        case Err(e) => Err(e)
        case Ok((b, rest)) => Read(b, rest, ds[i + 1..]);
      var idx := IndexOf(buffer, Delimiter);
      while idx != -1
        invariant idx == IndexOf(buffer, Delimiter)
        invariant Pump(answer, buffer) == pumped
        decreases |buffer|
      {
        ghost var whole := buffer;
        var chunk := buffer[..idx];
        buffer := buffer[idx + 2..];
        assert CutFrame(whole) == Some((chunk, buffer));
        var eventName, dataLine := InterpretFrame(chunk);
        if eventName == "done" {
          break;
        }
        var next := HandleEvent(answer, eventName, dataLine);
        if next.Err? {
          return Err(next.error);
        }
        answer := next.value;
        idx := IndexOf(buffer, Delimiter);
      }
      assert pumped == Ok((answer, buffer));
      i := i + 1;
    }
    r := Ok(answer);
  }

  // ---------------------------------------------------------------------------
  // What the reading promises.

  /** No frame but possibly the last one is a `done` frame. */
  predicate DoneOnlyLast(fs: seq<string>) {
    forall i :: 0 <= i < |fs| - 1 ==> !IsDone(fs[i])
  }

  /** Folding frames that hold no `done` frame, then more frames, is folding
      the first batch and continuing from its answer. */
  lemma {:induction false} FoldAppend(a: Answer, f1: seq<string>, f2: seq<string>)
    requires forall i :: 0 <= i < |f1| ==> !IsDone(f1[i])
    ensures FoldFrames(a, f1 + f2) == match FoldFrames(a, f1)
                                      case Err(e) => Err(e)
                                      case Ok(b) => FoldFrames(b, f2)
    decreases |f1|
  {
    if f1 == [] {
      assert f1 + f2 == f2;
    } else {
      assert (f1 + f2)[0] == f1[0];
      assert (f1 + f2)[1..] == f1[1..] + f2;
      var (eventName, data) := Interpret(f1[0]);
      assert eventName != "done";
      match Step(a, eventName, data)
      case Err(e) =>
      case Ok(b) => FoldAppend(b, f1[1..], f2);
    }
  }

  /** The inner loop applies exactly the frames contained in the buffer, and
      leaves exactly the text after the last delimiter, as long as only the
      last of those frames may be a `done` frame. */
  lemma {:induction false} PumpFold(a: Answer, x: string)
    requires DoneOnlyLast(SplitFrames(x).0)
    ensures Pump(a, x) == match FoldFrames(a, SplitFrames(x).0)
                          case Err(e) => Err(e)
                          case Ok(b) => Ok((b, SplitFrames(x).1))
    decreases |x|
  {
    match CutFrame(x)
    case None =>
    case Some((chunk, rest)) =>
      var fs := SplitFrames(rest).0;
      assert SplitFrames(x).0 == [chunk] + fs;
      assert SplitFrames(x).1 == SplitFrames(rest).1;
      assert ([chunk] + fs)[1..] == fs;
      var (eventName, data) := Interpret(chunk);
      if eventName == "done" {
        assert fs == [];
        assert rest == SplitFrames(rest).1;
      } else {
        assert DoneOnlyLast(fs) by {
          forall i | 0 <= i < |fs| - 1 ensures !IsDone(fs[i]) {
            assert fs[i] == ([chunk] + fs)[i + 1];
          }
        }
        match Step(a, eventName, data)
        case Err(e) =>
        case Ok(b) => PumpFold(b, rest);
      }
  }

  /** When the inner loop ends because no delimiter is left (no `done` frame
      broke it), the buffer holds no `"\n\n"`. */
  lemma PumpDrains(a: Answer, x: string)
    requires forall i :: 0 <= i < |SplitFrames(x).0| ==> !IsDone(SplitFrames(x).0[i])
    requires Pump(a, x).Ok?
    ensures !Contains(Pump(a, x).value.1, Delimiter)
  {
    PumpFold(a, x);
  }

  /** Chunking does not matter: reading the deliveries applies exactly the
      frames of their concatenation, in order, as long as only the last frame
      may be a `done` frame. Text after the last delimiter is never read. */
  lemma {:induction false} ReadFold(a: Answer, buffer: string, ds: seq<string>)
    requires !Contains(buffer, Delimiter)
    requires DoneOnlyLast(SplitFrames(buffer + Concat(ds)).0)
    ensures Read(a, buffer, ds) == FoldFrames(a, SplitFrames(buffer + Concat(ds)).0)
    decreases |ds|
  {
    if ds == [] {
      assert buffer + Concat(ds) == buffer;
      assert CutFrame(buffer).None?;
    } else {
      var x := buffer + ds[0];
      var rest := Concat(ds[1..]);
      Assoc(buffer, ds[0], rest);
      SplitAppend(x, rest);
      var (f1, r1) := SplitFrames(x);
      var f2 := SplitFrames(r1 + rest).0;
      assert SplitFrames(buffer + Concat(ds)).0 == f1 + f2;
      ReadFoldStep(a, x, ds, f1, r1, f2);
    }
  }

  lemma {:induction false} ReadFoldStep(a: Answer, x: string, ds: seq<string>,
                                        f1: seq<string>, r1: string, f2: seq<string>)
    requires ds != []
    requires SplitFrames(x) == (f1, r1)
    requires f2 == SplitFrames(r1 + Concat(ds[1..])).0
    requires DoneOnlyLast(f1 + f2)
    ensures (match Pump(a, x)
             case Err(e) => Err(e)
             case Ok((b, rest)) => Read(b, rest, ds[1..])) == FoldFrames(a, f1 + f2)
    decreases |ds|, 0
  {
    var all := f1 + f2;
    assert forall i :: 0 <= i < |f1| ==> f1[i] == all[i];
    if f1 != [] && IsDone(f1[|f1| - 1]) {
      assert f2 == [];
      assert all == f1;
      PumpFold(a, x);
      match FoldFrames(a, f1)
      case Err(e) =>
      case Ok(b) =>
        ReadFold(b, r1, ds[1..]);
        assert FoldFrames(b, []) == Ok(b);
    } else {
      assert forall i :: 0 <= i < |f1| ==> !IsDone(f1[i]);
      PumpFold(a, x);
      FoldAppend(a, f1, f2);
      match FoldFrames(a, f1)
      case Err(e) =>
      case Ok(b) =>
        assert DoneOnlyLast(f2) by {
          forall i | 0 <= i < |f2| - 1 ensures !IsDone(f2[i]) {
            assert f2[i] == all[|f1| + i];
          }
        }
        ReadFold(b, r1, ds[1..]);
    }
  }

  /** Two ways of delivering the same text give the same outcome. */
  lemma ChunkingIrrelevant(ds1: seq<string>, ds2: seq<string>)
    requires Concat(ds1) == Concat(ds2)
    requires DoneOnlyLast(SplitFrames(Concat(ds1)).0)
    ensures Read(Initial, "", ds1) == Read(Initial, "", ds2)
  {
    assert !Contains("", Delimiter);
    assert "" + Concat(ds1) == Concat(ds1);
    assert "" + Concat(ds2) == Concat(ds2);
    ReadFold(Initial, "", ds1);
    ReadFold(Initial, "", ds2);
  }
}
