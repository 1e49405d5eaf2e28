/** The two ends of `/chat_stream` together: every frame the server yields
    is cut back out by the client as one frame, decoded to what was sent,
    and the answer the client accumulates from the whole stream, however it
    is split into deliveries, is the server's relayed tokens, citations and
    latency. */
module Wire {
  import opened Wrappers
  import opened Text
  import opened Json
  import opened Sse
  import opened Stream
  import opened Store
  import opened Exchange
  import opened Server

  // ---------------------------------------------------------------------------
  // One frame.

  /** json.dumps output is never empty and neither starts nor ends with a
      space, so trimming the `data:` line gives it back whole. */
  lemma DumpsEdges(j: Json)
    ensures Dumps(j) != [] && !IsJsSpace(Dumps(j)[0]) && !IsJsSpace(Dumps(j)[|Dumps(j)| - 1])
  {
    match j
    case JInt(n) =>
      var s := NatToString(if n < 0 then -n else n);
      assert IsDigit(s[|s| - 1]);
      if n < 0 { assert Dumps(j) == "-" + s; }
    case _ =>
  }

  /** A frame of one `event:` line and one `data:` line holds no blank line. */
  lemma TwoLineFrame(name: string, data: string)
    requires '\n' !in name && '\n' !in data
    ensures IsFrame(EventFrame(name, data))
  {
    var a, b := "event: " + name, "data: " + data;
    var s := EventFrame(name, data) + "\n";
    assert s == a + "\n" + b + "\n";
    forall k: nat | k <= |s| ensures !OccursAt(s, Delimiter, k) {
      if k + 2 <= |s| {
        if k < |a| {
          assert s[k] == a[k];
        } else if k == |a| {
          assert s[k + 1] == b[0];
        } else {
          assert s[k] == b[k - |a| - 1];
        }
        assert s[k..k + 2][0] == s[k] && s[k..k + 2][1] == s[k + 1];
      }
    }
  }

  /** A frame whose name and payload have no surrounding space reads back as
      exactly that name and payload. */
  lemma ReadsAs(name: string, data: string)
    requires '\n' !in name && '\n' !in data
    requires name != [] && !IsJsSpace(name[0]) && !IsJsSpace(name[|name| - 1])
    requires data != [] ==> !IsJsSpace(data[0]) && !IsJsSpace(data[|data| - 1])
    ensures Interpret(EventFrame(name, data)) == (name, data)
  {
    EventFrameReads(name, data);
    TrimPadded(name);
    TrimPadded(data);
  }

  /** A frame carrying a json.dumps payload reads back as its name and that
      payload. */
  lemma ReadsDumps(name: string, j: Json)
    requires '\n' !in name
    requires name != [] && !IsJsSpace(name[0]) && !IsJsSpace(name[|name| - 1])
    ensures Interpret(EventFrame(name, Dumps(j))) == (name, Dumps(j))
  {
    DumpsNoNewline(j);
    DumpsEdges(j);
    ReadsAs(name, Dumps(j));
  }

  /** One yield is one frame: the client cuts a token frame back out whole,
      reads it as a `token` event, and decodes the token that was sent. */
  lemma TokenFrameRoundTrip(t: Json)
    ensures CutFrame(TokenFrame(t)) == Some((EventFrame("token", Dumps(t)), ""))
    ensures Interpret(EventFrame("token", Dumps(t))) == ("token", Dumps(t))
    ensures Parse(Dumps(t)) == Some(t)
  {
    var body := EventFrame("token", Dumps(t));
    DumpsNoNewline(t);
    TwoLineFrame("token", Dumps(t));
    CutFirst(body, "");
    assert TokenFrame(t) == body + Delimiter + "";
    ReadsDumps("token", t);
    ParseDumps(t);
  }

  // ---------------------------------------------------------------------------
  // The events of a stream.

  /** The event name and payload of each relayed token's frame. */
  function TokenEvents(ts: seq<Json>): (r: seq<(string, string)>)
    ensures |r| == |ts|
    ensures forall k :: 0 <= k < |ts| ==> r[k] == ("token", Dumps(ts[k]))
  {
    seq(|ts|, k requires 0 <= k < |ts| => ("token", Dumps(ts[k])))
  }

  /** A meta event carrying `j`, then the done event. */
  function MetaDone(j: Json): seq<(string, string)> {
    [("meta", Dumps(j)), ("done", "{}")]
  }

  /** The event name and payload of each frame after the tokens. */
  function EndingEvents(exit: Exit, citations: seq<Json>, latencyMs: int): seq<(string, string)> {
    match exit
    case Completed => MetaDone(Meta(citations, latencyMs))
    case Failed(m) => MetaDone(ErrorMeta(m))
    case Left => []
  }

  /** The events of a stream that relays `ts` and ends with `exit`. */
  function EventsOf(ts: seq<Json>, exit: Exit, citations: seq<Json>, latencyMs: int): seq<(string, string)> {
    [("token", "")] + TokenEvents(ts) + EndingEvents(exit, citations, latencyMs)
  }

  /** The event name and payload of every frame `event_gen` yields. */
  function Events(lines: seq<UpLine>, end: UpEnd, citations: seq<Json>, latencyMs: int): seq<(string, string)> {
    var (ts, exit) := Relay(lines, end);
    EventsOf(ts, exit, citations, latencyMs)
  }

  /** The frames of those events as the client cuts them, without delimiters. */
  function Bodies(evs: seq<(string, string)>): (r: seq<string>)
    ensures |r| == |evs|
    ensures forall k :: 0 <= k < |evs| ==> r[k] == EventFrame(evs[k].0, evs[k].1)
  {
    seq(|evs|, k requires 0 <= k < |evs| => EventFrame(evs[k].0, evs[k].1))
  }

  /** A name and payload on one line each, with no surrounding space. */
  predicate Plain(e: (string, string)) {
    && '\n' !in e.0 && '\n' !in e.1
    && e.0 != [] && !IsJsSpace(e.0[0]) && !IsJsSpace(e.0[|e.0| - 1])
    && (e.1 != [] ==> !IsJsSpace(e.1[0]) && !IsJsSpace(e.1[|e.1| - 1]))
  }

  lemma DumpsPlain(name: string, j: Json)
    requires Plain((name, ""))
    ensures Plain((name, Dumps(j)))
  {
    DumpsNoNewline(j);
    DumpsEdges(j);
  }

  /** Every event of the stream is plain. */
  lemma EventsPlain(lines: seq<UpLine>, end: UpEnd, citations: seq<Json>, latencyMs: int)
    ensures forall k :: 0 <= k < |Events(lines, end, citations, latencyMs)| ==> Plain(Events(lines, end, citations, latencyMs)[k])
  {
    var (ts, exit) := Relay(lines, end);
    NamesPlain();
    TokenEventsPlain(ts);
    EndingPlain(exit, citations, latencyMs);
    AllPlain([("token", "")], TokenEvents(ts), EndingEvents(exit, citations, latencyMs));
  }

  /** The fixed events are plain. */
  lemma NamesPlain()
    ensures Plain(("token", "")) && Plain(("meta", "")) && Plain(("done", "{}"))
  {
  }

  lemma TokenEventsPlain(ts: seq<Json>)
    ensures forall k :: 0 <= k < |TokenEvents(ts)| ==> Plain(TokenEvents(ts)[k])
  {
    NamesPlain();
    forall k | 0 <= k < |ts| ensures Plain(TokenEvents(ts)[k]) {
      DumpsPlain("token", ts[k]);
    }
  }

  lemma EndingPlain(exit: Exit, citations: seq<Json>, latencyMs: int)
    ensures forall k :: 0 <= k < |EndingEvents(exit, citations, latencyMs)| ==> Plain(EndingEvents(exit, citations, latencyMs)[k])
  {
    NamesPlain();
    match exit
    case Completed => DumpsPlain("meta", Meta(citations, latencyMs));
    case Failed(m) => DumpsPlain("meta", ErrorMeta(m));
    case Left =>
  }

  lemma AllPlain(x: seq<(string, string)>, y: seq<(string, string)>, z: seq<(string, string)>)
    requires forall k :: 0 <= k < |x| ==> Plain(x[k])
    requires forall k :: 0 <= k < |y| ==> Plain(y[k])
    requires forall k :: 0 <= k < |z| ==> Plain(z[k])
    ensures forall k :: 0 <= k < |x + y + z| ==> Plain((x + y + z)[k])
  {
    forall k | 0 <= k < |x + y + z| ensures Plain((x + y + z)[k]) {
      if k < |x| {
        assert (x + y + z)[k] == x[k];
      } else if k < |x| + |y| {
        assert (x + y + z)[k] == y[k - |x|];
      } else {
        assert (x + y + z)[k] == z[k - |x| - |y|];
      }
    }
  }

  /** Plain events make frames the client cuts whole and reads back. */
  lemma ReadBodies(evs: seq<(string, string)>)
    requires forall k :: 0 <= k < |evs| ==> Plain(evs[k])
    ensures forall k :: 0 <= k < |evs| ==> IsFrame(Bodies(evs)[k]) && Interpret(Bodies(evs)[k]) == evs[k]
  {
    forall k | 0 <= k < |evs| ensures IsFrame(Bodies(evs)[k]) && Interpret(Bodies(evs)[k]) == evs[k] {
      var e := evs[k];
      TwoLineFrame(e.0, e.1);
      ReadsAs(e.0, e.1);
    }
  }

  /** The text the server writes for each event. */
  function Frames(evs: seq<(string, string)>): (r: seq<string>)
    ensures |r| == |evs|
    ensures forall k :: 0 <= k < |evs| ==> r[k] == Frame(evs[k].0, evs[k].1)
  {
    seq(|evs|, k requires 0 <= k < |evs| => Frame(evs[k].0, evs[k].1))
  }

  lemma FramesAppend(x: seq<(string, string)>, y: seq<(string, string)>)
    ensures Frames(x + y) == Frames(x) + Frames(y)
  {
    assert forall k :: 0 <= k < |x + y| ==> Frames(x + y)[k] == (Frames(x) + Frames(y))[k] by {
      forall k | 0 <= k < |x + y| ensures Frames(x + y)[k] == (Frames(x) + Frames(y))[k] {
        if k < |x| {
          assert (x + y)[k] == x[k];
        } else {
          assert (x + y)[k] == y[k - |x|];
        }
      }
    }
  }

  /** `event_gen` yields the frame of each of its events, in order. */
  lemma YieldsAreFrames(lines: seq<UpLine>, end: UpEnd, citations: seq<Json>, latencyMs: int)
    ensures EventGen(lines, end, citations, latencyMs) == Frames(Events(lines, end, citations, latencyMs))
  {
    var (ts, exit) := Relay(lines, end);
    var te, ee := TokenEvents(ts), EndingEvents(exit, citations, latencyMs);
    FramesAppend([("token", "")], te);
    FramesAppend([("token", "")] + te, ee);
    assert Frames([("token", "")]) == [Opening];
    assert Frames(te) == TokenFrames(ts);
    assert Frames(ee) == Ending(exit, citations, latencyMs);
  }

  /** A frame the server writes is the frame the client cuts, then the delimiter. */
  lemma FramesAreBodies(evs: seq<(string, string)>)
    ensures forall k :: 0 <= k < |evs| ==> Frames(evs)[k] == Bodies(evs)[k] + Delimiter
  {
  }

  /** Frames each followed by the delimiter, concatenated, are those frames framed. */
  lemma {:induction false} ConcatFramed(fs: seq<string>, bs: seq<string>)
    requires |fs| == |bs|
    requires forall k :: 0 <= k < |fs| ==> fs[k] == bs[k] + Delimiter
    ensures Concat(fs) == Framed(bs)
  {
    if fs != [] {
      ConcatFramed(fs[1..], bs[1..]);
      Assoc(bs[0], Delimiter, Framed(bs[1..]));
    }
  }

  /** The client cuts exactly the server's frames from the stream's text, one
      per yield, in order, and nothing is left over. */
  lemma StreamSplits(lines: seq<UpLine>, end: UpEnd, citations: seq<Json>, latencyMs: int)
    ensures SplitFrames(Concat(EventGen(lines, end, citations, latencyMs)))
         == (Bodies(Events(lines, end, citations, latencyMs)), "")
  {
    var evs := Events(lines, end, citations, latencyMs);
    var bs := Bodies(evs);
    YieldsAreFrames(lines, end, citations, latencyMs);
    FramesAreBodies(evs);
    ConcatFramed(Frames(evs), bs);
    EventsPlain(lines, end, citations, latencyMs);
    ReadBodies(evs);
    assert !Contains("", Delimiter);
    SplitUnique(bs, "");
    assert Framed(bs) + "" == Framed(bs);
  }

  /** Only the last event of the stream can be `done`. */
  lemma DoneIsLast(lines: seq<UpLine>, end: UpEnd, citations: seq<Json>, latencyMs: int)
    ensures var evs := Events(lines, end, citations, latencyMs);
      forall k :: 0 <= k < |evs| - 1 ==> evs[k].0 != "done"
  {
    var (ts, exit) := Relay(lines, end);
    var evs := Events(lines, end, citations, latencyMs);
    var te, ee := TokenEvents(ts), EndingEvents(exit, citations, latencyMs);
    forall k | 0 <= k < |evs| - 1 ensures evs[k].0 != "done" {
      if k == 0 {
      } else if k <= |ts| {
        assert evs[k] == te[k - 1];
      } else {
        assert evs[k] == ee[k - 1 - |ts|] && k - 1 - |ts| == 0;
      }
    }
  }

  // ---------------------------------------------------------------------------
  // The answer those events build.

  /** The text the client's answer gains from relayed tokens: each one
      converted to text, in order. */
  function Spoken(ts: seq<Json>): string {
    if ts == [] then "" else ToJsString(ts[0]) + Spoken(ts[1..])
  }

  /** A token payload appends the token's text to the answer and shows it. */
  lemma TokenStep(a: Answer, data: string, t: Json)
    requires data != "" && Parse(data) == Some(t)
    ensures Step(a, "token", data) == Ok(a.(text := a.text + ToJsString(t), bubble := a.text + ToJsString(t)))
  {
  }

  /** Frames carrying tokens append the tokens' text to the answer and to the
      bubble, in order. */
  lemma {:induction false} FoldTokens(a: Answer, bs: seq<string>, ds: seq<string>, ts: seq<Json>)
    requires |bs| == |ts| && |ds| == |ts|
    requires forall k :: 0 <= k < |ts| ==> Interpret(bs[k]) == ("token", ds[k]) && ds[k] != "" && Parse(ds[k]) == Some(ts[k])
    requires a.bubble == a.text
    ensures FoldFrames(a, bs) == Ok(a.(text := a.text + Spoken(ts), bubble := a.text + Spoken(ts)))
    decreases |ts|
  {
    if ts != [] {
      var text := a.text + ToJsString(ts[0]);
      var b := a.(text := text, bubble := text);
      assert "token" != "done" by { assert "token"[0] != "done"[0]; }
      assert Interpret(bs[0]) == ("token", ds[0]);
      TokenStep(a, ds[0], ts[0]);
      assert FoldFrames(a, bs) == FoldFrames(b, bs[1..]);
      FoldTokens(b, bs[1..], ds[1..], ts[1..]);
      Assoc(a.text, ToJsString(ts[0]), Spoken(ts[1..]));
      var full := a.text + Spoken(ts);
      assert text + Spoken(ts[1..]) == full;
      assert b.(text := full, bubble := full) == a.(text := full, bubble := full);
    } else {
      assert a.text + Spoken(ts) == a.text;
    }
  }

  /** The fields of the normal meta payload. */
  lemma MetaFields(citations: seq<Json>, latencyMs: int)
    ensures Get(Meta(citations, latencyMs), "citations") == Some(JArr(citations))
    ensures Get(Meta(citations, latencyMs), "latency_ms") == Some(JInt(latencyMs))
    ensures Get(Meta(citations, latencyMs), "error") == None
  {
    var meta := Meta(citations, latencyMs);
    assert "latency_ms" != "citations" && "citations" != "error" && "latency_ms" != "error";
    GetAt(meta, "citations", 0);
    GetAt(meta, "latency_ms", 1);
    GetAbsent(meta, "error");
  }

  /** The normal meta payload sets the citations and the latency. */
  lemma MetaStep(a: Answer, data: string, citations: seq<Json>, latencyMs: int)
    requires data != "" && Parse(data) == Some(Meta(citations, latencyMs))
    ensures Step(a, "meta", data) == Ok(a.(citations := JArr(citations), latency := Some(JInt(latencyMs))))
  {
    MetaFields(citations, latencyMs);
    MetaStepWith(a, data, Meta(citations, latencyMs), Some(JArr(citations)), Some(JInt(latencyMs)), None);
    assert Truthy(JArr(citations));
    assert Answer(a.text, JArr(citations), Some(JInt(latencyMs)), a.bubble)
        == a.(citations := JArr(citations), latency := Some(JInt(latencyMs)));
  }

  /** The fields of the `except` branch's meta payload. */
  lemma ErrorFields(m: string)
    ensures Get(ErrorMeta(m), "citations") == None
    ensures Get(ErrorMeta(m), "latency_ms") == None
    ensures Get(ErrorMeta(m), "error") == Some(JStr(m))
  {
    assert "error" != "citations" && "error" != "latency_ms";
    GetAbsent(ErrorMeta(m), "citations");
    GetAbsent(ErrorMeta(m), "latency_ms");
    GetAt(ErrorMeta(m), "error", 0);
  }

  /** The meta payload of the `except` branch only shows its error, and only
      when the error's text is non-empty. */
  lemma ErrorStep(a: Answer, data: string, m: string)
    requires data != "" && Parse(data) == Some(ErrorMeta(m))
    ensures Step(a, "meta", data) == Ok(a.(bubble := if m != "" then FailurePrefix + m else a.bubble))
  {
    ErrorFields(m);
    MetaStepWith(a, data, ErrorMeta(m), None, None, Some(JStr(m)));
    if m != "" {
      assert Truthy(JStr(m)) && ToJsString(JStr(m)) == m;
      assert Step(a, "meta", data) == Ok(Answer(a.text, a.citations, a.latency, FailurePrefix + m));
      assert Answer(a.text, a.citations, a.latency, FailurePrefix + m) == a.(bubble := FailurePrefix + m);
    } else {
      assert !Truthy(JStr(m));
      assert Step(a, "meta", data) == Ok(Answer(a.text, a.citations, a.latency, a.bubble));
      assert Answer(a.text, a.citations, a.latency, a.bubble) == a;
    }
  }

  /** What the ending frames do to the answer. */
  function Finish(a: Answer, exit: Exit, citations: seq<Json>, latencyMs: int): Answer {
    match exit
    case Completed => a.(citations := JArr(citations), latency := Some(JInt(latencyMs)))
    case Failed(m) => a.(bubble := if m != "" then FailurePrefix + m else a.bubble)
    case Left => a
  }

  /** A meta frame and the done frame: the meta event applies, then reading stops. */
  lemma FoldMetaDone(a: Answer, bs: seq<string>, data: string, b: Answer)
    requires |bs| == 2 && Interpret(bs[0]) == ("meta", data) && Interpret(bs[1]) == ("done", "{}")
    requires Step(a, "meta", data) == Ok(b)
    ensures FoldFrames(a, bs) == Ok(b)
  {
    assert "meta" != "done" by { assert "meta"[0] != "done"[0]; }
    assert bs[1..][0] == bs[1];
    assert bs[1..][1..] == [];
  }

  lemma FoldEnding(a: Answer, bs: seq<string>, exit: Exit, citations: seq<Json>, latencyMs: int)
    requires var ee := EndingEvents(exit, citations, latencyMs);
      |bs| == |ee| && forall k :: 0 <= k < |ee| ==> Interpret(bs[k]) == ee[k]
    ensures FoldFrames(a, bs) == Ok(Finish(a, exit, citations, latencyMs))
  {
    match exit
    case Completed =>
      var meta := Meta(citations, latencyMs);
      assert Interpret(bs[0]) == ("meta", Dumps(meta)) && Interpret(bs[1]) == ("done", "{}");
      DumpsEdges(meta);
      ParseDumps(meta);
      MetaStep(a, Dumps(meta), citations, latencyMs);
      FoldMetaDone(a, bs, Dumps(meta), Finish(a, exit, citations, latencyMs));
    case Failed(m) =>
      var meta := ErrorMeta(m);
      assert Interpret(bs[0]) == ("meta", Dumps(meta)) && Interpret(bs[1]) == ("done", "{}");
      DumpsEdges(meta);
      ParseDumps(meta);
      ErrorStep(a, Dumps(meta), m);
      FoldMetaDone(a, bs, Dumps(meta), Finish(a, exit, citations, latencyMs));
    case Left =>
  }

  /** The answer the client holds at the end of a stream the server ended
      with `exit` after relaying `ts`: the tokens' text; on a normal ending
      the citations and latency of the meta frame; after an exception no
      citations, and the error in the bubble when it has text. */
  function Expected(ts: seq<Json>, exit: Exit, citations: seq<Json>, latencyMs: int): Answer {
    var text := Spoken(ts);
    match exit
    case Completed => Answer(text, JArr(citations), Some(JInt(latencyMs)), text)
    case Failed(m) => Answer(text, JArr([]), None, if m != "" then FailurePrefix + m else text)
    case Left => Answer(text, JArr([]), None, text)
  }

  lemma BodiesAppend(x: seq<(string, string)>, y: seq<(string, string)>)
    ensures Bodies(x + y) == Bodies(x) + Bodies(y)
  {
    assert forall k :: 0 <= k < |x + y| ==> Bodies(x + y)[k] == (Bodies(x) + Bodies(y))[k] by {
      forall k | 0 <= k < |x + y| ensures Bodies(x + y)[k] == (Bodies(x) + Bodies(y))[k] {
        if k < |x| {
          assert (x + y)[k] == x[k];
        } else {
          assert (x + y)[k] == y[k - |x|];
        }
      }
    }
  }

  /** The client reads each token frame as the token's json.dumps text. */
  lemma ReadTokenBodies(ts: seq<Json>)
    ensures forall k :: 0 <= k < |ts| ==> Interpret(Bodies(TokenEvents(ts))[k]) == ("token", Dumps(ts[k]))
  {
    forall k | 0 <= k < |ts| ensures Interpret(Bodies(TokenEvents(ts))[k]) == ("token", Dumps(ts[k])) {
      ReadsDumps("token", ts[k]);
    }
  }

  /** The client reads the done frame as a `done` event. */
  lemma ReadDone()
    ensures Interpret(EventFrame("done", "{}")) == ("done", "{}")
  {
    ReadsAs("done", "{}");
  }

  /** The client reads a meta frame and the done frame after it as their events. */
  lemma ReadMetaDone(j: Json)
    ensures forall k :: 0 <= k < |MetaDone(j)| ==> Interpret(Bodies(MetaDone(j))[k]) == MetaDone(j)[k]
  {
    var evs := MetaDone(j);
    var bs := Bodies(evs);
    forall k | 0 <= k < |evs| ensures Interpret(bs[k]) == evs[k] {
      if k == 0 {
        ReadsDumps("meta", j);
        assert bs[0] == EventFrame("meta", Dumps(j));
      } else {
        ReadDone();
        assert k == 1 && bs[1] == EventFrame("done", "{}");
      }
    }
  }

  /** The client reads each ending frame as its event. */
  lemma ReadEndingBodies(exit: Exit, citations: seq<Json>, latencyMs: int)
    ensures var ee := EndingEvents(exit, citations, latencyMs);
      forall k :: 0 <= k < |ee| ==> Interpret(Bodies(ee)[k]) == ee[k]
  {
    match exit
    case Completed => ReadMetaDone(Meta(citations, latencyMs));
    case Failed(m) => ReadMetaDone(ErrorMeta(m));
    case Left =>
  }

  /** The token frames of a stream append the tokens' text, in order. */
  lemma FoldTokenBodies(a: Answer, ts: seq<Json>)
    requires a.bubble == a.text
    ensures FoldFrames(a, Bodies(TokenEvents(ts))) == Ok(a.(text := a.text + Spoken(ts), bubble := a.text + Spoken(ts)))
  {
    var bt := Bodies(TokenEvents(ts));
    var ds := seq(|ts|, k requires 0 <= k < |ts| => Dumps(ts[k]));
    forall k | 0 <= k < |ts|
      ensures Interpret(bt[k]) == ("token", ds[k]) && ds[k] != "" && Parse(ds[k]) == Some(ts[k])
    {
      ReadsDumps("token", ts[k]);
      DumpsEdges(ts[k]);
      ParseDumps(ts[k]);
    }
    FoldTokens(a, bt, ds, ts);
  }

  /** No token frame is a done frame. */
  lemma TokenBodiesNotDone(ts: seq<Json>)
    ensures forall k :: 0 <= k < |ts| ==> !IsDone(Bodies(TokenEvents(ts))[k])
  {
    assert "token" != "done" by { assert "token"[0] != "done"[0]; }
    forall k | 0 <= k < |ts| ensures !IsDone(Bodies(TokenEvents(ts))[k]) {
      ReadsDumps("token", ts[k]);
    }
  }

  /** After an opening frame read as an empty token, the client's answer
      after the frames of a whole stream is the one the relayed tokens and
      the ending determine. */
  lemma FoldAfterOpening(opening: string, ts: seq<Json>, exit: Exit, citations: seq<Json>, latencyMs: int)
    requires Interpret(opening) == ("token", "")
    ensures FoldFrames(Initial, [opening] + (Bodies(TokenEvents(ts)) + Bodies(EndingEvents(exit, citations, latencyMs))))
         == Ok(Expected(ts, exit, citations, latencyMs))
  {
    var b0, bt, be := [opening], Bodies(TokenEvents(ts)), Bodies(EndingEvents(exit, citations, latencyMs));
    var spoken := Initial.(text := Spoken(ts), bubble := Spoken(ts));
    assert FoldFrames(Initial, b0 + (bt + be)) == FoldFrames(Initial, bt + be) by {
      assert "token" != "done" by { assert "token"[0] != "done"[0]; }
      assert FoldFrames(Initial, b0) == Ok(Initial) by {
        assert b0[1..] == [];
      }
      FoldAppend(Initial, b0, bt + be);
    }
    assert FoldFrames(Initial, bt + be) == FoldFrames(spoken, be) by {
      FoldTokenBodies(Initial, ts);
      assert "" + Spoken(ts) == Spoken(ts);
      TokenBodiesNotDone(ts);
      FoldAppend(Initial, bt, be);
    }
    assert FoldFrames(spoken, be) == Ok(Finish(spoken, exit, citations, latencyMs)) by {
      ReadEndingBodies(exit, citations, latencyMs);
      FoldEnding(spoken, be, exit, citations, latencyMs);
    }
  }

  /** The client's answer after the frames of a whole stream is the one the
      relayed tokens and the ending determine. */
  lemma FoldEvents(ts: seq<Json>, exit: Exit, citations: seq<Json>, latencyMs: int)
    ensures FoldFrames(Initial, Bodies(EventsOf(ts, exit, citations, latencyMs))) == Ok(Expected(ts, exit, citations, latencyMs))
  {
    var te, ee := TokenEvents(ts), EndingEvents(exit, citations, latencyMs);
    BodiesAppend([("token", "")], te);
    BodiesAppend([("token", "")] + te, ee);
    var opening := EventFrame("token", "");
    assert Bodies([("token", "")]) == [opening];
    assert Bodies(EventsOf(ts, exit, citations, latencyMs)) == [opening] + (Bodies(te) + Bodies(ee));
    ReadsAs("token", "");
    FoldAfterOpening(opening, ts, exit, citations, latencyMs);
  }

  /** Whatever the stream's text, split into deliveries in any way, the
      client ends with the text of the relayed tokens, the citations and
      latency of a normal ending, and the error of an exception in the bubble. */
  lemma StreamRoundTrip(lines: seq<UpLine>, end: UpEnd, citations: seq<Json>, latencyMs: int, ds: seq<string>)
    requires Concat(ds) == Concat(EventGen(lines, end, citations, latencyMs))
    ensures var (ts, exit) := Relay(lines, end);
      Read(Initial, "", ds) == Ok(Expected(ts, exit, citations, latencyMs))
  {
    var evs := Events(lines, end, citations, latencyMs);
    var bs := Bodies(evs);
    assert SplitFrames("" + Concat(ds)) == (bs, "") by {
      StreamSplits(lines, end, citations, latencyMs);
      assert "" + Concat(ds) == Concat(ds);
    }
    assert DoneOnlyLast(bs) by {
      EventsPlain(lines, end, citations, latencyMs);
      ReadBodies(evs);
      DoneIsLast(lines, end, citations, latencyMs);
    }
    assert !Contains("", Delimiter);
    ReadFold(Initial, "", ds);
    FoldEvents(Relay(lines, end).0, Relay(lines, end).1, citations, latencyMs);
  }

  /** json.dumps of an empty object. */
  lemma EmptyObjectText()
    ensures Dumps(JObj([])) == "{}"
  {
    assert DumpsMembers([]) == "";
  }

  /** The payload `{}` of a meta event changes nothing. */
  lemma EmptyMetaStep(a: Answer)
    ensures Step(a, "meta", "{}") == Ok(a)
  {
    var empty := JObj([]);
    EmptyObjectText();
    ParseDumps(empty);
    GetAbsent(empty, "citations");
    GetAbsent(empty, "latency_ms");
    GetAbsent(empty, "error");
    MetaStepWith(a, "{}", empty, None, None, None);
  }

  /** A single frame read as a meta event with payload `{}` leaves the answer as it is. */
  lemma FoldEmptyMeta(a: Answer, body: string)
    requires Interpret(body) == ("meta", "{}")
    ensures FoldFrames(a, [body]) == Ok(a)
  {
    var fs := [body];
    assert fs[0] == body && fs[1..] == [];
    assert Interpret(fs[0]).0 != "done" by { assert "meta"[0] != "done"[0]; }
    assert Step(a, Interpret(fs[0]).0, Interpret(fs[0]).1) == Ok(a) by {
      EmptyMetaStep(a);
    }
    assert FoldFrames(a, fs) == FoldFrames(a, fs[1..]);
  }

  /** Deliveries that spell out one frame are read as that frame alone. */
  lemma ReadOne(a: Answer, ds: seq<string>, body: string)
    requires IsFrame(body) && Concat(ds) == body + Delimiter
    ensures Read(a, "", ds) == FoldFrames(a, [body])
  {
    assert Framed([body]) == body + Delimiter by {
      assert [body][1..] == [];
    }
    assert !Contains("", Delimiter);
    SplitUnique([body], "");
    assert Framed([body]) + "" == Framed([body]);
    assert "" + Concat(ds) == Concat(ds);
    assert DoneOnlyLast([body]);
    ReadFold(a, "", ds);
  }

  /** The uninitialised stream changes nothing in the client's answer (which
      therefore stays empty): its meta payload `{}` has no field to apply. */
  lemma UninitialisedReads(a: Answer, ds: seq<string>)
    requires Concat(ds) == Concat(Uninitialised)
    ensures Read(a, "", ds) == Ok(a)
  {
    var body := EventFrame("meta", "{}");
    assert Concat(Uninitialised) == body + Delimiter by {
      assert Uninitialised[1..] == [] && Concat(Uninitialised[1..]) == "";
    }
    TwoLineFrame("meta", "{}");
    ReadsAs("meta", "{}");
    ReadOneEmptyMeta(a, ds, body);
  }

  lemma ReadOneEmptyMeta(a: Answer, ds: seq<string>, body: string)
    requires IsFrame(body) && Concat(ds) == body + Delimiter && Interpret(body) == ("meta", "{}")
    ensures Read(a, "", ds) == Ok(a)
  {
    ReadOne(a, ds, body);
    FoldEmptyMeta(a, body);
  }

  /** The assistant message the client stores for a `/chat_stream` answer
      delivered whole: with the vector store loaded, the relayed tokens' text,
      and the passages' citations only when the stream ended normally (an
      error the server reports in its meta frame is shown, not stored);
      without it, an empty answer with no citations. */
  lemma ChatReply(ready: bool, docs: seq<Doc>, lines: seq<UpLine>, end: UpEnd, latencyMs: int,
                  ds: seq<string>, t1: int)
    requires Concat(ds) == Concat(ChatStream(ready, docs, lines, end, latencyMs))
    ensures Replies(Outcome(Streamed(ds, None)), t1) == [Reply(Outcome(Streamed(ds, None)), t1)]
    ensures var m, (ts, exit) := Reply(Outcome(Streamed(ds, None)), t1), Relay(lines, end);
      && (!ready ==> m == Message("assistant", "", Some(JArr([])), t1))
      && (ready ==> m == Message("assistant", Spoken(ts),
                                 Some(JArr(if exit.Completed? then Citations(docs) else [])), t1))
  {
    if ready {
      StreamRoundTrip(lines, end, Citations(docs), latencyMs, ds);
      assert Renders(JArr(Citations(docs))) && Renders(JArr([]));
    } else {
      UninitialisedReads(Initial, ds);
    }
  }
}
