/** The server's side of a question: the retrieved passages formatted into
    the prompt context, the citations projected from them, and the frames
    the `/chat_stream` generator yields while it relays the language model's
    streamed lines. */
module Server {
  import opened Wrappers
  import opened Text
  import opened Json

  /** A retrieved passage: its metadata and its text. */
  datatype Doc = Doc(metadata: map<string, string>, pageContent: string)

  /** `d.metadata.get("source", "unknown")`. */
  function Source(d: Doc): (r: string)
    ensures "source" in d.metadata ==> r == d.metadata["source"]
    ensures "source" !in d.metadata ==> r == "unknown"
  {
    if "source" in d.metadata then d.metadata["source"] else "unknown"
  }

  // ---------------------------------------------------------------------------
  // format_docs.

  /** The block for the `i`-th passage, counting from 1. */
  function Block(i: nat, d: Doc): string {
    "[" + NatToString(i) + "] 来源：" + Source(d) + "\n" + d.pageContent
  }

  /** One block per passage, numbered from 1 in the order retrieved. */
  function Blocks(docs: seq<Doc>): (r: seq<string>)
    ensures |r| == |docs|
    ensures forall k :: 0 <= k < |docs| ==> r[k] == Block(k + 1, docs[k])
  {
    seq(|docs|, k requires 0 <= k < |docs| => Block(k + 1, docs[k]))
  }

  /** The separator between blocks. */
  const BlockSeparator: string := "\n\n"

  /** `format_docs`: the loop that collects the blocks, then the join. */
  method FormatDocs(docs: seq<Doc>) returns (r: string)
    ensures r == Join(Blocks(docs), BlockSeparator)
  {
    var blocks: seq<string> := [];
    for i := 0 to |docs|
      invariant |blocks| == i
      invariant forall k :: 0 <= k < i ==> blocks[k] == Block(k + 1, docs[k])
    {
      blocks := blocks + [Block(i + 1, docs[i])];
    }
    assert blocks == Blocks(docs);
    r := Join(blocks, BlockSeparator);
  }

  /** No passages give an empty context. */
  lemma FormatNone()
    ensures Join(Blocks([]), BlockSeparator) == ""
  {
  }

  /** One more passage adds the separator and its block, numbered next. */
  lemma FormatAppend(docs: seq<Doc>, d: Doc)
    requires docs != []
    ensures Join(Blocks(docs + [d]), BlockSeparator)
         == Join(Blocks(docs), BlockSeparator) + BlockSeparator + Block(|docs| + 1, d)
  {
    assert Blocks(docs + [d]) == Blocks(docs) + [Block(|docs| + 1, d)];
    JoinSnoc(Blocks(docs), Block(|docs| + 1, d), BlockSeparator);
  }

  // ---------------------------------------------------------------------------
  // Citations.

  /** The longest snippet. */
  const SnippetLength: nat := 320

  /** `page_content[:320].replace("\n", " ").strip()`. */
  function Snippet(content: string): (r: string)
    ensures |r| <= SnippetLength
    ensures '\n' !in r
    ensures r != [] ==> !IsPySpace(r[0]) && !IsPySpace(r[|r| - 1])
  {
    var flat := ReplaceChar(Take(content, SnippetLength), '\n', ' ');
    assert '\n' !in flat by {
      forall k | 0 <= k < |flat| ensures flat[k] != '\n' { }
    }
    PyStrip(flat)
  }

  /** A short single-line passage with no surrounding space is its own snippet. */
  lemma SnippetPlain(content: string)
    requires |content| <= SnippetLength && '\n' !in content
    requires content != [] ==> !IsPySpace(content[0]) && !IsPySpace(content[|content| - 1])
    ensures Snippet(content) == content
  {
    var flat := ReplaceChar(Take(content, SnippetLength), '\n', ' ');
    assert flat == content;
    StripExact("", content, "", IsPySpace);
    assert "" + content + "" == content;
  }

  /** The citation of one passage: its source and its snippet. */
  function Citation(d: Doc): (c: Json)
    ensures Get(c, "source") == Some(JStr(Source(d)))
    ensures Get(c, "snippet") == Some(JStr(Snippet(d.pageContent)))
  {
    var ms := [Member("source", JStr(Source(d))), Member("snippet", JStr(Snippet(d.pageContent)))];
    assert "snippet" != "source" by { assert "snippet"[1] != "source"[1]; }
    assert ms[..1] == [Member("source", JStr(Source(d)))];
    assert LastMember(ms, "source") == LastMember(ms[..1], "source");
    assert LastMember(ms[..1], "source") == Some(JStr(Source(d)));
    JObj(ms)
  }

  /** The citation list: one citation per passage, in order. */
  function Citations(docs: seq<Doc>): (r: seq<Json>)
    ensures |r| == |docs|
    ensures forall k :: 0 <= k < |docs| ==> r[k] == Citation(docs[k])
  {
    seq(|docs|, k requires 0 <= k < |docs| => Citation(docs[k]))
  }

  // ---------------------------------------------------------------------------
  // The relay loop of event_gen.

  /** One line from the model's stream: empty, a decoded object, a line whose
      decoding (or whose `.get`) raises, or a line that finds the client
      already disconnected. */
  datatype UpLine = Blank | Record(fields: seq<Member>) | Garbled(message: string) | Gone

  /** How the model's stream ends when its lines run out: normally, or with
      an exception (from the connection, the status check or the read). */
  datatype UpEnd = Finished | Raised(message: string)

  /** How the relay loop ends: on to the normal ending, into the `except`
      with the exception's text, or out of the generator with a `return`. */
  datatype Exit = Completed | Failed(message: string) | Left

  /** Python truthiness of a decoded value. */
  predicate PyTruthy(j: Json) {
    match j
    case JNull => false
    case JBool(b) => b
    case JInt(n) => n != 0
    case JStr(s) => s != ""
    case JArr(items) => items != []
    case JObj(ms) => ms != []
  }

  /** `data.get(key, default)` on a decoded object; a repeated key keeps its
      last value, as `json.loads` does. */
  function Field(fields: seq<Member>, key: string, default: Json): (r: Json)
    ensures LastMember(fields, key).Some? ==> r == LastMember(fields, key).value
    ensures LastMember(fields, key).None? ==> r == default
  {
    match LastMember(fields, key)
    case Some(v) => v
    case None => default
  }

  /** The tokens the loop relays, in order, and how it ends. Only truthy
      tokens are relayed; a truthy `done` field ends the loop normally. */
  function Relay(lines: seq<UpLine>, end: UpEnd): (r: (seq<Json>, Exit))
    ensures forall k :: 0 <= k < |r.0| ==> PyTruthy(r.0[k])
    ensures lines == [] ==> r.0 == [] && r.1 == (if end.Raised? then Failed(end.message) else Completed)
  {
    if lines == [] then ([], if end.Raised? then Failed(end.message) else Completed)
    else
      match lines[0]
      case Gone => ([], Left)
      case Blank => Relay(lines[1..], end)
      case Garbled(m) => ([], Failed(m))
      case Record(fields) =>
        var relayed := Said(lines[0]);
        if PyTruthy(Field(fields, "done", JBool(false))) then (relayed, Completed)
        else
          var (rest, exit) := Relay(lines[1..], end);
          (relayed + rest, exit)
  }

  /** The token one line relays: the `response` field of a decoded object,
      when it is truthy. */
  function Said(line: UpLine): (r: seq<Json>)
    ensures |r| <= 1 && (r != [] ==> line.Record? && PyTruthy(r[0]))
  {
    match line
    case Record(fields) =>
      var token := Field(fields, "response", JStr(""));
      if PyTruthy(token) then [token] else []
    case _ => []
  }

  /** The truthy `response` fields of all the lines, in order. */
  function Responses(lines: seq<UpLine>): seq<Json> {
    if lines == [] then [] else Said(lines[0]) + Responses(lines[1..])
  }

  /** A line after which the loop reads no more: a disconnection, a line that
      does not decode, or a record whose `done` field is truthy. */
  predicate Stops(line: UpLine) {
    line.Gone? || line.Garbled? || (line.Record? && PyTruthy(Field(line.fields, "done", JBool(false))))
  }

  /** The position of the first stopping line, or the number of lines when
      none stops. */
  function FirstStop(lines: seq<UpLine>): (n: nat)
    ensures n <= |lines|
    ensures forall k :: 0 <= k < n ==> !Stops(lines[k])
    ensures n < |lines| ==> Stops(lines[n])
  {
    if lines == [] || Stops(lines[0]) then 0 else 1 + FirstStop(lines[1..])
  }

  /** How the loop ends at a stopping line. */
  function StopExit(line: UpLine): Exit {
    match line
    case Gone => Left
    case Garbled(m) => Failed(m)
    case _ => Completed
  }

  /** How the loop ends when the lines run out. */
  function EndExit(end: UpEnd): Exit {
    match end
    case Finished => Completed
    case Raised(m) => Failed(m)
  }

  /** The relay loop passes on, in order, the truthy `response` field of
      every line up to and including the first stopping line (blank lines,
      undecodable lines and disconnections pass nothing on), and ends as that
      line says: `return` on a disconnection, the `except` on an undecodable
      line, the normal ending on a truthy `done`; with no stopping line it ends
      as the stream does. */
  lemma {:induction false} RelayReads(lines: seq<UpLine>, end: UpEnd)
    ensures var n := FirstStop(lines);
      && Relay(lines, end).0 == Responses(lines[..if n < |lines| then n + 1 else n])
      && Relay(lines, end).1 == (if n < |lines| then StopExit(lines[n]) else EndExit(end))
  {
    if lines == [] {
      assert lines[..0] == [];
    } else {
      var n := FirstStop(lines);
      if Stops(lines[0]) {
        assert n == 0;
        assert lines[..1] == [lines[0]] && lines[..1][1..] == [];
      } else {
        RelayReads(lines[1..], end);
        var m := FirstStop(lines[1..]);
        assert n == m + 1;
        var upto := if n < |lines| then n + 1 else n;
        assert lines[..upto][1..] == lines[1..][..upto - 1];
        assert lines[..upto][0] == lines[0];
      }
    }
  }

  // ---------------------------------------------------------------------------
  // The frames.

  /** `f"event: {name}\ndata: {data}\n\n"`. */
  function Frame(name: string, data: string): string {
    "event: " + name + "\ndata: " + data + "\n\n"
  }

  /** The empty token frame every stream opens with. */
  const Opening: string := Frame("token", "")

  /** The frame relaying one token. */
  function TokenFrame(token: Json): string {
    Frame("token", Dumps(token))
  }

  function TokenFrames(ts: seq<Json>): (r: seq<string>)
    ensures |r| == |ts|
    ensures forall k :: 0 <= k < |ts| ==> r[k] == TokenFrame(ts[k])
  {
    seq(|ts|, k requires 0 <= k < |ts| => TokenFrame(ts[k]))
  }

  /** The meta payload of a normal ending. */
  function Meta(citations: seq<Json>, latencyMs: int): Json {
    JObj([Member("citations", JArr(citations)), Member("latency_ms", JInt(latencyMs))])
  }

  /** The meta payload of the `except` branch. */
  function ErrorMeta(message: string): Json {
    JObj([Member("error", JStr(message))])
  }

  /** The frame that ends every completed stream. */
  const DoneFrame: string := Frame("done", "{}")

  /** What follows the relayed tokens. */
  function Ending(exit: Exit, citations: seq<Json>, latencyMs: int): seq<string> {
    match exit
    case Completed => [Frame("meta", Dumps(Meta(citations, latencyMs))), DoneFrame]
    case Failed(m) => [Frame("meta", Dumps(ErrorMeta(m))), DoneFrame]
    case Left => []
  }

  /** Everything `event_gen` yields for the model's lines, the citations and
      the measured latency. */
  function EventGen(lines: seq<UpLine>, end: UpEnd, citations: seq<Json>, latencyMs: int): seq<string> {
    var (ts, exit) := Relay(lines, end);
    [Opening] + TokenFrames(ts) + Ending(exit, citations, latencyMs)
  }

  /** The stream opens with the empty token frame, relays each token in its
      own frame, in order, and after the tokens sends the meta frame and the
      done frame, except when the client went away. */
  lemma EventGenShape(lines: seq<UpLine>, end: UpEnd, citations: seq<Json>, latencyMs: int)
    ensures var r, (ts, exit) := EventGen(lines, end, citations, latencyMs), Relay(lines, end);
      && |r| == 1 + |ts| + (if exit.Left? then 0 else 2)
      && r[0] == Opening
      && (forall k :: 0 <= k < |ts| ==> r[k + 1] == TokenFrame(ts[k]) && PyTruthy(ts[k]))
      && (exit.Completed? ==> r[|r| - 2] == Frame("meta", Dumps(Meta(citations, latencyMs))) && r[|r| - 1] == DoneFrame)
      && (exit.Failed? ==> r[|r| - 2] == Frame("meta", Dumps(ErrorMeta(exit.message))) && r[|r| - 1] == DoneFrame)
  {
    var (ts, exit) := Relay(lines, end);
    FramesShape(ts, exit, citations, latencyMs);
  }

  /** The frames for given tokens and a given ending, laid out. */
  lemma FramesShape(ts: seq<Json>, exit: Exit, citations: seq<Json>, latencyMs: int)
    ensures |[Opening] + TokenFrames(ts) + Ending(exit, citations, latencyMs)| == 1 + |ts| + (if exit.Left? then 0 else 2)
    ensures ([Opening] + TokenFrames(ts) + Ending(exit, citations, latencyMs))[0] == Opening
    ensures forall k :: 0 <= k < |ts| ==> ([Opening] + TokenFrames(ts) + Ending(exit, citations, latencyMs))[k + 1] == TokenFrame(ts[k])
    ensures |ts| + 1 <= |[Opening] + TokenFrames(ts) + Ending(exit, citations, latencyMs)|
    ensures ([Opening] + TokenFrames(ts) + Ending(exit, citations, latencyMs))[|ts| + 1..] == Ending(exit, citations, latencyMs)
  {
    var tf := TokenFrames(ts);
    var r := [Opening] + tf + Ending(exit, citations, latencyMs);
    forall k | 0 <= k < |ts| ensures r[k + 1] == TokenFrame(ts[k]) {
      assert r[k + 1] == tf[k];
    }
  }

  /** Only the last frame of a stream can be the done frame, and it is there
      exactly when the client did not go away. */
  lemma DoneFrameLast(lines: seq<UpLine>, end: UpEnd, citations: seq<Json>, latencyMs: int)
    ensures var r := EventGen(lines, end, citations, latencyMs);
      && (forall k :: 0 <= k < |r| - 1 ==> r[k] != DoneFrame)
      && (r[|r| - 1] == DoneFrame <==> !Relay(lines, end).1.Left?)
  {
    var (ts, exit) := Relay(lines, end);
    var tf, ef := TokenFrames(ts), Ending(exit, citations, latencyMs);
    var r := [Opening] + tf + ef;
    assert DoneFrame[7] == 'd';
    assert Opening[7] == 't';
    forall k | 0 <= k < |r| ensures r[k] != DoneFrame <==> r[k][7] != 'd' {
      if k == 0 {
      } else if k <= |ts| {
        assert r[k] == TokenFrame(ts[k - 1]);
        assert r[k][7] == 't';
      } else {
        assert r[k] == ef[k - 1 - |ts|];
        if exit.Completed? {
          assert ef[0][7] == 'm';
        } else {
          assert ef[0][7] == 'm';
        }
      }
    }
  }

  /** What `chat_stream` streams when the vector store was never loaded. */
  const Uninitialised: seq<string> := [Frame("meta", "{}")]

  /** `chat_stream`: the uninitialised stream, or the generator's frames with
      the citations of the retrieved passages. */
  function ChatStream(ready: bool, docs: seq<Doc>, lines: seq<UpLine>, end: UpEnd, latencyMs: int): seq<string> {
    if ready then EventGen(lines, end, Citations(docs), latencyMs) else Uninitialised
  }
}
