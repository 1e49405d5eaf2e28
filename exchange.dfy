/** The client's `send()`: the trimmed user message is stored and sent with
    the conversation so far, the response is awaited and read, and an
    assistant message records how the exchange ended; a second one follows
    when drawing the finished answer's citations throws. */
module Exchange {
  import opened Wrappers
  import opened Text
  import opened Json
  import opened Sse
  import opened Stream
  import opened Store

  /** The number of passages the client asks the server to retrieve. */
  const TopK: int := 5

  /** One turn of the history sent with a question. */
  datatype Turn = Turn(role: string, content: string)

  /** The JSON body posted to `/chat_stream`. */
  datatype Request = Request(message: string, history: seq<Turn>, topK: int)

  /** How the request went: a response that is not ok or has no body, with
      its status and its text; a `fetch` that threw; or a stream whose decoded
      deliveries arrived in order, ended either by the reader reporting done
      or by a read that threw. */
  datatype Response =
    | Refused(status: int, body: string)
    | Unreachable(error: JsError)
    | Streamed(deliveries: seq<string>, broken: Option<JsError>)

  /** What the conversation of a session looks like on the wire. */
  function Turns(ms: seq<Message>): (r: seq<Turn>)
    ensures |r| == |ms|
    ensures forall k :: 0 <= k < |ms| ==> r[k] == Turn(ms[k].role, ms[k].content)
  {
    seq(|ms|, k requires 0 <= k < |ms| => Turn(ms[k].role, ms[k].content))
  }

  /** The error thrown for a refused response: its text, or `HTTP <status>`
      when the text is empty. */
  function HttpError(status: int, body: string): (e: JsError)
    ensures ErrorText(e) == if body != "" then body else "HTTP " + IntToString(status)
  {
    JsError("Error", if body != "" then body else "HTTP " + IntToString(status))
  }

  /** How the exchange ends: the answer read from a stream that ended
      normally, or the first error thrown on the way. */
  function Outcome(resp: Response): Result<Answer, JsError> {
    match resp
    case Refused(status, body) => Err(HttpError(status, body))
    case Unreachable(e) => Err(e)
    case Streamed(ds, broken) =>
      match Read(Initial, "", ds)
      case Err(e) => Err(e)
      case Ok(a) => if broken.Some? then Err(broken.value) else Ok(a)
  }

  /** The user message appended before the request. */
  function UserMessage(text: string, t0: int): Message {
    Message("user", text, None, t0)
  }

  /** The assistant message appended when the exchange ends: the answer and
      its citations, or the failure text with no citations field. */
  function Reply(outcome: Result<Answer, JsError>, t1: int): (m: Message)
    ensures m.role == "assistant" && m.ts == t1
    ensures outcome.Ok? ==> m.content == outcome.value.text && m.citations == Some(outcome.value.citations)
    ensures outcome.Err? ==> m.content == FailurePrefix + ErrorText(outcome.error) && m.citations.None?
  {
    match outcome
    case Ok(a) => Message("assistant", a.text, Some(a.citations), t1)
    case Err(e) => Message("assistant", FailurePrefix + ErrorText(e), None, t1)
  }

  /** The assistant messages an exchange appends, in order: the reply; and,
      when the answer was stored but its citations cannot be drawn, the
      failure text the `catch` pushes after it. */
  function Replies(outcome: Result<Answer, JsError>, t1: int): (r: seq<Message>)
    ensures |r| == (if outcome.Ok? && !Renders(outcome.value.citations) then 2 else 1)
    ensures r[0] == Reply(outcome, t1)
    ensures |r| == 2 ==> r[1] == Reply(Err(RenderFailure), t1)
  {
    if outcome.Ok? && !Renders(outcome.value.citations) then [Reply(outcome, t1), Reply(Err(RenderFailure), t1)]
    else [Reply(outcome, t1)]
  }

  /** The replies of an exchange are drawn again without throwing exactly
      when `send()` drew them without throwing: an answer whose truthy
      citations broke the first drawing breaks `renderChat` too. */
  lemma RepliesDrawable(outcome: Result<Answer, JsError>, t1: int)
    ensures |Replies(outcome, t1)| == 1 ==> Drawable(Replies(outcome, t1)[0])
    ensures |Replies(outcome, t1)| == 2 ==> Drawable(Replies(outcome, t1)[1])
    ensures |Replies(outcome, t1)| == 2 && Truthy(outcome.value.citations) ==> !Drawable(Replies(outcome, t1)[0])
  {
  }

  /** The session as it is saved before the request: the stored one (or a new
      one under the current id) with the user message, its title and time. */
  function Opened(ss: seq<Session>, id: string, text: string, t0: int): Session {
    var base := match FindById(ss, id) case Some(s) => s case None => Session(id, DefaultTitle, t0, t0, []);
    var ms := base.messages + [UserMessage(text, t0)];
    base.(messages := ms, title := DeriveTitle(ms), updatedAt := t0)
  }

  /** The session as it is saved after one more assistant message. */
  function Closed(s: Session, reply: Message, t1: int): Session {
    s.(messages := s.messages + [reply], updatedAt := t1)
  }

  /** The saved sessions after the exchange ends: the session with the reply
      saved over the started one, and, if the citations of a stored answer
      cannot be drawn, saved once more with the failure text after it. */
  function Finished(ss: seq<Session>, started: Session, outcome: Result<Answer, JsError>, t1: int): seq<Session> {
    var closed := Closed(started, Reply(outcome, t1), t1);
    var saved := Upserted(ss, closed);
    if outcome.Ok? && !Renders(outcome.value.citations) then Upserted(saved, Closed(closed, Reply(Err(RenderFailure), t1), t1))
    else saved
  }

  /** The store and the request after `send()`. */
  datatype Exchanged = Exchanged(sessions: seq<Session>, current: Option<string>, request: Option<Request>)

  /** The whole of `send()` on the store: nothing for blank input; otherwise
      the started session saved, the request sent, and the closed session saved
      over it; if the citations of a stored answer cannot be drawn, the
      session with the failure text after the answer is saved once more. */
  function Exchange(ss: seq<Session>, current: Option<string>, input: string, freshId: string,
                    t0: int, resp: Response, t1: int): Exchanged
  {
    var text := JsTrim(input);
    if text == "" then Exchanged(ss, current, None)
    else
      var id := Claimed(current, freshId);
      var started := Opened(ss, id, text, t0);
      Exchanged(Finished(Upserted(ss, started), started, Outcome(resp), t1), Some(id),
                Some(Request(text, Turns(started.messages), TopK)))
  }

  // ---------------------------------------------------------------------------
  // The client code.

  /** Up to the request: the current session gains the user message and is
      saved, and the request is built from its messages. */
  method Open(store: LocalStore, text: string, freshId: string, t0: int) returns (session: Session, req: Request)
    modifies store
    ensures var id := Claimed(old(store.current), freshId);
      && session == Opened(old(store.sessions), id, text, t0)
      && store.sessions == Upserted(old(store.sessions), session)
      && store.current == Some(id)
    ensures req == Request(text, Turns(session.messages), TopK)
  {
    var sessionId := store.GetCurrentSessionId(freshId);
    var found := store.GetSessionById(sessionId);
    session := if found.Some? then found.value else Session(sessionId, DefaultTitle, t0, t0, []);
    var messages := session.messages + [UserMessage(text, t0)];
    session := session.(messages := messages, title := DeriveTitle(messages), updatedAt := t0);
    store.UpsertSession(session, freshId);
    req := Request(text, Turns(session.messages), TopK);
  }

  /** The `try` block from `fetch` to the end of the read loop. */
  method Await(resp: Response) returns (outcome: Result<Answer, JsError>)
    ensures outcome == Outcome(resp)
  {
    match resp
    case Refused(status, body) =>
      outcome := Err(HttpError(status, body));
    case Unreachable(e) =>
      outcome := Err(e);
    case Streamed(ds, broken) =>
      outcome := ReadStream(ds);
      if outcome.Ok? && broken.Some? {
        outcome := Err(broken.value);
      }
  }

  /** The end of the exchange, normal or in the `catch`: an assistant
      message appended and the session saved. */
  method Commit(store: LocalStore, session: Session, reply: Message, t1: int, freshId: string)
    returns (closed: Session)
    modifies store
    ensures closed == Closed(session, reply, t1)
    ensures store.sessions == Upserted(old(store.sessions), closed)
    ensures store.current == Some(Claimed(old(store.current), freshId))
  {
    closed := session.(messages := session.messages + [reply], updatedAt := t1);
    store.UpsertSession(closed, freshId);
  }

  /** From the end of the read loop: the reply committed, normally or in the
      `catch`, and the failure text committed after an answer whose
      citations cannot be drawn. */
  method Finish(store: LocalStore, session: Session, outcome: Result<Answer, JsError>, t1: int, freshId: string)
    modifies store
    ensures store.sessions == Finished(old(store.sessions), session, outcome, t1)
    ensures store.current == Some(Claimed(old(store.current), freshId))
  {
    var closed := Commit(store, session, Reply(outcome, t1), t1, freshId);
    if outcome.Ok? && !Renders(outcome.value.citations) {
      // renderAssistantWithCitations throws into the catch, which pushes the
      // failure text onto the session already holding the answer.
      var _ := Commit(store, closed, Reply(Err(RenderFailure), t1), t1, freshId);
    }
  }

  /** `send()`. */
  method Send(store: LocalStore, input: string, freshId: string, t0: int, resp: Response, t1: int)
    returns (req: Option<Request>)
    modifies store
    ensures Exchanged(store.sessions, store.current, req)
         == Exchange(old(store.sessions), old(store.current), input, freshId, t0, resp, t1)
  {
    var text := JsTrim(input);
    if text == "" {
      return None;
    }
    var session, request := Open(store, text, freshId, t0);
    req := Some(request);
    var outcome := Await(resp);
    Finish(store, session, outcome, t1, freshId);
  }

  // ---------------------------------------------------------------------------
  // What an exchange promises.

  /** Whitespace-only input changes no stored state and sends nothing. */
  lemma BlankIsNoop(ss: seq<Session>, current: Option<string>, input: string, freshId: string,
                    t0: int, resp: Response, t1: int)
    requires forall k :: 0 <= k < |input| ==> IsJsSpace(input[k])
    ensures Exchange(ss, current, input, freshId, t0, resp, t1) == Exchanged(ss, current, None)
  {
    StripExact(input, "", "", IsJsSpace);
    assert input + "" + "" == input;
  }

  /** The history sent is the whole conversation of the session, ending with
      the trimmed user message. */
  lemma HistoryEndsWithUser(ss: seq<Session>, current: Option<string>, input: string, freshId: string,
                            t0: int, resp: Response, t1: int)
    requires JsTrim(input) != ""
    ensures var x := Exchange(ss, current, input, freshId, t0, resp, t1);
      && x.request.Some? && x.request.value.message == JsTrim(input) && x.request.value.topK == 5
      && |x.request.value.history| > 0
      && x.request.value.history[|x.request.value.history| - 1] == Turn("user", JsTrim(input))
  {
  }

  /** The messages stored under `id`, if any. */
  function Prior(ss: seq<Session>, id: string): seq<Message> {
    match FindById(ss, id) case Some(s) => s.messages case None => []
  }

  /** `after` is `ss` with the session under `id` holding `ms`, saved at `t`,
      and titled from `ms`; every other id finds what it found before. */
  ghost predicate SavedWith(after: seq<Session>, ss: seq<Session>, id: string, ms: seq<Message>, t: int) {
    && FindById(after, id).Some?
    && FindById(after, id).value.messages == ms
    && FindById(after, id).value.title == DeriveTitle(ms)
    && FindById(after, id).value.updatedAt == t
    && (forall other :: other != id ==> FindById(after, other) == FindById(ss, other))
    && Ids(after) == Ids(ss) + {id}
  }

  /** After a non-blank `send()`, the current session holds its earlier
      messages, the user message and the assistant replies (one, or two when
      the answer's citations cannot be drawn); its title is the one derived
      from those messages; every other session is as it was; and the store
      gains at most the one session. */
  lemma ExchangeAppends(ss: seq<Session>, current: Option<string>, input: string, freshId: string,
                        t0: int, resp: Response, t1: int)
    requires JsTrim(input) != ""
    ensures Exchange(ss, current, input, freshId, t0, resp, t1).current == Some(Claimed(current, freshId))
    ensures SavedWith(Exchange(ss, current, input, freshId, t0, resp, t1).sessions, ss, Claimed(current, freshId),
                      Prior(ss, Claimed(current, freshId)) + [UserMessage(JsTrim(input), t0)] + Replies(Outcome(resp), t1), t1)
  {
    var text := JsTrim(input);
    var id := Claimed(current, freshId);
    var started := Opened(ss, id, text, t0);
    assert Exchange(ss, current, input, freshId, t0, resp, t1).sessions
        == Finished(Upserted(ss, started), started, Outcome(resp), t1);
    FinishedAppends(Upserted(ss, started), started, Outcome(resp), t1);
    ClosedSaved(ss, id, text, t0, Replies(Outcome(resp), t1), t1);
  }

  /** Whether the failure text is saved after the answer or not, the end of
      the exchange leaves what one save of the session with all its replies
      leaves. */
  lemma FinishedAppends(ss: seq<Session>, started: Session, outcome: Result<Answer, JsError>, t1: int)
    ensures Finished(ss, started, outcome, t1)
         == Upserted(ss, started.(messages := started.messages + Replies(outcome, t1), updatedAt := t1))
  {
    var reply := Reply(outcome, t1);
    var closed := Closed(started, reply, t1);
    if outcome.Ok? && !Renders(outcome.value.citations) {
      var failure := Reply(Err(RenderFailure), t1);
      var again := Closed(closed, failure, t1);
      UpsertTwice(ss, closed, again);
      assert again.messages == started.messages + [reply, failure];
    } else {
      assert closed.messages == started.messages + [reply];
    }
  }

  /** Saving the started session, then it with the replies appended, leaves
      the closed session found under its id. */
  lemma ClosedSaved(ss: seq<Session>, id: string, text: string, t0: int, replies: seq<Message>, t1: int)
    ensures var started := Opened(ss, id, text, t0);
      SavedWith(Upserted(Upserted(ss, started), started.(messages := started.messages + replies, updatedAt := t1)), ss, id,
                Prior(ss, id) + [UserMessage(text, t0)] + replies, t1)
  {
    var started := Opened(ss, id, text, t0);
    var closed := started.(messages := started.messages + replies, updatedAt := t1);
    OpenedFacts(ss, id, text, t0);
    SavedTwice(ss, started, closed);
    TitleStable(started.messages, replies);
    assert closed.messages == Prior(ss, id) + [UserMessage(text, t0)] + replies;
  }

  /** The started session keeps the id and gains the user message last. */
  lemma OpenedFacts(ss: seq<Session>, id: string, text: string, t0: int)
    ensures Opened(ss, id, text, t0).id == id
    ensures Opened(ss, id, text, t0).messages == Prior(ss, id) + [UserMessage(text, t0)]
    ensures FirstUser(Opened(ss, id, text, t0).messages).Some?
  {
    var ms := Opened(ss, id, text, t0).messages;
    assert ms[|ms| - 1].role == "user";
  }

  /** Saving a session and then a later version of it leaves the later
      version found under its id and every other id as it was. */
  lemma SavedTwice(ss: seq<Session>, s: Session, t: Session)
    requires s.id == t.id
    ensures FindById(Upserted(Upserted(ss, s), t), t.id) == Some(t)
    ensures forall other :: other != t.id ==> FindById(Upserted(Upserted(ss, s), t), other) == FindById(ss, other)
    ensures Ids(Upserted(Upserted(ss, s), t)) == Ids(ss) + {t.id}
  {
    UpsertTwice(ss, s, t);
    UpsertFinds(ss, t);
    UpsertIds(ss, t);
    forall other | other != t.id ensures FindById(Upserted(ss, t), other) == FindById(ss, other) {
      UpsertOthers(ss, t, other);
    }
  }

  /** A refused response is stored as `请求失败：` and its text, or the HTTP
      status when the text is empty. */
  lemma RefusedReply(status: int, body: string, t1: int)
    ensures Reply(Outcome(Refused(status, body)), t1)
         == Message("assistant", FailurePrefix + (if body != "" then body else "HTTP " + IntToString(status)), None, t1)
  {
  }

  /** A read that throws discards whatever text had been read: the reply is
      the failure text of the first error, with no citations, however much of
      the answer arrived. */
  lemma BrokenDiscardsPartial(ds: seq<string>, e: JsError, t1: int)
    ensures var first := match Read(Initial, "", ds) case Err(e0) => e0 case Ok(_) => e;
      Reply(Outcome(Streamed(ds, Some(e))), t1) == Message("assistant", FailurePrefix + ErrorText(first), None, t1)
  {
  }

  /** How the server's text was cut into deliveries does not change the
      replies, as long as no frame follows a `done` frame. */
  lemma ReplyIgnoresChunking(ds1: seq<string>, ds2: seq<string>, broken: Option<JsError>, t1: int)
    requires Concat(ds1) == Concat(ds2)
    requires DoneOnlyLast(SplitFrames(Concat(ds1)).0)
    ensures Replies(Outcome(Streamed(ds1, broken)), t1) == Replies(Outcome(Streamed(ds2, broken)), t1)
  {
    ChunkingIrrelevant(ds1, ds2);
  }
}
