/** The browser-side session store: the chat sessions kept in localStorage
    under `law_qa_history_v1`, the id of the current session kept under
    `law_qa_current_session_v1`, the lookups and the updates the page makes to
    them, and the export and import of the whole history. */
module Store {
  import opened Wrappers
  import opened Text
  import opened Json
  import opened Stream

  /** One chat message. `citations` is present only on an assistant message
      that completed normally. */
  datatype Message = Message(role: string, content: string, citations: Option<Json>, ts: int)

  /** One stored conversation. */
  datatype Session = Session(id: string, title: string, createdAt: int, updatedAt: int, messages: seq<Message>)

  /** The title of a session that has no usable user message yet. */
  const DefaultTitle: string := "新对话"

  /** The longest title taken from the first user message. */
  const TitleLength: nat := 18

  /** The text of the alert shown when an import fails. */
  const ImportFailed: string := "导入失败："

  /** The message of the error thrown for a document that is not an array. */
  const NotAnArrayMessage: string := "导入文件格式不正确"

  // ---------------------------------------------------------------------------
  // Lookups.

  /** `sessions.findIndex((s) => s.id === id)`: the first index holding `id`, or -1. */
  function FindIndex(ss: seq<Session>, id: string): (r: int)
    ensures -1 <= r < |ss|
    ensures r >= 0 ==> ss[r].id == id
    ensures forall k :: 0 <= k < |ss| && (r < 0 || k < r) ==> ss[k].id != id
  {
    if ss == [] then -1
    else if ss[0].id == id then 0
    else
      var k := FindIndex(ss[1..], id);
      if k < 0 then -1 else k + 1
  }

  /** `getSessionById`: the first session holding `id`, or none. */
  function FindById(ss: seq<Session>, id: string): (r: Option<Session>)
    ensures r.None? <==> forall k :: 0 <= k < |ss| ==> ss[k].id != id
    ensures r.Some? ==> exists k :: 0 <= k < |ss| && ss[k] == r.value && r.value.id == id
                                  && forall j :: 0 <= j < k ==> ss[j].id != id
  {
    var k := FindIndex(ss, id);
    if k < 0 then None else Some(ss[k])
  }

  /** The first index holding `id` is determined by its two defining facts. */
  lemma FindIndexAt(ss: seq<Session>, id: string, k: int)
    requires 0 <= k < |ss| && ss[k].id == id
    requires forall j :: 0 <= j < k ==> ss[j].id != id
    ensures FindIndex(ss, id) == k
  {
  }

  /** No two sessions share an id. */
  predicate UniqueIds(ss: seq<Session>) {
    forall i, j :: 0 <= i < j < |ss| ==> ss[i].id != ss[j].id
  }

  /** The ids in the store. */
  function Ids(ss: seq<Session>): set<string> {
    set k | 0 <= k < |ss| :: ss[k].id
  }

  // ---------------------------------------------------------------------------
  // upsertSession on the stored list.

  /** The list `upsertSession` saves: the session replaces the first entry
      with its id, or goes in front when there is none. */
  function Upserted(ss: seq<Session>, s: Session): seq<Session> {
    var k := FindIndex(ss, s.id);
    if k >= 0 then ss[k := s] else [s] + ss
  }

  /** An existing id is replaced where it first stands; nothing else moves.
      Ids need not be unique (an import stores any array): a later entry with
      the same id is kept. */
  lemma UpsertReplaces(ss: seq<Session>, s: Session, k: int)
    requires 0 <= k < |ss| && ss[k].id == s.id
    requires forall j :: 0 <= j < k ==> ss[j].id != s.id
    ensures |Upserted(ss, s)| == |ss|
    ensures Upserted(ss, s)[k] == s
    ensures forall j :: 0 <= j < |ss| && j != k ==> Upserted(ss, s)[j] == ss[j]
  {
    FindIndexAt(ss, s.id, k);
  }

  /** A new id goes in front of the list, which grows by one. */
  lemma UpsertPrepends(ss: seq<Session>, s: Session)
    requires s.id !in Ids(ss)
    ensures |Upserted(ss, s)| == |ss| + 1
    ensures Upserted(ss, s)[0] == s && Upserted(ss, s)[1..] == ss
  {
    assert forall k :: 0 <= k < |ss| ==> ss[k].id in Ids(ss);
  }

  /** Afterwards `getSessionById(session.id)` finds the session just saved. */
  lemma UpsertFinds(ss: seq<Session>, s: Session)
    ensures FindById(Upserted(ss, s), s.id) == Some(s)
  {
    var k := FindIndex(ss, s.id);
    var r := Upserted(ss, s);
    if k >= 0 {
      assert forall j :: 0 <= j < k ==> r[j] == ss[j];
      FindIndexAt(r, s.id, k);
    } else {
      assert FindIndex(r, s.id) == 0;
    }
  }

  /** Every other id finds what it found before. */
  lemma UpsertOthers(ss: seq<Session>, s: Session, id: string)
    requires id != s.id
    ensures FindById(Upserted(ss, s), id) == FindById(ss, id)
  {
    var k := FindIndex(ss, s.id);
    var r := Upserted(ss, s);
    var i := FindIndex(ss, id);
    if k >= 0 {
      assert forall j :: 0 <= j < |ss| && j != k ==> r[j] == ss[j];
      assert FindIndex(r, id) == i;
    } else {
      assert r[1..] == ss;
      assert FindIndex(r, id) == if i < 0 then -1 else i + 1;
    }
  }

  /** The ids afterwards are the ids before and the session's own. */
  lemma UpsertIds(ss: seq<Session>, s: Session)
    ensures Ids(Upserted(ss, s)) == Ids(ss) + {s.id}
  {
    var k := FindIndex(ss, s.id);
    var r := Upserted(ss, s);
    if k >= 0 {
      forall id | id in Ids(ss) + {s.id} ensures id in Ids(r) {
        if id == s.id { assert r[k].id == id; }
        else {
          var j :| 0 <= j < |ss| && ss[j].id == id;
          assert r[j] == ss[j];
        }
      }
    } else {
      forall id | id in Ids(ss) ensures id in Ids(r) {
        var j :| 0 <= j < |ss| && ss[j].id == id;
        assert r[j + 1] == ss[j];
      }
      assert r[0].id == s.id;
    }
  }

  /** Ids that were unique stay unique. */
  lemma UpsertUnique(ss: seq<Session>, s: Session)
    requires UniqueIds(ss)
    ensures UniqueIds(Upserted(ss, s))
  {
    var k := FindIndex(ss, s.id);
    var r := Upserted(ss, s);
    if k < 0 {
      forall i, j | 0 <= i < j < |r| ensures r[i].id != r[j].id {
        if i > 0 { assert r[i] == ss[i - 1]; }
        assert r[j] == ss[j - 1];
      }
    }
  }

  /** Saving the same id twice leaves what saving the later one alone leaves. */
  lemma UpsertTwice(ss: seq<Session>, s: Session, t: Session)
    requires t.id == s.id
    ensures Upserted(Upserted(ss, s), t) == Upserted(ss, t)
  {
    var k := FindIndex(ss, s.id);
    var r := Upserted(ss, s);
    if k >= 0 {
      assert forall j :: 0 <= j < k ==> r[j] == ss[j];
      FindIndexAt(r, t.id, k);
    } else {
      assert FindIndex(r, t.id) == 0;
    }
  }

  // ---------------------------------------------------------------------------
  // deriveTitle.

  /** `messages.find((m) => m.role === "user")`. */
  function FirstUser(ms: seq<Message>): (r: Option<Message>)
    ensures r.None? <==> forall k :: 0 <= k < |ms| ==> ms[k].role != "user"
    ensures r.Some? ==> exists k :: 0 <= k < |ms| && ms[k] == r.value && r.value.role == "user"
                                  && forall j :: 0 <= j < k ==> ms[j].role != "user"
  {
    if ms == [] then None
    else if ms[0].role == "user" then Some(ms[0])
    else
      var r := FirstUser(ms[1..]);
      assert r.Some? ==> exists k :: 0 <= k < |ms| && ms[k] == r.value && r.value.role == "user"
                                  && forall j :: 0 <= j < k ==> ms[j].role != "user" by {
        if r.Some? {
          var k :| 0 <= k < |ms[1..]| && ms[1..][k] == r.value
                   && forall j :: 0 <= j < k ==> ms[1..][j].role != "user";
          assert ms[k + 1] == r.value;
        }
      }
      r
  }

  /** `deriveTitle`: at most the first 18 characters of the trimmed first user
      message, or the default title when there is none or it trims to nothing. */
  function DeriveTitle(ms: seq<Message>): (r: string)
    ensures FirstUser(ms).None? ==> r == DefaultTitle
    ensures FirstUser(ms).Some? && JsTrim(FirstUser(ms).value.content) == "" ==> r == DefaultTitle
    ensures FirstUser(ms).Some? && JsTrim(FirstUser(ms).value.content) != "" ==>
              var t := JsTrim(FirstUser(ms).value.content);
              r != "" && |r| <= TitleLength && |r| <= |t| && r == t[..|r|] && (|r| < TitleLength ==> r == t)
  {
    match FirstUser(ms)
    case None => DefaultTitle
    case Some(m) =>
      var t := Take(JsTrim(m.content), TitleLength);
      if t == "" then DefaultTitle else t
  }

  /** Later messages never change which user message comes first. */
  lemma {:induction false} FirstUserAppend(ms: seq<Message>, more: seq<Message>)
    requires FirstUser(ms).Some?
    ensures FirstUser(ms + more) == FirstUser(ms)
  {
    if ms[0].role != "user" {
      assert (ms + more)[1..] == ms[1..] + more;
      FirstUserAppend(ms[1..], more);
    }
  }

  /** Once a user message exists, appending messages keeps the title. */
  lemma TitleStable(ms: seq<Message>, more: seq<Message>)
    requires FirstUser(ms).Some?
    ensures DeriveTitle(ms + more) == DeriveTitle(ms)
  {
    FirstUserAppend(ms, more);
  }

  // ---------------------------------------------------------------------------
  // The current id.

  /** The id `getCurrentSessionId` returns: the stored one, or the fresh one
      it stores when none (or an empty one) is stored. */
  function Claimed(current: Option<string>, freshId: string): (r: string)
    ensures current.Some? && current.value != "" ==> r == current.value
    ensures current.None? || current.value == "" ==> r == freshId
  {
    if current.Some? && current.value != "" then current.value else freshId
  }

  // ---------------------------------------------------------------------------
  // Import.

  /** What the file input yields: no file picked, text `JSON.parse` refuses,
      a document that is not an array, or an array of session records. */
  datatype Picked = NoFile | Unparsable(error: JsError) | NotAnArray | SessionArray(items: seq<Session>)

  /** The sessions after an import: an array replaces the store wholesale;
      anything else leaves it as it was. */
  function ImportedSessions(ss: seq<Session>, p: Picked): seq<Session> {
    if p.SessionArray? then p.items else ss
  }

  /** The current id after an import: repointed to the first session's id when
      that is non-empty, then claimed by the history list's lookup. */
  function ImportedCurrent(current: Option<string>, p: Picked, freshId: string): Option<string> {
    match p
    case SessionArray(items) =>
      var repointed := if |items| > 0 && items[0].id != "" then Some(items[0].id) else current;
      Some(Claimed(repointed, freshId))
    case _ => current
  }

  /** `renderChat` draws the message without throwing: only an assistant
      message with truthy citations is drawn with them, and those must render. */
  predicate Drawable(m: Message) {
    m.role == "assistant" && m.citations.Some? && Truthy(m.citations.value) ==> Renders(m.citations.value)
  }

  /** `renderChat` draws every message of the session without throwing. */
  predicate Draws(s: Session) {
    forall k :: 0 <= k < |s.messages| ==> Drawable(s.messages[k])
  }

  /** The session the chat shows after an import: the one under the current
      id, when the import saved an array. */
  function ImportedShown(current: Option<string>, p: Picked, freshId: string): Option<Session> {
    if p.SessionArray? then FindById(p.items, ImportedCurrent(current, p, freshId).value) else None
  }

  /** The alert an import raises: for unparsable text, for a document that is
      not an array, and, after an array has been saved, for a shown session
      whose drawing throws. */
  function ImportAlert(current: Option<string>, p: Picked, freshId: string): (r: Option<string>)
    ensures var shown := ImportedShown(current, p, freshId);
      r.Some? <==> p.Unparsable? || p.NotAnArray? || (shown.Some? && !Draws(shown.value))
    ensures r.Some? ==> StartsWith(r.value, ImportFailed)
    ensures p.SessionArray? && r.Some? ==> r.value == ImportFailed + ErrorText(RenderFailure)
  {
    match p
    case Unparsable(e) => Some(ImportFailed + ErrorText(e))
    case NotAnArray => Some(ImportFailed + NotAnArrayMessage)
    case NoFile => None
    case SessionArray(_) =>
      var shown := ImportedShown(current, p, freshId);
      if shown.Some? && !Draws(shown.value) then Some(ImportFailed + ErrorText(RenderFailure)) else None
  }

  /** A rejected or absent file leaves both keys untouched. The import is
      modelled on values, so this follows from the definitions of
      `ImportedSessions` and `ImportedCurrent`. */
  lemma ImportRejects(ss: seq<Session>, current: Option<string>, p: Picked, freshId: string)
    requires !p.SessionArray?
    ensures ImportedSessions(ss, p) == ss && ImportedCurrent(current, p, freshId) == current
  {
  }

  /** An array whose first session has an id makes that session current, and
      it is the one the chat then shows. The import is modelled on values, so
      this follows from the definitions. */
  lemma ImportShowsFirst(ss: seq<Session>, current: Option<string>, items: seq<Session>, freshId: string)
    requires |items| > 0 && items[0].id != ""
    ensures ImportedCurrent(current, SessionArray(items), freshId) == Some(items[0].id)
    ensures FindById(ImportedSessions(ss, SessionArray(items)), items[0].id) == Some(items[0])
  {
    assert FindIndex(items, items[0].id) == 0;
  }

  /** Exporting the store and importing the file restores the same sessions
      and keeps a set current id that names the first of them. The export is
      the session list itself (its JSON text is not modelled), so this follows
      from the definitions. */
  lemma ExportImport(ss: seq<Session>, current: Option<string>, freshId: string)
    requires ss != [] && ss[0].id != ""
    ensures ImportedSessions([], SessionArray(ss)) == ss
    ensures ImportedCurrent(current, SessionArray(ss), freshId) == Some(ss[0].id)
    ensures ImportAlert(current, SessionArray(ss), freshId).Some? <==> !Draws(ss[0])
  {
    assert FindIndex(ss, ss[0].id) == 0;
  }

  // ---------------------------------------------------------------------------
  // The store itself.

  /** localStorage's two keys: the saved sessions (an absent key reads as no
      sessions) and the current session id. */
  class LocalStore {
    var sessions: seq<Session>
    var current: Option<string>

    constructor (saved: seq<Session>, currentId: Option<string>)
      ensures sessions == saved && current == currentId
    {
      sessions := saved;
      current := currentId;
    }

    /** `getSessionById`. */
    function GetSessionById(id: string): (r: Option<Session>)
      reads this
      ensures r.Some? ==> r.value in sessions && r.value.id == id
      ensures r.None? ==> id !in Ids(sessions)
    {
      FindById(sessions, id)
    }

    /** `saveAllSessions`. */
    method SaveAllSessions(ss: seq<Session>)
      modifies this
      ensures sessions == ss && current == old(current)
    {
      sessions := ss;
    }

    /** `setCurrentSessionId`. */
    method SetCurrentSessionId(id: string)
      modifies this
      ensures current == Some(id) && sessions == old(sessions)
    {
      current := Some(id);
    }

    /** `getCurrentSessionId`: a read that stores a fresh id when none is set. */
    method GetCurrentSessionId(freshId: string) returns (id: string)
      modifies this
      ensures id == Claimed(old(current), freshId)
      ensures current == Some(id) && sessions == old(sessions)
    {
      if current.Some? && current.value != "" {
        id := current.value;
      } else {
        id := freshId;
        current := Some(id);
      }
    }

    /** `upsertSession`, including the current-id read of the history list it
        re-renders. */
    method UpsertSession(s: Session, freshId: string)
      modifies this
      ensures sessions == Upserted(old(sessions), s)
      ensures current == Some(Claimed(old(current), freshId))
    {
      var ss := sessions;
      var idx := FindIndex(ss, s.id);
      if idx >= 0 {
        ss := ss[idx := s];
      } else {
        ss := [s] + ss;
      }
      SaveAllSessions(ss);
      var _ := GetCurrentSessionId(freshId);
    }

    /** `deleteAllSessions`: both keys removed. */
    method DeleteAllSessions()
      modifies this
      ensures sessions == [] && current == None
    {
      sessions := [];
      current := None;
    }

    /** `newSession`: an empty session under a fresh id, made current and saved. */
    method NewSession(freshId: string, now: int) returns (s: Session)
      modifies this
      ensures s == Session(freshId, DefaultTitle, now, now, [])
      ensures current == Some(freshId)
      ensures sessions == Upserted(old(sessions), s)
    {
      SetCurrentSessionId(freshId);
      s := Session(freshId, DefaultTitle, now, now, []);
      UpsertSession(s, freshId);
    }

    /** The clear button: when confirmed, the history is deleted and one new
        empty session is started, which is then all there is. */
    method Clear(confirmed: bool, freshId: string, now: int)
      modifies this
      ensures !confirmed ==> sessions == old(sessions) && current == old(current)
      ensures confirmed ==> sessions == [Session(freshId, DefaultTitle, now, now, [])]
      ensures confirmed ==> current == Some(freshId) && GetSessionById(freshId) == Some(sessions[0])
    {
      if !confirmed {
        return;
      }
      DeleteAllSessions();
      var s := NewSession(freshId, now);
      assert FindIndex(sessions, freshId) == 0;
    }

    /** The export button: the document written is the saved list itself. */
    method Export() returns (doc: Picked)
      ensures doc == SessionArray(sessions)
    {
      doc := SessionArray(sessions);
    }

    /** The import handler: the alert it raises, and the session the chat then
        shows. */
    method Import(p: Picked, freshId: string) returns (alert: Option<string>, shown: Option<Session>)
      modifies this
      ensures sessions == ImportedSessions(old(sessions), p)
      ensures current == ImportedCurrent(old(current), p, freshId)
      ensures shown == ImportedShown(old(current), p, freshId)
      ensures alert == ImportAlert(old(current), p, freshId)
      ensures p.SessionArray? ==> shown == FindById(sessions, current.value)
    {
      alert, shown := None, None;
      match p
      case NoFile =>
      case Unparsable(e) =>
        alert := Some(ImportFailed + ErrorText(e));
      case NotAnArray =>
        alert := Some(ImportFailed + NotAnArrayMessage);
      case SessionArray(items) =>
        SaveAllSessions(items);
        if |items| > 0 && items[0].id != "" {
          SetCurrentSessionId(items[0].id);
        }
        var _ := GetCurrentSessionId(freshId);
        var id := GetCurrentSessionId(freshId);
        shown := GetSessionById(id);
        if shown.Some? && !Draws(shown.value) {
          // renderChat throws into the catch after the sessions were saved.
          alert := Some(ImportFailed + ErrorText(RenderFailure));
        }
    }
  }
}
