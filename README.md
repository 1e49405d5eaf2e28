# A verified model of the law Q&A chat: stream, exchange and session store

This project models the core of a retrieval-augmented legal question-answering web app. There are two halves:

- **Server (`/chat_stream` endpoint):**
  - formats the retrieved passages into the prompt context, projecting each passage into a citation;
  - relays the language model's streamed lines to the browser as server-sent-event frames.
- **Browser client (`send()`):**
  - reads those frames back into an answer;
  - records each exchange in a session history kept in `localStorage`;
  - can clear, export and import that history.

The model is written in Dafny. The state the source updates in place is kept imperative:

- the browser's storage is a class, `Store.LocalStore`;
- the client's nested read loops are the method `Stream.ReadStream`;
- `format_docs` is the loop method `Server.FormatDocs`;
- `send()` is the method `Exchange.Send`.

Each of these is proved against a specification function. Lemmas then prove what the source promises about those functions.

The largest result crosses the wire, in `Wire.StreamRoundTrip` and `Wire.ChatReply`:

- The server yields frames for given model lines, citations and latency.
- However those frames are cut into deliveries, the client's reading ends with:
  - the text of the relayed tokens;
  - the server's citations and latency on a normal ending;
  - the server's error in the bubble on an exception.
- The stored assistant message follows from that reading.

## Modules

- `wrappers.dfy` (`Wrappers`): `Option` and `Result`.
- `text.dfy` (`Text`): the string primitives both sides rely on:
  - JavaScript `trim` and Python `strip`, each with its exact whitespace set;
  - `indexOf`, `split`, `filter(Boolean)`, `join`, slicing, `replace`;
  - decimal rendering of integers.
- `json.dfy` (`Json`):
  - decoded values;
  - Python's `json.dumps(..., ensure_ascii=False)`;
  - a `JSON.parse`-style decoder, with the round trip `Parse(Dumps(j)) == Some(j)`;
  - JavaScript property access, truthiness and string conversion.
- `sse.dfy` (`Sse`): the client's frame cutting and frame interpretation.
- `stream.dfy` (`Stream`): the answer fold of `send()`, its nested loops, and the chunking independence.
- `store.dfy` (`Store`):
  - the sessions, `upsertSession`, `deriveTitle` and the current-id handling;
  - export and import;
  - the class `LocalStore`.
- `exchange.dfy` (`Exchange`): `send()` as a whole, with its success and failure commits.
- `server.dfy` (`Server`):
  - `format_docs` and the citation comprehension;
  - `event_gen`'s relay loop and frames;
  - the uninitialised stream.
- `wire.dfy` (`Wire`): the server's frames read back by the client.

Apart from the names they model, the constants are the source's: the storage keys' roles, `新对话`, 18, `请求失败：`, `导入失败：`, 320, `top_k: 5` and `"\n\n"`.

The client's loop is modelled as the code is written, not as the server-sent-events standard describes:

- the default event is `token`;
- `data:` payloads are trimmed and concatenated with no separator;
- only `"\n\n"` ends a frame;
- a `done` frame breaks only the inner loop, so any frame cut later is still applied.

## Model

| member | source | states |
|---|---|---|
| Text.Strip | static/app.js:247 | trimming removes only leading and trailing whitespace of the given set: the result's ends are not spaces, it keeps only characters of the input, and it is empty only when every input character is a space |
| Text.IndexOf | static/app.js:318 | the result is -1 exactly when the pattern occurs nowhere, and otherwise the first position where it occurs |
| Text.Split | static/app.js:322 | `split("\n")` gives at least one piece, no piece holds the separator, and joining the pieces with it gives the input back |
| Text.NonEmpty | static/app.js:322 | `filter(Boolean)` keeps exactly the non-empty lines: every kept line is non-empty and from the input, and every non-empty input line is kept |
| Text.NonEmptyAppend | static/app.js:322 | filtering keeps the lines in order: the kept lines of two runs are those of the first followed by those of the second |
| Text.Take | static/app.js:92 | slicing keeps the first `n` characters, or all of them when there are fewer |
| Text.ReplaceChar | app.py:151 | the result has the input's length, with every newline replaced by a space and every other character kept |
| Text.JoinSnoc | app.py:55 | joining one more item adds the separator and that item at the end |
| Text.DecimalRoundTrip | static/app.js:299 | the decimal text of a number reads back as that number |
| Json.ParseDumps | app.py:222 | the client's `JSON.parse` decodes whatever `json.dumps` wrote back to the same value |
| Json.DumpsNoNewline | app.py:222 | `json.dumps` output holds no raw newline, so a `data:` line carrying it stays one line |
| Json.Get | static/app.js:341-344 | a field read on a decoded object finds the value of a member with that key; a missing field (or a read on a non-object) gives `undefined` |
| Json.GetAt | static/app.js:341-344 | with duplicate keys, the last member with the key wins |
| Sse.CutFrame | static/app.js:318-320 | no frame is cut exactly when the buffer holds no blank line; otherwise the buffer is frame, delimiter, rest, and the frame holds no delimiter |
| Sse.CutFirst | static/app.js:318-320 | a frame followed by the delimiter is always cut at that delimiter, whatever follows |
| Sse.SplitFrames | static/app.js:317-321 | the inner loop cuts the buffer into frames and a rest; the two give the buffer back, every frame is delimiter-free, and the rest holds no delimiter when the loop exits |
| Sse.SplitUnique | static/app.js:317-321 | delimiter-free frames joined with delimiters, plus a delimiter-free rest, are cut back into exactly those frames and that rest |
| Sse.SplitAppend | static/app.js:311-321 | cutting text that arrives in two deliveries yields the same frames and rest as cutting it all at once |
| Sse.EventNameLastWins | static/app.js:323-327 | the event name is the trimmed text after the last `event:` line |
| Sse.EventNameDefault | static/app.js:323-327 | with no `event:` line the event name is `token` |
| Sse.DataOfAppend | static/app.js:324-328 | the payload of lines is the payloads of their parts concatenated in order, with no separator |
| Sse.DataOfNone | static/app.js:324-328 | with no `data:` line the payload is empty |
| Sse.InterpretFrame | static/app.js:322-329 | the line loop computes the event name and the payload that `Interpret` defines |
| Sse.EventFrameReads | static/app.js:322-329 | a two-line frame reads as its trimmed name and trimmed payload |
| Stream.ErrorText | static/app.js:388 | the text of a thrown error is its message when that is non-empty, else the error's name |
| Stream.ApplyToken | static/app.js:331-337 | a token payload that does not decode throws; otherwise its text is appended to the answer and the bubble shows the whole answer |
| Stream.ApplyMeta | static/app.js:338-348 | a meta payload that does not decode, or decodes as `null`, throws. Otherwise: the answer text is untouched; a truthy `citations` (even `[]`) replaces the citations; a `latency_ms` that is present and not `null` replaces the latency; a truthy `error` is shown in the bubble; each field that is absent changes nothing |
| Stream.Step | static/app.js:331-352 | an empty payload and any event other than `token` and `meta` change nothing |
| Stream.HandleEvent | static/app.js:331-348 | the `if` chain over the event name yields exactly `Step`'s answer or error |
| Stream.ReadStream | static/app.js:305-354 | the two nested loops over the deliveries compute `Read(Initial, "", ds)`; a `done` frame ends only the inner loop |
| Stream.FoldAppend | static/app.js:318-352 | reading two runs of frames, where the first holds no `done`, is reading the first and then the second from its result |
| Stream.PumpFold | static/app.js:318-353 | one pass of the inner loop applies, in order, the frames cut from the buffer, when `done` can only be last |
| Stream.PumpDrains | static/app.js:318 | when no frame is `done`, the inner loop exits with no delimiter left in the buffer |
| Stream.ReadFold | static/app.js:311-354 | the whole read applies the frames cut from all deliveries together; the text left in the buffer at the end is never interpreted |
| Stream.ChunkingIrrelevant | static/app.js:311-354 | deliveries with the same concatenation give the same answer or error, when `done` can only be the last frame |
| Store.FindIndex | static/app.js:63 | `findIndex`: -1 when no session has the id, else the first index holding it |
| Store.FindById | static/app.js:56-59 | `getSessionById`: `null` exactly when no session has the id, else a stored session with that id |
| Store.UpsertReplaces | static/app.js:61-66 | for an id already stored, the session replaces the first entry with that id, the length stays, and every other entry is kept, including later entries with the same id |
| Store.UpsertPrepends | static/app.js:61-66 | for a new id, the session is put first and the old list follows unchanged |
| Store.UpsertFinds | static/app.js:56-66 | after an upsert, looking up the session's id finds that session |
| Store.UpsertOthers | static/app.js:56-66 | an upsert changes no lookup of another id |
| Store.UpsertIds | static/app.js:61-66 | the stored ids gain exactly the session's id |
| Store.UpsertUnique | static/app.js:61-66 | unique ids stay unique |
| Store.UpsertTwice | static/app.js:61-66 | upserting a later version of the same session overwrites the earlier one, as a single upsert of the later version would |
| Store.FirstUser | static/app.js:90 | `messages.find(m => m.role === "user")`: absent exactly when no message is the user's, else a user message of the list |
| Store.DeriveTitle | static/app.js:89-94 | `新对话` when there is no user message or the first one trims to nothing; otherwise a non-empty prefix of the trimmed first user message, at most 18 characters, which is the whole trimmed text when shorter |
| Store.FirstUserAppend | static/app.js:90 | appending messages does not change the first user message once there is one |
| Store.TitleStable | static/app.js:89-94 | once there is a user message, appending later messages never changes the title |
| Store.Claimed | static/app.js:43-50 | the stored id when it is non-empty, else the fresh one |
| Store.ImportAlert | static/app.js:437-450 | an alert is raised exactly for unparsable text, for a document that is not an array, and for a saved array whose shown session holds an assistant message with truthy citations that `renderChat` cannot draw (then `导入失败：TypeError`); every alert starts with `导入失败：` |
| Store.ImportRejects | static/app.js:434-440 | no file, unparsable text and a non-array document leave both stored keys untouched |
| Store.ImportShowsFirst | static/app.js:442-448 | an array whose first session has an id makes that id current, and that session is the one shown |
| Store.ExportImport | static/app.js:421-450 | importing an exported history restores exactly its sessions and makes its first session current; it alerts exactly when that session cannot be drawn |
| Store.LocalStore.constructor | static/app.js:31-37 | the store holds the saved sessions and the saved current id |
| Store.LocalStore.GetSessionById | static/app.js:56-59 | the session found is a stored session with that id; none is found only when no stored session has it |
| Store.LocalStore.SaveAllSessions | static/app.js:39-41 | the saved list becomes the given one; the current id is untouched |
| Store.LocalStore.SetCurrentSessionId | static/app.js:52-54 | the current id becomes the given one; the sessions are untouched |
| Store.LocalStore.GetCurrentSessionId | static/app.js:43-50 | returns the claimed id and leaves it stored as the current id |
| Store.LocalStore.UpsertSession | static/app.js:61-68 | the sessions become the upserted list, and the current id is claimed by the history list's lookup |
| Store.LocalStore.DeleteAllSessions | static/app.js:70-73 | both keys are removed |
| Store.LocalStore.NewSession | static/app.js:75-87 | a new empty session titled `新对话` under the fresh id is made current and saved |
| Store.LocalStore.Clear | static/app.js:415-419 | if not confirmed, nothing changes; if confirmed, the store holds exactly one empty session, and the current id finds it |
| Store.LocalStore.Export | static/app.js:421-431 | the document exported is the saved list itself |
| Store.LocalStore.Import | static/app.js:433-454 | the sessions, the current id, the session shown and the alert follow `ImportedSessions`, `ImportedCurrent`, `ImportedShown` and `ImportAlert`, so a drawing failure alerts after the array is already saved; an accepted array shows the session under the new current id |
| Exchange.Turns | static/app.js:287 | the history sent has one `{role, content}` turn per stored message, in order |
| Exchange.HttpError | static/app.js:297-300 | a refused response throws its body text, or `HTTP <status>` when the body is empty |
| Exchange.Reply | static/app.js:357-390 | the one assistant message an exchange appends: on success the answer text and its citations; on any thrown error, `请求失败：` plus the error text, with no citations field |
| Exchange.Replies | static/app.js:357-393 | the assistant messages an exchange appends: the reply alone, or, when a stored answer's citations are not an array or hold a `null` (so drawing them throws), the reply followed by `请求失败：TypeError` |
| Exchange.RepliesDrawable | static/app.js:144-150 | a reply that `send()` drew without throwing is drawn again by `renderChat`; an answer with truthy citations that broke `send()`'s drawing also breaks `renderChat`, so importing a history that shows it alerts |
| Exchange.Open | static/app.js:255-289 | the current session, or a new one under the claimed id, gains the user message and its title, is saved before the request, and the request carries its messages |
| Exchange.Await | static/app.js:291-354 | the `try` block's outcome is `Outcome(resp)`: the refusal's error, the fetch error, the first error thrown while reading, or the answer read |
| Exchange.Commit | static/app.js:357-393 | an assistant message is appended to the session, and the session is saved over its earlier version |
| Exchange.Finish | static/app.js:357-393 | the reply is committed; after an answer whose citations cannot be drawn, the `catch` commits the failure text onto the session already holding the answer, as `Finished` states |
| Exchange.Send | static/app.js:246-400 | the store and the request after `send()` are exactly `Exchange`'s |
| Exchange.BlankIsNoop | static/app.js:247-248 | whitespace-only input changes no stored state and sends nothing |
| Exchange.HistoryEndsWithUser | static/app.js:285-289 | the request carries the trimmed message and `top_k` 5, and its history ends with that user turn |
| Exchange.ExchangeAppends | static/app.js:246-400 | after a non-blank `send()`, the current session holds its earlier messages, then the user message, then the `Replies`: one reply, or the answer and the failure text when its citations cannot be drawn. Its title is derived from those messages, every other session is unchanged, and at most this one session is added |
| Exchange.FinishedAppends | static/app.js:357-393 | saving the answer and then, from the `catch`, the failure text after it leaves what one save of the session with both messages leaves |
| Exchange.ClosedSaved | static/app.js:267-393 | saving the started session, then it with the replies appended, leaves the closed session found under its id |
| Exchange.SavedTwice | static/app.js:267-393 | saving twice under one id leaves the later version found, every other lookup unchanged, and the ids gaining only that id |
| Exchange.RefusedReply | static/app.js:297-390 | a refused response stores `请求失败：` and its text, or the HTTP status when the text is empty |
| Exchange.BrokenDiscardsPartial | static/app.js:376-393 | a read that throws discards the partial answer: the reply is the failure text of the first error thrown, with no citations |
| Exchange.ReplyIgnoresChunking | static/app.js:311-393 | the replies stored do not depend on how the response text was cut into deliveries |
| Server.Source | app.py:53 | the `source` metadata, or `unknown` when it is missing |
| Server.Blocks | app.py:51-54 | one block per passage, numbered from 1 in retrieval order |
| Server.FormatDocs | app.py:50-55 | the loop collects the numbered blocks and joins them with a blank line |
| Server.FormatNone | app.py:50-55 | no passages give an empty context |
| Server.FormatAppend | app.py:50-55 | one more passage adds a blank line and its block, numbered next |
| Server.Snippet | app.py:151 | a snippet has at most 320 characters, holds no newline, and neither starts nor ends with whitespace |
| Server.SnippetPlain | app.py:151 | a short single-line text with no surrounding whitespace is its own snippet |
| Server.Citation | app.py:149-152 | a citation's `source` and `snippet` fields are the passage's source and snippet |
| Server.Citations | app.py:176-182 | one citation per retrieved passage, in order (the same comprehension as `/chat` at app.py lines 148-154) |
| Server.Field | app.py:219-225 | `data.get(key, default)`: the last value under the key, or the default when the key is missing |
| Server.Relay | app.py:210-226 | only truthy tokens are relayed. When the lines run out, the loop ends normally, or with the stream's exception |
| Server.FirstStop | app.py:210-225 | the position of the first line after which the loop reads no more (a disconnection, an undecodable line, a truthy `done`), or the number of lines |
| Server.RelayReads | app.py:210-225 | the loop relays, in order, the truthy `response` of every line up to and including the first stopping line; it then returns on a disconnection, enters the `except` with an undecodable line's error, or ends normally on a truthy `done`; with no stopping line it ends as the model's stream does |
| Server.EventGenShape | app.py:191-236 | the stream opens with the empty token frame, then one frame per relayed (truthy) token, in order. A normal finish then sends the meta frame with citations and latency, then `done`; an exception sends the meta frame with only the error, then `done`; a disconnection sends nothing more |
| Server.DoneFrameLast | app.py:191-236 | no frame but the last is the done frame, and the last is the done frame exactly when the client did not disconnect |
| Wire.DumpsEdges | app.py:222 | `json.dumps` output is never empty and has no surrounding whitespace, so the client's trim keeps it whole |
| Wire.TwoLineFrame | app.py:193-236 | a frame of one `event:` line and one `data:` line holds no blank line |
| Wire.ReadsAs | static/app.js:322-329 | such a frame reads back as exactly its name and payload |
| Wire.TokenFrameRoundTrip | app.py:222 | a token frame is cut in one piece, interpreted as a `token` event whose payload is the dumped token, and decoded to the token itself |
| Wire.EventsPlain | app.py:191-236 | every event the server sends has a name and a payload free of newlines and surrounding whitespace |
| Wire.YieldsAreFrames | app.py:191-236 | `event_gen` yields one frame per event, in order |
| Wire.StreamSplits | app.py:191-236 | the client cuts the concatenated stream into exactly one frame per yield, with nothing left over |
| Wire.DoneIsLast | app.py:228-236 | only the last event of a stream can be `done` |
| Wire.TokenStep | static/app.js:331-337 | a decoded token payload appends the token's text to the answer and the bubble |
| Wire.FoldTokens | app.py:219-222 | frames carrying tokens append the tokens' text, in order, to the answer and the bubble |
| Wire.MetaStep | app.py:228-230 | the normal meta frame sets the citations and the latency and leaves the text and the bubble |
| Wire.ErrorStep | app.py:233-235 | the exception's meta frame shows `请求失败：` and the error in the bubble (when the error text is non-empty), and leaves the text, the citations and the latency |
| Wire.FoldEvents | app.py:191-236 | the client's fold of the server's events is the expected answer: the relayed tokens' text, with citations and latency on a normal ending and the error in the bubble on an exception |
| Wire.StreamRoundTrip | app.py:191-236 | however the stream's text is split into deliveries, the client's reading ends with that expected answer |
| Wire.UninitialisedReads | app.py:169-170 | the uninitialised stream leaves the client's answer as it was: empty text and `[]` citations |
| Wire.ChatReply | app.py:169-236 | the server's citations can always be drawn, so the client stores one message from `/chat_stream`. With no vector store it is an empty answer with `[]` citations. Otherwise it is the relayed tokens' text, with the retrieved citations on a normal ending and `[]` after an exception (whose error is shown, not stored) |

## Left out

- Floating point and the clock:
  - `time.time()` and the latency computation are a parameter, `latencyMs`;
  - `Date.now()` is one parameter per stage (`t0` for the request, `t1` for the commit), although the code calls it several times per stage;
  - `crypto.randomUUID()` is the parameter `freshId`.
- Foreign I/O and libraries are inputs or are left out:
  - `fetch`, `getReader` and `TextDecoder`: the response is modelled as already-decoded deliveries plus how the read ended;
  - httpx and Ollama: the model's lines are the `UpLine` sequence and how it ended (`UpEnd`);
  - `request.is_disconnected()` is the `Gone` line;
  - FAISS retrieval and the prompt assembly are not modelled; the retrieved passages are an input.
- DOM and rendering are not modelled:
  - bubbles, `setStatus`, the latency text, scrolling and the input box;
  - the throw of `renderChat` on undrawable citations from a history click or at start-up (only the import's is modelled, as an alert);
  - `renderHistoryList`, whose own `getCurrentSessionId` call is modelled only as the current id that call claims;
  - `confirm` is the parameter `confirmed`, and `alert` is the value `Import` returns;
  - the Blob/URL download.
- Store.LocalStore:
  - the sessions are kept as values, not as the JSON text in `localStorage`;
  - `JSON.stringify`'s indentation and the text round trip of saved sessions are not modelled;
  - a corrupt saved value, which `loadAllSessions` reads as no sessions, is not modelled.
- Store.Picked: an imported array is assumed to hold session records; arrays of other values are not modelled.
- Store.DeriveTitle: slicing counts characters (Unicode scalar values), not the UTF-16 code units JavaScript counts, so titles holding characters outside the Basic Multilingual Plane are not modelled exactly.
- Json.Parse decodes the subset `json.dumps` writes plus ordinary spacing:
  - floats, exponents and lone surrogate escapes are not modelled;
  - Python's `json.loads` at app.py:217 is not modelled as a decoder; a line that decodes is given as its members (`Record`), and one that raises as `Garbled`;
  - `.get` on a decoded value that is not an object is folded into `Garbled`.
- Stream.JsError: the messages JavaScript engines give `SyntaxError` and `TypeError` are engine-specific and are modelled as empty. The stored text is then the error's name.
- Server.Doc: the `source` metadata is assumed to be a string.
- Exchange.Send: `send()` is modelled as one step. Its `await`s on `fetch` and on each read let other handlers of the page run in between. A second `send()` from the Enter key (which does not check the disabled button), New, Clear, Import or a history click can then change the store. The final save writes back the session read before the `await`s, which can drop that other user message or bring back a cleared session. This re-entry within the page is not modelled.
- Json.Parse / Stream.ApplyToken: numbers are unbounded integers, not IEEE doubles. `JSON.parse` loses precision beyond 2^53, and `text += v` writes magnitudes of 10^21 and more in exponent form (`1e+23`). The model keeps every digit.
- Json.ToJsString: a decoded object with its own `toString` or `valueOf` member makes JavaScript's string conversion call or reject that member. The model always renders an object as `[object Object]`. The same holds where the client draws a citation's `source` and `snippet`.
- Exceptions are only partly modelled: the server's exception text (`str(e)`) is an input, and other exceptions thrown on the client (such as an abort) are modelled only as the error a read may end with.
- The non-streaming `/chat` endpoint is modelled only through its citation comprehension, which is `Server.Citations`.
- Not modelled at all:
  - concurrent writers to `localStorage` from other tabs;
  - the page's boot sequence;
  - `build_index.py`;
  - FastAPI routing and the lifespan.
