# Chat relay with an auto-responding assistant — a Dafny model

The system is a WebSocket chat server (`src/main.rs`). A client connects
with `username` and `email` query parameters and gets a fresh session id.
The server registers the email → session mapping and replays up to 50
stored messages of that session. It then runs two loops:

- the **reader** stamps each decoded client message with the server's
  view of author, session and AI flag, stores it in Postgres, and
  broadcasts it on a shared channel;
- the **writer** forwards to the client only the broadcast messages of its
  own session.

A keyword-and-question-mark heuristic decides when a human message draws a
reply. The reply comes from a text-generation service, prompted with a
fixed preamble, the last five messages of the session, and the current
message. The reply is stored and broadcast as "AI Assistant".

The model has nine modules.

- `ChatTypes`: the two records (`ChatMessage` on the wire and
  `DatabaseMessage` in the table), the `u64` timestamp, and
  `Option`/`Result`.
- `Seqs`: generic sequence helpers (`Take`, prefixes and suffixes,
  reversal, filtering, and positions picked out of a sequence) with their
  lemmas.
- `Text`: ASCII lowercasing and substring search.
- `Trigger`: `should_ai_respond`.
- `Prompt`: the prompt text, as a specification function and as the
  source's loop.
- `History`: the `messages` table as a class, its insert (with the VARCHAR
  widths and the timestamp conversion), and both recent-messages queries. The table is a sequence of rows. The query is
  specified by a sort, a take and a reversal, and is also implemented as
  the source's push loop plus an in-place array reversal.
- `Router`: the writer loop and its session filter.
- `Sessions`: the registry of connected users, as a class over a map.
- `Connection`: stamping; the reply step; the reader loop over a sequence
  of frames; history replay; and the whole connection lifecycle.

The reader loop is specified by a fold, `Connection.Run`, over the frames
it consumes. Its properties are stated over any reply function `Ask`. The
concrete one, `Connection.Asker(generate)`, builds the prompt from the
session's ten most recent rows and hands it to the generation service
`generate`.

Inputs from outside the model are parameters:

- the generation service is a function from prompt text to an optional
  reply;
- fresh uuids are `freshSession` on connect, and `freshId(k)` for the
  reply to the `k`-th frame;
- the clock is `clock(k)`, one reading per handled frame;
- socket write failures are an optional write index `writeFailsAt`. It
  counts every write on the connection: replay first, then forwarding;
- the messages a connection receives from the broadcast channel are a
  sequence `received`. After it the receiver either blocks for good or,
  when `lagged` holds, reports that it fell behind the channel.

## Model

| member | source | states |
|---|---|---|
| Trigger.ShouldAIRespondIff | src/main.rs:323-341 | A message draws a reply exactly when it contains `?` or when, ignoring ASCII case, one of the 17 triggers matches a run of its characters at some position |
| Trigger.ResponseIgnoresCase | src/main.rs:324-340 | Lowercasing a message first never changes whether it draws a reply |
| Trigger.ResponseSurvivesSurroundingText | src/main.rs:339-340 | Any text around a triggering message still triggers, because matching is by substring |
| Trigger.QuestionExample | src/main.rs:339 | "Is this ok?" draws a reply through its question mark |
| Trigger.SubstringExample | src/main.rs:332-340 | "this is fine" draws a reply: "hi" matches inside "this", since triggers are not matched as whole words |
| Trigger.NoTriggerExample | src/main.rs:332-340 | "no trigger words here at all" draws no reply: it has no `?` and none of the 17 triggers occurs in it |
| Prompt.BuildPrompt | src/main.rs:354-370 | The push loop (preamble; header only for non-empty context; one line per message walking back from the newest, at most five; trailer) yields exactly `PromptText` |
| Prompt.ContextWindowSpec | src/main.rs:360 | The quoted window has min(5, n) messages, and its j-th is the j-th from the end of the context |
| Prompt.ContextWindowIsReversedTail | src/main.rs:360 | The quoted window is the last min(5, n) context messages, reversed |
| Prompt.LinesAppend | src/main.rs:361-365 | Quoting one more message appends exactly its line (`AI: text` or `name: text`) |
| Prompt.PromptLayout | src/main.rs:355-370 | Every prompt starts with the preamble naming the user and ends with the trailer restating the message; the "Recent conversation" header follows the preamble exactly when there is context |
| History.CutToWidth | src/main.rs:90-95 | A VARCHAR(n) column keeps exactly the first min(n, length) characters of a value, so a value that fits is kept whole |
| History.AsI64 | src/main.rs:418 | `t as i64` lies in the `i64` range and is congruent to `t` modulo 2^64 |
| History.StoredTimestamp | src/main.rs:418-419 | The stored instant is `t as i64` when chrono can represent it (years -262143 to 262142), and the server's current time otherwise |
| History.TrailingSpaceIsCut | src/main.rs:90 | A 37-character id that ends in a space is inserted, under its first 36 characters |
| History.BeforePostgresRangeIsRejected | src/main.rs:93 | An instant chrono accepts but TIMESTAMPTZ cannot hold (before November 24, 4714 BC) makes the insert fail and leaves the table unchanged; there is no fallback to the current time for it |
| History.DayBeforeChronoMinimumFallsBack | src/main.rs:418-419 | The last millisecond of December 31, year -262144, is outside chrono's range, so the row is stored, at the server's time |
| History.FarPastTimestampExample | src/main.rs:418 | A client timestamp of 2^64 - 10^15, read as -10^15 ms, is not stored |
| History.OverlongValueIsRejected | src/main.rs:90 | An id with anything but spaces past 36 characters makes the insert fail and leaves the table unchanged |
| History.AfterInsertKeepsIdsUnique | src/main.rs:90 | An insert, successful or not, keeps the primary key: no two rows share an id |
| History.MessageStore.Save | src/main.rs:417-434 | The insert succeeds exactly when the id, username and session have nothing but spaces past their VARCHAR widths, the stored instant is not before the TIMESTAMPTZ minimum, and the cut id is new (primary key); on success the row with the cut values and the converted timestamp is appended, otherwise the table is unchanged; unique ids stay unique |
| History.SortNewestFirstSpec | src/main.rs:439 | `ORDER BY timestamp DESC` is a permutation of the rows, ordered newest first |
| History.NewestFirstSpec | src/main.rs:439 | With `LIMIT`, the selection has min(limit, n) rows, comes newest first, is a sub-multiset of the rows, and no row left out is newer than a selected one |
| History.SelectRecentSpec | src/main.rs:465-489 | The legacy query returns min(limit, n) rows oldest first, all from the table, with no row left out newer than a returned one |
| History.SelectRecentBySessionSpec | src/main.rs:437-462 | The session query returns min(limit, rows of the session) rows, all of that session, oldest first, a sub-multiset of the session's rows, and no row of the session left out is newer than a returned one |
| History.FreshSessionHasNoHistory | src/main.rs:439 | A session with no stored row yields no rows |
| History.ReverseInPlace | src/main.rs:460 | `messages.reverse()` turns the array into the reversal of its old contents |
| History.CollectOldestFirst | src/main.rs:446-461 | Pushing the fetched rows and reversing the vector yields the fetched rows in reverse |
| History.MessageStore.RecentBySession | src/main.rs:437-462 | `get_recent_messages_by_session` returns exactly `SelectRecentBySession` of the current table |
| History.MessageStore.Recent | src/main.rs:465-489 | `get_recent_messages` returns exactly `SelectRecent` of the current table |
| Router.Outbound | src/main.rs:303-311 | The writer delivers the received messages of its session, in order, up to the first failed write; the loop has ended exactly when one of those writes failed or the receiver lagged |
| Router.QuietSessionDeliversNothing | src/main.rs:303-311 | When no received message belongs to the session, the writer writes nothing |
| Router.DeliveredIsolation | src/main.rs:305 | Everything a connection delivers was received and belongs to its session |
| Router.DistinctSessionsDisjoint | src/main.rs:305 | Connections of two different sessions never deliver the same message |
| Router.SessionFilterIsSubsequence | src/main.rs:303-311 | The delivered stream sits at strictly increasing positions of the received stream, and every received message of the session is among them |
| Router.SessionFilterCounts | src/main.rs:305 | Each message of the session is delivered as many times as it was received; any other message, zero times |
| Sessions.ParseQuery | src/main.rs:190-205 | Both the username and the email must be present; a missing username is reported first, then a missing email |
| Sessions.SessionRegistry.constructor | src/main.rs:114 | The registry starts empty |
| Sessions.SessionRegistry.Attach | src/main.rs:190-215 | A rejected query leaves the registry alone; otherwise the email maps to the fresh session, replacing an earlier mapping, and every other entry is kept |
| Sessions.SessionRegistry.Detach | src/main.rs:313-317 | The email's entry is removed, whatever session it maps to, and every other entry is kept |
| Connection.Stamp | src/main.rs:253-257 | A stamped message is not AI, carries the connection's session and username, and keeps the client's id, text and timestamp |
| Connection.StampIgnoresClaims | src/main.rs:254-257 | Whatever author, session or AI flag a client claims, the stamped message is the same |
| Connection.AIReply | src/main.rs:271-281 | The reply message is AI, by "AI Assistant", in the triggering session, with the fresh id, the reply text and the current time |
| Connection.ToChat | src/main.rs:224-231 | A replayed row keeps every field; its timestamp is read as unsigned (a negative value gains 2^64), which undoes `as i64` |
| Connection.ToChatAll | src/main.rs:223-231 | Replay converts each stored row, position by position |
| Connection.ReplayRoundTrip | src/main.rs:224-231 | A message's row is replayed exactly as the message was sent when its timestamp, read as an `i64`, is within chrono's range and its id, username and session fit their columns; the row is stored when, in addition, the instant is not before the TIMESTAMPTZ minimum and the id is new |
| Connection.OutOfRangeReplaysInsertTime | src/main.rs:418-419 | A timestamp past chrono's range is replayed as the server time of its insert, not as sent |
| Connection.ContextQuotesCurrentMessage | src/main.rs:259-269 | The context is fetched after the insert, so when the insert succeeds and the stored message is newer than every row of its session, the first quoted line is the message itself |
| Connection.AskService | src/main.rs:267-269 | Fetching the session's ten most recent rows, building the prompt and calling the service yields `Asker(generate)` on the current table |
| Connection.Respond | src/main.rs:266-270 | The reply is the service's answer when the heuristic fires, and none otherwise |
| Connection.HandleMessage | src/main.rs:253-290 | Handling one decoded message leaves the broadcast messages and the table that `Handle` describes: stamped message saved and broadcast, then the reply (if any) saved and broadcast, failed inserts ignored |
| Connection.HandleSpec | src/main.rs:253-290 | One message broadcasts itself stamped, then at most one AI message, and only when the heuristic fires; everything broadcast is attributed to the session and to the user or the assistant; the table only gains rows of the session |
| Connection.FirstReadError | src/main.rs:249-297 | The reader stops at the first read error, or reads the whole stream when there is none |
| Connection.ReadFrame | src/main.rs:250-293 | A text frame that decodes is handled; any other frame changes nothing |
| Connection.InboundLoop | src/main.rs:248-300 | The reader consumes the frames before the first read error and leaves the broadcast messages and the table that `Run` describes for them |
| Connection.RunSpec | src/main.rs:248-300 | Over the whole reader loop: everything broadcast is attributed to the session and to the user or the assistant; the client-authored part is exactly the decoded messages, stamped, in arrival order; the table only gains rows of the session |
| Connection.LoneClientSeesOwnTraffic | src/main.rs:303-311 | When the channel carries only this connection's traffic, the writer's filter keeps all of it, in order |
| Connection.Replay | src/main.rs:221-236 | Replay writes the converted rows in order up to the first failed write, and reports completion exactly when no write of it failed |
| Connection.FreshSessionReplaysNothing | src/main.rs:207-222 | A fresh session id with no stored rows has nothing to replay |
| Connection.Serve | src/main.rs:182-320 | A rejected query ends the handler with the registry unchanged. A failed replay write ends it with the email still registered. After a full replay the client gets its session's messages up to the first failed write. The email is then removed only when a write failed or the receiver lagged; otherwise the handler is still waiting, with the email registered (`Lifecycle` with a lag as the only other end of the writer) |
| Connection.LifecycleRegistry | src/main.rs:190-317 | A rejected query changes nothing. For an accepted one, the email stays registered, mapped to the fresh session, until the outbound loop ends (outcome `Closed`); a failed replay write returns with the email still registered; no other entry changes |
| Connection.QuietSessionNeverCleansUp | src/main.rs:303-317 | A fresh session that receives no message of its own keeps its email registered, and the handler never returns, even when every write would fail |
| Connection.ServeUntilDisconnect | src/main.rs:303-317 | The corrected handler: its outcome and registry are `Lifecycle` with a client disconnect also ending the writer |
| Connection.DisconnectCleansUp | src/main.rs:313-317 | When a disconnect ends the writer, a client whose replay completed is always removed from the registry, and no other entry changes |

## Left out

- The warp routes, CORS, static files, logging, `dotenv` and database setup: configuration and transport, not routing policy.
- Concurrency. The reader task and the writer loop run in parallel and are modelled separately. `received` is whatever the writer's subscription happened to see. That includes the fact that messages broadcast before `subscribe` (line 240) are missed.
- The broadcast channel's capacity of 100. When a receiver lags it gets an error, and the writer loop ends. The model does not count messages; `lagged` says whether the receiver lags after `received`.
- `Connection.Serve`: the end of `received` is not the end of the client. Only a failed write or a lag ends the writer; the reader task ending on disconnect does not. See "## Findings".
- SQL execution, query errors, and `unwrap_or_default` on the context query. The in-memory store never fails a query. The insert failures modelled are a duplicate primary key, a VARCHAR value that does not fit, and an instant before the TIMESTAMPTZ minimum.
- Postgres rejecting NUL characters in text columns: not modelled.
- The order of rows with equal timestamps: Postgres leaves it unspecified. `History.SortNewestFirst` fixes one order, and every property above holds for any order.
- The Gemini HTTP request and JSON decoding: `generate` is a function parameter, so a failed request is just `None`. The `GEMINI_API_URL` override is not modelled either.
- A missing `GEMINI_API_KEY`: the model assumes the key is set. Without it, `expect` (lines 349-350) panics inside the reader task on the first message that fires the heuristic. That message has already been saved and broadcast. The panic ends that connection's reader only; the writer loop and other connections go on.
- Separate clock readings: the source reads the clock for each insert's fallback time (`Utc::now()`, line 419) and for the reply's timestamp (`SystemTime::now()`, line 275). The model merges them into the frame's one reading `clock(k)`. So when a human message's timestamp falls back to the current time, the model gives it the same instant as its reply, where in the source the reply is later.
- `Uuid::new_v4`, `SystemTime::now` and the one-second sleep before broadcasting a reply: the first two are parameters; the sleep only delays.
- serde encoding and decoding: a frame arrives already decoded, as `Text(Some(m))`, or as `Text(None)` when it does not parse.
- `to_lowercase` is modelled for ASCII only. Non-ASCII case mappings can change a string's length; `Text.Lower` leaves those characters alone.
- chrono's range is taken from chrono 0.4.35 and later (years -262143 to 262142). The repository pins no version. Postgres's TIMESTAMPTZ reaches past chrono's maximum (to year 294276), so only its minimum is checked.
- `Connection.ContextQuotesCurrentMessage`: requires a session id of at most 36 characters. A longer one would be cut when stored, and `WHERE session_id = $1` would then never match it. Session ids are 36-character uuids, so this case does not arise.
- The unused `users` map (`_users`): the handler never reads or writes it.
- The registry is only ever written. `Detach` removes the email's entry even when a newer connection of the same email has re-registered it. No code reads the registry, so nothing depends on this.
- A negative `LIMIT`: every limit in the source is a positive constant, so limits are `nat`.
- The early `return` on a failed replay write is modelled in `Connection.Lifecycle`: it skips the registry clean-up. Because every connection gets a fresh uuid, the replay is in practice always empty (`Connection.FreshSessionReplaysNothing`), so that path needs a uuid collision.

## Findings

| source | as written | input that shows it | evidently intended | confidence | as-written member | corrected member |
|---|---|---|---|---|---|---|
| src/main.rs:303-317 | The handler leaves the writer loop only on a failed write or a receive error. The broadcast sender lives as long as the server, so the only receive error is a lag. A client that disconnects ends the reader task, not the writer. | A client connects and leaves without sending a message that draws a delayed reply. No later message of its (fresh) session is broadcast, so the writer never writes and never fails. Lines 313-317 never run, the email stays registered, and the handler never returns. | The handler ends when the client disconnects and then removes the email, as the comment on the clean-up block says | high for the missing clean-up (a pending AI reply is the only thing that can still make a write fail); not executed | Connection.QuietSessionNeverCleansUp | Connection.DisconnectCleansUp |
