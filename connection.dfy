/**
 * One client connection: attribution of inbound messages, the assistant's
 * reply, the inbound loop, history replay and the connection's lifecycle.
 */
module Connection {
  import opened ChatTypes
  import opened Seqs
  import opened Trigger
  import opened Prompt
  import opened History
  import opened Router
  import opened Sessions

  /** Display name of every generated reply. */
  const AssistantName := "AI Assistant"

  /** History replayed to a new connection. */
  const ReplayLimit: nat := 50

  /** Messages fetched as context for the prompt (the prompt quotes five of them). */
  const ContextLimit: nat := 10

  /**
   * Attribution of a decoded client message: the server overwrites the
   * author, the session and the AI flag, and keeps id, text and timestamp.
   */
  function Stamp(m: ChatMessage, sessionId: string, username: string): (r: ChatMessage)
    ensures !r.isAi && r.sessionId == sessionId && r.username == username
    ensures r.id == m.id && r.message == m.message && r.timestamp == m.timestamp
  {
    m.(isAi := false, sessionId := sessionId, username := username)
  }

  /** Whatever a client claims for author, session or AI flag, the stamped message is the same. */
  lemma StampIgnoresClaims(a: ChatMessage, b: ChatMessage, sessionId: string, username: string)
    requires a.id == b.id && a.message == b.message && a.timestamp == b.timestamp
    ensures Stamp(a, sessionId, username) == Stamp(b, sessionId, username)
  {
  }

  /** A generated reply: a fresh record by the assistant, in the triggering session. */
  function AIReply(id: string, text: string, now: U64, sessionId: string): (r: ChatMessage)
    ensures r.username == AssistantName && r.isAi && r.sessionId == sessionId
    ensures r.id == id && r.message == text && r.timestamp == now
  {
    ChatMessage(id, AssistantName, text, now, true, sessionId)
  }

  /**
   * A stored row as sent on replay: `timestamp_millis() as u64` reads the
   * signed 64 bits as unsigned, which undoes `as i64`.
   */
  function ToChat(r: DatabaseMessage): (c: ChatMessage)
    ensures c.id == r.id && c.username == r.username && c.message == r.message
    ensures c.isAi == r.isAi && c.sessionId == r.sessionId
    ensures 0 <= r.timestamp < TwoTo64 ==> c.timestamp == r.timestamp
    ensures -TwoTo63 <= r.timestamp < 0 ==> c.timestamp == r.timestamp + TwoTo64
    ensures -TwoTo63 <= r.timestamp < TwoTo63 ==> AsI64(c.timestamp) == r.timestamp
  {
    ChatMessage(r.id, r.username, r.message, r.timestamp % TwoTo64, r.isAi, r.sessionId)
  }

  function ToChatAll(rows: seq<DatabaseMessage>): (out: seq<ChatMessage>)
    ensures |out| == |rows| && forall k :: 0 <= k < |rows| ==> out[k] == ToChat(rows[k])
  {
    if rows == [] then [] else [ToChat(rows[0])] + ToChatAll(rows[1..])
  }

  /**
   * The row of a message is replayed exactly as the message was sent when
   * its timestamp, read as an `i64`, is an instant chrono can represent and
   * its VARCHAR values fit their columns uncut. The row is stored when, in
   * addition, Postgres can hold the instant and the id is new.
   */
  lemma ReplayRoundTrip(rows: seq<DatabaseMessage>, m: ChatMessage, now: int)
    requires MinMillis <= AsI64(m.timestamp) <= MaxMillis
    requires |m.id| <= IdWidth && |m.username| <= UsernameWidth && |m.sessionId| <= SessionWidth
    ensures ToChat(ToDatabase(m, now)) == m
    ensures PgMinMillis <= AsI64(m.timestamp) && (forall x :: x in rows ==> x.id != m.id) ==>
      AfterInsert(rows, m, now) == rows + [ToDatabase(m, now)]
  {
  }

  /**
   * A timestamp past chrono's range is stored as the server's time, so the
   * replayed message carries the time of its insert instead.
   */
  lemma OutOfRangeReplaysInsertTime(m: ChatMessage, now: U64)
    requires AsI64(m.timestamp) > MaxMillis && now <= MaxMillis
    ensures ToChat(ToDatabase(m, now)).timestamp == now != m.timestamp
  {
  }

  /**
   * The generation service's answer once the heuristic has fired, given the
   * table as it is after the message's insert: the prompt is built from the
   * session's ten most recent rows.
   */
  type Ask = (seq<DatabaseMessage>, ChatMessage) -> Option<string>

  /** The service `generate` asked about the session's recent context. */
  function Asker(generate: string -> Option<string>): Ask
  {
    (rows: seq<DatabaseMessage>, human: ChatMessage) =>
      generate(PromptText(human.message, SelectRecentBySession(rows, human.sessionId, ContextLimit), human.username))
  }

  /** The reply text for a stamped human message: none unless the heuristic fires. */
  function ReplyText(rows: seq<DatabaseMessage>, human: ChatMessage, ask: Ask): Option<string>
  {
    if ShouldAIRespond(human.message) then ask(rows, human) else None
  }

  /**
   * The context is fetched after the message is saved, so when the insert
   * succeeds and the message is strictly newer than every other row of its
   * session, the prompt's first quoted line is the current message itself.
   */
  lemma ContextQuotesCurrentMessage(rows: seq<DatabaseMessage>, human: ChatMessage, now: int)
    requires Insertable(rows, human, now)
    requires |human.sessionId| <= SessionWidth
    requires forall r :: r in rows && r.sessionId == human.sessionId ==> r.timestamp < StoredTimestamp(human.timestamp, now)
    ensures var context := SelectRecentBySession(AfterInsert(rows, human, now), human.sessionId, ContextLimit);
      context != [] && ContextWindow(context)[0] == ToDatabase(human, now)
  {
    var h := ToDatabase(human, now);
    var table := rows + [h];
    var p := (r: DatabaseMessage) => r.sessionId == human.sessionId;
    var own := SessionRows(table, human.sessionId);
    var context := SelectRecentBySession(table, human.sessionId, ContextLimit);
    FilterAppend(rows, [h], p);
    assert Filter([h], p) == [h];
    assert own == SessionRows(rows, human.sessionId) + [h];
    FilterMultiset(rows, p, h);
    assert multiset(own)[h] == 1 by {
      assert h !in rows;
    }
    assert forall x :: x in own ==> x == h || x.timestamp < h.timestamp by {
      FilterAccepts(rows, p);
    }
    SelectRecentBySessionSpec(table, human.sessionId, ContextLimit);
    assert |context| == Min(ContextLimit, |own|);
    assert multiset(context) <= multiset(own);
    assert OldestFirstOrdered(context);
    assert NoneNewerLeftOut(context, own);
    NewestIsLast(own, context, h);
    ContextWindowSpec(context);
  }

  /**
   * A selection of the newest rows of `pool`, oldest first, ends with the
   * one row that is strictly newer than all others.
   */
  lemma NewestIsLast(pool: seq<DatabaseMessage>, out: seq<DatabaseMessage>, h: DatabaseMessage)
    requires multiset(pool)[h] == 1
    requires forall x :: x in pool ==> x == h || x.timestamp < h.timestamp
    requires |out| == Min(ContextLimit, |pool|)
    requires multiset(out) <= multiset(pool)
    requires OldestFirstOrdered(out) && NoneNewerLeftOut(out, pool)
    ensures out != [] && out[|out| - 1] == h
  {
    assert |pool| >= 1 by {
      assert h in multiset(pool);
    }
    var last := |out| - 1;
    var x := out[last];
    assert x in pool by {
      assert multiset(out)[x] > 0;
    }
  }

  /**
   * The reply step of `handle_websocket`'s inbound branch: when the heuristic
   * fires, ask the generation service; otherwise there is no reply.
   */
  method Respond(store: MessageStore, human: ChatMessage, generate: string -> Option<string>)
    returns (reply: Option<string>)
    ensures reply == ReplyText(store.rows, human, Asker(generate))
  {
    if ShouldAIRespond(human.message) {
      reply := AskService(store, human, generate);
    } else {
      reply := None;
    }
  }

  /** Fetch the session's recent rows, build the prompt and send it to the generation service. */
  method AskService(store: MessageStore, human: ChatMessage, generate: string -> Option<string>)
    returns (reply: Option<string>)
    ensures reply == Asker(generate)(store.rows, human)
  {
    var context := store.RecentBySession(human.sessionId, ContextLimit);
    var prompt := BuildPrompt(human.message, context, human.username);
    reply := generate(prompt);
  }

  /** What a step of the inbound loop leaves behind: the messages it broadcast and the table. */
  datatype Relay = Relay(published: seq<ChatMessage>, rows: seq<DatabaseMessage>)

  /** The assistant's message for a reply text, if there is one. */
  function Replies(reply: Option<string>, aiId: string, now: U64, sessionId: string): (r: seq<ChatMessage>)
  {
    match reply
    case None => []
    case Some(text) => [AIReply(aiId, text, now, sessionId)]
  }

  /**
   * One decoded client message: the stamped message is saved and broadcast;
   * then the reply, if any, is saved and broadcast. Failed inserts leave the
   * table as it was and do not stop the broadcast.
   */
  function Handle(
    rows: seq<DatabaseMessage>, decoded: ChatMessage, sessionId: string, username: string,
    ask: Ask, aiId: string, now: U64): Relay
  {
    var human := Stamp(decoded, sessionId, username);
    var afterHuman := AfterInsert(rows, human, now);
    var reply := ReplyText(afterHuman, human, ask);
    Relay([human] + Replies(reply, aiId, now, sessionId),
      if reply.None? then afterHuman else AfterInsert(afterHuman, AIReply(aiId, reply.value, now, sessionId), now))
  }

  /** The body of the inbound loop for a text frame that decodes to a message. */
  method HandleMessage(
    store: MessageStore, decoded: ChatMessage, sessionId: string, username: string,
    generate: string -> Option<string>, aiId: string, now: U64)
    returns (published: seq<ChatMessage>)
    modifies store
    ensures Relay(published, store.rows) == Handle(old(store.rows), decoded, sessionId, username, Asker(generate), aiId, now)
  {
    var human := Stamp(decoded, sessionId, username);
    var _ := store.Save(human, now);
    published := [human];
    var reply := Respond(store, human, generate);
    if reply.Some? {
      var ai := AIReply(aiId, reply.value, now, sessionId);
      var _ := store.Save(ai, now);
      published := published + [ai];
    }
  }

  /** What the inbound stream yields: a text frame (decoded, or not a valid message), another frame, or a read error. */
  datatype Frame = Text(decoded: Option<ChatMessage>) | NonText | ReadError

  /** Position of the first read error, which ends the loop; `|frames|` when there is none. */
  function FirstReadError(frames: seq<Frame>): (n: nat)
    ensures n <= |frames|
    ensures forall k :: 0 <= k < n ==> !frames[k].ReadError?
    ensures n < |frames| ==> frames[n].ReadError?
  {
    if frames == [] || frames[0].ReadError? then 0 else 1 + FirstReadError(frames[1..])
  }

  /** The stream read up to a read error is exactly the part before `FirstReadError`. */
  lemma FirstReadErrorIsFirst(frames: seq<Frame>, i: nat)
    requires i <= |frames|
    requires forall k :: 0 <= k < i ==> !frames[k].ReadError?
    requires i < |frames| ==> frames[i].ReadError?
    ensures i == FirstReadError(frames)
  {
  }

  /**
   * The inbound loop over the frames `frames[..n]`: each text frame that
   * decodes to a message is handled; every other frame is skipped. The
   * `k`-th frame's reply, if any, takes its id from `freshId(k)` and its
   * timestamp from `clock(k)`.
   */
  function Run(
    rows: seq<DatabaseMessage>, frames: seq<Frame>, sessionId: string, username: string,
    ask: Ask, freshId: nat -> string, clock: nat -> U64): Relay
    decreases |frames|
  {
    if frames == [] then Relay([], rows)
    else
      var k := |frames| - 1;
      Consume(Run(rows, frames[..k], sessionId, username, ask, freshId, clock),
        frames[k], sessionId, username, ask, freshId(k), clock(k))
  }

  /** One frame of the inbound loop; a read error is never consumed, so it is treated like any other skipped frame. */
  function Consume(
    before: Relay, frame: Frame, sessionId: string, username: string,
    ask: Ask, aiId: string, now: U64): Relay
  {
    match frame
    case Text(Some(m)) =>
      var step := Handle(before.rows, m, sessionId, username, ask, aiId, now);
      Relay(before.published + step.published, step.rows)
    case _ => before
  }

  /** The stamped client messages carried by the frames, in order. */
  function Stamped(frames: seq<Frame>, sessionId: string, username: string): seq<ChatMessage>
    decreases |frames|
  {
    if frames == [] then []
    else
      var k := |frames| - 1;
      Stamped(frames[..k], sessionId, username)
        + match frames[k] case Text(Some(m)) => [Stamp(m, sessionId, username)] case _ => []
  }

  /**
   * The spawned reader task of `handle_websocket`: reads frames until the
   * stream ends or a read fails, and hands every decoded message to
   * `HandleMessage`.
   */
  method InboundLoop(
    store: MessageStore, frames: seq<Frame>, sessionId: string, username: string,
    generate: string -> Option<string>, freshId: nat -> string, clock: nat -> U64)
    returns (published: seq<ChatMessage>, consumed: nat)
    modifies store
    ensures consumed == FirstReadError(frames)
    ensures Relay(published, store.rows) == Run(old(store.rows), frames[..consumed], sessionId, username, Asker(generate), freshId, clock)
  {
    ghost var start := store.rows;
    published := [];
    var i := 0;
    while i < |frames| && !frames[i].ReadError?
      invariant i <= |frames|
      invariant forall k :: 0 <= k < i ==> !frames[k].ReadError?
      invariant Relay(published, store.rows) == Run(start, frames[..i], sessionId, username, Asker(generate), freshId, clock)
    {
      assert frames[..i + 1][..i] == frames[..i];
      published := ReadFrame(store, published, frames[i], sessionId, username, generate, freshId(i), clock(i));
      i := i + 1;
    }
    consumed := i;
    FirstReadErrorIsFirst(frames, consumed);
  }

  /** The body of the reader loop for one frame that is not a read error. */
  method ReadFrame(
    store: MessageStore, published: seq<ChatMessage>, frame: Frame, sessionId: string, username: string,
    generate: string -> Option<string>, aiId: string, now: U64)
    returns (after: seq<ChatMessage>)
    modifies store
    ensures Relay(after, store.rows) == Consume(Relay(published, old(store.rows)), frame, sessionId, username, Asker(generate), aiId, now)
  {
    after := published;
    if frame.Text? && frame.decoded.Some? {
      var out := HandleMessage(store, frame.decoded.value, sessionId, username, generate, aiId, now);
      after := published + out;
    }
  }

  /** How the server attributes what it broadcasts on a connection's behalf. */
  predicate Attributed(m: ChatMessage, sessionId: string, username: string)
  {
    m.sessionId == sessionId && (if m.isAi then m.username == AssistantName else m.username == username)
  }

  /**
   * `after` is `before` with rows of `sessionId` appended, and nothing else
   * changed; the rows hold the session id as its column stores it.
   */
  predicate AppendsOnly(before: seq<DatabaseMessage>, after: seq<DatabaseMessage>, sessionId: string)
  {
    IsPrefix(before, after) && forall k :: |before| <= k < |after| ==> after[k].sessionId == CutToWidth(sessionId, SessionWidth)
  }

  /** The client-authored messages of a broadcast sequence. */
  function Humans(ms: seq<ChatMessage>): seq<ChatMessage>
  {
    Filter(ms, (m: ChatMessage) => !m.isAi)
  }

  /**
   * Handling one message broadcasts it, stamped, followed at most by one
   * assistant reply, which only a message that fires the heuristic can
   * draw; the table only gains rows of this session.
   */
  lemma HandleSpec(
    rows: seq<DatabaseMessage>, decoded: ChatMessage, sessionId: string, username: string,
    ask: Ask, aiId: string, now: U64)
    ensures var out := Handle(rows, decoded, sessionId, username, ask, aiId, now);
      && (forall m :: m in out.published ==> Attributed(m, sessionId, username))
      && Humans(out.published) == [Stamp(decoded, sessionId, username)]
      && (|out.published| > 1 ==> ShouldAIRespond(decoded.message) && |out.published| == 2 && out.published[1].isAi)
      && AppendsOnly(rows, out.rows, sessionId)
  {
    var out := Handle(rows, decoded, sessionId, username, ask, aiId, now);
    var human := Stamp(decoded, sessionId, username);
    var reply := ReplyText(AfterInsert(rows, human, now), human, ask);
    var replies := Replies(reply, aiId, now, sessionId);
    assert Filter(replies, (m: ChatMessage) => !m.isAi) == [] by {
      if reply.Some? {
        assert replies[1..] == [];
      }
    }
    FilterAppend([human], replies, (m: ChatMessage) => !m.isAi);
    assert Filter([human], (m: ChatMessage) => !m.isAi) == [human] by {
      assert [human][1..] == [];
    }
  }

  /**
   * Over the whole inbound loop: everything broadcast is attributed to this
   * connection's session and user (or to the assistant), the client-authored
   * part is exactly the decoded messages in arrival order, and the table
   * only gains rows of this session.
   */
  lemma {:induction false} RunSpec(
    rows: seq<DatabaseMessage>, frames: seq<Frame>, sessionId: string, username: string,
    ask: Ask, freshId: nat -> string, clock: nat -> U64)
    ensures var out := Run(rows, frames, sessionId, username, ask, freshId, clock);
      && (forall m :: m in out.published ==> Attributed(m, sessionId, username))
      && Humans(out.published) == Stamped(frames, sessionId, username)
      && AppendsOnly(rows, out.rows, sessionId)
    decreases |frames|
  {
    if frames != [] {
      var k := |frames| - 1;
      var before := Run(rows, frames[..k], sessionId, username, ask, freshId, clock);
      RunSpec(rows, frames[..k], sessionId, username, ask, freshId, clock);
      match frames[k]
      case Text(Some(m)) =>
        var step := Handle(before.rows, m, sessionId, username, ask, freshId(k), clock(k));
        HandleSpec(before.rows, m, sessionId, username, ask, freshId(k), clock(k));
        FilterAppend(before.published, step.published, (m: ChatMessage) => !m.isAi);
        assert step.rows[..|rows|] == step.rows[..|before.rows|][..|rows|];
      case _ =>
    }
  }

  /** A client alone on the server is forwarded everything its own connection broadcast, in order. */
  lemma LoneClientSeesOwnTraffic(
    rows: seq<DatabaseMessage>, frames: seq<Frame>, sessionId: string, username: string,
    ask: Ask, freshId: nat -> string, clock: nat -> U64)
    ensures var out := Run(rows, frames, sessionId, username, ask, freshId, clock);
      SessionFilter(out.published, sessionId) == out.published
  {
    var out := Run(rows, frames, sessionId, username, ask, freshId, clock);
    RunSpec(rows, frames, sessionId, username, ask, freshId, clock);
    FilterKeepsAll(out.published, (m: ChatMessage) => m.sessionId == sessionId);
  }

  /** No write of the replay fails. */
  predicate ReplayCompletes(history: seq<DatabaseMessage>, writeFailsAt: Option<nat>)
  {
    !WriteFailsWithin(|history|, writeFailsAt)
  }

  /**
   * History replay: each stored row is converted and written in turn; the
   * first failed write ends the whole connection handler.
   */
  method Replay(history: seq<DatabaseMessage>, writeFailsAt: Option<nat>)
    returns (sent: seq<ChatMessage>, completed: bool)
    ensures sent == UntilWriteFails(ToChatAll(history), writeFailsAt)
    ensures completed == ReplayCompletes(history, writeFailsAt)
    ensures completed ==> sent == ToChatAll(history)
  {
    ghost var all := ToChatAll(history);
    sent := [];
    completed := true;
    var i := 0;
    while i < |history|
      invariant i <= |history|
      invariant sent == all[..i]
      invariant writeFailsAt.Some? ==> i <= writeFailsAt.value
    {
      var chat := ToChat(history[i]);
      if writeFailsAt == Some(i) {
        completed := false;
        break;
      }
      sent := sent + [chat];
      i := i + 1;
    }
    assert completed ==> all[..i] == all;
  }

  /**
   * Where a connection handler is: rejected, returned after a failed replay
   * write, finished after its outbound loop ended, or still blocked in that
   * loop waiting for the next message of the channel.
   */
  datatype ServeOutcome =
    | Rejected(reason: ConnectError)
    | ReplayFailed(replayed: seq<ChatMessage>)
    | Closed(replayed: seq<ChatMessage>, delivered: seq<ChatMessage>)
    | Waiting(replayed: seq<ChatMessage>, delivered: seq<ChatMessage>)

  /**
   * The handler's outcome and the registry it leaves, over the table
   * `stored`, for a connection whose outbound loop receives `received`.
   * `ends` says whether anything besides a failed write ends the outbound
   * loop once `received` is exhausted.
   */
  function Lifecycle(
    sessions: map<string, string>, query: map<string, string>, freshSession: string,
    stored: seq<DatabaseMessage>, received: seq<ChatMessage>, writeFailsAt: Option<nat>, ends: bool)
    : (ServeOutcome, map<string, string>)
  {
    match ParseQuery(query)
    case Failure(reason) => (Rejected(reason), sessions)
    case Success(who) =>
      var history := SelectRecentBySession(stored, freshSession, ReplayLimit);
      var replayed := UntilWriteFails(ToChatAll(history), writeFailsAt);
      if !ReplayCompletes(history, writeFailsAt) then (ReplayFailed(replayed), sessions[who.email := freshSession])
      else
        var outbound := SessionFilter(received, freshSession);
        var afterReplay := ShiftFailure(writeFailsAt, |history|);
        var delivered := UntilWriteFails(outbound, afterReplay);
        if WriteFailsWithin(|outbound|, afterReplay) || ends then (Closed(replayed, delivered), sessions - {who.email})
        else (Waiting(replayed, delivered), sessions[who.email := freshSession])
  }

  /**
   * `handle_websocket` seen from the client's side: registration, history
   * replay, the outbound loop over the channel's messages `received`, and
   * the final removal from the registry, which a failed replay write skips.
   * Only a failed write or a lagging receiver (`lagged`) ends the outbound
   * loop, so the outcome `Waiting` is a handler that has not returned.
   */
  method Serve(
    registry: SessionRegistry, store: MessageStore, query: map<string, string>, freshSession: string,
    received: seq<ChatMessage>, writeFailsAt: Option<nat>, lagged: bool)
    returns (outcome: ServeOutcome)
    modifies registry
    ensures (outcome, registry.sessions) ==
      Lifecycle(old(registry.sessions), query, freshSession, store.rows, received, writeFailsAt, lagged)
  {
    ghost var start := registry.sessions;
    var parsed := registry.Attach(query, freshSession);
    if parsed.Failure? {
      return Rejected(parsed.error);
    }
    var history := store.RecentBySession(freshSession, ReplayLimit);
    var replayed, completed := Replay(history, writeFailsAt);
    if !completed {
      return ReplayFailed(replayed);
    }
    var delivered, stopped := Outbound(received, freshSession, ShiftFailure(writeFailsAt, |replayed|), lagged);
    if !stopped {
      return Waiting(replayed, delivered);
    }
    registry.Detach(parsed.value.email);
    assert registry.sessions == start - {parsed.value.email};
    outcome := Closed(replayed, delivered);
  }

  /**
   * The handler as the source evidently intends it: the outbound loop also
   * ends when the client disconnects (`disconnected`: the reader task has
   * finished), so the registry clean-up runs for every client that leaves.
   */
  method ServeUntilDisconnect(
    registry: SessionRegistry, store: MessageStore, query: map<string, string>, freshSession: string,
    received: seq<ChatMessage>, writeFailsAt: Option<nat>, lagged: bool, disconnected: bool)
    returns (outcome: ServeOutcome)
    modifies registry
    ensures (outcome, registry.sessions) ==
      Lifecycle(old(registry.sessions), query, freshSession, store.rows, received, writeFailsAt, lagged || disconnected)
  {
    ghost var start := registry.sessions;
    var parsed := registry.Attach(query, freshSession);
    if parsed.Failure? {
      return Rejected(parsed.error);
    }
    var history := store.RecentBySession(freshSession, ReplayLimit);
    var replayed, completed := Replay(history, writeFailsAt);
    if !completed {
      return ReplayFailed(replayed);
    }
    var delivered, stopped := Outbound(received, freshSession, ShiftFailure(writeFailsAt, |replayed|), lagged);
    if !stopped && !disconnected {
      return Waiting(replayed, delivered);
    }
    registry.Detach(parsed.value.email);
    assert registry.sessions == start - {parsed.value.email};
    outcome := Closed(replayed, delivered);
  }

  /**
   * For an accepted connection, the email stays registered, mapped to the
   * fresh session, until the outbound loop ends (outcome `Closed`); a failed
   * replay write returns with the email still registered. Every other entry
   * is as before, and a rejected query changes nothing.
   */
  lemma LifecycleRegistry(
    sessions: map<string, string>, query: map<string, string>, freshSession: string,
    stored: seq<DatabaseMessage>, received: seq<ChatMessage>, writeFailsAt: Option<nat>, ends: bool)
    ensures var (outcome, after) := Lifecycle(sessions, query, freshSession, stored, received, writeFailsAt, ends);
      match ParseQuery(query)
      case Failure(reason) => outcome == Rejected(reason) && after == sessions
      case Success(who) =>
        && (who.email in after <==> !outcome.Closed?)
        && (who.email in after ==> after[who.email] == freshSession)
        && (forall e :: e != who.email ==> (e in after <==> e in sessions))
        && (forall e :: e != who.email && e in after ==> after[e] == sessions[e])
  {
  }

  /**
   * As written, a client of a fresh session whose session broadcasts nothing
   * more stays registered and its handler never returns, even when every
   * write to its socket would fail: the outbound loop writes nothing, so it
   * never learns that the client has gone.
   */
  lemma QuietSessionNeverCleansUp(
    sessions: map<string, string>, query: map<string, string>, freshSession: string,
    stored: seq<DatabaseMessage>, received: seq<ChatMessage>, writeFailsAt: Option<nat>)
    requires ParseQuery(query).Success?
    requires forall r :: r in stored ==> r.sessionId != freshSession
    requires forall m :: m in received ==> m.sessionId != freshSession
    ensures var (outcome, after) := Lifecycle(sessions, query, freshSession, stored, received, writeFailsAt, false);
      outcome == Waiting([], []) && after[ParseQuery(query).value.email] == freshSession
  {
    FreshSessionHasNoHistory(stored, freshSession, ReplayLimit);
    QuietSessionDeliversNothing(received, freshSession);
  }

  /**
   * With the outbound loop ending on disconnect, a client that leaves after
   * a complete replay is always removed from the registry, and no other
   * entry changes.
   */
  lemma DisconnectCleansUp(
    sessions: map<string, string>, query: map<string, string>, freshSession: string,
    stored: seq<DatabaseMessage>, received: seq<ChatMessage>, writeFailsAt: Option<nat>)
    requires ParseQuery(query).Success?
    requires ReplayCompletes(SelectRecentBySession(stored, freshSession, ReplayLimit), writeFailsAt)
    ensures var (outcome, after) := Lifecycle(sessions, query, freshSession, stored, received, writeFailsAt, true);
      outcome.Closed? && after == sessions - {ParseQuery(query).value.email}
  {
  }

  /** A fresh session id has no stored rows, so there is nothing to replay and the replay cannot fail. */
  lemma FreshSessionReplaysNothing(rows: seq<DatabaseMessage>, freshSession: string)
    requires forall r :: r in rows ==> r.sessionId != freshSession
    ensures ToChatAll(SelectRecentBySession(rows, freshSession, ReplayLimit)) == []
  {
    FreshSessionHasNoHistory(rows, freshSession, ReplayLimit);
  }
}
