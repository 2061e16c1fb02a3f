/**
 * The message store: the `messages` table held as an in-memory sequence of rows,
 * the insert that persists a message, and the two "recent messages" queries.
 */
module History {
  import opened ChatTypes
  import opened Seqs

  /** Column widths of the table: `id` and `session_id` are VARCHAR(36), `username` VARCHAR(255). */
  const IdWidth: nat := 36
  const UsernameWidth: nat := 255
  const SessionWidth: nat := 36

  /**
   * A value fits a VARCHAR(`width`) column when nothing but spaces lies
   * past the width: Postgres then stores it cut to the width, and rejects
   * any other over-long value.
   */
  predicate FitsColumn(s: string, width: nat)
  {
    forall k :: width <= k < |s| ==> s[k] == ' '
  }

  /** The value a VARCHAR(`width`) column stores. */
  function CutToWidth(s: string, width: nat): (r: string)
    ensures |r| == Min(|s|, width) && IsPrefix(r, s)
    ensures |s| <= width ==> r == s
    ensures FitsColumn(s, width) ==> forall k :: |r| <= k < |s| ==> s[k] == ' '
  {
    if |s| <= width then s else s[..width]
  }

  /**
   * The range of chrono's `DateTime<Utc>` in epoch milliseconds: from
   * January 1 of year -262143 to the last millisecond of year 262142.
   */
  const MinMillis: int := -8_334_601_228_800_000
  const MaxMillis: int := 8_210_266_876_799_999

  /**
   * The earliest instant a Postgres TIMESTAMPTZ holds, in epoch
   * milliseconds: midnight of November 24, 4714 BC (Julian day 0).
   */
  const PgMinMillis: int := -210_866_803_200_000

  /** Rust's `t as i64`: the 64 bits of `t` read as a two's-complement number. */
  function AsI64(t: U64): (r: int)
    ensures -TwoTo63 <= r < TwoTo63
    ensures (t - r) % TwoTo64 == 0
  {
    if t < TwoTo63 then t else t - TwoTo64
  }

  /**
   * The stored instant: `from_timestamp_millis(t as i64)`, or the server's
   * current time `now` when that value lies outside chrono's range.
   */
  function StoredTimestamp(t: U64, now: int): (r: int)
    ensures MinMillis <= AsI64(t) <= MaxMillis ==> r == AsI64(t)
    ensures !(MinMillis <= AsI64(t) <= MaxMillis) ==> r == now
  {
    var signed := AsI64(t);
    if MinMillis <= signed <= MaxMillis then signed else now
  }

  /** The row a live message is stored as, when its insert succeeds at time `now`. */
  function ToDatabase(m: ChatMessage, now: int): DatabaseMessage
  {
    DatabaseMessage(
      CutToWidth(m.id, IdWidth), CutToWidth(m.username, UsernameWidth), m.message,
      StoredTimestamp(m.timestamp, now), m.isAi, CutToWidth(m.sessionId, SessionWidth))
  }

  /**
   * The insert at time `now` succeeds when every VARCHAR value fits its
   * column, the stored instant is within the TIMESTAMPTZ range, and the
   * stored id is new (it is the primary key).
   */
  predicate Insertable(rows: seq<DatabaseMessage>, m: ChatMessage, now: int)
  {
    && FitsColumn(m.id, IdWidth)
    && FitsColumn(m.username, UsernameWidth)
    && FitsColumn(m.sessionId, SessionWidth)
    && PgMinMillis <= StoredTimestamp(m.timestamp, now)
    && (forall x :: x in rows ==> x.id != CutToWidth(m.id, IdWidth))
  }

  /** The primary key: no two rows share an id. */
  predicate UniqueIds(rows: seq<DatabaseMessage>)
  {
    forall i, j :: 0 <= i < j < |rows| ==> rows[i].id != rows[j].id
  }

  /** The table after an attempted insert: one row more, or unchanged when the insert fails. */
  function AfterInsert(rows: seq<DatabaseMessage>, m: ChatMessage, now: int): seq<DatabaseMessage>
  {
    if Insertable(rows, m, now) then rows + [ToDatabase(m, now)] else rows
  }

  /** An id of 36 characters followed by a space is stored cut to its first 36 characters. */
  lemma TrailingSpaceIsCut(rows: seq<DatabaseMessage>, m: ChatMessage, now: int)
    requires |m.id| == IdWidth + 1 && m.id[IdWidth] == ' '
    requires |m.username| <= UsernameWidth && |m.sessionId| <= SessionWidth
    requires PgMinMillis <= StoredTimestamp(m.timestamp, now)
    requires forall x :: x in rows ==> x.id != m.id[..IdWidth]
    ensures AfterInsert(rows, m, now) == rows + [ToDatabase(m, now)]
    ensures ToDatabase(m, now).id == m.id[..IdWidth]
  {
  }

  /** An insert, successful or not, keeps the ids of the table unique. */
  lemma AfterInsertKeepsIdsUnique(rows: seq<DatabaseMessage>, m: ChatMessage, now: int)
    requires UniqueIds(rows)
    ensures UniqueIds(AfterInsert(rows, m, now))
  {
    if Insertable(rows, m, now) {
      var after := rows + [ToDatabase(m, now)];
      forall i, j | 0 <= i < j < |after| ensures after[i].id != after[j].id {
        if j == |rows| {
          assert after[i] in rows;
        }
      }
    }
  }

  /**
   * An instant chrono accepts but Postgres does not (before 4714 BC) makes
   * the insert fail: there is no fallback to the current time for it.
   */
  lemma BeforePostgresRangeIsRejected(rows: seq<DatabaseMessage>, m: ChatMessage, now: int)
    requires MinMillis <= AsI64(m.timestamp) < PgMinMillis
    ensures AfterInsert(rows, m, now) == rows
  {
  }

  /**
   * The last millisecond before chrono's range (December 31 of year -262144)
   * falls back to the server's time, and the insert then succeeds.
   */
  lemma DayBeforeChronoMinimumFallsBack(rows: seq<DatabaseMessage>, m: ChatMessage, now: int)
    requires m.timestamp == TwoTo64 + MinMillis - 1
    requires |m.id| <= IdWidth && |m.username| <= UsernameWidth && |m.sessionId| <= SessionWidth
    requires PgMinMillis <= now && forall x :: x in rows ==> x.id != m.id
    ensures AfterInsert(rows, m, now) == rows + [ToDatabase(m, now)]
    ensures ToDatabase(m, now).timestamp == now
  {
  }

  /** A client timestamp of 2^64 - 10^15 reads as -10^15 ms, around year -29700, and is not stored. */
  lemma FarPastTimestampExample(rows: seq<DatabaseMessage>, m: ChatMessage, now: int)
    requires m.timestamp == TwoTo64 - 1_000_000_000_000_000
    ensures AfterInsert(rows, m, now) == rows
  {
    BeforePostgresRangeIsRejected(rows, m, now);
  }

  /** A value with anything but spaces past its width makes the insert fail. */
  lemma OverlongValueIsRejected(rows: seq<DatabaseMessage>, m: ChatMessage, now: int, k: nat)
    requires IdWidth <= k < |m.id| && m.id[k] != ' '
    ensures AfterInsert(rows, m, now) == rows
  {
  }

  /** `WHERE session_id = $1`. */
  function SessionRows(rows: seq<DatabaseMessage>, sessionId: string): seq<DatabaseMessage>
  {
    Filter(rows, (r: DatabaseMessage) => r.sessionId == sessionId)
  }

  ghost predicate NewestFirstOrdered(s: seq<DatabaseMessage>)
  {
    forall i, j :: 0 <= i < j < |s| ==> s[i].timestamp >= s[j].timestamp
  }

  ghost predicate OldestFirstOrdered(s: seq<DatabaseMessage>)
  {
    forall i, j :: 0 <= i < j < |s| ==> s[i].timestamp <= s[j].timestamp
  }

  /** No row of `pool` that was left out of `out` is newer than a row of `out`. */
  ghost predicate NoneNewerLeftOut(out: seq<DatabaseMessage>, pool: seq<DatabaseMessage>)
  {
    forall x, j :: 0 <= j < |out| && multiset(out)[x] < multiset(pool)[x] ==> x.timestamp <= out[j].timestamp
  }

  /** Places `r` into a newest-first sequence, ahead of every row that is not newer. */
  function InsertNewest(r: DatabaseMessage, s: seq<DatabaseMessage>): seq<DatabaseMessage>
  {
    if s == [] || r.timestamp >= s[0].timestamp then [r] + s
    else [s[0]] + InsertNewest(r, s[1..])
  }

  /** `ORDER BY timestamp DESC`; rows with equal timestamps keep their table order. */
  function SortNewestFirst(rows: seq<DatabaseMessage>): seq<DatabaseMessage>
  {
    if rows == [] then [] else InsertNewest(rows[0], SortNewestFirst(rows[1..]))
  }

  /** `ORDER BY timestamp DESC LIMIT $n`: what the database returns. */
  function NewestFirst(rows: seq<DatabaseMessage>, limit: nat): seq<DatabaseMessage>
  {
    Take(SortNewestFirst(rows), limit)
  }

  /** What `get_recent_messages` hands back: the newest rows, put back into oldest-first order. */
  function SelectRecent(rows: seq<DatabaseMessage>, limit: nat): seq<DatabaseMessage>
  {
    Reversed(NewestFirst(rows, limit))
  }

  /** What `get_recent_messages_by_session` hands back. */
  function SelectRecentBySession(rows: seq<DatabaseMessage>, sessionId: string, limit: nat): seq<DatabaseMessage>
  {
    SelectRecent(SessionRows(rows, sessionId), limit)
  }

  lemma {:induction false} InsertNewestMultiset(r: DatabaseMessage, s: seq<DatabaseMessage>)
    ensures multiset(InsertNewest(r, s)) == multiset(s) + multiset{r}
  {
    if s != [] && r.timestamp < s[0].timestamp {
      InsertNewestMultiset(r, s[1..]);
      assert s == [s[0]] + s[1..];
    }
  }

  /** A row no newer than anything behind it may go in front of a newest-first sequence. */
  lemma ConsOrdered(a: DatabaseMessage, s: seq<DatabaseMessage>)
    requires NewestFirstOrdered(s)
    requires forall x :: x in s ==> x.timestamp <= a.timestamp
    ensures NewestFirstOrdered([a] + s)
  {
    var out := [a] + s;
    forall i, j | 0 <= i < j < |out| ensures out[i].timestamp >= out[j].timestamp {
      assert out[j] == s[j - 1];
      if i > 0 {
        assert out[i] == s[i - 1];
      }
    }
  }

  lemma {:induction false} InsertNewestOrdered(r: DatabaseMessage, s: seq<DatabaseMessage>)
    requires NewestFirstOrdered(s)
    ensures NewestFirstOrdered(InsertNewest(r, s))
  {
    if s == [] || r.timestamp >= s[0].timestamp {
      assert forall x :: x in s ==> x.timestamp <= r.timestamp by {
        forall x | x in s ensures x.timestamp <= r.timestamp {
          var j :| 0 <= j < |s| && s[j] == x;
        }
      }
      ConsOrdered(r, s);
    } else {
      var tail := s[1..];
      var rest := InsertNewest(r, tail);
      assert NewestFirstOrdered(tail);
      InsertNewestOrdered(r, tail);
      InsertNewestMultiset(r, tail);
      forall x | x in rest ensures x.timestamp <= s[0].timestamp {
        assert x in multiset(rest);
        if x != r {
          assert x in multiset(tail);
          var j :| 0 <= j < |tail| && tail[j] == x;
          assert s[j + 1] == x;
        }
      }
      ConsOrdered(s[0], rest);
    }
  }

  /** The sort yields a newest-first permutation of the table. */
  lemma {:induction false} SortNewestFirstSpec(rows: seq<DatabaseMessage>)
    ensures multiset(SortNewestFirst(rows)) == multiset(rows)
    ensures NewestFirstOrdered(SortNewestFirst(rows))
  {
    if rows != [] {
      SortNewestFirstSpec(rows[1..]);
      InsertNewestMultiset(rows[0], SortNewestFirst(rows[1..]));
      InsertNewestOrdered(rows[0], SortNewestFirst(rows[1..]));
      assert rows == [rows[0]] + rows[1..];
    }
  }

  /** The kept prefix and the dropped rest of a sequence split its multiset. */
  lemma SplitMultiset(s: seq<DatabaseMessage>, n: nat)
    requires n <= |s|
    ensures multiset(s[..n]) + multiset(s[n..]) == multiset(s)
  {
    assert s == s[..n] + s[n..];
  }

  /** Cutting a newest-first sequence after `n` rows leaves behind only rows no newer than those kept. */
  lemma PrefixLeavesOlder(sorted: seq<DatabaseMessage>, n: nat)
    requires NewestFirstOrdered(sorted) && n <= |sorted|
    ensures NoneNewerLeftOut(sorted[..n], sorted)
  {
    var out := sorted[..n];
    SplitMultiset(sorted, n);
    forall x, j | 0 <= j < |out| && multiset(out)[x] < multiset(sorted)[x]
      ensures x.timestamp <= out[j].timestamp
    {
      assert x in multiset(sorted[n..]);
      var k :| 0 <= k < |sorted[n..]| && sorted[n..][k] == x;
      assert sorted[n + k] == x;
    }
  }

  /**
   * `ORDER BY timestamp DESC LIMIT n` returns min(n, |rows|) rows of the
   * table, newest first, and no row it leaves out is newer than one it returns.
   */
  lemma NewestFirstSpec(rows: seq<DatabaseMessage>, limit: nat)
    ensures |NewestFirst(rows, limit)| == Min(limit, |rows|)
    ensures NewestFirstOrdered(NewestFirst(rows, limit))
    ensures multiset(NewestFirst(rows, limit)) <= multiset(rows)
    ensures NoneNewerLeftOut(NewestFirst(rows, limit), rows)
  {
    var sorted := SortNewestFirst(rows);
    SortNewestFirstSpec(rows);
    assert |sorted| == |rows| by {
      assert |multiset(sorted)| == |multiset(rows)|;
    }
    var n := Min(limit, |rows|);
    assert NewestFirst(rows, limit) == sorted[..n];
    SplitMultiset(sorted, n);
    PrefixLeavesOlder(sorted, n);
  }

  lemma ReversedOrder(s: seq<DatabaseMessage>)
    requires NewestFirstOrdered(s)
    ensures OldestFirstOrdered(Reversed(s))
  {
    ReversedLength(s);
    forall i, j | 0 <= i < j < |s| ensures Reversed(s)[i].timestamp <= Reversed(s)[j].timestamp {
      ReversedIndex(s, i);
      ReversedIndex(s, j);
    }
  }

  /**
   * `get_recent_messages`: at most `limit` rows of the table, oldest first,
   * and none of the rows left out is newer than any row returned.
   */
  lemma SelectRecentSpec(rows: seq<DatabaseMessage>, limit: nat)
    ensures |SelectRecent(rows, limit)| == Min(limit, |rows|)
    ensures OldestFirstOrdered(SelectRecent(rows, limit))
    ensures multiset(SelectRecent(rows, limit)) <= multiset(rows)
    ensures NoneNewerLeftOut(SelectRecent(rows, limit), rows)
  {
    var newest := NewestFirst(rows, limit);
    NewestFirstSpec(rows, limit);
    ReversedLength(newest);
    ReversedMultiset(newest);
    ReversedOrder(newest);
    forall x, j | 0 <= j < |newest| && multiset(Reversed(newest))[x] < multiset(rows)[x]
      ensures x.timestamp <= Reversed(newest)[j].timestamp
    {
      ReversedIndex(newest, j);
    }
  }

  /**
   * `get_recent_messages_by_session`: at most `limit` rows, every one of the
   * requested session, oldest first; the count falls short of `limit` only
   * when the session has fewer rows; no row of the session left out is newer
   * than any row returned.
   */
  lemma SelectRecentBySessionSpec(rows: seq<DatabaseMessage>, sessionId: string, limit: nat)
    ensures |SelectRecentBySession(rows, sessionId, limit)| == Min(limit, |SessionRows(rows, sessionId)|)
    ensures forall m :: m in SelectRecentBySession(rows, sessionId, limit) ==> m.sessionId == sessionId
    ensures OldestFirstOrdered(SelectRecentBySession(rows, sessionId, limit))
    ensures multiset(SelectRecentBySession(rows, sessionId, limit)) <= multiset(SessionRows(rows, sessionId))
    ensures multiset(SelectRecentBySession(rows, sessionId, limit)) <= multiset(rows)
    ensures NoneNewerLeftOut(SelectRecentBySession(rows, sessionId, limit), SessionRows(rows, sessionId))
  {
    var own := SessionRows(rows, sessionId);
    var out := SelectRecentBySession(rows, sessionId, limit);
    var p := (r: DatabaseMessage) => r.sessionId == sessionId;
    SelectRecentSpec(own, limit);
    forall m | m in out ensures m.sessionId == sessionId {
      assert multiset(out)[m] > 0;
      FilterMultiset(rows, p, m);
    }
    forall x ensures multiset(out)[x] <= multiset(rows)[x] {
      FilterMultiset(rows, p, x);
    }
  }

  /** A session with no stored row has no history to replay. */
  lemma FreshSessionHasNoHistory(rows: seq<DatabaseMessage>, sessionId: string, limit: nat)
    requires forall r :: r in rows ==> r.sessionId != sessionId
    ensures SelectRecentBySession(rows, sessionId, limit) == []
  {
    var own := SessionRows(rows, sessionId);
    forall x ensures multiset(own)[x] == 0 {
      FilterMultiset(rows, (r: DatabaseMessage) => r.sessionId == sessionId, x);
    }
    assert multiset(own) == multiset{};
  }

  /** `Vec::reverse`: turns the buffer around in place. */
  method ReverseInPlace(a: array<DatabaseMessage>)
    modifies a
    ensures a[..] == Reversed(old(a[..]))
  {
    var n := a.Length;
    var i := 0;
    while i < n / 2
      invariant 0 <= i <= n / 2
      invariant forall k :: 0 <= k < i ==> a[k] == old(a[n - 1 - k]) && a[n - 1 - k] == old(a[k])
      invariant forall k :: i <= k < n - i ==> a[k] == old(a[k])
    {
      a[i], a[n - 1 - i] := a[n - 1 - i], a[i];
      i := i + 1;
    }
    ghost var before := old(a[..]);
    ReversedLength(before);
    forall k | 0 <= k < n ensures a[..][k] == Reversed(before)[k] {
      ReversedIndex(before, k);
    }
  }

  /**
   * The tail of both queries: push every fetched row into a fresh vector,
   * then reverse the vector in place to get oldest-first order.
   */
  method CollectOldestFirst(fetched: seq<DatabaseMessage>) returns (messages: seq<DatabaseMessage>)
    ensures messages == Reversed(fetched)
  {
    var pushed: seq<DatabaseMessage> := [];
    for i := 0 to |fetched|
      invariant pushed == fetched[..i]
    {
      pushed := pushed + [fetched[i]];
    }
    assert pushed == fetched;
    var buffer := new DatabaseMessage[|pushed|](k requires 0 <= k < |pushed| => pushed[k]);
    assert buffer[..] == pushed;
    ReverseInPlace(buffer);
    messages := buffer[..];
  }

  class MessageStore {
    /** The table's rows in insertion order. */
    var rows: seq<DatabaseMessage>

    constructor ()
      ensures rows == []
    {
      rows := [];
    }

    /** `save_message_to_db` at server time `now`: one INSERT, reporting whether it succeeded. */
    method Save(m: ChatMessage, now: int) returns (ok: bool)
      modifies this
      ensures ok == Insertable(old(rows), m, now)
      ensures UniqueIds(old(rows)) ==> UniqueIds(rows)
      ensures rows == AfterInsert(old(rows), m, now)
    {
      ok := Insertable(rows, m, now);
      if UniqueIds(rows) {
        AfterInsertKeepsIdsUnique(rows, m, now);
      }
      if ok {
        rows := rows + [ToDatabase(m, now)];
      }
    }

    /** `get_recent_messages_by_session`: the SELECT, then the push loop and the reversal. */
    method RecentBySession(sessionId: string, limit: nat) returns (messages: seq<DatabaseMessage>)
      ensures messages == SelectRecentBySession(rows, sessionId, limit)
    {
      var fetched := NewestFirst(SessionRows(rows, sessionId), limit);
      messages := CollectOldestFirst(fetched);
    }

    /** `get_recent_messages`: the same over the whole table. */
    method Recent(limit: nat) returns (messages: seq<DatabaseMessage>)
      ensures messages == SelectRecent(rows, limit)
    {
      var fetched := NewestFirst(rows, limit);
      messages := CollectOldestFirst(fetched);
    }
  }
}
