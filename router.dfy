/**
 * The outbound half of a connection: every published message reaches every
 * subscriber, and each connection forwards to its client only the messages
 * of its own session.
 */
module Router {
  import opened ChatTypes
  import opened Seqs

  /** The messages of `received` that belong to `sessionId`, in arrival order. */
  function SessionFilter(received: seq<ChatMessage>, sessionId: string): seq<ChatMessage>
  {
    Filter(received, (m: ChatMessage) => m.sessionId == sessionId)
  }

  /** The writes that go through when the socket fails at write number `k` (from 0), if ever. */
  function UntilWriteFails<T>(writes: seq<T>, writeFailsAt: Option<nat>): seq<T>
  {
    match writeFailsAt
    case None => writes
    case Some(k) => Take(writes, k)
  }

  /** A failure index counted from `done` writes further on. */
  function ShiftFailure(writeFailsAt: Option<nat>, done: nat): Option<nat>
  {
    match writeFailsAt
    case None => None
    case Some(k) => Some(if k >= done then k - done else 0)
  }

  /** One of the first `n` writes fails. */
  predicate WriteFailsWithin(n: nat, writeFailsAt: Option<nat>)
  {
    writeFailsAt.Some? && writeFailsAt.value < n
  }

  /**
   * The outbound loop: for each message received from the broadcast channel,
   * write it to the client when its session is this connection's; stop at
   * the first failed write. `received` is what the receiver yields before it
   * blocks for good or, when `lagged`, before it reports falling behind the
   * channel, which also ends the loop. The loop has ended (`stopped`)
   * exactly when a write failed or the receiver lagged; otherwise it is
   * still waiting for the next message.
   */
  method Outbound(received: seq<ChatMessage>, sessionId: string, writeFailsAt: Option<nat>, lagged: bool)
    returns (delivered: seq<ChatMessage>, stopped: bool)
    ensures delivered == UntilWriteFails(SessionFilter(received, sessionId), writeFailsAt)
    ensures stopped == (WriteFailsWithin(|SessionFilter(received, sessionId)|, writeFailsAt) || lagged)
  {
    ghost var p := (m: ChatMessage) => m.sessionId == sessionId;
    delivered := [];
    var failed := false;
    var i := 0;
    while i < |received|
      invariant 0 <= i <= |received|
      invariant delivered == SessionFilter(received[..i], sessionId)
      invariant writeFailsAt.Some? ==> |delivered| <= writeFailsAt.value
    {
      var msg := received[i];
      assert received[..i + 1] == received[..i] + [msg];
      FilterAppend(received[..i], [msg], p);
      if msg.sessionId == sessionId {
        if writeFailsAt == Some(|delivered|) {
          failed := true;
          break;
        }
        delivered := delivered + [msg];
      }
      i := i + 1;
    }
    assert received == received[..i] + received[i..];
    FilterAppend(received[..i], received[i..], p);
    if failed {
      assert Filter(received[i..], p) != [] by {
        assert received[i..][0] == received[i];
      }
    }
    stopped := failed || lagged;
  }

  /** A receiver that gets no message of its session writes nothing, so no failed write can end it. */
  lemma {:induction false} QuietSessionDeliversNothing(received: seq<ChatMessage>, sessionId: string)
    requires forall m :: m in received ==> m.sessionId != sessionId
    ensures SessionFilter(received, sessionId) == []
  {
    if received != [] {
      assert received[0] in received;
      QuietSessionDeliversNothing(received[1..], sessionId);
    }
  }

  /** Session isolation: whatever a connection delivers came in on the channel and belongs to its session. */
  lemma DeliveredIsolation(received: seq<ChatMessage>, sessionId: string, writeFailsAt: Option<nat>)
    ensures forall m :: m in UntilWriteFails(SessionFilter(received, sessionId), writeFailsAt) ==>
      m.sessionId == sessionId && m in received
  {
    var all := SessionFilter(received, sessionId);
    FilterAccepts(received, (m: ChatMessage) => m.sessionId == sessionId);
    forall m | m in UntilWriteFails(all, writeFailsAt) ensures m in all {
      var j :| 0 <= j < |UntilWriteFails(all, writeFailsAt)| && UntilWriteFails(all, writeFailsAt)[j] == m;
      assert all[j] == m;
    }
  }

  /** Connections of two different sessions never deliver the same message. */
  lemma DistinctSessionsDisjoint(received: seq<ChatMessage>, s1: string, s2: string)
    requires s1 != s2
    ensures forall m :: m in SessionFilter(received, s1) ==> m !in SessionFilter(received, s2)
  {
    FilterAccepts(received, (m: ChatMessage) => m.sessionId == s1);
    FilterAccepts(received, (m: ChatMessage) => m.sessionId == s2);
  }

  /**
   * Order and completeness: the filtered stream sits at strictly increasing
   * positions of the received stream, and every received message of the
   * session is among them.
   */
  lemma SessionFilterIsSubsequence(received: seq<ChatMessage>, sessionId: string) returns (idx: seq<nat>)
    ensures Picks(received, idx, SessionFilter(received, sessionId))
    ensures forall i :: 0 <= i < |received| && received[i].sessionId == sessionId ==> i in idx
  {
    idx := FilterIndices(received, (m: ChatMessage) => m.sessionId == sessionId);
  }

  /** With no failed write, every copy of each message of the session is delivered, and nothing else. */
  lemma SessionFilterCounts(received: seq<ChatMessage>, sessionId: string, m: ChatMessage)
    ensures multiset(SessionFilter(received, sessionId))[m] ==
      if m.sessionId == sessionId then multiset(received)[m] else 0
  {
    FilterMultiset(received, (x: ChatMessage) => x.sessionId == sessionId, m);
  }
}
