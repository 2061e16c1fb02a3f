/** Records exchanged by the chat relay, and the small wrappers the model returns. */
module ChatTypes {

  /** Rust's `u64`: the wire timestamp is an unsigned 64-bit count of milliseconds. */
  const TwoTo64: int := 0x1_0000_0000_0000_0000
  const TwoTo63: int := 0x8000_0000_0000_0000
  type U64 = x: int | 0 <= x < TwoTo64

  datatype Option<T> = None | Some(value: T)

  datatype Result<T, E> = Success(value: T) | Failure(error: E)

  /** The live (wire) form of a message, as decoded from and encoded to a client frame. */
  datatype ChatMessage = ChatMessage(
    id: string,
    username: string,
    message: string,
    timestamp: U64,
    isAi: bool,
    sessionId: string)

  /** A row of the `messages` table; the timestamp is kept as signed epoch milliseconds. */
  datatype DatabaseMessage = DatabaseMessage(
    id: string,
    username: string,
    message: string,
    timestamp: int,
    isAi: bool,
    sessionId: string)
}
