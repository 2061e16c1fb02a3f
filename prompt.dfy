/** The text sent to the generation service: preamble, recent conversation, current message. */
module Prompt {
  import opened ChatTypes
  import opened Seqs

  /** At most this many context messages are quoted. */
  const MaxContextLines: nat := 5

  const Header := "Recent conversation:\n"

  /** The fixed instruction that opens every prompt, naming the user who just wrote. */
  function Preamble(currentUser: string): string
  {
    "You are a helpful AI assistant in a group chat. The user '" + currentUser
    + "' just sent a message. Respond in a friendly, conversational way. Keep your response concise (1-2 sentences max) and engaging. Be helpful and natural.\n\n"
  }

  /** The fixed close: the current message restated and the request to answer. */
  function Trailer(currentUser: string, userMessage: string): string
  {
    "\nCurrent message from " + currentUser + ": " + userMessage + "\n\nPlease respond:"
  }

  /** One quoted context message: the assistant's as `AI: …`, anybody else's under their name. */
  function ContextLine(m: DatabaseMessage): string
  {
    if m.isAi then "AI: " + m.message + "\n" else m.username + ": " + m.message + "\n"
  }

  function Lines(ms: seq<DatabaseMessage>): string
  {
    if ms == [] then "" else ContextLine(ms[0]) + Lines(ms[1..])
  }

  /** The messages quoted, newest first: `context.iter().rev().take(5)`. */
  function ContextWindow(context: seq<DatabaseMessage>): seq<DatabaseMessage>
  {
    Take(Reversed(context), MaxContextLines)
  }

  /** The whole prompt; the "Recent conversation" block only when there is any context. */
  function PromptText(userMessage: string, context: seq<DatabaseMessage>, currentUser: string): string
  {
    Preamble(currentUser)
    + (if context == [] then "" else Header + Lines(ContextWindow(context)))
    + Trailer(currentUser, userMessage)
  }

  lemma {:induction false} LinesAppend(ms: seq<DatabaseMessage>, m: DatabaseMessage)
    ensures Lines(ms + [m]) == Lines(ms) + ContextLine(m)
  {
    if ms == [] {
      assert [m][1..] == [];
    } else {
      assert (ms + [m])[1..] == ms[1..] + [m];
      LinesAppend(ms[1..], m);
    }
  }

  /**
   * The quoted messages are the last min(5, |context|) of the context,
   * taken newest first: position `j` holds the message `j` places from the end.
   */
  lemma ContextWindowSpec(context: seq<DatabaseMessage>)
    ensures |ContextWindow(context)| == Min(MaxContextLines, |context|)
    ensures forall j :: 0 <= j < |ContextWindow(context)| ==>
      ContextWindow(context)[j] == context[|context| - 1 - j]
  {
    ReversedLength(context);
    forall j | 0 <= j < |ContextWindow(context)|
      ensures ContextWindow(context)[j] == context[|context| - 1 - j]
    {
      ReversedIndex(context, j);
    }
  }

  /** Equivalently, the window is the last (at most five) messages, in reverse. */
  lemma ContextWindowIsReversedTail(context: seq<DatabaseMessage>)
    ensures ContextWindow(context) ==
      Reversed(context[|context| - Min(MaxContextLines, |context|)..])
  {
    var tail := context[|context| - Min(MaxContextLines, |context|)..];
    ContextWindowSpec(context);
    ReversedLength(tail);
    forall j | 0 <= j < |tail| ensures Reversed(tail)[j] == ContextWindow(context)[j] {
      ReversedIndex(tail, j);
    }
  }

  /**
   * Layout of every prompt: it opens with the preamble, closes with the
   * trailer, and the text right after the preamble starts with the
   * "Recent conversation" header exactly when there is some context.
   */
  lemma PromptLayout(userMessage: string, context: seq<DatabaseMessage>, currentUser: string)
    ensures IsPrefix(Preamble(currentUser), PromptText(userMessage, context, currentUser))
    ensures IsSuffix(Trailer(currentUser, userMessage), PromptText(userMessage, context, currentUser))
    ensures context != [] <==>
      IsPrefix(Header, PromptText(userMessage, context, currentUser)[|Preamble(currentUser)|..])
  {
    var pre, tr := Preamble(currentUser), Trailer(currentUser, userMessage);
    var mid := if context == [] then "" else Header + Lines(ContextWindow(context));
    ThreeParts(pre, mid, tr);
    if context == [] {
      assert (mid + tr)[0] == '\n';
    } else {
      ThreeParts(Header, Lines(ContextWindow(context)), tr);
    }
  }

  /**
   * Where the parts of a three-part concatenation sit. Kept as a lemma so
   * that proofs about prompts see the preamble only as an opaque string.
   */
  lemma ThreeParts(a: string, b: string, c: string)
    ensures (a + b + c)[..|a|] == a
    ensures (a + b + c)[|a|..] == b + c
    ensures (a + b + c)[|a + b + c| - |c|..] == c
  {
  }

  /**
   * Builds the prompt the way the source does: start from the preamble,
   * append the header and one line per message while walking the context
   * from its end, stop after five, then append the trailer.
   */
  method BuildPrompt(userMessage: string, context: seq<DatabaseMessage>, currentUser: string)
    returns (text: string)
    ensures text == PromptText(userMessage, context, currentUser)
  {
    text := Preamble(currentUser);
    if context != [] {
      text := text + Header;
      ContextWindowSpec(context);
      ghost var opening := text;
      ghost var window := ContextWindow(context);
      var i := 0;
      while i < |context| && i < MaxContextLines
        invariant 0 <= i <= |window|
        invariant text == opening + Lines(window[..i])
      {
        var msg := context[|context| - 1 - i];
        var line := if msg.isAi then "AI: " + msg.message + "\n" else msg.username + ": " + msg.message + "\n";
        assert window[i] == msg;
        PrefixStep(window, i);
        LinesAppend(window[..i], msg);
        Associative(opening, Lines(window[..i]), line);
        text := text + line;
        i := i + 1;
      }
      assert window[..i] == window;
      Associative(Preamble(currentUser), Header, Lines(window));
    }
    text := text + Trailer(currentUser, userMessage);
  }

  /** Sequence facts used by `BuildPrompt`, stated apart from the prompt's literals for the same reason. */
  lemma PrefixStep<T>(s: seq<T>, i: nat)
    requires i < |s|
    ensures s[..i + 1] == s[..i] + [s[i]]
  {
  }

  lemma Associative(a: string, b: string, c: string)
    ensures a + b + c == a + (b + c)
  {
  }
}
