/** The auto-response heuristic: does an inbound human message get an AI reply? */
module Trigger {
  import opened Text

  /** The fixed trigger vocabulary, matched as plain substrings of the lowercased message. */
  const Triggers: seq<string> := [
    "ai", "bot", "assistant", "help", "hello", "hi", "hey",
    "what", "how", "why", "when", "where", "who", "can you",
    "please", "thanks", "thank you"
  ]

  /**
   * The message holds a `?` (looked up in the message as sent), or its
   * lowercased form holds one of the triggers anywhere, inside a word or not.
   */
  predicate ShouldAIRespond(message: string)
  {
    '?' in message || exists t | t in Triggers :: Contains(Lower(message), t)
  }

  /** `t` occurs in `m` at position `i` once each character of `m` is lowercased. */
  predicate MatchesIgnoringCase(m: string, t: string, i: nat)
  {
    i + |t| <= |m| && forall j :: 0 <= j < |t| ==> LowerChar(m[i + j]) == t[j]
  }

  lemma MatchAtLower(m: string, t: string, i: nat)
    ensures MatchAt(Lower(m), t, i) <==> MatchesIgnoringCase(m, t, i)
  {
    if i + |t| <= |m| {
      var w := Lower(m)[i..i + |t|];
      assert forall j :: 0 <= j < |t| ==> w[j] == LowerChar(m[i + j]);
      if MatchesIgnoringCase(m, t, i) {
        assert w == t;
      }
    }
  }

  /**
   * Reference reading of the heuristic, position by position on the message
   * itself: it responds exactly when the message holds a `?`, or some trigger
   * matches a run of its characters when their case is ignored.
   */
  lemma ShouldAIRespondIff(m: string)
    ensures ShouldAIRespond(m) <==>
      '?' in m || exists t, i: nat :: t in Triggers && MatchesIgnoringCase(m, t, i)
  {
    if exists t | t in Triggers :: Contains(Lower(m), t) {
      var t :| t in Triggers && Contains(Lower(m), t);
      var i: nat :| i <= |Lower(m)| && MatchAt(Lower(m), t, i);
      MatchAtLower(m, t, i);
    }
    if exists t, i: nat :: t in Triggers && MatchesIgnoringCase(m, t, i) {
      var t, i: nat :| t in Triggers && MatchesIgnoringCase(m, t, i);
      MatchAtLower(m, t, i);
      assert Contains(Lower(m), t);
    }
  }

  /** Lowercasing the message first changes nothing: the heuristic ignores case. */
  lemma ResponseIgnoresCase(m: string)
    ensures ShouldAIRespond(Lower(m)) == ShouldAIRespond(m)
  {
    LowerIdempotent(m);
    LowerKeepsQuestionMark(m);
  }

  /** Since matching is by substring, surrounding a triggering message with more text still triggers. */
  lemma ResponseSurvivesSurroundingText(p: string, m: string, q: string)
    requires ShouldAIRespond(m)
    ensures ShouldAIRespond(p + m + q)
  {
    assert Lower(p + m + q) == Lower(p) + Lower(m) + Lower(q);
    if '?' !in m {
      var t :| t in Triggers && Contains(Lower(m), t);
      ContainsWithin(Lower(p), Lower(m), Lower(q), t);
    }
  }

  /** A question mark triggers a reply ("Is this ok?"). */
  lemma QuestionExample()
    ensures ShouldAIRespond("Is this ok?")
  {
    assert "Is this ok?"[10] == '?';
  }

  /** "hi" inside "this" triggers a reply: matching is not by whole word. */
  lemma SubstringExample()
    ensures ShouldAIRespond("this is fine")
  {
    assert Lower("this is fine") == "this is fine";
    assert MatchAt("this is fine", "hi", 1);
    assert Contains(Lower("this is fine"), "hi");
  }

  const NoTriggerText := "no trigger words here at all"

  lemma NoTriggerLacksPairs()
    ensures !Contains(NoTriggerText, "ai") && !Contains(NoTriggerText, "assistant")
    ensures !Contains(NoTriggerText, "hi") && !Contains(NoTriggerText, "how")
    ensures !Contains(NoTriggerText, "what") && !Contains(NoTriggerText, "when")
    ensures !Contains(NoTriggerText, "where") && !Contains(NoTriggerText, "who")
  {
    AbsentBigram(NoTriggerText, "ai");
    AbsentBigram(NoTriggerText, "assistant");
    AbsentBigram(NoTriggerText, "hi");
    AbsentBigram(NoTriggerText, "how");
    AbsentBigram(NoTriggerText, "what");
    AbsentBigram(NoTriggerText, "when");
    AbsentBigram(NoTriggerText, "where");
    AbsentBigram(NoTriggerText, "who");
  }

  lemma NoTriggerLacksLettersB()
    ensures !Contains(NoTriggerText, "bot") && !Contains(NoTriggerText, "help")
    ensures !Contains(NoTriggerText, "hey") && !Contains(NoTriggerText, "why")
  {
    AbsentCharacter(NoTriggerText, "bot", 0);
    AbsentCharacter(NoTriggerText, "help", 3);
    AbsentCharacter(NoTriggerText, "hey", 2);
    AbsentCharacter(NoTriggerText, "why", 2);
  }

  lemma NoTriggerLacksLettersC()
    ensures !Contains(NoTriggerText, "can you") && !Contains(NoTriggerText, "please")
    ensures !Contains(NoTriggerText, "thanks") && !Contains(NoTriggerText, "thank you")
  {
    AbsentCharacter(NoTriggerText, "can you", 0);
    AbsentCharacter(NoTriggerText, "please", 0);
    AbsentCharacter(NoTriggerText, "thanks", 4);
    AbsentCharacter(NoTriggerText, "thank you", 4);
  }

  /** A message with no `?` and none of the triggers gets no reply. */
  lemma NoTriggerExample()
    ensures !ShouldAIRespond(NoTriggerText)
  {
    assert Lower(NoTriggerText) == NoTriggerText;
    NoTriggerLacksPairs();
    NoTriggerLacksLettersB();
    NoTriggerLacksLettersC();
    AbsentTrigram(NoTriggerText, "hello");
  }
}
