/** ASCII case folding and plain substring search over `string` (a `seq<char>`). */
module Text {

  predicate IsUpper(c: char) { 'A' <= c <= 'Z' }

  /** ASCII lowercasing of one character; every other character is left alone. */
  function LowerChar(c: char): char
  {
    if IsUpper(c) then (c as int + 32) as char else c
  }

  /** ASCII lowercasing of a whole string, character by character. */
  function Lower(s: string): string
  {
    seq(|s|, i requires 0 <= i < |s| => LowerChar(s[i]))
  }

  lemma LowerCharFacts(c: char)
    ensures !IsUpper(LowerChar(c))
    ensures LowerChar(LowerChar(c)) == LowerChar(c)
    ensures LowerChar(c) == '?' <==> c == '?'
  {
  }

  /** Lowercasing twice is lowercasing once. */
  lemma LowerIdempotent(s: string)
    ensures Lower(Lower(s)) == Lower(s)
  {
    forall i | 0 <= i < |s| ensures Lower(Lower(s))[i] == Lower(s)[i] {
      LowerCharFacts(s[i]);
    }
  }

  /** A `?` survives lowercasing, and lowercasing creates no `?`. */
  lemma LowerKeepsQuestionMark(s: string)
    ensures '?' in Lower(s) <==> '?' in s
  {
    if '?' in s {
      var i :| 0 <= i < |s| && s[i] == '?';
      assert Lower(s)[i] == '?';
    }
    if '?' in Lower(s) {
      var i :| 0 <= i < |s| && Lower(s)[i] == '?';
      LowerCharFacts(s[i]);
    }
  }

  /** `t` occurs in `s` starting at position `i`. */
  predicate MatchAt(s: string, t: string, i: nat)
  {
    i + |t| <= |s| && s[i..i + |t|] == t
  }

  /** `t` occurs somewhere in `s` as a contiguous substring (Rust's `str::contains`). */
  predicate Contains(s: string, t: string)
  {
    exists i: nat | i <= |s| :: MatchAt(s, t, i)
  }

  /** An occurrence stays an occurrence when text is added on either side. */
  lemma ContainsWithin(p: string, s: string, q: string, t: string)
    requires Contains(s, t)
    ensures Contains(p + s + q, t)
  {
    var i: nat :| i <= |s| && MatchAt(s, t, i);
    assert (p + s + q)[|p| + i..|p| + i + |t|] == s[i..i + |t|];
    assert MatchAt(p + s + q, t, |p| + i);
  }

  /** `t` cannot occur in `s` if one of its characters never appears in `s`. */
  lemma AbsentCharacter(s: string, t: string, k: nat)
    requires k < |t| && t[k] !in s
    ensures !Contains(s, t)
  {
    forall i: nat ensures !MatchAt(s, t, i) {
      if i + |t| <= |s| {
        assert s[i..i + |t|][k] == s[i + k];
      }
    }
  }

  /** `t` cannot occur in `s` if its first two characters never appear side by side in `s`. */
  lemma AbsentBigram(s: string, t: string)
    requires |t| >= 2
    requires forall i :: 0 <= i < |s| - 1 ==> s[i] != t[0] || s[i + 1] != t[1]
    ensures !Contains(s, t)
  {
    forall i: nat ensures !MatchAt(s, t, i) {
      if i + |t| <= |s| {
        assert s[i..i + |t|][0] == s[i] && s[i..i + |t|][1] == s[i + 1];
      }
    }
  }

  /** `t` cannot occur in `s` if its first three characters never appear in a row in `s`. */
  lemma AbsentTrigram(s: string, t: string)
    requires |t| >= 3
    requires forall i :: 0 <= i < |s| - 2 ==> s[i] != t[0] || s[i + 1] != t[1] || s[i + 2] != t[2]
    ensures !Contains(s, t)
  {
    forall i: nat ensures !MatchAt(s, t, i) {
      if i + |t| <= |s| {
        var w := s[i..i + |t|];
        assert w[0] == s[i] && w[1] == s[i + 1] && w[2] == s[i + 2];
      }
    }
  }
}
