/** Sequence operations shared by the history query, the prompt builder and the router. */
module Seqs {

  function Min(a: int, b: int): int { if a <= b then a else b }

  /** The first `n` elements of `s`, or all of `s` when it is shorter (Rust's `take(n)`). */
  function Take<T>(s: seq<T>, n: nat): seq<T> { s[..Min(n, |s|)] }

  predicate IsPrefix<T(==)>(p: seq<T>, s: seq<T>) { |p| <= |s| && s[..|p|] == p }

  predicate IsSuffix<T(==)>(p: seq<T>, s: seq<T>) { |p| <= |s| && s[|s| - |p|..] == p }

  /** `s` back to front (Rust's `rev()` and `Vec::reverse`). */
  function Reversed<T>(s: seq<T>): seq<T>
  {
    if s == [] then [] else Reversed(s[1..]) + [s[0]]
  }

  lemma {:induction false} ReversedLength<T>(s: seq<T>)
    ensures |Reversed(s)| == |s|
  {
    if s != [] { ReversedLength(s[1..]); }
  }

  /** Position `k` of the reversal holds the element `k` places from the end. */
  lemma {:induction false} ReversedIndex<T>(s: seq<T>, k: nat)
    requires k < |s|
    ensures |Reversed(s)| == |s| && Reversed(s)[k] == s[|s| - 1 - k]
  {
    ReversedLength(s);
    if k < |s| - 1 {
      ReversedIndex(s[1..], k);
    }
  }

  lemma {:induction false} ReversedMultiset<T>(s: seq<T>)
    ensures multiset(Reversed(s)) == multiset(s)
  {
    if s != [] {
      ReversedMultiset(s[1..]);
      assert s == [s[0]] + s[1..];
    }
  }

  /** The elements of `s` that satisfy `p`, in their original order. */
  function Filter<T>(s: seq<T>, p: T -> bool): seq<T>
  {
    if s == [] then [] else (if p(s[0]) then [s[0]] else []) + Filter(s[1..], p)
  }

  /** Filtering keeps every copy of an accepted element and no copy of a rejected one. */
  lemma {:induction false} FilterMultiset<T>(s: seq<T>, p: T -> bool, x: T)
    ensures multiset(Filter(s, p))[x] == if p(x) then multiset(s)[x] else 0
  {
    if s != [] {
      FilterMultiset(s[1..], p, x);
      assert s == [s[0]] + s[1..];
    }
  }

  lemma {:induction false} FilterAppend<T>(a: seq<T>, b: seq<T>, p: T -> bool)
    ensures Filter(a + b, p) == Filter(a, p) + Filter(b, p)
  {
    if a == [] {
      assert a + b == b;
    } else {
      var ab := a + b;
      assert ab != [] && ab[0] == a[0] && ab[1..] == a[1..] + b;
      FilterAppend(a[1..], b, p);
      assert Filter(ab, p) == (if p(a[0]) then [a[0]] else []) + Filter(a[1..] + b, p);
      assert Filter(a, p) == (if p(a[0]) then [a[0]] else []) + Filter(a[1..], p);
    }
  }

  /** A filter that accepts every element keeps the whole sequence. */
  lemma {:induction false} FilterKeepsAll<T>(s: seq<T>, p: T -> bool)
    requires forall x :: x in s ==> p(x)
    ensures Filter(s, p) == s
  {
    if s != [] {
      assert forall x :: x in s[1..] ==> x in s;
      FilterKeepsAll(s[1..], p);
    }
  }

  lemma FilterAccepts<T>(s: seq<T>, p: T -> bool)
    ensures forall x :: x in Filter(s, p) ==> p(x) && x in s
  {
    forall x | x in Filter(s, p) ensures p(x) && x in s {
      FilterMultiset(s, p, x);
    }
  }

  ghost predicate StrictlyIncreasing(idx: seq<nat>)
  {
    forall i, j :: 0 <= i < j < |idx| ==> idx[i] < idx[j]
  }

  /** Every position moved one place to the right. */
  function Shift(idx: seq<nat>): (r: seq<nat>)
    ensures |r| == |idx| && forall k :: 0 <= k < |idx| ==> r[k] == idx[k] + 1
  {
    if idx == [] then [] else [idx[0] + 1] + Shift(idx[1..])
  }

  /** `f` is the subsequence of `s` at the strictly increasing positions `idx`. */
  ghost predicate Picks<T>(s: seq<T>, idx: seq<nat>, f: seq<T>)
  {
    |idx| == |f| && StrictlyIncreasing(idx) && forall k :: 0 <= k < |idx| ==> idx[k] < |s| && s[idx[k]] == f[k]
  }

  lemma PicksShift<T>(s: seq<T>, rest: seq<nat>, tail: seq<T>)
    requires |s| > 0 && Picks(s[1..], rest, tail)
    ensures Picks(s, Shift(rest), tail)
    ensures Picks(s, [0] + Shift(rest), [s[0]] + tail)
  {
    var shifted := Shift(rest);
    forall k | 0 <= k < |shifted| ensures shifted[k] < |s| && s[shifted[k]] == tail[k] {
      assert s[1..][rest[k]] == tail[k];
    }
  }

  /**
   * Filtering picks out a subsequence: there is a strictly increasing list of
   * positions of `s` that yields the result, and it lists every position whose
   * element `p` accepts.
   */
  lemma {:induction false} FilterIndices<T>(s: seq<T>, p: T -> bool) returns (idx: seq<nat>)
    ensures Picks(s, idx, Filter(s, p))
    ensures forall i :: 0 <= i < |s| && p(s[i]) ==> i in idx
  {
    if s == [] {
      idx := [];
    } else {
      var rest := FilterIndices(s[1..], p);
      var tail := Filter(s[1..], p);
      PicksShift(s, rest, tail);
      var shifted := Shift(rest);
      idx := if p(s[0]) then [0] + shifted else shifted;
      assert Filter(s, p) == if p(s[0]) then [s[0]] + tail else tail;
      forall i | 0 <= i < |s| && p(s[i]) ensures i in idx {
        if i > 0 {
          assert s[1..][i - 1] == s[i];
          var k :| 0 <= k < |rest| && rest[k] == i - 1;
          assert shifted[k] == i;
        }
      }
    }
  }
}
