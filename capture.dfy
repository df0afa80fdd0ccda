/**
 * Global replacement with a regular expression of the shape
 * `head([^c]+)tail`, where `head` and `tail` are literals and `tail` contains
 * `c`: the capture runs up to the first `c` after the head, less the part of
 * the tail before that `c`.  The greedy class cannot match any other way, so
 * the match at a position, when there is one, is unique.
 */
module Capture {

  import opened Text
  import opened Wrappers

  /** The pattern `head([^stop]+)tail`. */
  datatype Pattern = Pattern(head: string, stop: char, tail: string)

  predicate ValidPattern(pat: Pattern)
  {
    pat.stop in pat.tail
  }

  /** A text the class `[^stop]+` matches. */
  predicate IsCapture(x: string, stop: char)
  {
    x != [] && stop !in x
  }

  /** The capture when `pat` matches at the start of `s`. */
  function MatchAt(s: string, pat: Pattern): (r: Option<string>)
    requires ValidPattern(pat)
    ensures r.Some? ==> IsCapture(r.value, pat.stop) && MatchLength(pat, r.value) <= |s|
  {
    if !StartsWith(s, pat.head) then None
    else
      var rest := s[|pat.head|..];
      var q := CharIndex(rest, pat.stop);
      var k := CharIndex(pat.tail, pat.stop);
      if k < q && StartsWith(rest[q - k..], pat.tail) then
        BeforeFirstStop(rest, pat.stop, q - k);
        Some(rest[..q - k])
      else None
  }

  /** What `MatchAt` finds is a match: the head, the capture and the tail in a row. */
  lemma MatchAtSound(s: string, pat: Pattern)
    requires ValidPattern(pat)
    ensures MatchAt(s, pat).Some? ==> StartsWith(s, pat.head + MatchAt(s, pat).value + pat.tail)
  {
    if MatchAt(s, pat).Some? {
      var rest := s[|pat.head|..];
      var q := CharIndex(rest, pat.stop);
      var k := CharIndex(pat.tail, pat.stop);
      StartsWithSplice(s, pat.head, rest, q - k, pat.tail);
    }
  }

  /** A prefix that stops short of the first `stop` has no `stop` in it. */
  lemma BeforeFirstStop(rest: string, stop: char, n: nat)
    requires n <= CharIndex(rest, stop)
    ensures stop !in rest[..n]
  {
    assert forall i :: 0 <= i < n ==> rest[..n][i] == rest[i];
  }

  /** A text starting with `head`, then `n` more characters, then `tail`, starts with their concatenation. */
  lemma StartsWithSplice(s: string, head: string, rest: string, n: nat, tail: string)
    requires StartsWith(s, head) && rest == s[|head|..]
    requires n <= |rest| && StartsWith(rest[n..], tail)
    ensures StartsWith(s, head + rest[..n] + tail)
  {
    assert s == head + rest;
    assert rest == rest[..n] + rest[n..];
    assert rest[n..][..|tail|] == tail;
  }

  /** Starting with `a + b` is starting with `a` and then with `b`. */
  lemma StartsWithConcat(s: string, a: string, b: string)
    requires StartsWith(s, a + b)
    ensures StartsWith(s, a) && StartsWith(s[|a|..], b)
  {
    assert s[..|a|] == (a + b)[..|a|] == a;
    assert s[|a|..][..|b|] == (a + b)[|a|..] == b;
  }

  /** In a text starting with `x + tail`, where `x` has no `stop`, the first `stop` is the tail's first one. */
  lemma FirstStopInTail(rest: string, x: string, tail: string, stop: char)
    requires StartsWith(rest, x + tail) && stop !in x && stop in tail
    ensures CharIndex(rest, stop) == |x| + CharIndex(tail, stop)
  {
    var k := CharIndex(tail, stop);
    var m := x + tail;
    assert rest[..|m|] == m;
    assert forall i :: 0 <= i < |m| ==> rest[i] == m[i] by {
      forall i | 0 <= i < |m|
        ensures rest[i] == m[i]
      {
        assert rest[..|m|][i] == rest[i];
      }
    }
    assert forall i :: 0 <= i < |x| + k ==> rest[i] != stop by {
      forall i | 0 <= i < |x| + k
        ensures rest[i] != stop
      {
        if i >= |x| {
          assert m[i] == tail[i - |x|];
        } else {
          assert m[i] == x[i];
        }
      }
    }
    assert m[|x| + k] == tail[k];
    CharIndexAt(rest, stop, |x| + k);
  }

  /** Whenever `pat` matches at the start of `s`, it is with the capture `MatchAt` finds. */
  lemma MatchAtComplete(s: string, pat: Pattern, x: string)
    requires ValidPattern(pat)
    requires IsCapture(x, pat.stop) && StartsWith(s, pat.head + x + pat.tail)
    ensures MatchAt(s, pat) == Some(x)
  {
    assert pat.head + x + pat.tail == pat.head + (x + pat.tail);
    StartsWithConcat(s, pat.head, x + pat.tail);
    var rest := s[|pat.head|..];
    FirstStopInTail(rest, x, pat.tail, pat.stop);
    StartsWithConcat(rest, x, pat.tail);
    assert rest[..|x|] == x;
  }

  /** The length of a match with capture `x`. */
  function MatchLength(pat: Pattern, x: string): nat
  {
    |pat.head| + |x| + |pat.tail|
  }

  /** `s.replace(/pat/g, pre + '$1' + post)`. */
  function ReplaceMatches(s: string, pat: Pattern, pre: string, post: string): string
    requires ValidPattern(pat)
    decreases |s|
  {
    if s == [] then []
    else
      match MatchAt(s, pat)
      case Some(x) => pre + x + post + ReplaceMatches(s[MatchLength(pat, x)..], pat, pre, post)
      case None => [s[0]] + ReplaceMatches(s[1..], pat, pre, post)
  }

  /** The number of matches the scan replaces. */
  function MatchCount(s: string, pat: Pattern): nat
    requires ValidPattern(pat)
    decreases |s|
  {
    if s == [] then 0
    else
      match MatchAt(s, pat)
      case Some(x) => 1 + MatchCount(s[MatchLength(pat, x)..], pat)
      case None => MatchCount(s[1..], pat)
  }

  /** Each replaced match changes the length by the same amount. */
  lemma {:induction false} ReplaceMatchesLength(s: string, pat: Pattern, pre: string, post: string)
    requires ValidPattern(pat)
    ensures |ReplaceMatches(s, pat, pre, post)| == |s| + MatchCount(s, pat) * ((|pre| + |post|) - (|pat.head| + |pat.tail|))
    decreases |s|
  {
    if s != [] {
      match MatchAt(s, pat)
      case Some(x) =>
        var rest := s[MatchLength(pat, x)..];
        ReplaceMatchesLength(rest, pat, pre, post);
        MulSucc(MatchCount(rest, pat), (|pre| + |post|) - (|pat.head| + |pat.tail|));
      case None =>
        ReplaceMatchesLength(s[1..], pat, pre, post);
    }
  }

  /** The pattern matches at `k` in `s`. */
  predicate MatchesAt(s: string, pat: Pattern, k: nat)
    requires ValidPattern(pat)
  {
    k <= |s| && MatchAt(s[k..], pat).Some?
  }

  /** The scan replaces something exactly when the pattern matches somewhere. */
  lemma {:induction false} MatchCountPositive(s: string, pat: Pattern)
    requires ValidPattern(pat)
    ensures MatchCount(s, pat) > 0 <==> exists k: nat :: MatchesAt(s, pat, k)
    decreases |s|
  {
    if s == [] {
    } else if MatchAt(s, pat).Some? {
      assert s[0..] == s;
      assert MatchesAt(s, pat, 0);
    } else {
      MatchCountPositive(s[1..], pat);
      if exists k: nat :: MatchesAt(s, pat, k) {
        var k: nat :| MatchesAt(s, pat, k);
        assert k != 0 by {
          assert s[0..] == s;
        }
        assert s[1..][k - 1..] == s[k..];
        assert MatchesAt(s[1..], pat, k - 1);
      }
      if exists k: nat :: MatchesAt(s[1..], pat, k) {
        var k: nat :| MatchesAt(s[1..], pat, k);
        assert s[1..][k..] == s[k + 1..];
        assert MatchesAt(s, pat, k + 1);
      }
    }
  }

  /** Without the head anywhere, nothing is replaced. */
  lemma {:induction false} ReplaceMatchesUnchanged(s: string, pat: Pattern, pre: string, post: string)
    requires ValidPattern(pat) && !Contains(s, pat.head)
    ensures ReplaceMatches(s, pat, pre, post) == s
    ensures MatchCount(s, pat) == 0
    decreases |s|
  {
    if s != [] {
      assert !StartsWith(s, pat.head);
      ReplaceMatchesUnchanged(s[1..], pat, pre, post);
    }
  }

  /** Without any match the scan returns its input. */
  lemma {:induction false} ReplaceMatchesNoMatch(s: string, pat: Pattern, pre: string, post: string)
    requires ValidPattern(pat) && MatchCount(s, pat) == 0
    ensures ReplaceMatches(s, pat, pre, post) == s
    decreases |s|
  {
    if s != [] {
      ReplaceMatchesNoMatch(s[1..], pat, pre, post);
    }
  }

  /** A match at the start is replaced and the scan resumes right after it. */
  lemma ReplaceLeadingMatch(pat: Pattern, x: string, rest: string, pre: string, post: string)
    requires ValidPattern(pat) && IsCapture(x, pat.stop)
    ensures ReplaceMatches(pat.head + x + pat.tail + rest, pat, pre, post)
            == pre + x + post + ReplaceMatches(rest, pat, pre, post)
  {
    var s := pat.head + x + pat.tail + rest;
    assert s[..|pat.head + x + pat.tail|] == pat.head + x + pat.tail;
    MatchAtComplete(s, pat, x);
    assert s[MatchLength(pat, x)..] == rest;
  }

  /** A text that is exactly one match becomes exactly its replacement. */
  lemma ReplaceOneMatch(pat: Pattern, x: string, pre: string, post: string)
    requires ValidPattern(pat) && IsCapture(x, pat.stop)
    ensures ReplaceMatches(pat.head + x + pat.tail, pat, pre, post) == pre + x + post
  {
    var s := pat.head + x + pat.tail;
    assert s[..|s|] == s;
    MatchAtComplete(s, pat, x);
    assert s[MatchLength(pat, x)..] == [];
  }
}
