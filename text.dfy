/**
 * The JavaScript string primitives the extensions are built from: the `\s`,
 * `.` and `\w` classes of its regular expressions, `includes`, global
 * replacement of a literal, `split` and `join`, `trim`, `toLowerCase` and the
 * decimal rendering of a number.  Strings are sequences of Unicode scalar
 * values (Dafny's `char`).
 */
module Text {

  import opened Wrappers

  /** The `\s` class of a JavaScript regular expression (white space and line terminators); `trim` strips the same set. */
  predicate IsSpace(c: char)
  {
    var n := c as int;
    (0x09 <= n <= 0x0D) || n == 0x20 || n == 0xA0 || n == 0x1680 || (0x2000 <= n <= 0x200A)
    || n == 0x2028 || n == 0x2029 || n == 0x202F || n == 0x205F || n == 0x3000 || n == 0xFEFF
  }

  /** The characters the `.` class does not match. */
  predicate IsLineTerminator(c: char)
  {
    c == '\n' || c == '\r' || c as int == 0x2028 || c as int == 0x2029
  }

  /** The `\w` class. */
  predicate IsWordChar(c: char)
  {
    'a' <= c <= 'z' || 'A' <= c <= 'Z' || '0' <= c <= '9' || c == '_'
  }

  predicate StartsWith(s: string, p: string)
  {
    |p| <= |s| && s[..|p|] == p
  }

  /** A string cannot start with a pattern whose first character it does not have. */
  lemma FirstCharMismatch(s: string, p: string)
    requires s != [] && p != [] && s[0] != p[0]
    ensures !StartsWith(s, p)
  {
    assert |p| <= |s| ==> s[..|p|][0] == s[0];
  }

  /** `s.endsWith(p)`. */
  predicate EndsWith(s: string, p: string)
  {
    |p| <= |s| && s[|s| - |p|..] == p
  }

  /** `s.includes(p)`: `p` occurs somewhere in `s`. */
  predicate Contains(s: string, p: string)
    decreases |s|
  {
    StartsWith(s, p) || (s != [] && Contains(s[1..], p))
  }

  /** An occurrence at a known index makes `Contains` true. */
  lemma {:induction false} ContainsAt(s: string, p: string, i: nat)
    requires i + |p| <= |s| && s[i..i + |p|] == p
    ensures Contains(s, p)
    decreases i
  {
    if i > 0 {
      assert s[1..][i - 1..i - 1 + |p|] == s[i..i + |p|];
      ContainsAt(s[1..], p, i - 1);
    }
  }

  /** A suffix starting with the pattern makes `Contains` true. */
  lemma StartsWithAt(s: string, p: string, i: nat)
    requires i <= |s| && StartsWith(s[i..], p)
    ensures Contains(s, p)
  {
    assert s[i..i + |p|] == s[i..][..|p|];
    ContainsAt(s, p, i);
  }

  /** An occurrence found by `Contains` sits at some index. */
  lemma {:induction false} ContainsIndex(s: string, p: string) returns (i: nat)
    requires Contains(s, p)
    ensures i + |p| <= |s| && s[i..i + |p|] == p
    decreases |s|
  {
    if StartsWith(s, p) {
      i := 0;
    } else {
      var j := ContainsIndex(s[1..], p);
      i := j + 1;
      assert s[1..][j..j + |p|] == s[i..i + |p|];
    }
  }

  /** One occurrence inside either part of a concatenation is an occurrence in the whole. */
  lemma ContainsInConcat(a: string, b: string, p: string)
    ensures Contains(a, p) ==> Contains(a + b, p)
    ensures Contains(b, p) ==> Contains(a + b, p)
  {
    if Contains(a, p) {
      var i := ContainsIndex(a, p);
      assert (a + b)[i..i + |p|] == a[i..i + |p|];
      ContainsAt(a + b, p, i);
    }
    if Contains(b, p) {
      var i := ContainsIndex(b, p);
      assert (a + b)[|a| + i..|a| + i + |p|] == b[i..i + |p|];
      ContainsAt(a + b, p, |a| + i);
    }
  }

  /** `p` occurs in `s` at index `k`. */
  predicate OccursAt(s: string, p: string, k: nat)
  {
    k + |p| <= |s| && s[k..k + |p|] == p
  }

  /** `s.indexOf(p)`: the first index where `p` occurs. */
  function IndexOf(s: string, p: string): (r: Option<nat>)
    requires p != []
    ensures r.Some? ==> OccursAt(s, p, r.value)
    ensures r.Some? ==> forall k :: 0 <= k < r.value ==> !OccursAt(s, p, k)
    ensures r.None? ==> forall k :: 0 <= k <= |s| ==> !OccursAt(s, p, k)
  {
    IndexFrom(s, p, 0)
  }

  /** The first index at or after `i` where `p` occurs. */
  function IndexFrom(s: string, p: string, i: nat): (r: Option<nat>)
    requires p != [] && i <= |s|
    ensures r.Some? ==> i <= r.value && OccursAt(s, p, r.value)
    ensures r.Some? ==> forall k :: i <= k < r.value ==> !OccursAt(s, p, k)
    ensures r.None? ==> forall k :: i <= k <= |s| ==> !OccursAt(s, p, k)
    decreases |s| - i
  {
    if OccursAt(s, p, i) then Some(i)
    else if i == |s| then None
    else IndexFrom(s, p, i + 1)
  }

  /** `s.lastIndexOf(p)`: the last index where `p` occurs. */
  function LastIndexOf(s: string, p: string): (r: Option<nat>)
    requires p != []
    ensures r.Some? ==> OccursAt(s, p, r.value)
    ensures r.Some? ==> forall k :: r.value < k <= |s| ==> !OccursAt(s, p, k)
    ensures r.None? ==> forall k :: 0 <= k <= |s| ==> !OccursAt(s, p, k)
  {
    LastIndexUpTo(s, p, |s|)
  }

  /** The last index at or before `j` where `p` occurs. */
  function LastIndexUpTo(s: string, p: string, j: nat): (r: Option<nat>)
    requires p != [] && j <= |s|
    ensures r.Some? ==> r.value <= j && OccursAt(s, p, r.value)
    ensures r.Some? ==> forall k :: r.value < k <= j ==> !OccursAt(s, p, k)
    ensures r.None? ==> forall k :: 0 <= k <= j ==> !OccursAt(s, p, k)
    decreases j
  {
    if OccursAt(s, p, j) then Some(j)
    else if j == 0 then None
    else LastIndexUpTo(s, p, j - 1)
  }

  // ---------------------------------------------------------------------------
  // Global replacement of a literal pattern

  /**
   * `s.replace(/pat/g, rep)` for a pattern without metacharacters: the string
   * is scanned from the left and each occurrence found is replaced, the scan
   * resuming after it, so replaced occurrences never overlap.
   */
  function ReplaceAll(s: string, pat: string, rep: string): string
    requires pat != []
    decreases |s|
  {
    if s == [] then []
    else if StartsWith(s, pat) then rep + ReplaceAll(s[|pat|..], pat, rep)
    else [s[0]] + ReplaceAll(s[1..], pat, rep)
  }

  /** The number of occurrences `ReplaceAll` replaces. */
  function Occurrences(s: string, pat: string): nat
    requires pat != []
    decreases |s|
  {
    if s == [] then 0
    else if StartsWith(s, pat) then 1 + Occurrences(s[|pat|..], pat)
    else Occurrences(s[1..], pat)
  }

  lemma MulSucc(k: nat, d: int)
    ensures (k + 1) * d == k * d + d
  {
  }

  /** Each replacement changes the length by `|rep| - |pat|`. */
  lemma {:induction false} ReplaceAllLength(s: string, pat: string, rep: string)
    requires pat != []
    ensures |ReplaceAll(s, pat, rep)| == |s| + Occurrences(s, pat) * (|rep| - |pat|)
    decreases |s|
  {
    if s == [] {
    } else if StartsWith(s, pat) {
      var rest := s[|pat|..];
      ReplaceAllLength(rest, pat, rep);
      var k, d := Occurrences(rest, pat), |rep| - |pat|;
      assert ReplaceAll(s, pat, rep) == rep + ReplaceAll(rest, pat, rep);
      assert Occurrences(s, pat) == k + 1;
      assert |ReplaceAll(rest, pat, rep)| == |rest| + k * d;
      MulSucc(k, d);
    } else {
      ReplaceAllLength(s[1..], pat, rep);
    }
  }

  /** The scan replaces something exactly when the pattern occurs at all. */
  lemma {:induction false} OccurrencesIffContains(s: string, pat: string)
    requires pat != []
    ensures Occurrences(s, pat) > 0 <==> Contains(s, pat)
    decreases |s|
  {
    if s != [] && !StartsWith(s, pat) {
      OccurrencesIffContains(s[1..], pat);
    }
  }

  /** Without an occurrence the replacement returns its input. */
  lemma {:induction false} ReplaceAllUnchanged(s: string, pat: string, rep: string)
    requires pat != [] && !Contains(s, pat)
    ensures ReplaceAll(s, pat, rep) == s
    decreases |s|
  {
    if s != [] {
      ReplaceAllUnchanged(s[1..], pat, rep);
    }
  }

  /** Replacing a character that does not occur leaves the string as it is. */
  lemma {:induction false} ReplaceAbsentChar(s: string, c: char, rep: string)
    requires c !in s
    ensures ReplaceAll(s, [c], rep) == s
    decreases |s|
  {
    if s != [] {
      assert s[0] != c;
      ReplaceAbsentChar(s[1..], c, rep);
    }
  }

  /** Replacing a single character distributes over concatenation. */
  lemma {:induction false} ReplaceCharConcat(a: string, b: string, c: char, rep: string)
    ensures ReplaceAll(a + b, [c], rep) == ReplaceAll(a, [c], rep) + ReplaceAll(b, [c], rep)
    decreases |a|
  {
    if a == [] {
      assert a + b == b;
    } else {
      assert (a + b)[1..] == a[1..] + b;
      ReplaceCharConcat(a[1..], b, c, rep);
    }
  }

  /**
   * If the replacement text begins with a character absent from the rest of the
   * pattern, a prefix of the output made of characters not in that position
   * comes from the input unchanged.
   */
  lemma {:induction false} ReplaceAllKeepsPrefix(s: string, pat: string, rep: string, u: string)
    requires pat != [] && rep != [] && rep[0] !in u
    requires StartsWith(ReplaceAll(s, pat, rep), u)
    ensures StartsWith(s, u)
    decreases |s|
  {
    if u != [] {
      var out := ReplaceAll(s, pat, rep);
      assert out[..|u|][0] == out[0];
      if !StartsWith(s, pat) {
        var tail := ReplaceAll(s[1..], pat, rep);
        assert out == [s[0]] + tail;
        assert tail[..|u| - 1] == out[..|u|][1..];
        ReplaceAllKeepsPrefix(s[1..], pat, rep, u[1..]);
        assert s[..|u|] == [s[0]] + s[1..][..|u| - 1];
      }
    }
  }

  /** A string starts with a pattern when its first character and the rest match. */
  lemma StartsWithCons(s: string, p: string)
    requires s != [] && p != []
    ensures StartsWith(s, p) <==> s[0] == p[0] && StartsWith(s[1..], p[1..])
  {
    if |p| <= |s| {
      assert s[..|p|] == [s[0]] + s[1..][..|p| - 1];
      assert p == [p[0]] + p[1..];
    }
  }

  /** The conditions under which no occurrence of `pat` survives or arises in the output of `ReplaceAll`. */
  predicate ReplacementIsClean(pat: string, rep: string)
  {
    0 < |pat| <= |rep|
    && pat[|pat| - 1] !in rep
    && (forall k :: 1 <= k < |rep| ==> rep[k] != pat[0])
    && rep[0] !in pat[1..]
  }

  /** No occurrence of `pat` starts inside a replacement text. */
  lemma {:induction false} NoOccurrenceFromReplacement(rep: string, t: string, pat: string, k: nat)
    requires ReplacementIsClean(pat, rep) && k <= |rep| && !Contains(t, pat)
    ensures !Contains(rep[k..] + t, pat)
    decreases |rep| - k
  {
    if k == |rep| {
      assert rep[k..] + t == t;
    } else {
      var x := rep[k..] + t;
      if k == 0 {
        assert x[..|pat|] == rep[..|pat|];
        assert rep[|pat| - 1] == pat[|pat| - 1] ==> !StartsWith(x, pat);
      } else {
        FirstCharMismatch(x, pat);
      }
      assert x[1..] == rep[k + 1..] + t;
      NoOccurrenceFromReplacement(rep, t, pat, k + 1);
    }
  }

  /** After a clean replacement the pattern no longer occurs. */
  lemma {:induction false} ReplaceAllRemoves(s: string, pat: string, rep: string)
    requires ReplacementIsClean(pat, rep)
    ensures !Contains(ReplaceAll(s, pat, rep), pat)
    decreases |s|
  {
    if s == [] {
    } else if StartsWith(s, pat) {
      ReplaceAllRemoves(s[|pat|..], pat, rep);
      NoOccurrenceFromReplacement(rep, ReplaceAll(s[|pat|..], pat, rep), pat, 0);
      assert rep[0..] == rep;
    } else {
      var tail := ReplaceAll(s[1..], pat, rep);
      var out := [s[0]] + tail;
      ReplaceAllRemoves(s[1..], pat, rep);
      assert out[1..] == tail;
      StartsWithCons(s, pat);
      StartsWithCons(out, pat);
      if StartsWith(tail, pat[1..]) {
        ReplaceAllKeepsPrefix(s[1..], pat, rep, pat[1..]);
      }
    }
  }

  // ---------------------------------------------------------------------------
  // split and join

  /** `s.split(d)` for a one-character separator. */
  function Split(s: string, d: char): (r: seq<string>)
    ensures |r| >= 1
    ensures forall i :: 0 <= i < |r| ==> d !in r[i]
    decreases |s|
  {
    if s == [] then [[]]
    else
      var t := Split(s[1..], d);
      if s[0] == d then [[]] + t else [[s[0]] + t[0]] + t[1..]
  }

  /** A split has one piece more than the string has separators. */
  lemma {:induction false} SplitCount(s: string, d: char)
    ensures |Split(s, d)| == multiset(s)[d] + 1
    decreases |s|
  {
    if s != [] {
      SplitCount(s[1..], d);
      assert s == [s[0]] + s[1..];
    }
  }

  /** `ls.join(sep)`. */
  function Join(ls: seq<string>, sep: string): string
    decreases |ls|
  {
    if ls == [] then []
    else if |ls| == 1 then ls[0]
    else ls[0] + sep + Join(ls[1..], sep)
  }

  /** Concatenation of a sequence of line lists. */
  function Flatten(ss: seq<seq<string>>): seq<string>
    decreases |ss|
  {
    if ss == [] then [] else ss[0] + Flatten(ss[1..])
  }

  /** Joining a list with one more element in front. */
  lemma JoinCons(x: string, ls: seq<string>, sep: string)
    requires ls != []
    ensures Join([x] + ls, sep) == x + sep + Join(ls, sep)
  {
    assert ([x] + ls)[1..] == ls;
  }

  /** Prepending a character to the first element prepends it to the join. */
  lemma JoinExtendHead(c: char, ls: seq<string>, sep: string)
    requires ls != []
    ensures Join([[c] + ls[0]] + ls[1..], sep) == [c] + Join(ls, sep)
  {
    if |ls| > 1 {
      JoinCons([c] + ls[0], ls[1..], sep);
    }
  }

  /** Joining the pieces of a split with the separator restores the string. */
  lemma {:induction false} JoinSplit(s: string, d: char)
    ensures Join(Split(s, d), [d]) == s
    decreases |s|
  {
    if s != [] {
      var t := Split(s[1..], d);
      JoinSplit(s[1..], d);
      if s[0] == d {
        JoinCons([], t, [d]);
      } else {
        JoinExtendHead(s[0], t, [d]);
      }
      assert s == [s[0]] + s[1..];
    }
  }

  /** A string without the separator splits into itself alone. */
  lemma {:induction false} SplitWithoutSeparator(s: string, d: char)
    requires d !in s
    ensures Split(s, d) == [s]
    decreases |s|
  {
    if s != [] {
      SplitWithoutSeparator(s[1..], d);
      assert s == [s[0]] + s[1..];
    }
  }

  /** Splitting at a separator splits each side on its own. */
  lemma {:induction false} SplitConcat(x: string, y: string, d: char)
    ensures Split(x + [d] + y, d) == Split(x, d) + Split(y, d)
    decreases |x|
  {
    if x == [] {
      assert x + [d] + y == [d] + y;
      assert ([d] + y)[1..] == y;
    } else {
      assert (x + [d] + y)[1..] == x[1..] + [d] + y;
      SplitConcat(x[1..], y, d);
    }
  }

  /** A first line without the separator comes off as the first part. */
  lemma SplitAfterLine(h: string, body: string, d: char)
    requires d !in h
    ensures Split(h + [d] + body, d) == [h] + Split(body, d)
  {
    SplitConcat(h, body, d);
    SplitWithoutSeparator(h, d);
  }

  /** Two lines without the separator, joined by it, split back into those two lines. */
  lemma SplitTwoLines(h: string, body: string, d: char)
    requires d !in h && d !in body
    ensures Split(h + [d] + body, d) == [h, body]
  {
    SplitAfterLine(h, body, d);
    SplitWithoutSeparator(body, d);
  }

  /** Joining two non-empty lists is joining their joins. */
  lemma {:induction false} JoinAppend(a: seq<string>, b: seq<string>, sep: string)
    requires a != [] && b != []
    ensures Join(a + b, sep) == Join(a, sep) + sep + Join(b, sep)
    decreases |a|
  {
    if |a| == 1 {
      assert (a + b)[1..] == b;
    } else {
      assert (a + b)[1..] == a[1..] + b;
      JoinAppend(a[1..], b, sep);
    }
  }

  /** Joining a concatenation of non-empty groups is joining the groups' joins. */
  lemma {:induction false} JoinFlatten(groups: seq<seq<string>>, sep: string)
    requires groups != []
    requires forall i :: 0 <= i < |groups| ==> groups[i] != []
    ensures Flatten(groups) != []
    ensures Join(Flatten(groups), sep)
            == Join(seq(|groups|, i requires 0 <= i < |groups| => Join(groups[i], sep)), sep)
    decreases |groups|
  {
    var joined := seq(|groups|, i requires 0 <= i < |groups| => Join(groups[i], sep));
    if |groups| == 1 {
      assert groups[1..] == [];
      assert Flatten(groups[1..]) == [];
      assert Flatten(groups) == groups[0];
      assert |joined| == 1 && joined[0] == Join(groups[0], sep);
      assert Join(joined, sep) == Join(groups[0], sep);
    } else {
      var rest := groups[1..];
      JoinFlatten(rest, sep);
      assert Flatten(groups) == groups[0] + Flatten(rest);
      JoinAppend(groups[0], Flatten(rest), sep);
      assert joined[1..] == seq(|rest|, i requires 0 <= i < |rest| => Join(rest[i], sep));
    }
  }

  /** Splitting a join splits every part. */
  lemma {:induction false} SplitJoinFlatten(ls: seq<string>, d: char)
    requires ls != []
    ensures Split(Join(ls, [d]), d) == Flatten(seq(|ls|, i requires 0 <= i < |ls| => Split(ls[i], d)))
    decreases |ls|
  {
    var parts := seq(|ls|, i requires 0 <= i < |ls| => Split(ls[i], d));
    if |ls| == 1 {
      assert Flatten(parts) == parts[0] + Flatten([]);
    } else {
      SplitConcat(ls[0], Join(ls[1..], [d]), d);
      SplitJoinFlatten(ls[1..], d);
      assert parts[1..] == seq(|ls[1..]|, i requires 0 <= i < |ls[1..]| => Split(ls[1..][i], d));
    }
  }

  /** Splitting a join of separator-free parts gives the parts back. */
  lemma {:induction false} SplitJoin(ls: seq<string>, d: char)
    requires ls != []
    requires forall i :: 0 <= i < |ls| ==> d !in ls[i]
    ensures Split(Join(ls, [d]), d) == ls
    decreases |ls|
  {
    if |ls| == 1 {
      SplitWithoutSeparator(ls[0], d);
    } else {
      SplitConcat(ls[0], Join(ls[1..], [d]), d);
      SplitWithoutSeparator(ls[0], d);
      SplitJoin(ls[1..], d);
    }
  }

  // ---------------------------------------------------------------------------
  // trim and whitespace runs

  /** `s.trimStart()`: the suffix left after the leading `\s` characters. */
  function TrimStart(s: string): (r: string)
    ensures |r| <= |s|
    ensures r == [] || !IsSpace(r[0])
    decreases |s|
  {
    if s != [] && IsSpace(s[0]) then TrimStart(s[1..]) else s
  }

  /** What `trimStart` leaves is a suffix of its input. */
  lemma {:induction false} TrimStartIsSuffix(s: string)
    ensures TrimStart(s) == s[|s| - |TrimStart(s)|..]
    decreases |s|
  {
    if s != [] && IsSpace(s[0]) {
      TrimStartIsSuffix(s[1..]);
    }
  }

  /** Everything `trimStart` removes is `\s`. */
  lemma {:induction false} TrimStartStripsSpace(s: string)
    ensures forall i :: 0 <= i < |s| - |TrimStart(s)| ==> IsSpace(s[i])
    decreases |s|
  {
    if s != [] && IsSpace(s[0]) {
      TrimStartStripsSpace(s[1..]);
      assert forall i :: 1 <= i < |s| ==> s[i] == s[1..][i - 1];
    }
  }

  /** `s.trimEnd()`: the prefix left before the trailing `\s` characters. */
  function TrimEnd(s: string): (r: string)
    ensures |r| <= |s|
    ensures r == s[..|r|]
    ensures r == [] || !IsSpace(r[|r| - 1])
    decreases |s|
  {
    if s != [] && IsSpace(s[|s| - 1]) then TrimEnd(s[..|s| - 1]) else s
  }

  /** Everything `trimEnd` removes is `\s`. */
  lemma {:induction false} TrimEndStripsSpace(s: string)
    ensures forall i :: |TrimEnd(s)| <= i < |s| ==> IsSpace(s[i])
    decreases |s|
  {
    if s != [] && IsSpace(s[|s| - 1]) {
      TrimEndStripsSpace(s[..|s| - 1]);
      assert forall i :: 0 <= i < |s| - 1 ==> s[i] == s[..|s| - 1][i];
    }
  }

  /** `s.trim()`. */
  function Trim(s: string): string
  {
    TrimEnd(TrimStart(s))
  }

  /** A prefix of a suffix is a slice. */
  lemma PrefixOfSuffix(s: string, k: nat, t: string, r: string)
    requires k <= |s| && t == s[k..] && |r| <= |t| && r == t[..|r|]
    ensures k + |r| <= |s| && r == s[k..k + |r|]
  {
  }

  /** The trimmed string is a slice of the input. */
  lemma TrimSlice(s: string)
    ensures var k := |s| - |TrimStart(s)|; k + |Trim(s)| <= |s| && Trim(s) == s[k..k + |Trim(s)|]
  {
    var t := TrimStart(s);
    TrimStartIsSuffix(s);
    PrefixOfSuffix(s, |s| - |t|, t, TrimEnd(t));
  }

  /** The trimmed string has no `\s` at either end. */
  lemma TrimEnds(s: string)
    ensures Trim(s) == [] || (!IsSpace(Trim(s)[0]) && !IsSpace(Trim(s)[|Trim(s)| - 1]))
  {
    var t := TrimStart(s);
    var r := TrimEnd(t);
    if r != [] {
      assert r == t[..|r|];
      assert r[0] == t[0];
    }
  }

  /** A string without `\s` at either end is its own trim. */
  lemma TrimmedIsFixed(t: string)
    requires t == [] || (!IsSpace(t[0]) && !IsSpace(t[|t| - 1]))
    ensures Trim(t) == t
  {
  }

  /** Trimming twice is trimming once. */
  lemma TrimIdempotent(s: string)
    ensures Trim(Trim(s)) == Trim(s)
  {
    TrimEnds(s);
    TrimmedIsFixed(Trim(s));
  }

  /** The characters outside `\s`, in order. */
  function NonSpace(s: string): string
    decreases |s|
  {
    if s == [] then [] else (if IsSpace(s[0]) then [] else [s[0]]) + NonSpace(s[1..])
  }

  lemma {:induction false} NonSpaceConcat(a: string, b: string)
    ensures NonSpace(a + b) == NonSpace(a) + NonSpace(b)
    decreases |a|
  {
    if a == [] {
      assert a + b == b;
    } else {
      assert (a + b)[1..] == a[1..] + b;
      NonSpaceConcat(a[1..], b);
    }
  }

  /** A string made of `\s` characters only has no non-space characters. */
  lemma {:induction false} NonSpaceOfSpaces(s: string)
    requires forall i :: 0 <= i < |s| ==> IsSpace(s[i])
    ensures NonSpace(s) == []
    decreases |s|
  {
    if s != [] {
      NonSpaceOfSpaces(s[1..]);
    }
  }

  /** Leading and trailing runs of `\s` characters do not count. */
  lemma SpacesAroundDropped(a: string, m: string, b: string)
    requires forall i :: 0 <= i < |a| ==> IsSpace(a[i])
    requires forall i :: 0 <= i < |b| ==> IsSpace(b[i])
    ensures NonSpace(a + m + b) == NonSpace(m)
  {
    NonSpaceConcat(a + m, b);
    NonSpaceConcat(a, m);
    NonSpaceOfSpaces(a);
    NonSpaceOfSpaces(b);
  }

  lemma {:induction false} TrimStartKeepsNonSpace(s: string)
    ensures NonSpace(TrimStart(s)) == NonSpace(s)
    decreases |s|
  {
    if s != [] && IsSpace(s[0]) {
      TrimStartKeepsNonSpace(s[1..]);
    }
  }

  /** A trailing `\s` character does not count. */
  lemma NonSpaceDropLast(s: string)
    requires s != [] && IsSpace(s[|s| - 1])
    ensures NonSpace(s) == NonSpace(s[..|s| - 1])
  {
    var n := |s| - 1;
    assert s[..n] + s[n..] == s;
    NonSpaceConcat(s[..n], s[n..]);
    assert s[n..][0] == s[n];
    NonSpaceOfSpaces(s[n..]);
  }

  lemma {:induction false} TrimEndKeepsNonSpace(s: string)
    ensures NonSpace(TrimEnd(s)) == NonSpace(s)
    decreases |s|
  {
    if s != [] && IsSpace(s[|s| - 1]) {
      TrimEndKeepsNonSpace(s[..|s| - 1]);
      NonSpaceDropLast(s);
    }
  }

  /** Trimming never adds a character. */
  lemma TrimKeepsAbsent(s: string, c: char)
    requires c !in s
    ensures c !in Trim(s)
  {
    TrimSlice(s);
    var k := |s| - |TrimStart(s)|;
    var t := Trim(s);
    forall i | 0 <= i < |t| ensures t[i] != c {
      assert t[i] == s[k + i];
    }
  }

  /** Trimming removes only `\s` characters. */
  lemma TrimKeepsNonSpace(s: string)
    ensures NonSpace(Trim(s)) == NonSpace(s)
  {
    TrimStartKeepsNonSpace(s);
    TrimEndKeepsNonSpace(TrimStart(s));
  }

  /** No two neighbouring characters are both `\s`. */
  predicate NoDoubleSpace(s: string)
  {
    forall i :: 0 <= i < |s| - 1 ==> !IsSpace(s[i]) || !IsSpace(s[i + 1])
  }

  /** Every slice of a string without neighbouring `\s` characters has none either. */
  lemma NoDoubleSpaceSlice(s: string, i: nat, j: nat)
    requires i <= j <= |s| && NoDoubleSpace(s)
    ensures NoDoubleSpace(s[i..j])
  {
    assert forall k :: 0 <= k < j - i ==> s[i..j][k] == s[i + k];
  }

  /** `s.replace(/\s+/g, rep)`: every maximal run of `\s` characters becomes one `rep`. */
  function ReplaceSpaceRuns(s: string, rep: char): (r: string)
    ensures |r| <= |s|
    ensures r == [] <==> s == []
    ensures s != [] ==> r[0] == if IsSpace(s[0]) then rep else s[0]
    decreases |s|
  {
    if s == [] then []
    else if IsSpace(s[0]) then [rep] + ReplaceSpaceRuns(TrimStart(s[1..]), rep)
    else [s[0]] + ReplaceSpaceRuns(s[1..], rep)
  }

  /** With a `\s` replacement character no two `\s` characters are left side by side. */
  lemma {:induction false} SpaceRunsNoDouble(s: string, rep: char)
    requires IsSpace(rep)
    ensures NoDoubleSpace(ReplaceSpaceRuns(s, rep))
    decreases |s|
  {
    if s != [] {
      var rest := if IsSpace(s[0]) then TrimStart(s[1..]) else s[1..];
      SpaceRunsNoDouble(rest, rep);
      var r := ReplaceSpaceRuns(s, rep);
      var t := ReplaceSpaceRuns(rest, rep);
      assert r == [r[0]] + t;
      forall i | 0 <= i < |r| - 1
        ensures !IsSpace(r[i]) || !IsSpace(r[i + 1])
      {
        if i > 0 {
          assert r[i] == t[i - 1] && r[i + 1] == t[i];
        } else {
          assert r[1] == t[0];
        }
      }
    }
  }

  /** With a non-`\s` replacement character no `\s` character is left. */
  lemma {:induction false} SpaceRunsNoSpace(s: string, rep: char)
    requires !IsSpace(rep)
    ensures forall i :: 0 <= i < |ReplaceSpaceRuns(s, rep)| ==> !IsSpace(ReplaceSpaceRuns(s, rep)[i])
    decreases |s|
  {
    if s != [] {
      var rest := if IsSpace(s[0]) then TrimStart(s[1..]) else s[1..];
      SpaceRunsNoSpace(rest, rep);
      assert ReplaceSpaceRuns(s, rep) == [ReplaceSpaceRuns(s, rep)[0]] + ReplaceSpaceRuns(rest, rep);
    }
  }

  /** Collapsing runs into a `\s` character keeps every other character, in order. */
  lemma {:induction false} SpaceRunsKeepNonSpace(s: string, rep: char)
    requires IsSpace(rep)
    ensures NonSpace(ReplaceSpaceRuns(s, rep)) == NonSpace(s)
    decreases |s|
  {
    if s != [] {
      if IsSpace(s[0]) {
        var t := TrimStart(s[1..]);
        SpaceRunsKeepNonSpace(t, rep);
        assert NonSpace(ReplaceSpaceRuns(s, rep)) == NonSpace(ReplaceSpaceRuns(t, rep)) by {
          assert ReplaceSpaceRuns(s, rep) == [rep] + ReplaceSpaceRuns(t, rep);
          NonSpaceConcat([rep], ReplaceSpaceRuns(t, rep));
          assert NonSpace([rep]) == [];
        }
        assert NonSpace(s) == NonSpace(t) by {
          assert t == TrimStart(s);
          TrimStartKeepsNonSpace(s);
        }
      } else {
        SpaceRunsKeepNonSpace(s[1..], rep);
        NonSpaceConcat([s[0]], ReplaceSpaceRuns(s[1..], rep));
      }
    }
  }

  /** Every `\s` character in the result is the replacement character. */
  lemma {:induction false} SpaceRunsOnlyRep(s: string, rep: char)
    ensures forall i :: 0 <= i < |ReplaceSpaceRuns(s, rep)| && IsSpace(ReplaceSpaceRuns(s, rep)[i])
                        ==> ReplaceSpaceRuns(s, rep)[i] == rep
    decreases |s|
  {
    if s != [] {
      var rest := if IsSpace(s[0]) then TrimStart(s[1..]) else s[1..];
      SpaceRunsOnlyRep(rest, rep);
      assert ReplaceSpaceRuns(s, rep) == [ReplaceSpaceRuns(s, rep)[0]] + ReplaceSpaceRuns(rest, rep);
    }
  }

  /** Runs collapsed into a plain space leave no line break behind. */
  lemma SpaceRunsNoNewline(s: string)
    ensures '\n' !in ReplaceSpaceRuns(s, ' ')
  {
    var r := ReplaceSpaceRuns(s, ' ');
    SpaceRunsOnlyRep(s, ' ');
    forall i | 0 <= i < |r| ensures r[i] != '\n' {
      assert IsSpace(r[i]) ==> r[i] == ' ';
    }
  }

  /** `trimStart` removes a leading run of `\s` up to the first other character. */
  lemma {:induction false} TrimStartOfRun(sp: string, b: string)
    requires forall i :: 0 <= i < |sp| ==> IsSpace(sp[i])
    requires b == [] || !IsSpace(b[0])
    ensures TrimStart(sp + b) == b
    decreases |sp|
  {
    if sp == [] {
      assert sp + b == b;
    } else {
      assert (sp + b)[1..] == sp[1..] + b;
      TrimStartOfRun(sp[1..], b);
    }
  }

  /**
   * The first maximal run of `\s`, after a prefix without `\s`, becomes one
   * `rep`, and the text after the run is collapsed on its own.
   */
  lemma {:induction false} SpaceRunsFirstRun(a: string, sp: string, b: string, rep: char)
    requires forall i :: 0 <= i < |a| ==> !IsSpace(a[i])
    requires sp != [] && forall i :: 0 <= i < |sp| ==> IsSpace(sp[i])
    requires b == [] || !IsSpace(b[0])
    ensures ReplaceSpaceRuns(a + sp + b, rep) == a + [rep] + ReplaceSpaceRuns(b, rep)
    decreases |a|
  {
    if a == [] {
      assert a + sp + b == sp + b;
      assert (sp + b)[1..] == sp[1..] + b;
      TrimStartOfRun(sp[1..], b);
    } else {
      assert (a + sp + b)[1..] == a[1..] + sp + b;
      SpaceRunsFirstRun(a[1..], sp, b, rep);
      assert a == [a[0]] + a[1..];
    }
  }

  /** A string without `\s` characters is left as it is. */
  lemma {:induction false} SpaceRunsIdentity(s: string, rep: char)
    requires forall i :: 0 <= i < |s| ==> !IsSpace(s[i])
    ensures ReplaceSpaceRuns(s, rep) == s
    decreases |s|
  {
    if s != [] {
      SpaceRunsIdentity(s[1..], rep);
    }
  }

  // ---------------------------------------------------------------------------
  // Case and numbers

  function LowerChar(c: char): char
  {
    if 'A' <= c <= 'Z' then (c as int + 32) as char else c
  }

  /** `s.toLowerCase()` restricted to the ASCII letters. */
  function ToLower(s: string): (r: string)
    ensures |r| == |s|
    ensures forall i :: 0 <= i < |s| ==> r[i] == LowerChar(s[i])
  {
    seq(|s|, i requires 0 <= i < |s| => LowerChar(s[i]))
  }

  /** Lower-casing works on each part of a text separately. */
  lemma ToLowerConcat(a: string, b: string)
    ensures ToLower(a + b) == ToLower(a) + ToLower(b)
  {
    assert forall i :: 0 <= i < |a + b| ==> (a + b)[i] == (if i < |a| then a[i] else b[i - |a|]);
  }

  function DigitChar(d: nat): char
    requires d < 10
  {
    ('0' as int + d) as char
  }

  /** The decimal rendering of a non-negative integer, as a template literal prints it. */
  function NatToString(n: nat): (r: string)
    ensures r != []
    ensures forall i :: 0 <= i < |r| ==> '0' <= r[i] <= '9'
    decreases n
  {
    if n < 10 then [DigitChar(n)] else NatToString(n / 10) + [DigitChar(n % 10)]
  }

  /** `s.length`: the number of UTF-16 code units, two for a character beyond the Basic Multilingual Plane. */
  function Utf16Length(s: string): (n: nat)
    ensures |s| <= n <= 2 * |s|
    decreases |s|
  {
    if s == [] then 0 else (if s[0] as int > 0xFFFF then 2 else 1) + Utf16Length(s[1..])
  }

  /** The index of the first `c` in `s`, or `|s|` when there is none. */
  function CharIndex(s: string, c: char): (q: nat)
    ensures q <= |s|
    ensures forall i :: 0 <= i < q ==> s[i] != c
    ensures q < |s| ==> s[q] == c
  {
    CharIndexFrom(s, c, 0)
  }

  /** The index of the first `c` at or after `i`, or the length when there is none. */
  function CharIndexFrom(s: string, c: char, i: nat): (q: nat)
    requires i <= |s|
    ensures i <= q <= |s|
    ensures forall j :: i <= j < q ==> s[j] != c
    ensures q < |s| ==> s[q] == c
    decreases |s| - i
  {
    if i == |s| || s[i] == c then i else CharIndexFrom(s, c, i + 1)
  }

  /** `CharIndex` is the only index with its two properties. */
  lemma CharIndexAt(s: string, c: char, q: nat)
    requires q <= |s|
    requires forall i :: 0 <= i < q ==> s[i] != c
    requires q < |s| ==> s[q] == c
    ensures CharIndex(s, c) == q
  {
    CharIndexFromAt(s, c, 0, q);
  }

  lemma {:induction false} CharIndexFromAt(s: string, c: char, i: nat, q: nat)
    requires i <= q <= |s|
    requires forall j :: i <= j < q ==> s[j] != c
    requires q < |s| ==> s[q] == c
    ensures CharIndexFrom(s, c, i) == q
    decreases q - i
  {
    if i < q {
      CharIndexFromAt(s, c, i + 1, q);
    }
  }
}
