/**
 * The name extraction of the code-generation extension's documentation
 * command: the global regular expressions that find function and class
 * names, the `exec` loop that collects the first capture of each match, and
 * the de-duplication through a `Set`.
 */
module CodeGenerationNames {

  import opened Text
  import opened Wrappers

  /**
   * One alternative of the extractors' regular expressions: each keyword
   * followed by `\s+`, the captured `([a-zA-Z_$][a-zA-Z0-9_$]*)`, `\s*` and
   * the terminator, and, for an arrow function, `\s*\(.*?\)\s*=>`.
   * Every part can match in one way only, since what may follow it cannot
   * continue it: a keyword is followed by `\s`, an identifier by a
   * non-identifier character, a `\s` run by a non-`\s` character.
   */
  datatype Alternative = Alternative(keywords: seq<string>, terminator: string, arrow: bool)

  /** An alternative begins with a non-empty keyword, so every match consumes something. */
  predicate ValidAlternative(alt: Alternative)
  {
    alt.keywords != [] && alt.keywords[0] != []
  }

  predicate IsIdentStart(c: char)
  {
    'a' <= c <= 'z' || 'A' <= c <= 'Z' || c == '_' || c == '$'
  }

  predicate IsIdentChar(c: char)
  {
    IsIdentStart(c) || '0' <= c <= '9'
  }

  /** A JavaScript identifier as the extractors' class describes it. */
  predicate IsIdentifier(s: string)
  {
    s != [] && IsIdentStart(s[0]) && forall i :: 0 <= i < |s| ==> IsIdentChar(s[i])
  }

  /** The end of the run of identifier characters that starts at `i`. */
  function IdentEnd(s: string, i: nat): (e: nat)
    requires i <= |s|
    ensures i <= e <= |s|
    decreases |s| - i
  {
    if i < |s| && IsIdentChar(s[i]) then IdentEnd(s, i + 1) else i
  }

  /** The run is the longest stretch of identifier characters from `i`. */
  lemma {:induction false} IdentEndChars(s: string, i: nat)
    requires i <= |s|
    ensures forall j :: i <= j < IdentEnd(s, i) ==> IsIdentChar(s[j])
    ensures IdentEnd(s, i) < |s| ==> !IsIdentChar(s[IdentEnd(s, i)])
    decreases |s| - i
  {
    if i < |s| && IsIdentChar(s[i]) {
      IdentEndChars(s, i + 1);
    }
  }

  /** The end of the run of `\s` characters that starts at `i`. */
  function BlankEnd(s: string, i: nat): (e: nat)
    requires i <= |s|
    ensures i <= e <= |s|
    decreases |s| - i
  {
    if i < |s| && IsSpace(s[i]) then BlankEnd(s, i + 1) else i
  }

  /** `p` occurs in `s` at `i`. */
  predicate At(s: string, i: nat, p: string)
  {
    i + |p| <= |s| && s[i..i + |p|] == p
  }

  /** `k1\s+k2\s+...` at `i`: where the match ends. */
  function KeywordsEnd(s: string, i: nat, keywords: seq<string>): (r: Option<nat>)
    requires i <= |s|
    ensures r.Some? ==> i <= r.value <= |s|
    ensures r.Some? && keywords != [] ==> i + |keywords[0]| < r.value
    decreases |keywords|
  {
    if keywords == [] then Some(i)
    else
      var j := i + |keywords[0]|;
      if j < |s| && s[i..j] == keywords[0] && IsSpace(s[j]) then
        KeywordsEnd(s, BlankEnd(s, j), keywords[1..])
      else None
  }

  /**
   * `.*?\)\s*=>` from `k`, just after the `(`: the lazy `.*?` stops at the
   * first `)` on the line that `\s*=>` follows; the result is where the match
   * ends.
   */
  function LazyArrow(s: string, k: nat): (r: Option<nat>)
    requires k <= |s|
    ensures r.Some? ==> k < r.value <= |s|
    decreases |s| - k
  {
    if k == |s| || IsLineTerminator(s[k]) then None
    else if s[k] == ')' && At(s, BlankEnd(s, k + 1), "=>") then Some(BlankEnd(s, k + 1) + 2)
    else LazyArrow(s, k + 1)
  }

  /** `\s*\(.*?\)\s*=>` at `i`: where the match ends. */
  function ArrowEnd(s: string, i: nat): (r: Option<nat>)
    requires i <= |s|
    ensures r.Some? ==> i < r.value <= |s|
  {
    var b := BlankEnd(s, i);
    if b < |s| && s[b] == '(' then LazyArrow(s, b + 1) else None
  }

  /** One alternative at `i`: where its match ends and the captured name. */
  function MatchAt(s: string, i: nat, alt: Alternative): (r: Option<(nat, string)>)
    requires i <= |s|
    ensures r.Some? ==> r.value.0 <= |s|
    ensures r.Some? && ValidAlternative(alt) ==> i < r.value.0
  {
    match KeywordsEnd(s, i, alt.keywords)
    case None => None
    case Some(k) =>
      var n := IdentEnd(s, k);
      if n == k || !IsIdentStart(s[k]) then None
      else
        var b := BlankEnd(s, n);
        if !At(s, b, alt.terminator) then None
        else
          var e := b + |alt.terminator|;
          if !alt.arrow then Some((e, s[k..n]))
          else
            match ArrowEnd(s, e)
            case None => None
            case Some(a) => Some((a, s[k..n]))
  }

  /** The captured name is an identifier. */
  lemma MatchAtName(s: string, i: nat, alt: Alternative)
    requires i <= |s|
    ensures var r := MatchAt(s, i, alt); r.Some? ==> IsIdentifier(r.value.1)
  {
    var k := KeywordsEnd(s, i, alt.keywords);
    if k.Some? {
      IdentEndChars(s, k.value);
    }
  }

  /**
   * The regular expression `a1|a2|...` at `i`: the first alternative that
   * matches wins; the result is where it ends and its capture.
   */
  function MatchFirstAt(s: string, i: nat, alts: seq<Alternative>): (r: Option<(nat, string)>)
    requires i <= |s|
    requires forall a :: a in alts ==> ValidAlternative(a)
    ensures r.Some? ==> i < r.value.0 <= |s| && IsIdentifier(r.value.1)
    decreases |alts|
  {
    if alts == [] then None
    else
      var m := MatchAt(s, i, alts[0]);
      MatchAtName(s, i, alts[0]);
      if m.Some? then m else MatchFirstAt(s, i, alts[1..])
  }

  /**
   * The names the `exec` loop pushes from `i` on, one per match, left to
   * right: a search from `lastIndex` tries every position in turn, and after
   * a match `lastIndex` is where that match ended.
   */
  function ScanFrom(s: string, i: nat, alts: seq<Alternative>): (r: seq<string>)
    requires i <= |s|
    requires forall a :: a in alts ==> ValidAlternative(a)
    ensures forall n :: n in r ==> IsIdentifier(n)
    decreases |s| - i
  {
    if i == |s| then []
    else
      match MatchFirstAt(s, i, alts)
      case Some((e, name)) => [name] + ScanFrom(s, e, alts)
      case None => ScanFrom(s, i + 1, alts)
  }

  /** `[...new Set(xs)]`: each element once, in order of first occurrence. */
  function Dedup<T(==)>(xs: seq<T>): seq<T>
  {
    DedupAfter(xs, {})
  }

  /** The first occurrences in `xs` of elements not in `seen`. */
  function DedupAfter<T(==)>(xs: seq<T>, seen: set<T>): (r: seq<T>)
    ensures forall i :: 0 <= i < |r| ==> r[i] !in seen
    decreases |xs|
  {
    if xs == [] then []
    else if xs[0] in seen then DedupAfter(xs[1..], seen)
    else [xs[0]] + DedupAfter(xs[1..], seen + {xs[0]})
  }

  /** No element occurs twice. */
  predicate Distinct<T(==)>(s: seq<T>)
  {
    forall i, j :: 0 <= i < j < |s| ==> s[i] != s[j]
  }

  lemma {:induction false} DedupAfterDistinct<T>(xs: seq<T>, seen: set<T>)
    ensures Distinct(DedupAfter(xs, seen))
    decreases |xs|
  {
    if xs != [] {
      if xs[0] in seen {
        DedupAfterDistinct(xs[1..], seen);
      } else {
        var r := DedupAfter(xs[1..], seen + {xs[0]});
        DedupAfterDistinct(xs[1..], seen + {xs[0]});
        DistinctCons(xs[0], r);
      }
    }
  }

  /** Putting a new element in front of a sequence without repeats keeps it without repeats. */
  lemma DistinctCons<T>(x: T, r: seq<T>)
    requires Distinct(r) && x !in r
    ensures Distinct([x] + r)
  {
    var d := [x] + r;
    forall i, j | 0 <= i < j < |d|
      ensures d[i] != d[j]
    {
      assert d[j] == r[j - 1];
      if i > 0 {
        assert d[i] == r[i - 1];
      }
    }
  }

  lemma {:induction false} DedupAfterElements<T>(xs: seq<T>, seen: set<T>)
    ensures forall x :: x in DedupAfter(xs, seen) <==> x in xs && x !in seen
    decreases |xs|
  {
    if xs != [] {
      if xs[0] in seen {
        DedupAfterElements(xs[1..], seen);
      } else {
        DedupAfterElements(xs[1..], seen + {xs[0]});
      }
      assert xs == [xs[0]] + xs[1..];
    }
  }

  /** Adding an element at the end appends it when it is new and changes nothing otherwise. */
  lemma {:induction false} DedupAfterSnoc<T>(xs: seq<T>, seen: set<T>, x: T)
    ensures DedupAfter(xs + [x], seen) == DedupAfter(xs, seen) + (if x in seen || x in xs then [] else [x])
    decreases |xs|
  {
    if xs == [] {
      assert [] + [x] == [x];
    } else {
      assert (xs + [x])[1..] == xs[1..] + [x];
      if xs[0] in seen {
        DedupAfterSnoc(xs[1..], seen, x);
      } else {
        DedupAfterSnoc(xs[1..], seen + {xs[0]}, x);
      }
      assert xs == [xs[0]] + xs[1..];
    }
  }

  /** The de-duplicated names: no repeats, the same names, and a new name goes last. */
  lemma DedupProperties<T>(xs: seq<T>, x: T)
    ensures Distinct(Dedup(xs))
    ensures forall y :: y in Dedup(xs) <==> y in xs
    ensures Dedup(xs + [x]) == Dedup(xs) + (if x in xs then [] else [x])
  {
    DedupAfterDistinct(xs, {});
    DedupAfterElements(xs, {});
    DedupAfterSnoc(xs, {}, x);
  }

  /** The `exec` loop and the de-duplication of both extractors. */
  method ExtractNames(content: string, alts: seq<Alternative>) returns (names: seq<string>)
    requires forall a :: a in alts ==> ValidAlternative(a)
    ensures names == Dedup(ScanFrom(content, 0, alts))
    ensures Distinct(names)
    ensures forall n :: n in names <==> n in ScanFrom(content, 0, alts)
    ensures forall n :: n in names ==> IsIdentifier(n)
  {
    var found: seq<string> := [];
    var lastIndex := 0;
    while lastIndex < |content|
      invariant lastIndex <= |content|
      invariant found + ScanFrom(content, lastIndex, alts) == ScanFrom(content, 0, alts)
      decreases |content| - lastIndex
    {
      match MatchFirstAt(content, lastIndex, alts)
      case Some((e, name)) =>
        found := found + [name];
        lastIndex := e;
      case None =>
        lastIndex := lastIndex + 1;
    }
    assert found == ScanFrom(content, 0, alts);
    DedupAfterDistinct(found, {});
    DedupAfterElements(found, {});
    names := Dedup(found);
  }

  /** The two extractors. */
  datatype Declarations = FunctionDeclarations | ClassDeclarations

  /** The four alternatives of each extractor's regular expression, in order. */
  function Patterns(kind: Declarations): (alts: seq<Alternative>)
    ensures forall a :: a in alts ==> ValidAlternative(a)
  {
    match kind
    case FunctionDeclarations =>
      [
        Alternative(["function"], "(", false),
        Alternative(["const"], "=", true),
        Alternative(["export", "function"], "(", false),
        Alternative(["export", "const"], "=", true)
      ]
    case ClassDeclarations =>
      [
        Alternative(["class"], "{", false),
        Alternative(["export", "class"], "{", false),
        Alternative(["interface"], "{", false),
        Alternative(["type"], "=", false)
      ]
  }

  /** `extractFunctionNames`: the distinct names of function declarations and arrow-function constants. */
  method ExtractFunctionNames(content: string) returns (names: seq<string>)
    ensures names == Dedup(ScanFrom(content, 0, Patterns(FunctionDeclarations)))
    ensures Distinct(names)
  {
    names := ExtractNames(content, Patterns(FunctionDeclarations));
  }

  /** `extractClassNames`: the distinct names of classes, interfaces and type aliases. */
  method ExtractClassNames(content: string) returns (names: seq<string>)
    ensures names == Dedup(ScanFrom(content, 0, Patterns(ClassDeclarations)))
    ensures Distinct(names)
  {
    names := ExtractNames(content, Patterns(ClassDeclarations));
  }

  /** The first alternative wins when it matches. */
  lemma MatchFirstHead(s: string, i: nat, alts: seq<Alternative>)
    requires i <= |s| && forall a :: a in alts ==> ValidAlternative(a)
    requires alts != [] && MatchAt(s, i, alts[0]).Some?
    ensures MatchFirstAt(s, i, alts) == MatchAt(s, i, alts[0])
  {
  }

  /** A match at `i` contributes its name, and the scan resumes where it ends. */
  lemma ScanFromMatch(s: string, i: nat, alts: seq<Alternative>, e: nat, name: string)
    requires i <= |s| && forall a :: a in alts ==> ValidAlternative(a)
    requires MatchFirstAt(s, i, alts) == Some((e, name))
    ensures ScanFrom(s, i, alts) == [name] + ScanFrom(s, e, alts)
  {
  }

  /** A run of identifier characters ends at the first character outside the class. */
  lemma {:induction false} IdentEndAt(s: string, i: nat, e: nat)
    requires i <= e < |s|
    requires forall j :: i <= j < e ==> IsIdentChar(s[j])
    requires !IsIdentChar(s[e])
    ensures IdentEnd(s, i) == e
    decreases e - i
  {
    if i < e {
      IdentEndAt(s, i + 1, e);
    }
  }

  /**
   * A declaration `keyword name` followed by the one-character terminator `c`
   * at `i` matches the alternative `keyword\s+(name)\s*c`.
   */
  lemma DeclarationAt(s: string, i: nat, keyword: string, name: string, c: char)
    requires keyword != [] && IsIdentifier(name) && !IsSpace(c) && !IsIdentChar(c)
    requires i + |keyword| + |name| + 2 <= |s|
    requires s[i..i + |keyword|] == keyword && s[i + |keyword|] == ' '
    requires s[i + |keyword| + 1..i + |keyword| + 1 + |name|] == name
    requires s[i + |keyword| + 1 + |name|] == c
    ensures MatchAt(s, i, Alternative([keyword], [c], false)) == Some((i + |keyword| + |name| + 2, name))
  {
    var j := i + |keyword| + 1;
    var n := j + |name|;
    assert s[j] == name[0];
    assert BlankEnd(s, j) == j;
    assert BlankEnd(s, j - 1) == j;
    assert KeywordsEnd(s, i, [keyword]) == Some(j) by {
      assert [keyword][1..] == [];
    }
    assert forall m :: j <= m < n ==> s[m] == name[m - j];
    IdentEndAt(s, j, n);
    assert s[n..n + 1] == [c];
  }

  /** A declaration matching the first alternative yields its name, and the scan resumes after its terminator. */
  lemma DeclarationFound(s: string, i: nat, alts: seq<Alternative>, keyword: string, name: string, c: char)
    requires forall a :: a in alts ==> ValidAlternative(a)
    requires alts != [] && alts[0] == Alternative([keyword], [c], false)
    requires keyword != [] && IsIdentifier(name) && !IsSpace(c) && !IsIdentChar(c)
    requires i + |keyword| + |name| + 2 <= |s|
    requires s[i..i + |keyword|] == keyword && s[i + |keyword|] == ' '
    requires s[i + |keyword| + 1..i + |keyword| + 1 + |name|] == name
    requires s[i + |keyword| + 1 + |name|] == c
    ensures ScanFrom(s, i, alts) == [name] + ScanFrom(s, i + |keyword| + |name| + 2, alts)
  {
    DeclarationAt(s, i, keyword, name, c);
    ScanFromFirst(s, i, alts, i + |keyword| + |name| + 2, name);
  }

  /** When the first alternative matches at `i`, the scan records its name and resumes where it ends. */
  lemma ScanFromFirst(s: string, i: nat, alts: seq<Alternative>, e: nat, name: string)
    requires i <= |s| && forall a :: a in alts ==> ValidAlternative(a)
    requires alts != [] && MatchAt(s, i, alts[0]) == Some((e, name))
    ensures ScanFrom(s, i, alts) == [name] + ScanFrom(s, e, alts)
  {
    MatchFirstHead(s, i, alts);
    ScanFromMatch(s, i, alts, e, name);
  }

  /** A `function` declaration at `i` is matched by the first alternative, which ends after its `(`. */
  lemma FunctionDeclarationMatches(s: string, i: nat, name: string)
    requires IsIdentifier(name) && i + |name| + 10 <= |s|
    requires s[i..i + 9] == "function " && s[i + 9..i + 9 + |name|] == name && s[i + 9 + |name|] == '('
    ensures MatchFirstAt(s, i, Patterns(FunctionDeclarations)) == Some((i + |name| + 10, name))
  {
    assert s[i..i + 8] == s[i..i + 9][..8];
    DeclarationAt(s, i, "function", name, '(');
    FunctionKeywordFirst();
    MatchFirstHead(s, i, Patterns(FunctionDeclarations));
  }

  /** A `class` declaration at `i` is matched by the first alternative, which ends after its `{`. */
  lemma ClassDeclarationMatches(s: string, i: nat, name: string)
    requires IsIdentifier(name) && i + |name| + 7 <= |s|
    requires s[i..i + 6] == "class " && s[i + 6..i + 6 + |name|] == name && s[i + 6 + |name|] == '{'
    ensures MatchFirstAt(s, i, Patterns(ClassDeclarations)) == Some((i + |name| + 7, name))
  {
    assert s[i..i + 5] == s[i..i + 6][..5];
    DeclarationAt(s, i, "class", name, '{');
    ClassKeywordFirst();
    MatchFirstHead(s, i, Patterns(ClassDeclarations));
  }

  lemma FunctionKeywordFirst()
    ensures Patterns(FunctionDeclarations) != []
    ensures Patterns(FunctionDeclarations)[0] == Alternative(["function"], "(", false)
  {
  }

  lemma ClassKeywordFirst()
    ensures Patterns(ClassDeclarations) != []
    ensures Patterns(ClassDeclarations)[0] == Alternative(["class"], "{", false)
  {
  }
}
