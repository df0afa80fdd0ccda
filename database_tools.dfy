/**
 * The query optimiser of the database-tools extension: the rewrite applied to
 * the selected SQL text and the rule-by-rule list of suggestions shown beside
 * it.  Both work on the raw text with case-sensitive substring tests; no SQL
 * is parsed.
 */
module DatabaseTools {

  import opened Text
  import opened Wrappers

  // ---------------------------------------------------------------------------
  // optimizeSQLQuery

  const SelectStar := "SELECT *"
  const SelectColumns := "SELECT id, name, email"
  const WhereKeyword := "WHERE "
  const AndKeyword := " AND "

  /** Step one: every `SELECT *` found by a left-to-right scan becomes the fixed column list. */
  function ExpandSelectStar(query: string): string
  {
    ReplaceAll(query, SelectStar, SelectColumns)
  }

  /** The replacement text cannot itself contain or complete a `SELECT *`. */
  lemma SelectColumnsIsClean()
    ensures ReplacementIsClean(SelectStar, SelectColumns)
  {
    assert SelectStar[7] == '*';
    assert '*' !in SelectColumns;
    assert forall k :: 1 <= k < |SelectColumns| ==> SelectColumns[k] != 'S';
    assert SelectStar[1..] == "ELECT *";
  }

  /** After step one no `SELECT *` is left, and each one replaced lengthens the text by 14. */
  lemma ExpandSelectStarRemovesAll(query: string)
    ensures !Contains(ExpandSelectStar(query), SelectStar)
    ensures |ExpandSelectStar(query)| == |query| + 14 * Occurrences(query, SelectStar)
    ensures ExpandSelectStar(query) == query <==> !Contains(query, SelectStar)
  {
    SelectColumnsIsClean();
    ReplaceAllRemoves(query, SelectStar, SelectColumns);
    ReplaceAllLength(query, SelectStar, SelectColumns);
    OccurrencesIffContains(query, SelectStar);
    if !Contains(query, SelectStar) {
      ReplaceAllUnchanged(query, SelectStar, SelectColumns);
    }
  }

  /**
   * The regular expression `WHERE (.*) AND (.*)` matches a single line (`.`
   * stops at line terminators) at `i`, with the ` AND ` at `j`.
   */
  predicate WhereAndAt(line: string, i: nat, j: nat)
  {
    i + |WhereKeyword| <= j && OccursAt(line, WhereKeyword, i) && OccursAt(line, AndKeyword, j)
  }

  /**
   * Where the rewrite of one line inserts its line break: at the last ` AND `
   * after the first `WHERE `, which is where the greedy `(.*)` leaves it; `None`
   * when the pattern does not match the line.
   */
  function AndSplit(line: string): (r: Option<nat>)
    ensures r.Some? ==> OccursAt(line, AndKeyword, r.value)
  {
    var first := IndexOf(line, WhereKeyword);
    var last := LastIndexOf(line, AndKeyword);
    if first.Some? && last.Some? && first.value + |WhereKeyword| <= last.value then Some(last.value)
    else None
  }

  /** The split exists exactly when the pattern matches, and it is at the last ` AND ` of the line. */
  lemma AndSplitMatches(line: string)
    ensures AndSplit(line).Some? <==> exists i: nat, j: nat :: WhereAndAt(line, i, j)
    ensures AndSplit(line).Some? ==> exists i: nat :: WhereAndAt(line, i, AndSplit(line).value)
    ensures AndSplit(line).Some? ==> forall j: nat :: AndSplit(line).value < j <= |line| ==> !OccursAt(line, AndKeyword, j)
  {
    var first := IndexOf(line, WhereKeyword);
    var last := LastIndexOf(line, AndKeyword);
    if first.Some? && last.Some? && first.value + |WhereKeyword| <= last.value {
      assert WhereAndAt(line, first.value, last.value);
    }
  }

  /** One line of step two: `WHERE $1\n  AND $2` puts a break and two spaces in front of the chosen `AND`. */
  function RewriteLine(line: string): (r: string)
    ensures AndSplit(line).None? ==> r == line
    ensures AndSplit(line).Some? ==> var j := AndSplit(line).value; r == line[..j] + "\n " + line[j..]
  {
    match AndSplit(line)
    case None => line
    case Some(j) =>
      assert line[j..] == AndKeyword + line[j + |AndKeyword|..];
      assert "\n  AND " == "\n " + AndKeyword;
      line[..j] + "\n  AND " + line[j + |AndKeyword|..]
  }

  /** The index of the first line terminator, or the length when there is none. */
  function LineEnd(s: string): (e: nat)
    ensures e <= |s|
    ensures forall k :: 0 <= k < e ==> !IsLineTerminator(s[k])
    ensures e < |s| ==> IsLineTerminator(s[e])
  {
    LineEndFrom(s, 0)
  }

  /** The index of the first line terminator at or after `i`, or the length when there is none. */
  function LineEndFrom(s: string, i: nat): (e: nat)
    requires i <= |s|
    ensures i <= e <= |s|
    ensures forall k :: i <= k < e ==> !IsLineTerminator(s[k])
    ensures e < |s| ==> IsLineTerminator(s[e])
    decreases |s| - i
  {
    if i == |s| || IsLineTerminator(s[i]) then i else LineEndFrom(s, i + 1)
  }

  /**
   * Step two: the global replacement resumes where its last match ended, which
   * is the end of that line, so it rewrites every line on its own.
   */
  function RewriteWhere(s: string): string
    decreases |s|
  {
    if s == [] then []
    else
      var e := LineEnd(s);
      if e == |s| then RewriteLine(s)
      else RewriteLine(s[..e]) + [s[e]] + RewriteWhere(s[e + 1..])
  }

  /** `optimizeSQLQuery`. */
  function OptimizeSqlQuery(query: string): string
  {
    RewriteWhere(ExpandSelectStar(query))
  }

  /** A line and its terminator are rewritten without regard to what follows. */
  lemma RewriteWhereLineByLine(line: string, t: char, rest: string)
    requires forall k :: 0 <= k < |line| ==> !IsLineTerminator(line[k])
    requires IsLineTerminator(t)
    ensures RewriteWhere(line + [t] + rest) == RewriteLine(line) + [t] + RewriteWhere(rest)
  {
    var s := line + [t] + rest;
    LineEndAt(s, |line|);
    assert s[..|line|] == line;
    assert s[|line| + 1..] == rest;
  }

  /** A text with no line terminator is rewritten as one line. */
  lemma RewriteWhereOneLine(line: string)
    requires forall k :: 0 <= k < |line| ==> !IsLineTerminator(line[k])
    ensures RewriteWhere(line) == RewriteLine(line)
  {
    if line != [] {
      LineEndAt(line, |line|);
    }
  }

  lemma LineEndAt(s: string, e: nat)
    requires e <= |s|
    requires forall k :: 0 <= k < e ==> !IsLineTerminator(s[k])
    requires e < |s| ==> IsLineTerminator(s[e])
    ensures LineEnd(s) == e
  {
    LineEndFromAt(s, 0, e);
  }

  lemma {:induction false} LineEndFromAt(s: string, i: nat, e: nat)
    requires i <= e <= |s|
    requires forall k :: i <= k < e ==> !IsLineTerminator(s[k])
    requires e < |s| ==> IsLineTerminator(s[e])
    ensures LineEndFrom(s, i) == e
    decreases e - i
  {
    if i < e {
      LineEndFromAt(s, i + 1, e);
    }
  }

  /** A pattern absent from a string is absent from every slice of it. */
  lemma AbsentFromSlices(s: string, p: string, e: nat)
    requires e < |s| && !Contains(s, p)
    ensures !Contains(s[..e], p) && !Contains(s[e + 1..], p)
  {
    assert s == s[..e] + s[e..];
    ContainsInConcat(s[..e], s[e..], p);
    assert s[e..] == [s[e]] + s[e + 1..];
    ContainsInConcat([s[e]], s[e + 1..], p);
  }

  /** Lacking `WHERE ` or lacking ` AND ` carries over to the lines on both sides of a terminator. */
  lemma KeywordAbsentFromSlices(s: string, e: nat)
    requires e < |s| && (!Contains(s, WhereKeyword) || !Contains(s, AndKeyword))
    ensures !Contains(s[..e], WhereKeyword) || !Contains(s[..e], AndKeyword)
    ensures !Contains(s[e + 1..], WhereKeyword) || !Contains(s[e + 1..], AndKeyword)
  {
    if !Contains(s, WhereKeyword) {
      AbsentFromSlices(s, WhereKeyword, e);
    } else {
      AbsentFromSlices(s, AndKeyword, e);
    }
  }

  /** A line with no `WHERE ` or no ` AND ` is left as it is. */
  lemma RewriteLineUnchanged(line: string)
    requires !Contains(line, WhereKeyword) || !Contains(line, AndKeyword)
    ensures RewriteLine(line) == line
  {
    if AndSplit(line).Some? {
      AndSplitMatches(line);
      var i: nat, j: nat :| WhereAndAt(line, i, j);
      ContainsAt(line, WhereKeyword, i);
      ContainsAt(line, AndKeyword, j);
    }
  }

  /** Without a `WHERE ` or without an ` AND ` anywhere, step two changes nothing. */
  lemma {:induction false} RewriteWhereUnchanged(s: string)
    requires !Contains(s, WhereKeyword) || !Contains(s, AndKeyword)
    ensures RewriteWhere(s) == s
    decreases |s|
  {
    if s != [] {
      var e := LineEnd(s);
      if e == |s| {
        RewriteLineUnchanged(s);
      } else {
        var line, rest := s[..e], s[e + 1..];
        KeywordAbsentFromSlices(s, e);
        RewriteLineUnchanged(line);
        RewriteWhereUnchanged(rest);
        assert s == line + [s[e]] + rest;
        RewriteWhereLineByLine(line, s[e], rest);
      }
    }
  }

  /** A query with neither a `SELECT *` nor a `WHERE ` ... ` AND ` pair is returned unchanged. */
  lemma OptimizeSqlQueryUnchanged(query: string)
    requires !Contains(query, SelectStar)
    requires !Contains(query, WhereKeyword) || !Contains(query, AndKeyword)
    ensures OptimizeSqlQuery(query) == query
  {
    ExpandSelectStarRemovesAll(query);
    RewriteWhereUnchanged(query);
  }

  // ---------------------------------------------------------------------------
  // getQueryOptimizationSuggestions

  /** The four suggestions, in the order the rules are tried. */
  datatype QuerySuggestion = AvoidSelectStar | AddLimit | IndexOrderBy | JoinOn

  /** The text shown for each suggestion. */
  function SuggestionText(s: QuerySuggestion): string
  {
    match s
    case AvoidSelectStar => "Avoid using SELECT * - specify only the columns you need"
    case AddLimit => "Add LIMIT clause to prevent returning too many rows"
    case IndexOrderBy => "Consider adding an index on the column used in ORDER BY"
    case JoinOn => "Ensure all JOIN clauses have proper ON conditions"
  }

  /** The position of each rule in the list of rules. */
  function RuleIndex(s: QuerySuggestion): nat
  {
    match s
    case AvoidSelectStar => 0
    case AddLimit => 1
    case IndexOrderBy => 2
    case JoinOn => 3
  }

  /** When each rule fires. */
  predicate Fires(s: QuerySuggestion, query: string)
  {
    match s
    case AvoidSelectStar => Contains(query, SelectStar)
    case AddLimit => !Contains(query, "LIMIT") && Contains(query, "SELECT")
    case IndexOrderBy => Contains(query, "ORDER BY") && !Contains(query, "INDEX")
    case JoinOn => Contains(query, "JOIN") && !Contains(query, "ON")
  }

  /** `getQueryOptimizationSuggestions`: each rule pushes its suggestion when it fires. */
  method QueryOptimizationSuggestions(query: string) returns (suggestions: seq<QuerySuggestion>)
    ensures forall s :: s in suggestions <==> Fires(s, query)
    ensures forall i, j :: 0 <= i < j < |suggestions| ==> RuleIndex(suggestions[i]) < RuleIndex(suggestions[j])
    ensures forall i, j :: 0 <= i < j < |suggestions| ==> suggestions[i] != suggestions[j]
    ensures |suggestions| <= 4
  {
    suggestions := [];
    if Contains(query, SelectStar) {
      suggestions := suggestions + [AvoidSelectStar];
    }
    if !Contains(query, "LIMIT") && Contains(query, "SELECT") {
      suggestions := suggestions + [AddLimit];
    }
    if Contains(query, "ORDER BY") && !Contains(query, "INDEX") {
      suggestions := suggestions + [IndexOrderBy];
    }
    if Contains(query, "JOIN") && !Contains(query, "ON") {
      suggestions := suggestions + [JoinOn];
    }
  }

}
