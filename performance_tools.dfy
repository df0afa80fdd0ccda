/**
 * The code analysis of the performance-tools extension: the per-language
 * substring rules that list performance issues, the regular-expression loop
 * rewrites of "optimize code", and the decision to offer the rewrite as an
 * edit.
 */
module PerformanceTools {

  import opened Text
  import opened Capture

  // ---------------------------------------------------------------------------
  // identifyPerformanceIssues

  /** The issues the rules can report, in the order the rules are tried. */
  datatype PerfIssue =
    | ArrayLengthLoop | EvalCall | SetIntervalCall
    | RangeLenLoop | ListAppend
    | StringBuilderUsed | StringConcatInLoop
    | LargeFile

  /** The message shown for each issue. */
  function IssueText(issue: PerfIssue): string
  {
    match issue
    case ArrayLengthLoop => "Possible performance issue: recalculating array.length in loop condition"
    case EvalCall => "Performance issue: eval() is slow and should be avoided"
    case SetIntervalCall => "Potential performance issue: setInterval may cause memory leaks"
    case RangeLenLoop => "Possible performance issue: using range(len()) instead of direct iteration"
    case ListAppend => "Consider using list comprehensions for better performance"
    case StringBuilderUsed => "Good practice: Using StringBuilder for string concatenation"
    case StringConcatInLoop => "Performance issue: String concatenation in loops should use StringBuilder"
    case LargeFile => "Large file detected: Consider splitting into smaller modules"
  }

  /** The position of each rule in the function. */
  function Rank(issue: PerfIssue): nat
  {
    match issue
    case ArrayLengthLoop => 0
    case EvalCall => 1
    case SetIntervalCall => 2
    case RangeLenLoop => 3
    case ListAppend => 4
    case StringBuilderUsed => 5
    case StringConcatInLoop => 6
    case LargeFile => 7
  }

  /** The size above which a file counts as large, in UTF-16 code units. */
  const LargeFileLimit := 10000

  predicate IsJsOrTs(languageId: string)
  {
    languageId == "javascript" || languageId == "typescript"
  }

  /** When each issue is reported. */
  predicate Detected(issue: PerfIssue, code: string, languageId: string)
  {
    match issue
    case ArrayLengthLoop => IsJsOrTs(languageId) && Contains(code, "for (let i = 0; i < array.length; i++)")
    case EvalCall => IsJsOrTs(languageId) && Contains(code, "eval(")
    case SetIntervalCall => IsJsOrTs(languageId) && Contains(code, "setInterval(")
    case RangeLenLoop => languageId == "python" && Contains(code, "for i in range(len(")
    case ListAppend => languageId == "python" && Contains(code, "list.append(")
    case StringBuilderUsed => languageId == "java" && Contains(code, "StringBuilder")
    case StringConcatInLoop => languageId == "java" && !Contains(code, "StringBuilder") && Contains(code, "+=\"")
    case LargeFile => Utf16Length(code) > LargeFileLimit
  }

  /** The `switch` on the language in `identifyPerformanceIssues`. */
  method LanguageIssues(code: string, languageId: string) returns (issues: seq<PerfIssue>)
    ensures forall issue :: issue in issues <==> issue != LargeFile && Detected(issue, code, languageId)
    ensures forall i, j :: 0 <= i < j < |issues| ==> Rank(issues[i]) < Rank(issues[j])
    ensures forall i :: 0 <= i < |issues| ==> Rank(issues[i]) < Rank(LargeFile)
    ensures |issues| <= 3
  {
    issues := [];
    if IsJsOrTs(languageId) {
      if Contains(code, "for (let i = 0; i < array.length; i++)") {
        issues := issues + [ArrayLengthLoop];
      }
      if Contains(code, "eval(") {
        issues := issues + [EvalCall];
      }
      if Contains(code, "setInterval(") {
        issues := issues + [SetIntervalCall];
      }
    } else if languageId == "python" {
      if Contains(code, "for i in range(len(") {
        issues := issues + [RangeLenLoop];
      }
      if Contains(code, "list.append(") {
        issues := issues + [ListAppend];
      }
    } else if languageId == "java" {
      if Contains(code, "StringBuilder") {
        issues := issues + [StringBuilderUsed];
      } else if Contains(code, "+=\"") {
        issues := issues + [StringConcatInLoop];
      }
    }
  }

  /** `identifyPerformanceIssues`: the rules of the language, then the size rule. */
  method IdentifyPerformanceIssues(code: string, languageId: string) returns (issues: seq<PerfIssue>)
    ensures forall issue :: issue in issues <==> Detected(issue, code, languageId)
    ensures forall i, j :: 0 <= i < j < |issues| ==> Rank(issues[i]) < Rank(issues[j])
    ensures |issues| <= 4
    ensures LargeFile in issues <==> Utf16Length(code) > LargeFileLimit
    ensures LargeFile in issues ==> issues[|issues| - 1] == LargeFile
    ensures !IsJsOrTs(languageId) && languageId != "python" && languageId != "java" ==>
              forall issue :: issue in issues ==> issue == LargeFile
    ensures !(StringBuilderUsed in issues && StringConcatInLoop in issues)
  {
    issues := LanguageIssues(code, languageId);
    if Utf16Length(code) > LargeFileLimit {
      issues := issues + [LargeFile];
    }
  }

  // ---------------------------------------------------------------------------
  // generateOptimizedCode

  /** `for \(let i = 0; i < ([^;]+)\.length; i\+\+`: the match stops before the loop's `)`. */
  const JsLoop := Pattern("for (let i = 0; i < ", ';', ".length; i++")
  const JsLoopPrefix := "const length = "
  const JsLoopSuffix := ".length;\nfor (let i = 0; i < length; i++)"

  /** `for i in range\(len\(([^)]+)\)\):`. */
  const PyLoop := Pattern("for i in range(len(", ')', ")):")
  const PyLoopPrefix := "for item in "
  const PyLoopSuffix := ":"

  lemma PatternsValid()
    ensures ValidPattern(JsLoop) && ValidPattern(PyLoop)
  {
    assert JsLoop.tail[7] == ';';
    assert PyLoop.tail[0] == ')';
  }

  /** `generateOptimizedCode`: the loop rewrite of the language, if it has one. */
  function GenerateOptimizedCode(code: string, languageId: string): string
  {
    PatternsValid();
    if IsJsOrTs(languageId) then ReplaceMatches(code, JsLoop, JsLoopPrefix, JsLoopSuffix)
    else if languageId == "python" then ReplaceMatches(code, PyLoop, PyLoopPrefix, PyLoopSuffix)
    else code
  }

  /** Whether the pattern of the language matches somewhere in the code. */
  ghost predicate HasLoopToRewrite(code: string, languageId: string)
  {
    PatternsValid();
    (IsJsOrTs(languageId) && exists k: nat :: MatchesAt(code, JsLoop, k))
    || (languageId == "python" && exists k: nat :: MatchesAt(code, PyLoop, k))
  }

  /** Languages without a rewrite get their code back unchanged. */
  lemma OtherLanguagesUnchanged(code: string, languageId: string)
    requires !IsJsOrTs(languageId) && languageId != "python"
    ensures GenerateOptimizedCode(code, languageId) == code
  {
  }

  /** The Python rewrite iterates over the sequence itself. */
  lemma PythonLoopRewrite(x: string, rest: string)
    requires x != [] && ')' !in x
    ensures GenerateOptimizedCode("for i in range(len(" + x + ")):" + rest, "python")
            == "for item in " + x + ":" + GenerateOptimizedCode(rest, "python")
  {
    PatternsValid();
    ReplaceLeadingMatch(PyLoop, x, rest, PyLoopPrefix, PyLoopSuffix);
  }

  /**
   * The JavaScript rewrite hoists the length into a constant; the loop's own
   * `)`, which the match does not consume, follows the emitted `i++)`.
   */
  lemma JsLoopRewrite(x: string, rest: string)
    requires x != [] && ';' !in x
    ensures GenerateOptimizedCode("for (let i = 0; i < " + x + ".length; i++" + rest, "javascript")
            == "const length = " + x + ".length;\nfor (let i = 0; i < length; i++)"
               + GenerateOptimizedCode(rest, "javascript")
  {
    PatternsValid();
    ReplaceLeadingMatch(JsLoop, x, rest, JsLoopPrefix, JsLoopSuffix);
  }

  /** Each JavaScript rewrite adds 24 characters. */
  lemma JsOptimizedLength(code: string, languageId: string)
    requires IsJsOrTs(languageId)
    ensures |GenerateOptimizedCode(code, languageId)| == |code| + 24 * MatchCount(code, JsLoop)
  {
    PatternsValid();
    JsLoopGrowth();
    var n := MatchCount(code, JsLoop);
    ReplaceMatchesLength(code, JsLoop, JsLoopPrefix, JsLoopSuffix);
    assert n * 24 == 24 * n;
  }

  lemma JsLoopGrowth()
    ensures (|JsLoopPrefix| + |JsLoopSuffix|) - (|JsLoop.head| + |JsLoop.tail|) == 24
  {
    assert |JsLoopPrefix| == 15 && |JsLoopSuffix| == 41 && |JsLoop.head| == 20 && |JsLoop.tail| == 12;
  }

  /** Each Python rewrite removes 9 characters. */
  lemma PyOptimizedLength(code: string)
    ensures |GenerateOptimizedCode(code, "python")| == |code| - 9 * MatchCount(code, PyLoop)
  {
    PatternsValid();
    PyLoopShrink();
    var n := MatchCount(code, PyLoop);
    ReplaceMatchesLength(code, PyLoop, PyLoopPrefix, PyLoopSuffix);
    assert (n as int) * -9 == -9 * (n as int);
  }

  lemma PyLoopShrink()
    ensures (|PyLoopPrefix| + |PyLoopSuffix|) - (|PyLoop.head| + |PyLoop.tail|) == -9
  {
    assert |PyLoopPrefix| == 12 && |PyLoopSuffix| == 1 && |PyLoop.head| == 19 && |PyLoop.tail| == 3;
  }

  // ---------------------------------------------------------------------------
  // optimizeCode

  /** `optimizeCode` offers the rewrite as an edit only when it changes the text. */
  predicate OffersEdit(code: string, languageId: string)
  {
    GenerateOptimizedCode(code, languageId) != code
  }

  /** An edit is offered exactly when the language's loop pattern matches somewhere. */
  lemma OffersEditIffLoop(code: string, languageId: string)
    ensures OffersEdit(code, languageId) <==> HasLoopToRewrite(code, languageId)
  {
    PatternsValid();
    if IsJsOrTs(languageId) {
      JsOptimizedLength(code, languageId);
      MatchCountPositive(code, JsLoop);
      if MatchCount(code, JsLoop) == 0 {
        ReplaceMatchesNoMatch(code, JsLoop, JsLoopPrefix, JsLoopSuffix);
      }
    } else if languageId == "python" {
      PyOptimizedLength(code);
      MatchCountPositive(code, PyLoop);
      if MatchCount(code, PyLoop) == 0 {
        ReplaceMatchesNoMatch(code, PyLoop, PyLoopPrefix, PyLoopSuffix);
      }
    }
  }
}
