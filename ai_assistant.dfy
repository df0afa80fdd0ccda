/**
 * The text transforms of the AI assistant extension: HTML escaping for the
 * explanation view, the four canned refactorings, the sample-code generator,
 * the per-language comment generator and the list of refactoring suggestions.
 * Every "AI" result is a fixed template filled with the input.
 */
module AiAssistant {
  import opened Text
  import opened Wrappers

  // ---------------------------------------------------------------------------
  // escapeHtml

  /** `escapeHtml`: five global replacements, `&` first. */
  function EscapeHtml(text: string): string
  {
    var amp := ReplaceAll(text, "&", "&amp;");
    var lt := ReplaceAll(amp, "<", "&lt;");
    var gt := ReplaceAll(lt, ">", "&gt;");
    var quot := ReplaceAll(gt, "\"", "&quot;");
    ReplaceAll(quot, "'", "&#039;")
  }

  /** The characters that `escapeHtml` must not leave in its output. */
  predicate IsMarkupChar(c: char)
  {
    c == '<' || c == '>' || c == '"' || c == '\''
  }

  /** The entity one character becomes. */
  function EscapeChar(c: char): string
  {
    if c == '&' then "&amp;"
    else if c == '<' then "&lt;"
    else if c == '>' then "&gt;"
    else if c == '"' then "&quot;"
    else if c == '\'' then "&#039;"
    else [c]
  }

  /** An independent, character-by-character definition of the escaping. */
  function EscapeEach(s: string): string
    decreases |s|
  {
    if s == [] then [] else EscapeChar(s[0]) + EscapeEach(s[1..])
  }

  lemma EscapeHtmlConcat(a: string, b: string)
    ensures EscapeHtml(a + b) == EscapeHtml(a) + EscapeHtml(b)
  {
    var a1, b1 := ReplaceAll(a, "&", "&amp;"), ReplaceAll(b, "&", "&amp;");
    ReplaceCharConcat(a, b, '&', "&amp;");
    var a2, b2 := ReplaceAll(a1, "<", "&lt;"), ReplaceAll(b1, "<", "&lt;");
    ReplaceCharConcat(a1, b1, '<', "&lt;");
    var a3, b3 := ReplaceAll(a2, ">", "&gt;"), ReplaceAll(b2, ">", "&gt;");
    ReplaceCharConcat(a2, b2, '>', "&gt;");
    var a4, b4 := ReplaceAll(a3, "\"", "&quot;"), ReplaceAll(b3, "\"", "&quot;");
    ReplaceCharConcat(a3, b3, '"', "&quot;");
    ReplaceCharConcat(a4, b4, '\'', "&#039;");
  }

  /** The five passes map a single character to its entity. */
  lemma EscapeHtmlChar(c: char)
    ensures EscapeHtml([c]) == EscapeChar(c)
  {
    var s := [c];
    var amp := ReplaceAll(s, "&", "&amp;");
    if c == '&' {
      assert amp == "&amp;";
      ReplaceAbsentChar("&amp;", '<', "&lt;");
      ReplaceAbsentChar("&amp;", '>', "&gt;");
      ReplaceAbsentChar("&amp;", '"', "&quot;");
      ReplaceAbsentChar("&amp;", '\'', "&#039;");
    } else {
      ReplaceAbsentChar(s, '&', "&amp;");
      var lt := ReplaceAll(s, "<", "&lt;");
      if c == '<' {
        assert lt == "&lt;";
        ReplaceAbsentChar("&lt;", '>', "&gt;");
        ReplaceAbsentChar("&lt;", '"', "&quot;");
        ReplaceAbsentChar("&lt;", '\'', "&#039;");
      } else {
        ReplaceAbsentChar(s, '<', "&lt;");
        var gt := ReplaceAll(s, ">", "&gt;");
        if c == '>' {
          assert gt == "&gt;";
          ReplaceAbsentChar("&gt;", '"', "&quot;");
          ReplaceAbsentChar("&gt;", '\'', "&#039;");
        } else {
          ReplaceAbsentChar(s, '>', "&gt;");
          var quot := ReplaceAll(s, "\"", "&quot;");
          if c == '"' {
            assert quot == "&quot;";
            ReplaceAbsentChar("&quot;", '\'', "&#039;");
          } else {
            ReplaceAbsentChar(s, '"', "&quot;");
            if c != '\'' {
              ReplaceAbsentChar(s, '\'', "&#039;");
            }
          }
        }
      }
    }
  }

  /** Because `&` is replaced first, the chained replacements escape each character on its own. */
  lemma {:induction false} EscapeHtmlIsCharwise(s: string)
    ensures EscapeHtml(s) == EscapeEach(s)
    decreases |s|
  {
    if s == [] {
    } else {
      assert s == [s[0]] + s[1..];
      EscapeHtmlConcat([s[0]], s[1..]);
      EscapeHtmlChar(s[0]);
      EscapeHtmlIsCharwise(s[1..]);
    }
  }

  /** One of the five entities starts at index `i`. */
  predicate EntityAt(s: string, i: nat)
    requires i <= |s|
  {
    var t := s[i..];
    StartsWith(t, "&amp;") || StartsWith(t, "&lt;") || StartsWith(t, "&gt;")
    || StartsWith(t, "&quot;") || StartsWith(t, "&#039;")
  }

  /** The escaped form is safe: no markup character, and every `&` begins an entity. */
  predicate IsEscaped(s: string)
  {
    && (forall i :: 0 <= i < |s| ==> !IsMarkupChar(s[i]))
    && (forall i :: 0 <= i < |s| && s[i] == '&' ==> EntityAt(s, i))
  }

  lemma EscapedConcat(a: string, b: string)
    requires IsEscaped(a) && IsEscaped(b)
    ensures IsEscaped(a + b)
  {
    var s := a + b;
    forall i | 0 <= i < |s| && s[i] == '&'
      ensures EntityAt(s, i)
    {
      if i < |a| {
        assert EntityAt(a, i);
        var t, u := a[i..], s[i..];
        assert u == t + b;
        if StartsWith(t, "&amp;") { assert u[..5] == t[..5]; }
        if StartsWith(t, "&lt;") { assert u[..4] == t[..4]; }
        if StartsWith(t, "&gt;") { assert u[..4] == t[..4]; }
        if StartsWith(t, "&quot;") { assert u[..6] == t[..6]; }
        if StartsWith(t, "&#039;") { assert u[..6] == t[..6]; }
      } else {
        assert s[i] == b[i - |a|];
        assert s[i..] == b[i - |a|..];
      }
    }
  }

  lemma EscapedChar(c: char)
    ensures IsEscaped(EscapeChar(c))
  {
    var e := EscapeChar(c);
    if c == '&' || c == '<' || c == '>' || c == '"' || c == '\'' {
      assert e[0] == '&' && e[0..] == e;
      assert forall i :: 1 <= i < |e| ==> e[i] != '&' && !IsMarkupChar(e[i]);
    }
  }

  /** `escapeHtml` leaves no `<`, `>`, `"` or `'`, and every `&` in its output begins an entity. */
  lemma {:induction false} EscapeHtmlIsSafe(s: string)
    ensures IsEscaped(EscapeHtml(s))
    decreases |s|
  {
    EscapeHtmlIsCharwise(s);
    EscapeEachIsSafe(s);
  }

  lemma {:induction false} EscapeEachIsSafe(s: string)
    ensures IsEscaped(EscapeEach(s))
    decreases |s|
  {
    if s != [] {
      EscapedChar(s[0]);
      EscapeEachIsSafe(s[1..]);
      EscapedConcat(EscapeChar(s[0]), EscapeEach(s[1..]));
    }
  }

  /** Decoding of the five entities; any other character stands for itself. */
  function Unescape(s: string): string
    decreases |s|
  {
    if s == [] then []
    else if StartsWith(s, "&amp;") then "&" + Unescape(s[5..])
    else if StartsWith(s, "&lt;") then "<" + Unescape(s[4..])
    else if StartsWith(s, "&gt;") then ">" + Unescape(s[4..])
    else if StartsWith(s, "&quot;") then "\"" + Unescape(s[6..])
    else if StartsWith(s, "&#039;") then "'" + Unescape(s[6..])
    else [s[0]] + Unescape(s[1..])
  }

  lemma UnescapeAmp(rest: string)
    ensures Unescape("&amp;" + rest) == "&" + Unescape(rest)
  {
    var x := "&amp;" + rest;
    assert x[..5] == "&amp;" && x[5..] == rest;
  }

  lemma UnescapeLt(rest: string)
    ensures Unescape("&lt;" + rest) == "<" + Unescape(rest)
  {
    var x := "&lt;" + rest;
    assert x[1] == 'l';
    assert x[..4] == "&lt;" && x[4..] == rest;
  }

  lemma UnescapeGt(rest: string)
    ensures Unescape("&gt;" + rest) == ">" + Unescape(rest)
  {
    var x := "&gt;" + rest;
    assert x[1] == 'g' && x[2] == 't';
    assert x[..4] == "&gt;" && x[4..] == rest;
  }

  lemma UnescapeQuot(rest: string)
    ensures Unescape("&quot;" + rest) == "\"" + Unescape(rest)
  {
    var x := "&quot;" + rest;
    assert x[1] == 'q';
    assert x[..6] == "&quot;" && x[6..] == rest;
  }

  lemma UnescapeApos(rest: string)
    ensures Unescape("&#039;" + rest) == "'" + Unescape(rest)
  {
    var x := "&#039;" + rest;
    assert x[1] == '#';
    assert x[..6] == "&#039;" && x[6..] == rest;
  }

  lemma UnescapePlain(c: char, rest: string)
    requires c != '&'
    ensures Unescape([c] + rest) == [c] + Unescape(rest)
  {
    var x := [c] + rest;
    assert x[0] == c && x[1..] == rest;
    FirstCharMismatch(x, "&amp;");
    FirstCharMismatch(x, "&lt;");
    FirstCharMismatch(x, "&gt;");
    FirstCharMismatch(x, "&quot;");
    FirstCharMismatch(x, "&#039;");
  }

  lemma UnescapeChar(c: char, rest: string)
    ensures Unescape(EscapeChar(c) + rest) == [c] + Unescape(rest)
  {
    if c == '&' {
      UnescapeAmp(rest);
    } else if c == '<' {
      UnescapeLt(rest);
    } else if c == '>' {
      UnescapeGt(rest);
    } else if c == '"' {
      UnescapeQuot(rest);
    } else if c == '\'' {
      UnescapeApos(rest);
    } else {
      UnescapePlain(c, rest);
    }
  }

  /** Decoding the five entities recovers the text that was escaped. */
  lemma {:induction false} UnescapeEscapeHtml(s: string)
    ensures Unescape(EscapeHtml(s)) == s
  {
    EscapeHtmlIsCharwise(s);
    UnescapeEscapeEach(s);
  }

  lemma {:induction false} UnescapeEscapeEach(s: string)
    ensures Unescape(EscapeEach(s)) == s
    decreases |s|
  {
    if s != [] {
      UnescapeChar(s[0], EscapeEach(s[1..]));
      UnescapeEscapeEach(s[1..]);
      assert s == [s[0]] + s[1..];
    }
  }

  // ---------------------------------------------------------------------------
  // refactorSampleCode

  const ReadabilityHeader := "// Refactored for readability"
  const PerformanceHeader := "// Optimized for performance"
  const BugsHeader := "// Fixed bugs"
  const CommentsHeader := "// Added comments"

  /** Every line prefixed with `// `. */
  function CommentOut(lines: seq<string>): seq<string>
  {
    seq(|lines|, i requires 0 <= i < |lines| => "// " + lines[i])
  }

  /** `refactorSampleCode`: the refactoring chosen in the quick pick, by its label. */
  function RefactorSampleCode(code: string, refactorOption: string, languageId: string): string
  {
    if refactorOption == "Improve readability" then
      ReadabilityHeader + "\n" + ReadableBody(code)
    else if refactorOption == "Optimize performance" then
      PerformanceHeader + "\n" + code
    else if refactorOption == "Fix bugs" then
      BugsHeader + "\n" + code
    else if refactorOption == "Add comments" then
      CommentsHeader + "\n" + Join(CommentOut(Split(code, '\n')), "\n")
    else
      code
  }

  lemma HeadersAreOneLine()
    ensures '\n' !in ReadabilityHeader && '\n' !in CommentsHeader
  {
  }

  /** The collapsed, trimmed line "Improve readability" puts under its header. */
  function ReadableBody(code: string): string
  {
    Trim(ReplaceSpaceRuns(code, ' '))
  }

  /** The body is a single line: every `\s` character left in it is a plain space. */
  lemma ReadableBodyOneLine(code: string)
    ensures '\n' !in ReadableBody(code)
  {
    SpaceRunsNoNewline(code);
    TrimKeepsAbsent(ReplaceSpaceRuns(code, ' '), '\n');
  }

  /** The body has no two `\s` characters in a row. */
  lemma ReadableBodyNoDoubleSpace(code: string)
    ensures NoDoubleSpace(ReadableBody(code))
  {
    var collapsed := ReplaceSpaceRuns(code, ' ');
    SpaceRunsNoDouble(code, ' ');
    TrimSlice(collapsed);
    var k := |collapsed| - |TrimStart(collapsed)|;
    NoDoubleSpaceSlice(collapsed, k, k + |Trim(collapsed)|);
  }

  /** The body keeps the code's characters other than `\s`, in order. */
  lemma ReadableBodyKeepsText(code: string)
    ensures NonSpace(ReadableBody(code)) == NonSpace(code)
  {
    SpaceRunsKeepNonSpace(code, ' ');
    TrimKeepsNonSpace(ReplaceSpaceRuns(code, ' '));
  }

  /**
   * The body keeps the code's characters other than `\s`, in order, with no two
   * `\s` characters in a row and nothing blank at either end.
   */
  lemma ReadableBodyShape(code: string)
    ensures var body := ReadableBody(code);
            && NoDoubleSpace(body)
            && (body == [] || (!IsSpace(body[0]) && !IsSpace(body[|body| - 1])))
            && NonSpace(body) == NonSpace(code)
  {
    ReadableBodyNoDoubleSpace(code);
    ReadableBodyKeepsText(code);
    TrimEnds(ReplaceSpaceRuns(code, ' '));
  }

  /** "Improve readability" yields exactly two lines: its header and the readable body. */
  lemma ImproveReadability(code: string, languageId: string)
    ensures var r := RefactorSampleCode(code, "Improve readability", languageId);
            Split(r, '\n') == [ReadabilityHeader, ReadableBody(code)]
  {
    ReadableBodyOneLine(code);
    HeadersAreOneLine();
    SplitTwoLines(ReadabilityHeader, ReadableBody(code), '\n');
  }

  /** Undoes the `// ` prefix of "Add comments". */
  function Uncomment(line: string): string
  {
    if StartsWith(line, "// ") then line[3..] else line
  }

  lemma CommentOutLines(lines: seq<string>)
    requires forall i :: 0 <= i < |lines| ==> '\n' !in lines[i]
    requires lines != []
    ensures Split(Join(CommentOut(lines), "\n"), '\n') == CommentOut(lines)
  {
    var commented := CommentOut(lines);
    forall i | 0 <= i < |commented| ensures '\n' !in commented[i] {
      assert commented[i] == "// " + lines[i];
    }
    SplitJoin(commented, '\n');
  }

  lemma UncommentCommentOut(lines: seq<string>)
    ensures seq(|lines|, i requires 0 <= i < |lines| => Uncomment(CommentOut(lines)[i])) == lines
  {
    var commented := CommentOut(lines);
    forall i | 0 <= i < |lines| ensures Uncomment(commented[i]) == lines[i] {
      var l := commented[i];
      assert l == "// " + lines[i];
      assert l[..3] == "// ";
    }
  }

  /**
   * "Add comments" yields its header line followed by every line of the code
   * prefixed with `// `; removing the header and the prefixes gives the code back.
   */
  lemma AddComments(code: string, languageId: string)
    ensures var lines := Split(code, '\n');
            var out := Split(RefactorSampleCode(code, "Add comments", languageId), '\n');
            && |out| == |lines| + 1
            && out[0] == CommentsHeader
            && (forall i :: 0 <= i < |lines| ==> out[i + 1] == "// " + lines[i])
            && Join(seq(|lines|, i requires 0 <= i < |lines| => Uncomment(out[i + 1])), "\n") == code
  {
    CommentedCode(code, RefactorSampleCode(code, "Add comments", languageId));
  }

  /** The "Add comments" text, split into lines: the header, then every line commented out. */
  lemma CommentedCode(code: string, r: string)
    requires r == CommentsHeader + "\n" + Join(CommentOut(Split(code, '\n')), "\n")
    ensures var lines := Split(code, '\n');
            var out := Split(r, '\n');
            && |out| == |lines| + 1
            && out[0] == CommentsHeader
            && (forall i :: 0 <= i < |lines| ==> out[i + 1] == "// " + lines[i])
            && Join(seq(|lines|, i requires 0 <= i < |lines| => Uncomment(out[i + 1])), "\n") == code
  {
    var lines := Split(code, '\n');
    var commented := CommentOut(lines);
    CommentOutLines(lines);
    HeadersAreOneLine();
    SplitAfterLine(CommentsHeader, Join(commented, "\n"), '\n');
    CommentedLines(CommentsHeader, lines, Split(r, '\n'));
    JoinSplit(code, '\n');
  }

  /** A header line followed by the commented-out lines: uncommenting the rest gives the lines back. */
  lemma CommentedLines(header: string, lines: seq<string>, out: seq<string>)
    requires out == [header] + CommentOut(lines)
    ensures |out| == |lines| + 1 && out[0] == header
    ensures forall i :: 0 <= i < |lines| ==> out[i + 1] == "// " + lines[i]
    ensures seq(|lines|, i requires 0 <= i < |lines| => Uncomment(out[i + 1])) == lines
  {
    UncommentCommentOut(lines);
    assert seq(|lines|, i requires 0 <= i < |lines| => Uncomment(out[i + 1]))
        == seq(|lines|, i requires 0 <= i < |lines| => Uncomment(CommentOut(lines)[i]));
  }

  /** "Optimize performance" and "Fix bugs" add one header line and keep the code verbatim. */
  lemma VerbatimRefactorings(code: string, languageId: string)
    ensures var r := RefactorSampleCode(code, "Optimize performance", languageId);
            StartsWith(r, PerformanceHeader + "\n") && r[|PerformanceHeader| + 1..] == code
    ensures var r := RefactorSampleCode(code, "Fix bugs", languageId);
            StartsWith(r, BugsHeader + "\n") && r[|BugsHeader| + 1..] == code
  {
    var p := RefactorSampleCode(code, "Optimize performance", languageId);
    assert p == (PerformanceHeader + "\n") + code;
    var b := RefactorSampleCode(code, "Fix bugs", languageId);
    assert b == (BugsHeader + "\n") + code;
  }

  /** An option outside the quick pick's four labels returns the code unchanged. */
  lemma UnknownRefactoring(code: string, refactorOption: string, languageId: string)
    requires refactorOption !in ["Improve readability", "Optimize performance", "Fix bugs", "Add comments"]
    ensures RefactorSampleCode(code, refactorOption, languageId) == code
  {
  }

  // ---------------------------------------------------------------------------
  // generateSampleCode

  /** The comment marker of the generated sample's first line: `#` for Python, `//` otherwise. */
  function SampleCommentMarker(languageId: string): string
  {
    if languageId == "python" then "# " else "// "
  }

  /** The fixed program that follows the first line of the sample. */
  function SampleProgram(languageId: string): string
  {
    if languageId == "javascript" || languageId == "typescript" then
      "function exampleFunction() {\n    console.log('Hello, world!');\n    return true;\n}\n\nexport default exampleFunction;"
    else if languageId == "python" then
      "def example_function():\n    print(\"Hello, world!\")\n    return True\n\nif __name__ == \"__main__\":\n    example_function()"
    else if languageId == "java" then
      "public class Example {\n    public static void main(String[] args) {\n        System.out.println(\"Hello, world!\");\n    }\n}"
    else if languageId == "csharp" then
      "using System;\n\nclass Program {\n    static void Main(string[] args) {\n        Console.WriteLine(\"Hello, world!\");\n    }\n}"
    else
      "// Sample code in " + languageId + "\nconsole.log('Hello, world!');"
  }

  /**
   * `generateSampleCode`: a comment quoting the prompt, then the language's
   * fixed program (each switch case's template, split at its first line break).
   */
  function GenerateSampleCode(prompt: string, languageId: string): string
  {
    SampleCommentMarker(languageId) + "Generated code for: " + prompt + "\n" + SampleProgram(languageId)
  }

  /** The first line of every sample is a comment that quotes the prompt, and the program follows it. */
  lemma SampleFirstLine(prompt: string, languageId: string)
    requires '\n' !in prompt
    ensures var lines := Split(GenerateSampleCode(prompt, languageId), '\n');
            && lines[0] == SampleCommentMarker(languageId) + "Generated code for: " + prompt
            && lines[1..] == Split(SampleProgram(languageId), '\n')
  {
    var marker := SampleCommentMarker(languageId);
    var first := marker + "Generated code for: " + prompt;
    assert '\n' !in marker;
    assert '\n' !in "Generated code for: ";
    SplitAfterLine(first, SampleProgram(languageId), '\n');
  }

  // ---------------------------------------------------------------------------
  // generateCodeComments

  /** The four languages with a line-by-line comment generator. */
  datatype CommentLanguage = JavaScript | Python | Java | CSharp

  function CommentLanguageOf(languageId: string): Option<CommentLanguage>
  {
    if languageId == "javascript" || languageId == "typescript" then Some(JavaScript)
    else if languageId == "python" then Some(Python)
    else if languageId == "java" then Some(Java)
    else if languageId == "csharp" then Some(CSharp)
    else None
  }

  /**
   * One element of an anchored line pattern: `\s*`, `\s+`, a captured `\w+`,
   * or a literal.  In every pattern used here a quantified element is followed
   * by an element that cannot start with a character of its class, so the only
   * way the regular expression can match is by each element taking as much as
   * it can; the greedy scan below is therefore exact (`MatchLineExact` and
   * `MatchLineComplete`, against the division reading `Fits`).
   */
  datatype Token = Spaces | Spaces1 | Word | Lit(text: string)

  function WordCount(toks: seq<Token>): nat
  {
    if toks == [] then 0 else (if toks[0] == Word then 1 else 0) + WordCount(toks[1..])
  }

  /** A non-empty run of `\w` characters, as a `\w+` group captures. */
  predicate IsWord(s: string)
  {
    s != [] && forall i :: 0 <= i < |s| ==> IsWordChar(s[i])
  }

  /** The length of the leading run of `\w` characters. */
  function WordLength(s: string): (n: nat)
    ensures n <= |s|
    ensures forall i :: 0 <= i < n ==> IsWordChar(s[i])
    ensures n < |s| ==> !IsWordChar(s[n])
    decreases |s|
  {
    if s != [] && IsWordChar(s[0]) then 1 + WordLength(s[1..]) else 0
  }

  /** Matches the pattern at the start of `s`; on success, the words the `\w+` elements took. */
  function MatchLine(s: string, toks: seq<Token>): (r: Option<seq<string>>)
    ensures r.Some? ==> |r.value| == WordCount(toks)
    ensures r.Some? ==> forall k :: 0 <= k < |r.value| ==> IsWord(r.value[k])
    decreases |toks|
  {
    if toks == [] then Some([])
    else match toks[0]
      case Spaces => MatchLine(TrimStart(s), toks[1..])
      case Spaces1 => if s != [] && IsSpace(s[0]) then MatchLine(TrimStart(s), toks[1..]) else None
      case Lit(t) => if StartsWith(s, t) then MatchLine(s[|t|..], toks[1..]) else None
      case Word =>
        var n := WordLength(s);
        if n == 0 then None
        else match MatchLine(s[n..], toks[1..])
          case None => None
          case Some(words) =>
            Some([s[..n]] + words)
  }

  /** The word a successful match took at position `k`. */
  function Captured(line: string, toks: seq<Token>, k: nat): (r: Option<string>)
    ensures r.Some? ==> IsWord(r.value)
  {
    match MatchLine(line, toks)
    case Some(words) => if k < |words| then Some(words[k]) else None
    case None => None
  }

  // ---------------------------------------------------------------------------
  // The regular expression's own reading of a pattern

  /** A piece of the line that one element of the pattern may match. */
  predicate PieceFits(x: string, tok: Token)
  {
    match tok
    case Spaces => forall i :: 0 <= i < |x| ==> IsSpace(x[i])
    case Spaces1 => x != [] && forall i :: 0 <= i < |x| ==> IsSpace(x[i])
    case Word => IsWord(x)
    case Lit(t) => x == t
  }

  /**
   * `lens` divides a prefix of `s` into one piece per element, each piece
   * matching its element; the pattern is anchored only at the start, so
   * whatever follows the last piece is free.  The regular expression accepts
   * `s` exactly when some such division exists.
   */
  predicate Fits(s: string, toks: seq<Token>, lens: seq<nat>)
    decreases |toks|
  {
    |lens| == |toks|
    && (toks != [] ==>
          lens[0] <= |s| && PieceFits(s[..lens[0]], toks[0]) && Fits(s[lens[0]..], toks[1..], lens[1..]))
  }

  /** The pieces a division gives to the `\w+` elements, in order. */
  function Captures(s: string, toks: seq<Token>, lens: seq<nat>): seq<string>
    requires Fits(s, toks, lens)
    decreases |toks|
  {
    if toks == [] then []
    else (if toks[0] == Word then [s[..lens[0]]] else []) + Captures(s[lens[0]..], toks[1..], lens[1..])
  }

  /** Whatever matches `rest` starts with a character outside `\s`. */
  predicate NoLeadingSpace(rest: seq<Token>)
  {
    rest != [] && (rest[0] == Word || (rest[0].Lit? && rest[0].text != [] && !IsSpace(rest[0].text[0])))
  }

  /** A literal whose first character is outside both `\s` and `\w`. */
  predicate Punctuation(t: string)
  {
    t != [] && !IsSpace(t[0]) && !IsWordChar(t[0])
  }

  /** Whatever matches `rest`, when it is not empty, starts with a character outside `\w`. */
  predicate NoLeadingWordChar(rest: seq<Token>)
  {
    rest == [] || rest[0] == Spaces1
    || (rest[0].Lit? && Punctuation(rest[0].text))
    || (rest[0] == Spaces && |rest| > 1 && rest[1].Lit? && Punctuation(rest[1].text))
  }

  /**
   * Each `\s*` or `\s+` is followed by something that cannot start with
   * `\s`, and each `\w+` by something that cannot start with `\w` (or by
   * nothing): the shape every pattern of the generators has.
   */
  predicate Separated(toks: seq<Token>)
    decreases |toks|
  {
    toks == []
    || ((toks[0] == Spaces || toks[0] == Spaces1 ==> NoLeadingSpace(toks[1..]))
        && (toks[0] == Word ==> NoLeadingWordChar(toks[1..]))
        && Separated(toks[1..]))
  }

  /** The pattern ends with a `\w+`, which may stop short of the end of the word. */
  predicate EndsWithWord(toks: seq<Token>)
  {
    toks != [] && toks[|toks| - 1] == Word
  }

  /** The greedy scan's result is a division the regular expression allows. */
  lemma {:induction false} MatchLineSound(s: string, toks: seq<Token>) returns (lens: seq<nat>)
    requires MatchLine(s, toks).Some?
    ensures Fits(s, toks, lens) && Captures(s, toks, lens) == MatchLine(s, toks).value
    decreases |toks|
  {
    if toks == [] {
      lens := [];
    } else {
      TrimStartIsSuffix(s);
      TrimStartStripsSpace(s);
      var n: nat := match toks[0]
        case Spaces => |s| - |TrimStart(s)|
        case Spaces1 => |s| - |TrimStart(s)|
        case Lit(t) => |t|
        case Word => WordLength(s);
      var rest := s[n..];
      var tail := MatchLineSound(rest, toks[1..]);
      lens := [n] + tail;
      assert lens[1..] == tail;
    }
  }

  /** What the rest of a separated pattern matches from `k` on does not start with `\s`. */
  lemma NotSpaceAfterSpaces(s: string, k: nat, rest: seq<Token>, lens: seq<nat>)
    requires k <= |s| && NoLeadingSpace(rest) && Fits(s[k..], rest, lens)
    ensures k < |s| ==> !IsSpace(s[k])
  {
  }

  /** What the rest of a separated pattern matches from `k` on does not start with `\w`. */
  lemma NotWordAfterWord(s: string, k: nat, rest: seq<Token>, lens: seq<nat>)
    requires k <= |s| && NoLeadingWordChar(rest) && rest != [] && Fits(s[k..], rest, lens)
    ensures k < |s| ==> !IsWordChar(s[k])
  {
  }

  /**
   * Whenever the regular expression can match a separated pattern, the
   * greedy scan matches too, and each word it takes is the longest any
   * match could give (equal to it unless the word ends the pattern).
   */
  lemma {:induction false} MatchLineComplete(s: string, toks: seq<Token>, lens: seq<nat>)
    requires Separated(toks) && Fits(s, toks, lens)
    ensures MatchLine(s, toks).Some?
    ensures var w := MatchLine(s, toks).value; var v := Captures(s, toks, lens);
      |v| == |w| && (forall k :: 0 <= k < |v| ==> StartsWith(w[k], v[k]))
      && (!EndsWithWord(toks) ==> v == w)
    decreases |toks|, 1
  {
    if toks != [] {
      match toks[0]
      case Spaces => SpacesComplete(s, toks, lens);
      case Spaces1 => SpacesComplete(s, toks, lens);
      case Lit(t) => MatchLineComplete(s[lens[0]..], toks[1..], lens[1..]);
      case Word => WordComplete(s, toks, lens);
    }
  }

  /** `MatchLineComplete` for a pattern that starts with `\s*` or `\s+`. */
  lemma {:induction false} SpacesComplete(s: string, toks: seq<Token>, lens: seq<nat>)
    requires toks != [] && (toks[0] == Spaces || toks[0] == Spaces1)
    requires Separated(toks) && Fits(s, toks, lens)
    ensures MatchLine(s, toks).Some?
    ensures var w := MatchLine(s, toks).value; var v := Captures(s, toks, lens);
      |v| == |w| && (forall k :: 0 <= k < |v| ==> StartsWith(w[k], v[k]))
      && (!EndsWithWord(toks) ==> v == w)
    decreases |toks|, 0
  {
    var rest := toks[1..];
    assert EndsWithWord(toks) == EndsWithWord(rest);
    SpacesTakeAll(s, lens[0], rest, lens[1..]);
    MatchLineComplete(TrimStart(s), rest, lens[1..]);
    assert MatchLine(s, toks) == MatchLine(TrimStart(s), rest);
    assert Captures(s, toks, lens) == Captures(TrimStart(s), rest, lens[1..]);
  }

  /** `MatchLineComplete` for a pattern that starts with `\w+`. */
  lemma {:induction false} WordComplete(s: string, toks: seq<Token>, lens: seq<nat>)
    requires toks != [] && toks[0] == Word
    requires Separated(toks) && Fits(s, toks, lens)
    ensures MatchLine(s, toks).Some?
    ensures var w := MatchLine(s, toks).value; var v := Captures(s, toks, lens);
      |v| == |w| && (forall k :: 0 <= k < |v| ==> StartsWith(w[k], v[k]))
      && (!EndsWithWord(toks) ==> v == w)
    decreases |toks|, 0
  {
    var rest := toks[1..];
    WordTakesAtMost(s, lens[0]);
    if rest == [] {
      LastWordComplete(s, toks, lens);
    } else {
      var n := WordLength(s);
      assert EndsWithWord(toks) == EndsWithWord(rest);
      NotWordAfterWord(s, lens[0], rest, lens[1..]);
      MatchLineComplete(s[n..], rest, lens[1..]);
      var w := MatchLine(s[n..], rest).value;
      assert MatchLine(s, toks) == Some([s[..n]] + w);
      assert Captures(s, toks, lens) == [s[..n]] + Captures(s[n..], rest, lens[1..]);
    }
  }

  /** A `\w+` piece is no longer than the leading run of `\w`. */
  lemma WordTakesAtMost(s: string, k: nat)
    requires k <= |s| && IsWord(s[..k])
    ensures 0 < k <= WordLength(s)
  {
    assert forall i :: 0 <= i < k ==> s[..k][i] == s[i];
  }

  /** A `\w+` that ends the pattern: the scan takes the whole run, of which any match's piece is a prefix. */
  lemma LastWordComplete(s: string, toks: seq<Token>, lens: seq<nat>)
    requires toks == [Word] && Fits(s, toks, lens) && 0 < lens[0] <= WordLength(s)
    ensures MatchLine(s, toks) == Some([s[..WordLength(s)]])
    ensures Captures(s, toks, lens) == [s[..lens[0]]]
    ensures StartsWith(s[..WordLength(s)], s[..lens[0]])
  {
    var n := WordLength(s);
    assert toks[1..] == [];
    assert MatchLine(s[n..], toks[1..]) == Some([]);
    assert [s[..n]] + [] == [s[..n]];
    assert s[..n][..lens[0]] == s[..lens[0]];
  }

  /** A `\s*` or `\s+` followed by a separated rest matches the whole leading run of `\s`. */
  lemma SpacesTakeAll(s: string, k: nat, rest: seq<Token>, lens: seq<nat>)
    requires k <= |s| && forall i :: 0 <= i < k ==> IsSpace(s[i])
    requires NoLeadingSpace(rest) && Fits(s[k..], rest, lens)
    ensures TrimStart(s) == s[k..]
  {
    TrimStartIsSuffix(s);
    TrimStartStripsSpace(s);
    var m := |s| - |TrimStart(s)|;
    assert k <= m by {
      assert m < |s| ==> TrimStart(s)[0] == s[m];
    }
    NotSpaceAfterSpaces(s, k, rest, lens);
  }

  /** For a separated pattern, the greedy scan accepts exactly the lines the regular expression accepts. */
  lemma MatchLineExact(s: string, toks: seq<Token>)
    requires Separated(toks)
    ensures MatchLine(s, toks).Some? ==> exists lens :: Fits(s, toks, lens)
    ensures (exists lens :: Fits(s, toks, lens)) ==> MatchLine(s, toks).Some?
  {
    if exists lens :: Fits(s, toks, lens) {
      var lens :| Fits(s, toks, lens);
      MatchLineComplete(s, toks, lens);
    }
    if MatchLine(s, toks).Some? {
      var lens := MatchLineSound(s, toks);
      assert Fits(s, toks, lens);
    }
  }

  // JavaScript and TypeScript
  const JsFunction := [Spaces, Lit("function"), Spaces1, Word, Spaces, Lit("(")]
  const JsClass := [Spaces, Lit("class"), Spaces1, Word]
  const JsConst := [Spaces, Lit("const"), Spaces1, Word, Spaces, Lit("=")]
  // Python
  const PyDef := [Spaces, Lit("def"), Spaces1, Word, Spaces, Lit("(")]
  const PyClass := [Spaces, Lit("class"), Spaces1, Word]
  const PyAssign := [Spaces, Word, Spaces, Lit("=")]
  /** `/^(\w+)\s*=/`: the variable name is captured only when the line is not indented. */
  const PyAssignName := [Word, Spaces, Lit("=")]
  // Java and C#
  const JavaClass := [Spaces, Lit("public"), Spaces1, Lit("class"), Spaces1, Word]
  const CsClass := [Spaces, Lit("class"), Spaces1, Word]
  const PublicMethod := [Spaces, Lit("public"), Spaces1, Word, Spaces1, Word, Spaces, Lit("(")]
  const PrivateField := [Spaces, Lit("private"), Spaces1, Word, Spaces1, Word, Spaces, Lit("=")]

  /** The function patterns are separated, so the greedy scan is exact for them. */
  lemma FunctionPatternsSeparated()
    ensures Separated(JsFunction) && Separated(PyDef)
  {
  }

  /** The class patterns are separated, so the greedy scan is exact for them. */
  lemma ClassPatternsSeparated()
    ensures Separated(JsClass) && Separated(PyClass) && Separated(JavaClass) && Separated(CsClass)
  {
  }

  /** The assignment patterns are separated, so the greedy scan is exact for them. */
  lemma AssignPatternsSeparated()
    ensures Separated(JsConst) && Separated(PyAssign) && Separated(PyAssignName)
  {
  }

  /** The public-method pattern of Java and C# is separated, so the greedy scan is exact for it. */
  lemma PublicMethodSeparated()
    ensures Separated(PublicMethod)
  {
  }

  /** The private-field pattern of Java and C# is separated, so the greedy scan is exact for it. */
  lemma PrivateFieldSeparated()
    ensures Separated(PrivateField)
  {
  }

  /** The header lines written above the code. */
  function CommentHeader(lang: CommentLanguage): seq<string>
  {
    match lang
    case JavaScript =>
      ["/**", " * Generated by AI Assistant", " * Purpose: Code implementation",
       " * Language: JavaScript/TypeScript", " */", ""]
    case Python =>
      ["\"\"\"", "Generated by AI Assistant", "Purpose: Code implementation",
       "Language: Python", "\"\"\"", ""]
    case Java =>
      ["/**", " * Generated by AI Assistant", " * Purpose: Code implementation",
       " * Language: Java", " */", ""]
    case CSharp =>
      ["/// <summary>", "/// Generated by AI Assistant", "/// Purpose: Code implementation",
       "/// Language: C#", "/// </summary>", ""]
  }

  /** The comment blocks the generators write above a recognised line. */
  datatype Doc =
    | JsFunctionDoc    // a JavaScript function
    | ClassDoc         // a JavaScript or Java class
    | PyFunctionDoc    // a Python `def`
    | PyClassDoc       // a Python class
    | JavaMethodDoc    // a Java public method
    | CsClassDoc       // a C# class
    | CsMethodDoc      // a C# public method
    | SlashNote        // a one-line variable note after `// `
    | HashNote         // a one-line variable note after `# `

  /** The lines of a comment block about the declaration called `name`. */
  function DocLines(doc: Doc, name: string): seq<string>
  {
    match doc
    case JsFunctionDoc =>
      ["/**", " * " + name + " function", " * @description Performs a specific task",
       " * @returns {*} Result of the function", " */"]
    case ClassDoc => ["/**", " * " + name + " class", " * @description Represents a " + name, " */"]
    case PyFunctionDoc =>
      ["\"\"\"", name + " function", "", "Description:", "    Performs a specific task", "",
       "Returns:", "    * Result of the function", "\"\"\""]
    case PyClassDoc => ["\"\"\"", name + " class", "", "Description:", "    Represents a " + name, "\"\"\""]
    case JavaMethodDoc =>
      ["/**", " * " + name + " method", " * @description Performs a specific task",
       " * @returns Result of the method", " */"]
    case CsClassDoc =>
      ["/// <summary>", "/// " + name + " class", "/// </summary>", "/// <remarks>",
       "/// Represents a " + name, "/// </remarks>"]
    case CsMethodDoc =>
      ["/// <summary>", "/// " + name + " method", "/// </summary>", "/// <returns>",
       "/// Result of the method", "/// </returns>"]
    case SlashNote => ["// " + name + " - Variable declaration"]
    case HashNote => ["# " + name + " - Variable declaration"]
  }

  /**
   * Which block, if any, the generator writes above `line`, and the name it
   * puts in it.  The patterns are tried in the source's order and the first
   * that matches decides.  Each name is taken by a second, unanchored regular
   * expression; on a line the first pattern accepts, its leftmost match takes
   * the same word the first pattern's `\w+` took, except for Python's
   * assignment, whose name pattern is anchored at the line start.
   */
  function Recognize(lang: CommentLanguage, line: string): Option<(Doc, string)>
  {
    match lang
    case JavaScript =>
      (match Captured(line, JsFunction, 0)
       case Some(name) => Some((JsFunctionDoc, name))
       case None =>
         match Captured(line, JsClass, 0)
         case Some(name) => Some((ClassDoc, name))
         case None =>
           match Captured(line, JsConst, 0)
           case Some(name) => Some((SlashNote, name))
           case None => None)
    case Python =>
      (match Captured(line, PyDef, 0)
       case Some(name) => Some((PyFunctionDoc, name))
       case None =>
         match Captured(line, PyClass, 0)
         case Some(name) => Some((PyClassDoc, name))
         case None =>
           if MatchLine(line, PyAssign).Some? then
             Some((HashNote, PyVariableName(line)))
           else None)
    case Java =>
      (match Captured(line, JavaClass, 0)
       case Some(name) => Some((ClassDoc, name))
       case None =>
         match Captured(line, PublicMethod, 1)
         case Some(name) => Some((JavaMethodDoc, name))
         case None =>
           match Captured(line, PrivateField, 1)
           case Some(name) => Some((SlashNote, name))
           case None => None)
    case CSharp =>
      (match Captured(line, CsClass, 0)
       case Some(name) => Some((CsClassDoc, name))
       case None =>
         match Captured(line, PublicMethod, 1)
         case Some(name) => Some((CsMethodDoc, name))
         case None =>
           match Captured(line, PrivateField, 1)
           case Some(name) => Some((SlashNote, name))
           case None => None)
  }

  /** `/^(\w+)\s*=/` names the variable only on an unindented line; otherwise the note says `variable`. */
  function PyVariableName(line: string): (name: string)
    ensures name != []
  {
    match Captured(line, PyAssignName, 0)
    case Some(n) => n
    case None => "variable"
  }

  /** The comment lines the generator puts above one source line: none when the line is not recognised. */
  function Annotation(lang: CommentLanguage, line: string): seq<string>
  {
    match Recognize(lang, line)
    case None => []
    case Some((doc, name)) => DocLines(doc, name)
  }

  /** The text one source line becomes: its comment block, then the line itself. */
  function CommentLine(lang: CommentLanguage, line: string): string
  {
    Join(Group(lang, line), "\n")
  }

  /** `generateCodeComments`. */
  function GenerateCodeComments(code: string, languageId: string): string
  {
    match CommentLanguageOf(languageId)
    case None => "// Generated comments for " + languageId + "\n" + code
    case Some(lang) =>
      var lines := Split(code, '\n');
      Join(CommentHeader(lang), "\n") + "\n"
      + Join(seq(|lines|, i requires 0 <= i < |lines| => CommentLine(lang, lines[i])), "\n")
  }

  /** A language without a generator keeps the code verbatim after one header line. */
  lemma CommentsForUnknownLanguage(code: string, languageId: string)
    requires CommentLanguageOf(languageId).None?
    ensures var header := "// Generated comments for " + languageId;
            var r := GenerateCodeComments(code, languageId);
            StartsWith(r, header + "\n") && r[|header| + 1..] == code
  {
    var header := "// Generated comments for " + languageId;
    assert GenerateCodeComments(code, languageId) == (header + "\n") + code;
  }

  /** A line that matches none of the patterns is emitted as itself. */
  lemma PlainLineUnchanged(lang: CommentLanguage, line: string)
    requires Annotation(lang, line) == []
    ensures CommentLine(lang, line) == line
  {
    assert Annotation(lang, line) + [line] == [line];
  }

  /** The lines one source line becomes: its comment block, then the line itself. */
  function Group(lang: CommentLanguage, line: string): seq<string>
  {
    Annotation(lang, line) + [line]
  }

  /**
   * For a language with a generator, the output is the header lines followed,
   * for every input line in order, by its comment lines and then the input
   * line itself, unchanged, all joined by line breaks.
   */
  lemma CommentsKeepEveryLine(code: string, languageId: string)
    requires CommentLanguageOf(languageId).Some?
    ensures var lang := CommentLanguageOf(languageId).value;
            var lines := Split(code, '\n');
            GenerateCodeComments(code, languageId)
            == Join(CommentHeader(lang) + Flatten(seq(|lines|, i requires 0 <= i < |lines| => Group(lang, lines[i]))), "\n")
  {
    var lang := CommentLanguageOf(languageId).value;
    GroupsJoin(CommentHeader(lang), lang, Split(code, '\n'));
  }

  /** Joining the header lines and the comment blocks, one per line, is joining all their lines. */
  lemma GroupsJoin(header: seq<string>, lang: CommentLanguage, lines: seq<string>)
    requires header != [] && lines != []
    ensures Join(header, "\n") + "\n" + Join(seq(|lines|, i requires 0 <= i < |lines| => CommentLine(lang, lines[i])), "\n")
            == Join(header + Flatten(seq(|lines|, i requires 0 <= i < |lines| => Group(lang, lines[i]))), "\n")
  {
    var groups := seq(|lines|, i requires 0 <= i < |lines| => Group(lang, lines[i]));
    JoinFlatten(groups, "\n");
    assert seq(|groups|, i requires 0 <= i < |groups| => Join(groups[i], "\n"))
        == seq(|lines|, i requires 0 <= i < |lines| => CommentLine(lang, lines[i]));
    JoinAppend(header, Flatten(groups), "\n");
  }

  /** When no line is recognised, the output is the header lines and then the code, verbatim. */
  lemma CommentsOnPlainCode(code: string, languageId: string)
    requires CommentLanguageOf(languageId).Some?
    requires forall line :: line in Split(code, '\n') ==> Annotation(CommentLanguageOf(languageId).value, line) == []
    ensures GenerateCodeComments(code, languageId)
            == Join(CommentHeader(CommentLanguageOf(languageId).value), "\n") + "\n" + code
  {
    var lang := CommentLanguageOf(languageId).value;
    var lines := Split(code, '\n');
    var blocks := seq(|lines|, i requires 0 <= i < |lines| => CommentLine(lang, lines[i]));
    forall i | 0 <= i < |lines| ensures blocks[i] == lines[i] {
      PlainLineUnchanged(lang, lines[i]);
    }
    assert blocks == lines;
    JoinSplit(code, '\n');
  }

  // ---------------------------------------------------------------------------
  // generateRefactorSuggestions

  /** The suggestion cards the refactoring view can show. */
  datatype Suggestion =
    | ExtractRepeatedCode | ImproveVariableNaming | SimplifyComplexConditions
    | UseArrowFunctions | UseDestructuring
    | UseListComprehensions | UseContextManagers
    | UseStringBuilder | UseTryWithResources
    | UseStringInterpolation | UseUsingStatements

  /** A card's heading, without its number. */
  function Heading(s: Suggestion): string
  {
    match s
    case ExtractRepeatedCode => "Extract Repeated Code"
    case ImproveVariableNaming => "Improve Variable Naming"
    case SimplifyComplexConditions => "Simplify Complex Conditions"
    case UseArrowFunctions => "Use Arrow Functions"
    case UseDestructuring => "Use Destructuring"
    case UseListComprehensions => "Use List Comprehensions"
    case UseContextManagers => "Use Context Managers"
    case UseStringBuilder => "Use StringBuilder for String Concatenation"
    case UseTryWithResources => "Use Try-With-Resources"
    case UseStringInterpolation => "Use String Interpolation"
    case UseUsingStatements => "Use Using Statements"
  }

  /** The heading as the card shows it: its number, a dot and the heading text. */
  function Title(s: Suggestion): string
  {
    NatToString(Rank(s)) + ". " + Heading(s)
  }

  /** A card's explanation. */
  function Detail(s: Suggestion): string
  {
    match s
    case ExtractRepeatedCode => "Identify and extract repeated code patterns into reusable functions or methods."
    case ImproveVariableNaming => "Use more descriptive and meaningful variable names to enhance code readability."
    case SimplifyComplexConditions => "Break down complex conditional statements into smaller, more manageable parts."
    case UseArrowFunctions =>
      "Consider using arrow functions for concise function definitions, especially for callbacks."
    case UseDestructuring => "Utilize destructuring assignment for cleaner and more concise code."
    case UseListComprehensions =>
      "Consider using list comprehensions for more concise and readable code when working with lists."
    case UseContextManagers => "Utilize context managers (with statements) for resource management."
    case UseStringBuilder => "Use StringBuilder instead of String concatenation in loops for better performance."
    case UseTryWithResources => "Utilize try-with-resources statements for automatic resource management."
    case UseStringInterpolation => "Consider using string interpolation for more readable string formatting."
    case UseUsingStatements => "Utilize using statements for automatic resource disposal."
  }

  /** The three cards every language gets, in order. */
  const CommonSuggestions := [ExtractRepeatedCode, ImproveVariableNaming, SimplifyComplexConditions]

  /** The two cards of a language the switch knows; none for any other language. */
  function LanguageSuggestions(languageId: string): seq<Suggestion>
  {
    if languageId == "javascript" || languageId == "typescript" then [UseArrowFunctions, UseDestructuring]
    else if languageId == "python" then [UseListComprehensions, UseContextManagers]
    else if languageId == "java" then [UseStringBuilder, UseTryWithResources]
    else if languageId == "csharp" then [UseStringInterpolation, UseUsingStatements]
    else []
  }

  /** The languages that get two suggestions of their own. */
  predicate HasLanguageSuggestions(languageId: string)
  {
    languageId in ["javascript", "typescript", "python", "java", "csharp"]
  }

  /**
   * `generateRefactorSuggestions`: the three common cards, then two more for a
   * language the switch knows.  The HTML each card is rendered into is not
   * modelled; a card's position is the argument its button passes to
   * `applySuggestion`.
   */
  method GenerateRefactorSuggestions(code: string, languageId: string) returns (suggestions: seq<Suggestion>)
    ensures suggestions == CommonSuggestions + LanguageSuggestions(languageId)
    ensures |suggestions| == if HasLanguageSuggestions(languageId) then 5 else 3
    ensures forall i, j :: 0 <= i < j < |suggestions| ==> suggestions[i] != suggestions[j]
  {
    suggestions := [];
    suggestions := suggestions + CommonSuggestions;
    if languageId == "javascript" || languageId == "typescript" {
      suggestions := suggestions + [UseArrowFunctions, UseDestructuring];
    } else if languageId == "python" {
      suggestions := suggestions + [UseListComprehensions, UseContextManagers];
    } else if languageId == "java" {
      suggestions := suggestions + [UseStringBuilder, UseTryWithResources];
    } else if languageId == "csharp" {
      suggestions := suggestions + [UseStringInterpolation, UseUsingStatements];
    }
  }

  /** The number a card's heading starts with. */
  function Rank(s: Suggestion): nat
  {
    match s
    case ExtractRepeatedCode => 1
    case ImproveVariableNaming => 2
    case SimplifyComplexConditions => 3
    case UseArrowFunctions | UseListComprehensions | UseStringBuilder | UseStringInterpolation => 4
    case UseDestructuring | UseContextManagers | UseTryWithResources | UseUsingStatements => 5
  }

  /** The cards a language gets are numbered 1, 2, 3, ... in the order they are shown. */
  lemma SuggestionNumbering(languageId: string, i: nat)
    requires i < |CommonSuggestions + LanguageSuggestions(languageId)|
    ensures var s := (CommonSuggestions + LanguageSuggestions(languageId))[i];
            Title(s) == NatToString(i + 1) + ". " + Heading(s)
  {
    var s := (CommonSuggestions + LanguageSuggestions(languageId))[i];
    assert Rank(s) == i + 1;
  }
}
