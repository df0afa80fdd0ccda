# A Dafny model of five developer-tool VS Code extensions

The repository is a pack of VS Code extensions. Most of their code is command
registration, quick-picks, progress bars and HTML webviews. Underneath are a
few pieces with real behaviour, and this project models those:

- **devops-tools** (`DevOps`, `devops_tools.dfy`) keeps three lists in memory:
  pipelines, deployments and environments. Its commands prepend, append,
  filter and update records. Pipelines go from running or pending to success.
  Deployments go from deploying to deployed to rolled back. An environment
  goes to maintenance and then back online. `DevOps.DevOpsTools` is a class
  with the three lists as `seq` fields. Each command is a method whose
  `ensures` gives the whole new state.
- **code-generation-tools** (`CodeGeneration`, `code_generation.dfy`, and
  `CodeGenerationNames`, `code_names.dfy`) stores templates in memory and as
  `<id>.json` files. It loads, saves, imports, edits and deletes them, and builds
  the default export name. Its documentation command extracts function and class
  names with global regular expressions and removes duplicates through a `Set`.
  `CodeGeneration.TemplateStore` is a class.
  Its `dir` field, a map from file name to parsed content, stands for the
  templates directory.
- **ai-assistant** (`AiAssistant`, `ai_assistant.dfy`) covers:
  - HTML escaping for the explanation view;
  - the four canned refactorings;
  - the sample-code generator;
  - the line-by-line comment generator for JavaScript/TypeScript, Python, Java and C#;
  - the list of refactoring suggestion cards.
- **database-tools** (`DatabaseTools`, `database_tools.dfy`) has two parts.
  One rewrites a SQL query with two regular-expression replacements. The other
  gives rule-by-rule optimisation suggestions.
- **performance-tools** (`PerformanceTools`, `performance_tools.dfy`) lists
  performance issues with per-language substring rules. It rewrites loops with
  regular-expression replacements, and offers the rewrite as an edit only when
  the rewrite changes the text.

Shared modules:

- `Text` (`text.dfy`) defines the JavaScript string operations these extensions
  use:
  - `includes`, `indexOf` and `lastIndexOf`;
  - global replacement of a literal;
  - `split` and `join`;
  - `trim`;
  - the `\s` and `\w` classes and line terminators;
  - `/\s+/g` replacement;
  - ASCII `toLowerCase`; decimal printing; UTF-16 length.
- `Capture` (`capture.dfy`) defines global replacement with a regular
  expression of the shape `head([^c]+)tail`.
- `Wrappers` (`wrappers.dfy`) holds `Option` and `Result`.

Regular expressions are modelled by deterministic scanners. Each module's
header comment argues why the scanner finds exactly what the regular
expression matches, and where several matches are possible, each scanner
picks the one JavaScript's backtracking picks:
- in `WHERE (.*) AND (.*)` the greedy `(.*)` takes the last ` AND ` of the
  line (`AndSplit`);
- in the arrow-function alternatives the lazy `\(.*?\)` takes the first `)`
  followed by `\s*=>` (`LazyArrow`);
- in `head([^c]+)tail` the class can continue into the tail, and the match is
  unique only because the tail contains `c`, so the capture ends before the
  first `c` after the head (`MatchAtComplete`).

In the line patterns of the comment generator and the identifier groups, a
quantified element is followed by something its class cannot continue, so
only one match is possible. For the line patterns this is proved. `Fits` is the regular
expression's own reading: some division of the line's start into one piece per
element. A pattern is separated (`Separated`) when each `\s*` or `\s+` is
followed by something that cannot begin with `\s`, and each `\w+` by
something that cannot begin with `\w`, or by nothing. For separated patterns,
`MatchLineExact` shows the scan accepts exactly those lines, and
`MatchLineComplete` shows each word it takes is the longest any division gives.
All eleven patterns are separated.

Two behaviours of the code are modelled as written:

- The JavaScript loop rewrite in performance-tools does not consume the
  loop's own `)`, while its replacement ends in `i++)`, so the rewritten
  loop has an extra `)`. This is what the code does, and `JsLoopRewrite`
  states it.
- Deleting a template removes its file with `fs.unlinkSync`. This throws when
  the file is missing, and the command then stops; the model keeps the state
  unchanged in that case.

User answers become parameters:

- `Option<string>` for an input box; `None` is a dismissed box.
- `Option<nat>` for a quick pick, as the index of the chosen item.
- `bool` for a confirmation.

JavaScript truthiness is modelled: an empty answer counts as cancelled.
Clocks and random draws are parameters.

## Model

| member | source | states |
|---|---|---|
| Text.IndexOf | extensions/database-tools/src/extension.ts:345 | the result is the leftmost position where the pattern occurs; `None` exactly when it occurs nowhere |
| Text.LastIndexOf | extensions/database-tools/src/extension.ts:345 | the result is the rightmost position where the pattern occurs; `None` exactly when it occurs nowhere |
| Text.ReplaceAllLength | extensions/database-tools/src/extension.ts:344 | a global literal replacement changes the length by (replacement length − pattern length) per non-overlapping occurrence |
| Text.OccurrencesIffContains | extensions/database-tools/src/extension.ts:344 | the left-to-right scan counts an occurrence exactly when the text contains the pattern |
| Text.ReplaceAllUnchanged | extensions/database-tools/src/extension.ts:344 | replacing a pattern that does not occur leaves the text as it is |
| Text.ReplaceAllRemoves | extensions/database-tools/src/extension.ts:344 | when the replacement cannot rebuild the pattern with its surroundings, the pattern no longer occurs after a global replacement |
| Text.SplitCount | extensions/ai-assistant/src/extension.ts:252 | `split` gives one more piece than there are separators |
| Text.JoinSplit | extensions/ai-assistant/src/extension.ts:252 | joining the pieces of `split` with the same separator gives the text back |
| Text.SplitJoin | extensions/ai-assistant/src/extension.ts:252 | splitting lines that hold no separator after joining them gives the lines back |
| Text.TrimEnds | extensions/ai-assistant/src/extension.ts:246 | a trimmed text is empty or starts and ends with a non-`\s` character |
| Text.TrimIdempotent | extensions/code-generation-tools/src/extension.ts:287 | trimming twice is trimming once |
| Text.SpaceRunsNoDouble | extensions/ai-assistant/src/extension.ts:246 | after `replace(/\s+/g, ' ')` no two `\s` characters are adjacent |
| Text.SpaceRunsKeepNonSpace | extensions/ai-assistant/src/extension.ts:246 | `replace(/\s+/g, ' ')` keeps every non-`\s` character, in order |
| Text.SpaceRunsIdentity | extensions/code-generation-tools/src/extension.ts:514 | a text without `\s` is unchanged by replacing `\s` runs |
| Text.ToLower | extensions/code-generation-tools/src/extension.ts:514 | lower-casing keeps the length and maps each character on its own |
| Text.ToLowerConcat | extensions/code-generation-tools/src/extension.ts:514 | lower-casing works on each part of a text separately |
| Text.TrimStartOfRun | extensions/code-generation-tools/src/extension.ts:514 | removing the leading `\s` from a run followed by another character leaves the rest |
| Text.SpaceRunsFirstRun | extensions/code-generation-tools/src/extension.ts:514 | after a `\s`-free prefix, the first maximal `\s` run becomes one replacement character and the rest is collapsed on its own (`/\s+/g` run by run) |
| Text.Utf16Length | extensions/performance-tools/src/extension.ts:115 | `code.length` counts UTF-16 code units: between one and two per character |
| Capture.MatchAtSound | extensions/performance-tools/src/extension.ts:174-177 | a capture found at a position is a non-empty run without the stop character, and head, capture and tail spell the text there |
| Capture.MatchAtComplete | extensions/performance-tools/src/extension.ts:174-177 | every run that the pattern can match at a position is the one found, so the match is unique |
| Capture.ReplaceMatchesLength | extensions/performance-tools/src/extension.ts:174-177 | the global replacement changes the length by a fixed amount per match |
| Capture.MatchCountPositive | extensions/performance-tools/src/extension.ts:174-177 | the scan replaces something exactly when the pattern matches at some position |
| Capture.ReplaceMatchesNoMatch | extensions/performance-tools/src/extension.ts:174-177 | with no match, the text is returned unchanged |
| Capture.ReplaceMatchesUnchanged | extensions/performance-tools/src/extension.ts:174-177 | a text without the pattern's head has no match and is returned unchanged |
| Capture.ReplaceLeadingMatch | extensions/performance-tools/src/extension.ts:174-177 | a match at the start is replaced with the capture put between the replacement's parts, and the scan continues after it |
| Capture.ReplaceOneMatch | extensions/performance-tools/src/extension.ts:174-177 | a text that is exactly one match becomes the replacement around the capture |
| PerformanceTools.LanguageIssues | extensions/performance-tools/src/extension.ts:85-113 | the switch reports an issue exactly when its rule fires for the language; issues come in rule order, at most three |
| PerformanceTools.IdentifyPerformanceIssues | extensions/performance-tools/src/extension.ts:82-120 | an issue is listed exactly when its rule fires, in rule order, at most four; the large-file issue appears exactly when `code.length > 10000` and is then last; other languages get only that issue; the two Java issues exclude each other |
| PerformanceTools.OtherLanguagesUnchanged | extensions/performance-tools/src/extension.ts:168-182 | languages other than JavaScript, TypeScript and Python get the code back unchanged |
| PerformanceTools.PythonLoopRewrite | extensions/performance-tools/src/extension.ts:177 | `for i in range(len(X)):` becomes `for item in X:` when X has no `)`, and the rest is rewritten in turn |
| PerformanceTools.JsLoopRewrite | extensions/performance-tools/src/extension.ts:174 | `for (let i = 0; i < X.length; i++` becomes `const length = X.length;` and a new loop head ending in `i++)`, followed by the unconsumed rest |
| PerformanceTools.JsOptimizedLength | extensions/performance-tools/src/extension.ts:174 | each JavaScript loop rewrite adds 24 characters |
| PerformanceTools.PyOptimizedLength | extensions/performance-tools/src/extension.ts:177 | each Python loop rewrite removes 9 characters |
| PerformanceTools.OffersEditIffLoop | extensions/performance-tools/src/extension.ts:146-147 | an edit is offered exactly when the language's loop pattern matches somewhere in the code |
| PerformanceTools.GenerateOptimizedCode | extensions/performance-tools/src/extension.ts:168-182 | defined as the language's one global loop replacement (JavaScript and TypeScript, or Python), and the code itself for any other language; its meaning is stated by `JsLoopRewrite`, `PythonLoopRewrite`, the two length lemmas and `OtherLanguagesUnchanged` |
| PerformanceTools.OffersEdit | extensions/performance-tools/src/extension.ts:146-147 | defined as "the optimized text differs from the code"; `OffersEditIffLoop` states when that holds |
| DatabaseTools.ExpandSelectStarRemovesAll | extensions/database-tools/src/extension.ts:344 | after step one no `SELECT *` is left; each one found adds 14 characters; the query is unchanged exactly when it has no `SELECT *` |
| DatabaseTools.AndSplitMatches | extensions/database-tools/src/extension.ts:345 | a line is rewritten exactly when `WHERE ` occurs with ` AND ` at or after its end; the break goes before the last ` AND ` of the line |
| DatabaseTools.RewriteLine | extensions/database-tools/src/extension.ts:345 | a matching line gets a line break and a space inserted before the chosen ` AND `; any other line is unchanged |
| DatabaseTools.LineEndFrom | extensions/database-tools/src/extension.ts:345 | the result is the first line terminator at or after the start, where `.` stops matching |
| DatabaseTools.RewriteWhereLineByLine | extensions/database-tools/src/extension.ts:345 | step two rewrites a line and its terminator without regard to what follows |
| DatabaseTools.RewriteWhereOneLine | extensions/database-tools/src/extension.ts:345 | on text of one line, step two is the one-line rewrite |
| DatabaseTools.RewriteLineUnchanged | extensions/database-tools/src/extension.ts:345 | a line without `WHERE ` or without ` AND ` is left as it is |
| DatabaseTools.RewriteWhereUnchanged | extensions/database-tools/src/extension.ts:345 | a query without `WHERE ` or without ` AND ` is left as it is by step two |
| DatabaseTools.OptimizeSqlQueryUnchanged | extensions/database-tools/src/extension.ts:342-347 | a query with no `SELECT *` and lacking either keyword is returned unchanged |
| DatabaseTools.OptimizeSqlQuery | extensions/database-tools/src/extension.ts:342-347 | defined as the `SELECT *` expansion followed by the `WHERE … AND …` line rewrite; the lemmas on `ExpandSelectStar` and `RewriteWhere` above state what each step does |
| DatabaseTools.QueryOptimizationSuggestions | extensions/database-tools/src/extension.ts:349-364 | a suggestion is listed exactly when its case-sensitive substring rule fires; the list is in rule order, without duplicates, at most four long |
| CodeGeneration.JsonFiles | extensions/code-generation-tools/src/extension.ts:32 | a name is kept exactly when it is listed and ends in `.json` |
| CodeGeneration.JsonFilesConcat | extensions/code-generation-tools/src/extension.ts:32 | the filter keeps the listing's order: it works on each part of a listing separately |
| CodeGeneration.ReadAll | extensions/code-generation-tools/src/extension.ts:33-37 | reading succeeds exactly when every file is present and parses, and then yields their templates in order |
| CodeGeneration.LoadedTemplatesShape | extensions/code-generation-tools/src/extension.ts:24-42 | loading yields the templates of exactly the `.json` files, in listing order, when they all parse, and an empty list otherwise |
| CodeGeneration.LoadedTemplates | extensions/code-generation-tools/src/extension.ts:24-42 | defined as `[]` when the listing fails or any `.json` file is missing or malformed, and otherwise the parsed `.json` files in listing order; `LoadedTemplatesShape`, `LoadIgnoresOtherFiles` and `SaveThenLoad` state its meaning |
| CodeGeneration.LoadIgnoresOtherFiles | extensions/code-generation-tools/src/extension.ts:32 | a listed file whose name does not end in `.json` does not affect loading |
| CodeGeneration.TrimmedPieceIsTag | extensions/code-generation-tools/src/extension.ts:287 | a comma-free piece that is not blank trims to a tag |
| CodeGeneration.TidyTagsAreTags | extensions/code-generation-tools/src/extension.ts:287 | trimming and dropping empty pieces leaves only tags |
| CodeGeneration.ParsedTagsAreTags | extensions/code-generation-tools/src/extension.ts:287 | every parsed tag is non-empty, trimmed and comma-free |
| CodeGeneration.TidyTagsConcat | extensions/code-generation-tools/src/extension.ts:287 | tidying keeps the input order: it works on each part separately |
| CodeGeneration.ParseTagsConcat | extensions/code-generation-tools/src/extension.ts:287 | the tags of `a,b` are those of `a` followed by those of `b` |
| CodeGeneration.ParseTags | extensions/code-generation-tools/src/extension.ts:287 | defined as no tags for a dismissed or empty answer, and otherwise the comma-separated pieces, trimmed, with the empty ones dropped; the tag lemmas around it state its meaning |
| CodeGeneration.TidyEmpty | extensions/code-generation-tools/src/extension.ts:287 | an empty input yields no tags |
| CodeGeneration.TidyTagsOfTags | extensions/code-generation-tools/src/extension.ts:287 | a list of tags is kept as it is |
| CodeGeneration.JoinedTagsParse | extensions/code-generation-tools/src/extension.ts:287 | parsing tags joined by commas gives the same tags back |
| CodeGeneration.ParseTagsRoundTrip | extensions/code-generation-tools/src/extension.ts:287 | parsing is a fixed point when tags are joined back |
| CodeGeneration.BuildTemplate | extensions/code-generation-tools/src/extension.ts:255-297 | blank content is refused, and an empty or dismissed name cancels; otherwise the template carries a fresh id, the name, the content, the language, the time stamp, the description (or empty) and the parsed tags |
| CodeGeneration.ImportedTemplate | extensions/code-generation-tools/src/extension.ts:465-492 | no file means no action; an unparsable file, or an empty id, name or content, is an error; an accepted template gets a new id and time stamp and keeps every other field |
| CodeGeneration.ExportNameShape | extensions/code-generation-tools/src/extension.ts:514 | the export name ends in `-template.json`; the slug has no `\s` and no capital ASCII letter, and is no longer than the name |
| CodeGeneration.SlugWithoutSpaces | extensions/code-generation-tools/src/extension.ts:514 | a name without `\s` is only lower-cased |
| CodeGeneration.SlugFirstRun | extensions/code-generation-tools/src/extension.ts:514 | the slug of a name, run by run: the `\s`-free part before the first `\s` run is lower-cased, the run becomes one `-`, and the rest is slugged on its own; with `SlugWithoutSpaces` this fixes every name's slug |
| CodeGeneration.Slug | extensions/code-generation-tools/src/extension.ts:514 | defined as `\s` runs collapsed into `-` and then lower-casing; `SlugFirstRun`, `SlugWithoutSpaces` and `ExportNameShape` state its meaning |
| CodeGeneration.ExportName | extensions/code-generation-tools/src/extension.ts:514 | defined as the slug followed by `-template.json`; `ExportNameShape` states its shape |
| CodeGeneration.DeletedIdGone | extensions/code-generation-tools/src/extension.ts:454-460 | when files are named by their template's id, reloading after removing `<id>.json` finds no template with that id |
| CodeGeneration.TemplateStore.constructor | extensions/code-generation-tools/src/extension.ts:19-22 | the store starts with what loading the directory yields |
| CodeGeneration.TemplateStore.LoadTemplates | extensions/code-generation-tools/src/extension.ts:24-42 | the list is replaced by what the directory yields; the directory is unchanged |
| CodeGeneration.SaveThenLoad | extensions/code-generation-tools/src/extension.ts:24-53 | after `<id>.json` is written, loading a full listing of the directory whose `.json` files all parse gives the template back; when every parsed file is named after its id, it is the only entry with that id |
| CodeGeneration.JsonFilesDistinct | extensions/code-generation-tools/src/extension.ts:30-32 | a listing without repeats keeps none after the `.json` filter |
| CodeGeneration.FileNameShape | extensions/code-generation-tools/src/extension.ts:46 | a template's file is a `.json` file, and different ids get different files |
| CodeGeneration.TemplateStore.StoreTemplate | extensions/code-generation-tools/src/extension.ts:44-53 | a successful write puts the template under `<id>.json` and appends it to the list; a failed write changes nothing; files stay named after their template's id |
| CodeGeneration.TemplateStore.SaveTemplate | extensions/code-generation-tools/src/extension.ts:250-301 | the outcome is the template construction, and only a built template that is written changes the store |
| CodeGeneration.TemplateStore.ImportTemplate | extensions/code-generation-tools/src/extension.ts:465-492 | the outcome is the validation, and only an accepted template that is written changes the store |
| CodeGeneration.TemplateStore.EditTemplate | extensions/code-generation-tools/src/extension.ts:367-426 | with no templates, no choice, no save, or a failed write (which ends the command before the reload), nothing changes; otherwise the chosen template's file gets the new content, every other field kept, and the list is reloaded; files stay named after their template's id |
| CodeGeneration.TemplateStore.DeleteTemplate | extensions/code-generation-tools/src/extension.ts:428-463 | once confirmed, the chosen template's file is removed and the list reloaded; when every parsed file was named after its template's id (`NamedById`), no reloaded template has that id; a missing file or no confirmation changes nothing; files stay named after their template's id |
| CodeGenerationNames.MatchAtName | extensions/code-generation-tools/src/extension.ts:611 | what an alternative captures is a JavaScript identifier |
| CodeGenerationNames.MatchFirstAt | extensions/code-generation-tools/src/extension.ts:611 | a match at a position moves forward and captures an identifier |
| CodeGenerationNames.ScanFrom | extensions/code-generation-tools/src/extension.ts:615-622 | the `exec` loop collects only identifiers |
| CodeGenerationNames.Patterns | extensions/code-generation-tools/src/extension.ts:611 | the alternatives of both extractors are well formed |
| CodeGenerationNames.DedupAfterDistinct | extensions/code-generation-tools/src/extension.ts:624 | de-duplication yields no repeated name |
| CodeGenerationNames.DedupAfterElements | extensions/code-generation-tools/src/extension.ts:624 | de-duplication keeps exactly the names not already seen |
| CodeGenerationNames.DedupAfterSnoc | extensions/code-generation-tools/src/extension.ts:624 | a later name is added at the end only when it is new |
| CodeGenerationNames.DedupProperties | extensions/code-generation-tools/src/extension.ts:624 | `[...new Set(xs)]` has no duplicates, holds exactly the names of `xs`, and keeps the order of first occurrence |
| CodeGenerationNames.ExtractNames | extensions/code-generation-tools/src/extension.ts:613-624 | the loop returns the de-duplicated scan: distinct identifiers, exactly the names the scan finds |
| CodeGenerationNames.ExtractFunctionNames | extensions/code-generation-tools/src/extension.ts:610-625 | the function names are the de-duplicated scan with the function regular expression |
| CodeGenerationNames.ExtractClassNames | extensions/code-generation-tools/src/extension.ts:627-642 | the class names are the de-duplicated scan with the class regular expression |
| CodeGenerationNames.ScanFromFirst | extensions/code-generation-tools/src/extension.ts:615-622 | when the first alternative matches, its name is collected and the scan resumes where the match ended |
| CodeGenerationNames.DeclarationFound | extensions/code-generation-tools/src/extension.ts:615-622 | a `keyword name<terminator>` declaration at the scan position is collected and the scan resumes after it |
| CodeGenerationNames.FunctionDeclarationMatches | extensions/code-generation-tools/src/extension.ts:611 | `function name(` matches with that name |
| CodeGenerationNames.ClassDeclarationMatches | extensions/code-generation-tools/src/extension.ts:628 | `class name{` matches with that name |
| AiAssistant.EscapeHtmlConcat | extensions/ai-assistant/src/extension.ts:259-264 | escaping works on each part of a text separately |
| AiAssistant.EscapeHtml | extensions/ai-assistant/src/extension.ts:258-265 | defined as the five chained global replacements, `&` first; `EscapeHtmlIsCharwise`, `EscapeHtmlIsSafe` and `UnescapeEscapeHtml` state its meaning |
| AiAssistant.EscapeHtmlChar | extensions/ai-assistant/src/extension.ts:259-264 | the five passes turn a single character into its entity, or leave it |
| AiAssistant.EscapeHtmlIsCharwise | extensions/ai-assistant/src/extension.ts:258-265 | the chained replacements equal escaping each character on its own |
| AiAssistant.EscapedConcat | extensions/ai-assistant/src/extension.ts:258-265 | joining two escaped texts gives an escaped text |
| AiAssistant.EscapeHtmlIsSafe | extensions/ai-assistant/src/extension.ts:258-265 | the output has no `<`, `>`, `"` or `'`, and every `&` begins one of the five entities |
| AiAssistant.UnescapeEscapeHtml | extensions/ai-assistant/src/extension.ts:258-265 | decoding the five entities recovers the input |
| AiAssistant.ReadableBodyOneLine | extensions/ai-assistant/src/extension.ts:246 | the readable body has no line break |
| AiAssistant.ReadableBodyNoDoubleSpace | extensions/ai-assistant/src/extension.ts:246 | the readable body has no two `\s` characters in a row |
| AiAssistant.ReadableBodyKeepsText | extensions/ai-assistant/src/extension.ts:246 | the readable body keeps the code's non-`\s` characters, in order |
| AiAssistant.ReadableBodyShape | extensions/ai-assistant/src/extension.ts:246 | the body has no double `\s`, no `\s` at either end, and the code's non-`\s` characters in order |
| AiAssistant.ImproveReadability | extensions/ai-assistant/src/extension.ts:245-246 | "Improve readability" yields exactly two lines: its header and the readable body |
| AiAssistant.RefactorSampleCode | extensions/ai-assistant/src/extension.ts:243-256 | defined as the switch on the option's label; `ImproveReadability`, `AddComments`, `VerbatimRefactorings` and `UnknownRefactoring` state each case |
| AiAssistant.CommentOutLines | extensions/ai-assistant/src/extension.ts:252 | commented-out lines can be split apart again |
| AiAssistant.UncommentCommentOut | extensions/ai-assistant/src/extension.ts:252 | removing the `// ` prefixes gives the lines back |
| AiAssistant.AddComments | extensions/ai-assistant/src/extension.ts:251-252 | "Add comments" yields its header and then each input line prefixed with `// `, one line more than the input; without the header and prefixes it is the code |
| AiAssistant.VerbatimRefactorings | extensions/ai-assistant/src/extension.ts:247-250 | "Optimize performance" and "Fix bugs" add one header line and keep the code verbatim |
| AiAssistant.UnknownRefactoring | extensions/ai-assistant/src/extension.ts:253-254 | any other option returns the code unchanged |
| AiAssistant.SampleFirstLine | extensions/ai-assistant/src/extension.ts:209-224 | for a one-line prompt, the first line quotes it after `# ` for Python and `// ` otherwise, and the language's program follows |
| AiAssistant.GenerateSampleCode | extensions/ai-assistant/src/extension.ts:209-224 | defined as the comment quoting the prompt followed by the language's fixed program; `SampleFirstLine` states its lines |
| AiAssistant.MatchLine | extensions/ai-assistant/src/extension.ts:336-465 | a successful match yields one non-empty `\w` run per captured group |
| AiAssistant.MatchLineSound | extensions/ai-assistant/src/extension.ts:336-465 | what the scan accepts is a division of the line's start that the regular expression allows, and the scan's words are that division's captures |
| AiAssistant.MatchLineComplete | extensions/ai-assistant/src/extension.ts:336-465 | for a separated pattern, any division the regular expression allows is found by the scan, whose words are the longest possible: equal to the division's, except that a word ending the pattern may be longer |
| AiAssistant.MatchLineExact | extensions/ai-assistant/src/extension.ts:336-465 | for a separated pattern, the scan succeeds exactly when the regular expression matches the line's start |
| AiAssistant.FunctionPatternsSeparated | extensions/ai-assistant/src/extension.ts:336-371 | the JavaScript `function` and Python `def` patterns are separated |
| AiAssistant.ClassPatternsSeparated | extensions/ai-assistant/src/extension.ts:345-445 | the four class patterns are separated |
| AiAssistant.AssignPatternsSeparated | extensions/ai-assistant/src/extension.ts:353-394 | the JavaScript `const` and the Python assignment patterns are separated |
| AiAssistant.PublicMethodSeparated | extensions/ai-assistant/src/extension.ts:418-455 | the public-method pattern of Java and C# is separated |
| AiAssistant.PrivateFieldSeparated | extensions/ai-assistant/src/extension.ts:427-465 | the private-field pattern of Java and C# is separated |
| AiAssistant.CommentsForUnknownLanguage | extensions/ai-assistant/src/extension.ts:323-324 | a language without a generator keeps the code verbatim after one header line |
| AiAssistant.GenerateCodeComments | extensions/ai-assistant/src/extension.ts:312-326 | defined as the language's header and each line under its comment block, or one header line and the code for other languages; `CommentsForUnknownLanguage`, `CommentsKeepEveryLine` and `CommentsOnPlainCode` state its meaning |
| AiAssistant.Recognize | extensions/ai-assistant/src/extension.ts:336-465 | defined as the generator's patterns tried in source order, the first that matches giving the comment block and the captured name; `MatchLineExact` and `MatchLineComplete` tie each pattern to its regular expression |
| AiAssistant.CommentsKeepEveryLine | extensions/ai-assistant/src/extension.ts:312-326 | for a known language, the output is the header followed by each input line, unchanged and in order, under its comment block |
| AiAssistant.PlainLineUnchanged | extensions/ai-assistant/src/extension.ts:328-360 | a line that matches no pattern is emitted as itself |
| AiAssistant.CommentsOnPlainCode | extensions/ai-assistant/src/extension.ts:312-326 | when no line matches, the output is the header and then the code verbatim |
| AiAssistant.GenerateRefactorSuggestions | extensions/ai-assistant/src/extension.ts:644-728 | three common cards, plus two more exactly for JavaScript, TypeScript, Python, Java and C#; no card repeats |
| AiAssistant.SuggestionNumbering | extensions/ai-assistant/src/extension.ts:648-725 | the cards are numbered 1, 2, 3, … in the order shown |
| DevOps.NewPipeline | extensions/devops-tools/src/extension.ts:285-334 | a new run is running with its first stage running and its second pending; only the first job of the first stage is running, and every other job is pending |
| DevOps.CompletePipeline | extensions/devops-tools/src/extension.ts:341-352 | the pipeline, every stage and every job succeed with `completedAt` set; each job's duration is its draw plus 30, within 30 to 149; the run is otherwise the same |
| DevOps.NewDeployment | extensions/devops-tools/src/extension.ts:517-527 | a new deployment is deploying with the chosen application, environment, version and strategy |
| DevOps.FirstNamed | extensions/devops-tools/src/extension.ts:539 | `find` yields the first environment with the name, or none when no name matches |
| DevOps.Stamped | extensions/devops-tools/src/extension.ts:539-542 | only the first environment with the name gets the new `lastDeployment`; with no match nothing changes |
| DevOps.StampedTwice | extensions/devops-tools/src/extension.ts:539-542 | a later deployment to the same name overwrites only the earlier time |
| DevOps.OfferedFrom | extensions/devops-tools/src/extension.ts:561-567 | the rollback offers exactly the deployed records, in list order |
| DevOps.NewEnvironment | extensions/devops-tools/src/extension.ts:771-782 | a new environment is online with resources cpu 2, memory 4, instances 1 |
| DevOps.WithoutId | extensions/devops-tools/src/extension.ts:859 | the filter keeps exactly the environments with another id |
| DevOps.WithoutIdConcat | extensions/devops-tools/src/extension.ts:859 | the filter keeps the order: it works on each part separately |
| DevOps.WithoutIdAbsent | extensions/devops-tools/src/extension.ts:859 | a list without the id is kept as it is |
| DevOps.WithoutIdIdempotent | extensions/devops-tools/src/extension.ts:859 | deleting twice is deleting once |
| DevOps.WithoutIdShrinks | extensions/devops-tools/src/extension.ts:859 | deleting an id that occurs shortens the list |
| DevOps.DevOpsTools.constructor | extensions/devops-tools/src/extension.ts:67-256 | the state starts with the sample pipelines, deployments and environments |
| DevOps.DevOpsTools.RunPipeline | extensions/devops-tools/src/extension.ts:258-361 | with a pipeline chosen and a branch given, the new run goes in front of the unchanged old list and finishes, each job's duration its draw plus 30; otherwise nothing changes; the other lists are untouched |
| DevOps.DevOpsTools.DeployApplication | extensions/devops-tools/src/extension.ts:477-553 | with every answer given, one deployed record goes in front, and the first environment with the chosen name is stamped; otherwise nothing changes |
| DevOps.DevOpsTools.RollbackDeployment | extensions/devops-tools/src/extension.ts:555-611 | no deployments, or none deployed, changes nothing; a confirmed choice sets only that deployed record to rolled back and stamps its `completedAt` |
| DevOps.DevOpsTools.AddEnvironment | extensions/devops-tools/src/extension.ts:749-790 | with name, type and url given, one new online environment is appended; otherwise nothing changes |
| DevOps.DevOpsTools.EditEnvironment | extensions/devops-tools/src/extension.ts:792-831 | on an empty list nothing changes; with both answers given only the chosen environment's name and url change |
| DevOps.DevOpsTools.DeleteEnvironment | extensions/devops-tools/src/extension.ts:833-864 | on an empty list nothing changes; once confirmed, exactly the entries with the chosen id go, the rest in order |
| DevOps.DevOpsTools.RestartEnvironment | extensions/devops-tools/src/extension.ts:866-904 | on an empty list nothing changes; the chosen environment goes to maintenance and then online, whatever its status was |

## Left out

- Real file-system calls and JSON formatting. The templates directory is a map from file name to what `JSON.parse` makes of the file. Writing a template and reading it back gives the same template. Whether the directory exists, can be created and can be read is the `listing` parameter. It is `None` when creating or reading the directory fails. Otherwise it is what `readdirSync` returns: each file of the directory once, in the file system's order, as `Lists` states. The methods accept any listing and do not check it against `dir`; `SaveThenLoad` assumes a full one. A file that is listed but missing is read as a failure, as a file removed by another process would be.
- The result of a write is the `writeOk` parameter. `_saveTemplate` catches a failed write and changes nothing. In `editTemplate` the write is not guarded, so a failed write ends the command before the reload.
- CodeGeneration.ImportedTemplate: fields of the imported JSON object that are missing, or hold something other than text, are modelled as empty text (or no tags). The extension keeps them as they are, `undefined` or a number for instance, and writes them back into the new file. Extra fields of the object are kept by the extension and are not modelled.
- Clocks and randomness. `Date.now()` and the ISO time stamps are parameters, and each phase of a command gets its own reading. Random commits are parameters. A job's random duration is a draw below 120, plus 30.
- The asynchronous gaps inside `runPipeline`, `deployApplication`, `rollbackDeployment` and `restartEnvironment`. Another command can interleave in those gaps in the extension. The model runs each command without interruption.
- The five-minute wait for a save event in `editTemplate`. The model makes it the `edited` parameter, which is `None` when the time runs out.
- Quick-picks, input boxes, progress reports, `setTimeout` delays, webview HTML, tree views and messages. They become parameters or are not modelled.
- The remaining commands of the code-generation extension: `generateCode`, `generateFromTemplate`, `viewTemplates`, `manageTemplates`, the file write of `exportTemplate`, and the document generators that print the extracted names. They are UI or file output around the modelled parts.
- The explanation text of ai-assistant and its HTML. The performance-optimisation cards of ai-assistant are also left out. Both are fixed HTML templates.
- OS metrics and report writing in performance-tools. They are floating-point readings and I/O.
- Text.ToLower: changes only ASCII capitals, while JavaScript's `toLowerCase` maps all of Unicode.
- The sample data keeps its time stamps relative to the constructor's clock. The ISO deployment times of the sample environments become fixed millisecond values.
- AiAssistant.Recognize: each name is taken by a second, unanchored regular expression. Its leftmost match is modelled as the word the anchored pattern captured. This is exact for every pattern except Python's assignment, whose name pattern is anchored and modelled as such.
