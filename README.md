# Pulse analysis core, modelled in Dafny

Pulse scans a TypeScript, JavaScript or Python project and ranks its files by
risk. The scan walks the project's directories and analyses every file it
keeps. The analysis finds each function, its size, cyclomatic complexity,
nesting depth and parameter count, and scores the file from 0 to 100. The
score combines those metrics with the file's churn, the number of recent
commits that touched it. The results come back sorted, riskiest first. The
bundled desktop application also builds an import graph between the
scanned files. It rescans 1500 ms after the last change its watcher
reports.

The repository holds three revisions of this pipeline:

- the desktop sources, `src/main/analyzer/parser.ts` and
  `src/main/risk-score/riskScore.ts`, with four metrics, churn and weights
  0.35/0.20/0.15/0.20/0.10 (complexity, size, churn, depth, parameters);
- the first command-line scanner, `src/analyzer/parser.ts`,
  `src/risk-score/riskScore.ts` and `src/cli/scanner.ts`, which scores
  complexity and size only, weighted 0.6/0.4;
- the built bundle, `out/main/index.js`, whose risk score weighs
  complexity, size and churn 0.5/0.3/0.2.

The bundle also holds the churn cache, the cycle-safe file walk, the
import graph, `scanProject` and the debounced rescan. A fourth scanner,
`src/main/cli/scanner.ts`, pairs the desktop analyzer with an older
directory walk.

One Dafny module covers each of these components:

- `MainParser`, `LegacyParser` and `BundleParser` are the analyzers.
  - Structural analysis takes the parsed syntax tree as an input (`SyntaxTree`).
  - The line-based Python analysis is written out over the text (`PyHeuristics`).
- `MainRisk`, `LegacyRisk` and `BundleRisk` are the risk scores, sharing `Clamp`.
- `Churn` is the commit-frequency cache of the bundle.
- `FileWalk` is the bundle's walk. `LegacyWalk` is the walk of the two command-line scanners.
- `ImportGraph` is the bundle's import graph.
- `BundleScan`, `CliScan` and `MainCliScan` are the three `scanProject` functions.
  - They share `ScanLoop` (the per-file loop) and `Sorting` (the stable sort, highest score first).
- `Debounce` is the rescan timer.

The code works in place in these spots:
- the walks append to a file list;
- the cache fills a map;
- `buildEdges` pushes edges and records keys;
- the timer is replaced.

Each of these is a `class`, or a `method` with a loop. The class or method
is proved equal to a function on values, and the properties are proved
about that function.

Three behaviours of the code are worth stating outright:
- `resolveImport` does not strip a `.js` suffix before trying its candidates
  (out/main/index.js:406-422);
- `fanIn` and `fanOut` are always 0 in the desktop score
  (src/main/risk-score/riskScore.ts:64);
- `buildEdges` removes duplicates by the ordered key `${file}→${resolved}`
  (out/main/index.js:434), so two edges in opposite directions are both kept.

## Model

| member | source | states |
|---|---|---|
| MainParser.DetectLanguage | src/main/analyzer/parser.ts:28-41 | A language is detected exactly when the lower-cased extension is in the extension table |
| MainParser.DetectLanguageTable | src/main/analyzer/parser.ts:28-36 | TypeScript iff `.ts`/`.tsx`; JavaScript iff `.js`/`.jsx`/`.mjs`/`.cjs`; Python iff `.py`, all case-insensitive |
| MainParser.DetectLanguageIgnoresCase | src/main/analyzer/parser.ts:38-41 | Lower-casing a path never changes its detected language |
| MainParser.DetectLanguageOfJoin | src/main/analyzer/parser.ts:38-41 | A file's language depends on its own name only, not on its directory |
| MainParser.ResolveName | src/main/analyzer/parser.ts:101-113 | The function's own non-empty name unless it is `anonymous`; otherwise the parent's non-empty name, otherwise `anonymous`; never empty |
| MainParser.AnalyzeWithTree | src/main/analyzer/parser.ts:85-133 | The loop over the collected functions builds exactly the structural metrics of the file |
| MainParser.AnalyzeSite | src/main/analyzer/parser.ts:101-129 | One pass of the map builds the function's record: resolved name, start line, line count, complexity, parameter count and depth |
| MainParser.TreeMetricsShape | src/main/analyzer/parser.ts:95-127 | One record per top-level function, per arrow-function descendant and per class method; every name non-empty, complexity ≥ 1, depth and parameter count ≥ 0 |
| MainParser.AnalyzeWithRegex | src/main/analyzer/parser.ts:137-187 | The line loop builds exactly the line-based metrics of the text |
| MainParser.ScanLines | src/main/analyzer/parser.ts:150-184 | The `forEach` over the lines pushes the line-based record of every header line, in line order |
| MainParser.AnalyzeLine | src/main/analyzer/parser.ts:152-183 | One line of the `forEach`: the record of the header when the line is one, nothing otherwise |
| MainParser.AnalyzeHeader | src/main/analyzer/parser.ts:155-180 | The record of a header line: its captured name, start, span to the next header, complexity, parameter count and depth |
| MainParser.FindEnd | src/main/analyzer/parser.ts:158-161 | The inner loop stops at the next header after the line, or at the line count when there is none |
| MainParser.RegexRecordsStartOnHeaders | src/main/analyzer/parser.ts:152-165 | Every line-based record starts on a `def`/`async def` header, carries that header's name, covers at least one line, and has complexity ≥ 1 |
| MainParser.RegexRecordsTile | src/main/analyzer/parser.ts:158-163 | Each record ends right before the next header; the last ends on the last line; no header before the first record is missed |
| MainParser.RegexMetricsShape | src/main/analyzer/parser.ts:137-138 | The line count is one more than the number of line feeds; the function count matches; path and language are kept |
| MainParser.AnalyzeFile | src/main/analyzer/parser.ts:191-205 | The analysis uses the structural path for parsed TS/JS and falls back to the text, failing only when the text cannot be read |
| MainParser.AnalyzeFileResultShape | src/main/analyzer/parser.ts:191-205 | Fails exactly when the structural path is not taken and the read fails; keeps path and detected language; Python and unknown files always use the text |
| MainParser.AnalyzeFileSync | src/main/analyzer/parser.ts:207-211 | Fails exactly when the read fails; otherwise gives the line-based metrics of the text |
| SyntaxTree.CyclomaticComplexity | src/main/analyzer/parser.ts:118-121 | One plus the number of branching descendants of the function, never below 1 |
| SyntaxTree.CountBranches | src/main/analyzer/parser.ts:118-121 | The descendant walk raises the counter by exactly the number of branching descendants |
| SyntaxTree.NestedBranchesCount | src/main/analyzer/parser.ts:68-81 | A function is at least as complex as any descendant, plus one if that descendant branches itself |
| SyntaxTree.ComputeMaxDepth | src/main/analyzer/parser.ts:57-64 | The recursive walk computes the nesting depth specification, never below the starting depth |
| SyntaxTree.MaxDepthBounds | src/main/analyzer/parser.ts:45-64 | The depth lies between the start and the start plus the number of nesting descendants; it equals the start iff there are none |
| SyntaxTree.MaxDepthShift | src/main/analyzer/parser.ts:57-64 | Starting deeper shifts the result by the same amount |
| SyntaxTree.ArrowSitesAreArrowDescendants | src/main/analyzer/parser.ts:95-99 | The collected arrow functions are exactly the arrow-function descendants of the file, in document order |
| PyHeuristics.NameMatchOnHeader | src/main/analyzer/parser.ts:140-156 | On a header line, the name search finds the header's own function name |
| PyHeuristics.DefExcludesAsync | src/main/analyzer/parser.ts:140-143 | No line matches both the `def` and the `async def` header patterns |
| PyHeuristics.KeywordTotalBound | src/main/analyzer/parser.ts:145-148 | The keyword patterns add at most 7 per line to the complexity |
| PyHeuristics.ParamCountIsNonBlankPieces | src/main/analyzer/parser.ts:168-171 | The parameter count is 0 without a parenthesised signature, else the number of non-blank comma-separated pieces |
| PyHeuristics.MaxIndentDepth | src/main/analyzer/parser.ts:174-178 | The depth is the largest indentation level of any line of the span, 0 for none |
| PyHeuristics.DefStartsShape | src/main/analyzer/parser.ts:152-161 | The function starts are exactly the header lines, in increasing order |
| PyHeuristics.SpanEndsAtNextStart | src/main/analyzer/parser.ts:158-161 | A function's span ends at the next header |
| PyHeuristics.LastSpanEndsAtEof | src/main/analyzer/parser.ts:158 | The last function runs to the end of the file |
| Clamp.ClampedScore | src/main/risk-score/riskScore.ts:19-23 | Within [0, 100]; 0 iff the value is at most the safe threshold; 100 iff the value is above safe and at least danger |
| Clamp.ClampedMonotone | src/main/risk-score/riskScore.ts:19-23 | A larger value never scores lower |
| Clamp.ClampedLinear | src/main/risk-score/riskScore.ts:19-23 | Between the thresholds the score is linear in the value |
| Clamp.MaxOr0 | src/main/risk-score/riskScore.ts:29-43 | The largest element of the column, 0 for an empty one |
| Clamp.ScoreOfMaxZeroIff | src/main/risk-score/riskScore.ts:45-48 | The score of a column maximum is 0 iff every element is within the safe threshold |
| MainRisk.Named | src/main/risk-score/riskScore.ts:27 | Keeps exactly the records not named `anonymous`, in order |
| MainRisk.CalculateRiskScore | src/main/risk-score/riskScore.ts:25-66 | The global score lies within [0, 100]; path and language are kept; fan-in and fan-out are 0 |
| MainRisk.GlobalScoreRange | src/main/risk-score/riskScore.ts:53-58 | The weighted sum lies in [0, 100] and is 0 iff all five metric scores are 0 |
| MainRisk.AnonymousIgnored | src/main/risk-score/riskScore.ts:27 | Inserting an `anonymous` record anywhere leaves the whole result unchanged |
| MainRisk.OnlyChurnWithoutNamedFunctions | src/main/risk-score/riskScore.ts:27-58 | Without named functions the score is the churn weight times the churn score |
| MainRisk.ChurnMonotone | src/main/risk-score/riskScore.ts:50-58 | More churn never lowers the score |
| MainRisk.AddingFunctionNeverLowers | src/main/risk-score/riskScore.ts:29-58 | Adding a named function never lowers the score |
| MainRisk.ZeroScoreIffSafe | src/main/risk-score/riskScore.ts:25-66 | The score is 0 iff every named function is within all four safe thresholds and the churn is within its own |
| LegacyParser.ResolveName | src/analyzer/parser.ts:88-100 | The own name unless absent or `anonymous` (an empty name is kept); else the parent's name; else `anonymous` |
| LegacyParser.AnalyzeFile | src/analyzer/parser.ts:43-125 | Fails exactly when the parse throws; otherwise gives the file's structural metrics |
| LegacyParser.AgreesWithMain | src/analyzer/parser.ts:74-124 | Same functions, order, start, size and complexity as the desktop analyzer; same names unless an empty name is involved |
| LegacyParser.EmptyNameKept | src/analyzer/parser.ts:89-92 | A function named `""` is reported as `""` here but as `anonymous` by the desktop analyzer |
| LegacyRisk.CalculateRiskScore | src/risk-score/riskScore.ts:19-40 | The global score lies within [0, 100] and the path is kept |
| LegacyRisk.AddingFunctionNeverLowers | src/risk-score/riskScore.ts:19-39 | Adding a function never lowers the score |
| LegacyRisk.ZeroScoreIffSafe | src/risk-score/riskScore.ts:19-39 | The score is 0 iff every function has complexity ≤ 3 and ≤ 20 lines |
| LegacyRisk.FullScoreIffDanger | src/risk-score/riskScore.ts:19-39 | The score is 100 iff some function reaches complexity 10 and some function reaches 60 lines |
| BundleParser.AnalyzeWithTree | out/main/index.js:179-214 | The structural records of the desktop analyzer, without parameter count or depth |
| BundleParser.AnalyzeSite | out/main/index.js:192-212 | One pass of the map builds the desktop record of the function without parameter count or depth |
| BundleParser.AnalyzeWithRegex | out/main/index.js:215-251 | The line-based records of the desktop analyzer, without parameter count or depth |
| BundleParser.ScanLines | out/main/index.js:230-249 | The `forEach` pushes the desktop line-based records of the header lines, without parameter count or depth |
| BundleParser.AnalyzeLine | out/main/index.js:231-248 | One line of the `forEach`: the projected record of the header when the line is one, nothing otherwise |
| BundleParser.AnalyzeHeader | out/main/index.js:234-245 | The record of a header line: the desktop record without parameter count or depth |
| BundleParser.AnalyzeFile | out/main/index.js:252-264 | The dispatch gives the bundle's file analysis: the structural records for parsed TS/JS with the detected language, otherwise the line-based records of the text, failing only when the text cannot be read |
| BundleParser.AnalyzeFileResultShape | out/main/index.js:252-264 | Fails exactly when the desktop analysis fails; keeps path and language; its records are the desktop ones projected |
| BundleRisk.CalculateRiskScore | out/main/index.js:325-339 | The global score lies within [0, 100]; path and language are kept |
| BundleRisk.ChurnMonotone | out/main/index.js:325-339 | More churn never lowers the score |
| BundleRisk.AddingFunctionNeverLowers | out/main/index.js:325-339 | Adding a function never lowers the score |
| BundleRisk.ZeroScoreIffSafe | out/main/index.js:325-339 | The score is 0 iff every function has complexity ≤ 3 and ≤ 20 lines and the churn is ≤ 5 |
| BundleRisk.AnonymousCounts | out/main/index.js:325-332 | An anonymous function of complexity 10 scores 50 in the bundle and 0 on the desktop |
| Churn.TallyCounts | out/main/index.js:302-307 | A path's count is the number of log lines that list it once trimmed |
| Churn.TallyPositive | out/main/index.js:302-307 | Every count in the table is at least 1 |
| Churn.ChurnCountsListings | out/main/index.js:296-319 | A file's churn is the number of log lines listing it below the project |
| Churn.ChurnOutsideProject | out/main/index.js:296-319 | Churn is never negative, and 0 for a path outside the project |
| Churn.KeyInjective | out/main/index.js:305 | Different listed paths get different keys |
| Churn.ChurnCache.Clear | out/main/index.js:313-315 | The cache is empty |
| Churn.ChurnCache.Build | out/main/index.js:296-312 | The cache holds the table of the log, or an empty table when git or the config fails |
| Churn.ChurnCache.CountLines | out/main/index.js:302-307 | The line loop leaves the table of counts of the log lines |
| Churn.ChurnCache.GetChurnScore | out/main/index.js:316-319 | Builds the table only when the cache is empty, otherwise keeps it; returns the file's count, 0 when absent |
| FileWalk.Walk | out/main/index.js:342-379 | The visited set only grows and stays within the real directories; a file entry is kept by `Accepted` (lower-cased extension supported, and `ShouldIgnoreFile`: no ignore pattern in the name) |
| FileWalk.WalkGrows | out/main/index.js:352-353 | The visited set grows by exactly the directories entered; each is entered once and was not visited before |
| FileWalk.WalkSound | out/main/index.js:360-377 | Every collected file lies below the root, has a supported extension and matches no ignore pattern |
| FileWalk.WalkEntriesComplete | out/main/index.js:360-377 | Every accepted file entry, not an ignored name and not a directory, at or after the loop's position is reported, whatever was visited before |
| FileWalk.WalkComplete | out/main/index.js:345-377 | When the walk enters and reads a directory, every accepted, non-ignored file entry of it is reported |
| FileWalk.WalkEntriesIncludeSubdirectory | out/main/index.js:368-371 | The files of a directory entry's walk, from the visited set the earlier entries leave, are among the files the loop reports |
| FileWalk.WalkIncludesSubdirectory | out/main/index.js:345-371 | When the walk enters and reads a directory, the files of each non-ignored subdirectory entry's walk are among its files |
| FileWalk.CollectedHasLanguage | out/main/index.js:373-376 | Every collected file has a language the analyzer recognises |
| FileWalk.Walker.GetFiles | out/main/index.js:345-379 | Appends exactly what the walk collects and leaves the walk's visited set |
| FileWalk.Walker.VisitEntry | out/main/index.js:360-377 | One entry of the loop advances the walk by exactly that entry |
| FileWalk.Walker.VisitDirectory | out/main/index.js:368-371 | Walking into a directory entry advances the walk by exactly that entry; the visited set only grows and stays within the real directories |
| ImportGraph.ExtractImports | out/main/index.js:391-405 | The loops push the relative captures of the file's patterns, in order |
| ImportGraph.ImportsExactly | out/main/index.js:391-405 | An import is extracted iff some pattern for the file's kind captures it and it starts with `.` |
| ImportGraph.FirstIn | out/main/index.js:418-421 | None iff no candidate is a scanned file; otherwise a candidate that is scanned |
| ImportGraph.ResolveImport | out/main/index.js:406-422 | The loop returns the first scanned candidate |
| ImportGraph.ResolutionFacts | out/main/index.js:406-422 | A resolved import is a scanned file, and it is the plain resolved path when that is scanned |
| ImportGraph.BuildEdges | out/main/index.js:423-441 | The edges are the key-deduplicated resolved imports of the files with a source |
| ImportGraph.AddFileEdges | out/main/index.js:429-438 | The inner loop over one file's imports appends that file's resolved edges; the kept edges stay the key-deduplicated edges so far, and the seen set their keys |
| ImportGraph.AddEdge | out/main/index.js:434-437 | One resolved import: dropped when its key was seen, otherwise pushed with its key recorded; the edges stay the key-deduplicated imports so far |
| ImportGraph.DedupFacts | out/main/index.js:434-437 | Deduplication keeps every key, keeps no key twice, and invents no edge |
| ImportGraph.BuildEdgesFacts | out/main/index.js:423-441 | Every edge joins scanned files, the first having a source; no two edges share a key; every key of a resolved import is present |
| ImportGraph.DedupLosesNoEdge | out/main/index.js:434 | When no source path contains `→`, every resolved import edge is kept |
| ImportGraph.KeyCollision | out/main/index.js:434 | Two different edges can share a key, and then the second is dropped |
| Sorting.SortDescCorrect | out/main/index.js:465 | The sort is ordered highest score first and is a permutation of its input |
| ScanLoop.CollectExactly | out/main/index.js:449-461 | Every pushed result comes from some file; every file that does not throw has its result pushed |
| ScanLoop.CollectNothing | src/main/cli/scanner.ts:33-41 | When every file throws, nothing is pushed |
| BundleScan.ScanProject | out/main/index.js:442-468 | The loop computes the scan; the churn cache is empty or holds the table of the log |
| BundleScan.ScanFile | out/main/index.js:450-461 | One pass gives the file's text when it can be read and its score when the read, analysis and save succeed; the churn cache stays empty or the table of the log |
| BundleScan.FileResultFacts | out/main/index.js:449-461 | A file is scored iff it can be read and saved; the score keeps path and language and lies in [0, 100] |
| BundleScan.SourcesFacts | out/main/index.js:452-453 | The recorded sources are exactly the files that could be read, with their text |
| BundleScan.ScanOfFacts | out/main/index.js:442-468 | Scores are sorted and are a permutation of the pushed ones; every readable, saveable file is scored; every edge joins files whose source is non-empty |
| BundleScan.ScanLanguagesKnown | out/main/index.js:442-461 | Every scored file was collected by the walk and has a known language |
| LegacyWalk.ListSound | src/cli/scanner.ts:9-33 | Every listed path lies below the root, ends in `.js` or `.ts`, and its name passes the entry filter |
| LegacyWalk.DanglingThrows | src/cli/scanner.ts:21 | A reached, unskipped entry whose status cannot be read makes the walk throw |
| LegacyWalk.PathListed | src/cli/scanner.ts:15-28 | Every unskipped entry whose path ends in `.js`/`.ts`, a directory as well as a file, is listed when the walk succeeds |
| LegacyWalk.ListSplits | src/cli/scanner.ts:11-29 | A successful listing splits at every unskipped entry: what the entries before it list, then its contents when it is a directory, then its own path when that ends in `.js`/`.ts`, then what the entries after it list |
| LegacyWalk.SubdirectoryListed | src/cli/scanner.ts:21-23 | An unskipped subdirectory's walk succeeds whenever its parent's does, and everything it lists is listed by the parent |
| LegacyWalk.DirectoryListedAfterContents | src/cli/scanner.ts:21-28 | Example: a root holding a directory `lib.js` that holds a file `a.ts` lists `lib.js/a.ts`, then `lib.js` |
| LegacyWalk.Lister.GetFiles | src/cli/scanner.ts:9-33 | Succeeds iff the walk does; then appends exactly the walk's listing |
| LegacyWalk.Lister.VisitEntry | src/cli/scanner.ts:14-30 | One entry of the loop throws only when the walk does and otherwise advances it by that entry |
| LegacyWalk.ListFiles | src/cli/scanner.ts:9-33 | A fresh list filled by the walk is its listing; fails exactly when the walk throws |
| CliScan.ScanProject | src/cli/scanner.ts:35-50 | The loop computes the scan |
| CliScan.ScanFiles | src/cli/scanner.ts:37-47 | The loop pushes, in file order, the score of every file whose analysis does not throw |
| CliScan.ScanFile | src/cli/scanner.ts:40-46 | One pass scores the file, or gives nothing when its analysis throws |
| CliScan.ScanOrdered | src/cli/scanner.ts:35-50 | Throws iff the walk throws; otherwise the scores are sorted and are a permutation of the pushed ones |
| CliScan.ScanSound | src/cli/scanner.ts:39-47 | Every score is for a listed, parsed file below the project that passes the filter |
| CliScan.ScanComplete | src/cli/scanner.ts:39-47 | Every listed file that parses is scored |
| MainCliScan.ScanProjectAsWritten | src/main/cli/scanner.ts:29-44 | The loop as written computes the as-written scan |
| MainCliScan.ScanFilesAsWritten | src/main/cli/scanner.ts:31-41 | The loop as written pushes the result of every pass that does not throw |
| MainCliScan.ScanFileAsWritten | src/main/cli/scanner.ts:34-40 | One pass as written computes the score on the pending analysis, not on its value |
| MainCliScan.AsWrittenScoresNothing | src/main/cli/scanner.ts:35-36 | As written, a scan that does not reject scores nothing |
| MainCliScan.MissingAwaitExample | src/main/cli/scanner.ts:35-36 | A project holding one empty `a.ts` that parses to a bare source file: no scores as written, one with the analysis awaited |
| MainCliScan.MissingAwaitLosesScores | src/main/cli/scanner.ts:35-36 | Every analysable listed file is scored when awaited and lost as written |
| MainCliScan.ScanProject | src/main/cli/scanner.ts:29-44 | The loop with the analysis awaited computes the corrected scan |
| MainCliScan.ScanFiles | src/main/cli/scanner.ts:31-41 | With the analysis awaited, the loop pushes the score of every file that can be analysed, in file order |
| MainCliScan.ScanFile | src/main/cli/scanner.ts:34-40 | One awaited pass scores the file, or gives nothing when its analysis fails |
| MainCliScan.ScanOrdered | src/main/cli/scanner.ts:29-44 | Rejects iff the walk throws; otherwise the scores are sorted and are a permutation of the pushed ones |
| MainCliScan.ScanSound | src/main/cli/scanner.ts:33-41 | Every score is for a listed, analysable file, with its language and a score in [0, 100] |
| MainCliScan.ScanComplete | src/main/cli/scanner.ts:33-41 | Every listed file that can be analysed is scored |
| Debounce.RunFires | out/main/index.js:544-548 | Replaying ordered changes fires exactly the rescans that `Fires` names, and leaves one rescan due 1500 ms after the last change |
| Debounce.BurstFiresNothing | out/main/index.js:544-548 | Changes each less than 1500 ms apart fire no rescan before the last one |
| Debounce.FiresFacts | out/main/index.js:544-548 | There are fewer rescans than changes; each starts 1500 ms after a change not followed by another before then |
| Debounce.Debouncer.Advance | out/main/index.js:546-547 | A due timer fires, and its time is recorded |
| Debounce.Debouncer.DebouncedScan | out/main/index.js:544-548 | The pending timer is replaced by one due 1500 ms later |

## Left out

- Reading and writing the database is left out. The writes `saveScan` and `saveFunctions` appear only as a set of files whose writes throw.
- The LLM, the renderer, the preload bridge, the file watchers' wiring, config loading and the Electron window are left out. Config loading supplies the project path and the ignore list as inputs.
- The TypeScript compiler API is not modelled. The parsed syntax tree is an input, with `None` when the parser throws.
- The JavaScript regular-expression engine for import patterns is not modelled. The captures of each pattern are an input. The Python header, keyword and signature patterns are written out over ASCII `\s` and `\w`.
- Node's `path` module is approximated over `/`-separated segments; the project root is taken to be absolute.
- JavaScript numbers are modelled as exact reals. Floating-point rounding in the weighted sums is left out.
- Git's output (`git log --name-only`) is an input. `src/main/analyzer/churn.ts` is not part of this model; the desktop risk score receives churn as an input.
- Asynchronous interleaving is left out. Scans are modelled one at a time, and overlapping rescans are not modelled.
- The notification to the window and `runScan` itself are left out of the debounce. A rescan is recorded by its start time.
- Debounce.Debouncer.Advance: when a change arrives in the same millisecond that its timer is due, the timer is taken to fire first.
- Sorting.SortDescCorrect: the in-place `Array.prototype.sort` is modelled on values by a stable insertion sort. A NaN score is not modelled.
- FileWalk.Walk: the file system is a set of total functions over a finite set of real directories. No concrete symbolic-link cycle is exhibited.
- LegacyWalk.Lister.GetFiles: when the walk throws, the partly filled list is not described. The exception discards it in every caller.
- LegacyWalk.ListSound: the file system of the older walks is a finite tree. Symbolic-link cycles are out of its reach, and entry names are assumed to contain no `/`.
- ImportGraph.DedupLosesNoEdge: completeness is proved only for paths without `→`. `ImportGraph.KeyCollision` shows what happens otherwise.
- Console logging is left out.

## Findings

| source | as written | input that shows it | evidently intended | confidence | as-written member | corrected member |
|---|---|---|---|---|---|---|
| src/main/cli/scanner.ts:35-36 | `analyzeFile(file)` is not awaited. `calculateRiskScore` receives a promise, reading `functions` on it throws, and every file is skipped | a project `/p` holding one empty file `a.ts`, parsed to a bare source file | await the analysis, so every analysable listed file is scored | high, not executed | MainCliScan.AsWrittenScoresNothing | MainCliScan.ScanComplete |
