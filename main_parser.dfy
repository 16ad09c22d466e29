/** The file analyzer of the desktop application: language detection from
    the extension, per-function metrics from the syntax tree for TypeScript
    and JavaScript, and the line-based heuristics for Python and as the
    fallback when the structural parser fails.

    The syntax tree is an input (`None` when the structural parser throws);
    the file's text is an input too (`None` when reading it throws). */
module MainParser {
  import opened Wrappers
  import opened Text
  import Paths
  import opened SyntaxTree
  import opened PyHeuristics

  datatype Language = TypeScript | JavaScript | Python | Unknown

  datatype FunctionMetrics = FunctionMetrics(
    name: string,
    startLine: int,
    lineCount: int,
    cyclomaticComplexity: int,
    parameterCount: int,
    maxDepth: int)

  datatype FileMetrics = FileMetrics(
    filePath: string,
    totalLines: int,
    totalFunctions: int,
    functions: seq<FunctionMetrics>,
    language: Language)

  /** The invariant every analysis result keeps: the function count is the
      length of the function list. */
  predicate Consistent(m: FileMetrics)
  {
    m.totalFunctions == |m.functions|
  }

  // ---------------------------------------------------------------------
  // Language detection
  // ---------------------------------------------------------------------

  const ExtensionMap: map<string, Language> := map[
    ".ts" := TypeScript, ".tsx" := TypeScript,
    ".js" := JavaScript, ".jsx" := JavaScript, ".mjs" := JavaScript, ".cjs" := JavaScript,
    ".py" := Python]

  /** The language of a path: its lower-cased extension looked up in the
      extension table, `Unknown` when absent. */
  function DetectLanguage(filePath: string): (lang: Language)
    ensures lang != Unknown <==> ToLower(Paths.Extname(filePath)) in ExtensionMap
  {
    var ext := ToLower(Paths.Extname(filePath));
    if ext in ExtensionMap then ExtensionMap[ext] else Unknown
  }

  lemma {:induction false} ToLowerIdempotent(s: string)
    ensures ToLower(ToLower(s)) == ToLower(s)
  {
    assert forall i :: 0 <= i < |s| ==> LowerChar(LowerChar(s[i])) == LowerChar(s[i]);
  }

  /** Detection ignores the case of the path: `A.TS` is TypeScript. */
  lemma DetectLanguageIgnoresCase(filePath: string)
    ensures DetectLanguage(ToLower(filePath)) == DetectLanguage(filePath)
  {
    Paths.ExtnameIgnoresCase(filePath);
    ToLowerIdempotent(Paths.Extname(filePath));
  }

  /** The language of `join(dir, name)` depends on the entry name alone. */
  lemma DetectLanguageOfJoin(dir: string, name: string)
    requires '/' !in name
    ensures DetectLanguage(Paths.Join(dir, name)) == DetectLanguage(name)
  {
    Paths.ExtnameOfJoin(dir, name);
  }

  /** The table's languages, extension by extension. */
  lemma DetectLanguageTable(filePath: string)
    ensures var ext := ToLower(Paths.Extname(filePath));
            (DetectLanguage(filePath) == TypeScript <==> ext == ".ts" || ext == ".tsx")
            && (DetectLanguage(filePath) == JavaScript
                <==> ext == ".js" || ext == ".jsx" || ext == ".mjs" || ext == ".cjs")
            && (DetectLanguage(filePath) == Python <==> ext == ".py")
  {
  }

  // ---------------------------------------------------------------------
  // Structural analysis
  // ---------------------------------------------------------------------

  /** A name counts only when it is a non-empty string (`if (raw)`). */
  predicate Truthy(n: Option<string>)
  {
    n.Some? && n.value != ""
  }

  /** The function's own truthy name, else `anonymous`; a result of
      `anonymous` (also when that is the own name) is replaced by the
      parent's truthy name. */
  function ResolveName(fn: Node, parentName: Option<string>): (name: string)
    ensures name != ""
    ensures Truthy(fn.name) && fn.name.value != "anonymous" ==> name == fn.name.value
    ensures !(Truthy(fn.name) && fn.name.value != "anonymous") && Truthy(parentName)
            ==> name == parentName.value
    ensures !(Truthy(fn.name) && fn.name.value != "anonymous") && !Truthy(parentName)
            ==> name == "anonymous"
  {
    var own := if Truthy(fn.name) then fn.name.value else "anonymous";
    if own == "anonymous" && Truthy(parentName) then parentName.value else own
  }

  /** The metrics of one collected function. */
  function TreeRecord(s: Site): FunctionMetrics
  {
    FunctionMetrics(
      ResolveName(s.fn, s.parentName), s.fn.startLine, LineCount(s.fn),
      Complexity(s.fn), ParameterCount(s.fn), MaxDepth(s.fn, 0))
  }

  function TreeRecords(sites: seq<Site>): (fs: seq<FunctionMetrics>)
    ensures |fs| == |sites|
  {
    if sites == [] then [] else TreeRecords(sites[..|sites| - 1]) + [TreeRecord(sites[|sites| - 1])]
  }

  /** The result of the structural analyzer for a parsed file. */
  function TreeMetrics(filePath: string, root: Node): FileMetrics
  {
    var fs := TreeRecords(FunctionSites(root));
    FileMetrics(filePath, root.endLine, |fs|, fs, TypeScript)
  }

  /** `analyzeWithTsMorph`: one record per collected function, in
      collection order. */
  method AnalyzeWithTree(filePath: string, root: Node) returns (m: FileMetrics)
    ensures m == TreeMetrics(filePath, root)
  {
    var sites := FunctionSites(root);
    var functions: seq<FunctionMetrics> := [];
    var i := 0;
    while i < |sites|
      invariant 0 <= i <= |sites|
      invariant functions == TreeRecords(sites[..i])
    {
      var record := AnalyzeSite(sites[i]);
      TreeRecordsStep(sites, i);
      functions := functions + [record];
      i := i + 1;
    }
    assert sites[..|sites|] == sites;
    m := FileMetrics(filePath, root.endLine, |functions|, functions, TypeScript);
  }

  /** The record of one collected function. */
  method AnalyzeSite(site: Site) returns (record: FunctionMetrics)
    ensures record == TreeRecord(site)
  {
    var fn := site.fn;
    var name := ResolveName(fn, site.parentName);
    var startLine := fn.startLine;
    var lineCount := fn.endLine - startLine + 1;
    var complexity := CyclomaticComplexity(fn);
    var parameterCount := if fn.params.Some? then |fn.params.value| else 0;
    var maxDepth := ComputeMaxDepth(fn, 0);
    record := FunctionMetrics(name, startLine, lineCount, complexity, parameterCount, maxDepth);
  }

  lemma TreeRecordsStep(sites: seq<Site>, i: nat)
    requires i < |sites|
    ensures TreeRecords(sites[..i + 1]) == TreeRecords(sites[..i]) + [TreeRecord(sites[i])]
  {
    assert sites[..i + 1][..i] == sites[..i];
  }

  /** Every structural record has a non-empty name, complexity at least one
      and a non-negative depth; there is one record per collected function,
      and the arrow-function records are those of the arrow-function
      descendants of the file. */
  lemma TreeMetricsShape(filePath: string, root: Node)
    ensures var m := TreeMetrics(filePath, root);
            Consistent(m)
            && |m.functions| == |TopLevelFunctions(root)| + |OfKind(Descendants(root), ArrowFunction)|
                                + |MethodsOfClasses(root.children)|
            && forall k :: 0 <= k < |m.functions| ==>
                 m.functions[k].name != "" && m.functions[k].cyclomaticComplexity >= 1
                 && m.functions[k].maxDepth >= 0 && m.functions[k].parameterCount >= 0
  {
    ArrowSitesAreArrowDescendants(root);
    var sites := FunctionSites(root);
    TreeRecordsAt(sites);
    forall k | 0 <= k < |sites|
      ensures MaxDepth(sites[k].fn, 0) >= 0
    {
      MaxDepthBounds(sites[k].fn, 0);
    }
  }

  lemma {:induction false} TreeRecordsAt(sites: seq<Site>)
    ensures forall k :: 0 <= k < |sites| ==> TreeRecords(sites)[k] == TreeRecord(sites[k])
  {
    if sites != [] {
      TreeRecordsAt(sites[..|sites| - 1]);
    }
  }

  // ---------------------------------------------------------------------
  // Line-based analysis
  // ---------------------------------------------------------------------

  /** The metrics of the function whose header is line `i`: it runs to the
      line before the next header, or to the end of the file. */
  function RegexRecord(lines: seq<string>, i: nat): FunctionMetrics
    requires i < |lines|
  {
    var e := NextDef(lines, i + 1, IsDefLine);
    var fnLines := lines[i..e];
    FunctionMetrics(
      NameMatch(lines[i]).GetOr("anonymous"), i + 1, |fnLines|,
      1 + KeywordTotal(fnLines), ParamCount(lines[i]), MaxIndentDepth(fnLines))
  }

  /** The records for the headers among the first `n` lines. */
  function RegexFunctions(lines: seq<string>, n: nat): (fs: seq<FunctionMetrics>)
    requires n <= |lines|
  {
    if n == 0 then []
    else RegexFunctions(lines, n - 1) + LineRecords(lines, n - 1)
  }

  /** What the scan pushes for line `i`: the record of a header line,
      nothing for any other line. */
  function LineRecords(lines: seq<string>, i: nat): seq<FunctionMetrics>
    requires i < |lines|
  {
    if IsDefLine(lines[i]) then [RegexRecord(lines, i)] else []
  }

  /** The result of the line-based analyzer. */
  function RegexMetrics(source: string, filePath: string, language: Language): FileMetrics
  {
    var lines := Split(source, '\n');
    var fs := RegexFunctions(lines, |lines|);
    FileMetrics(filePath, |lines|, |fs|, fs, language)
  }

  /** The inner loop of `analyzeWithRegex`: the index of the next header
      after line `i`, or the number of lines when there is none. */
  method FindEnd(lines: seq<string>, i: nat) returns (endLine: nat)
    requires i < |lines|
    ensures endLine == NextDef(lines, i + 1, IsDefLine)
  {
    endLine := |lines|;
    var j := i + 1;
    while j < |lines|
      invariant i + 1 <= j <= |lines|
      invariant endLine == |lines|
      invariant NextDef(lines, i + 1, IsDefLine) == NextDef(lines, j, IsDefLine)
    {
      if IsDefLine(lines[j]) {
        endLine := j;
        return;
      }
      j := j + 1;
    }
  }

  /** The body of the scan at a header line `i`: the function's name, its
      end, and the metrics of its lines. */
  method AnalyzeHeader(lines: seq<string>, i: nat) returns (record: FunctionMetrics)
    requires i < |lines|
    ensures record == RegexRecord(lines, i)
  {
    var line := lines[i];
    var name := NameMatch(line).GetOr("anonymous");
    var endLine := FindEnd(lines, i);
    var fnLines := lines[i..endLine];
    var complexity := 1 + KeywordTotal(fnLines);
    var parameterCount := ParamCount(line);
    var maxDepth := MaxIndentDepth(fnLines);
    record := FunctionMetrics(name, i + 1, |fnLines|, complexity, parameterCount, maxDepth);
  }

  /** One pass of the loop: the header patterns are tried on line `i`, and
      a header's record is pushed. */
  method AnalyzeLine(lines: seq<string>, i: nat) returns (found: seq<FunctionMetrics>)
    requires i < |lines|
    ensures found == LineRecords(lines, i)
  {
    found := [];
    if IsDefLine(lines[i]) {
      var record := AnalyzeHeader(lines, i);
      found := [record];
    }
  }

  /** `analyzeWithRegex`: the scan over the lines, with the inner scan for
      the end of each function. */
  method AnalyzeWithRegex(source: string, filePath: string, language: Language) returns (m: FileMetrics)
    ensures m == RegexMetrics(source, filePath, language)
  {
    var lines := Split(source, '\n');
    var functions := ScanLines(lines);
    m := FileMetrics(filePath, |lines|, |functions|, functions, language);
  }

  /** The loop of `analyzeWithRegex` over the lines. */
  method ScanLines(lines: seq<string>) returns (functions: seq<FunctionMetrics>)
    ensures functions == RegexFunctions(lines, |lines|)
  {
    functions := [];
    var i: nat := 0;
    while i < |lines|
      invariant i <= |lines|
      invariant functions == RegexFunctions(lines, i)
    {
      var found := AnalyzeLine(lines, i);
      RegexFunctionsStep(lines, i);
      functions := functions + found;
      i := i + 1;
    }
  }

  /** One more line of the scan appends that line's records. */
  lemma RegexFunctionsStep(lines: seq<string>, i: nat)
    requires i < |lines|
    ensures RegexFunctions(lines, i + 1) == RegexFunctions(lines, i) + LineRecords(lines, i)
  {
  }

  /** The record of line `i` as a total function of the index. */
  function RecordOf(lines: seq<string>): nat -> FunctionMetrics
  {
    (i: nat) => if i < |lines| then RegexRecord(lines, i) else FunctionMetrics("anonymous", 0, 0, 0, 0, 0)
  }

  lemma {:induction false} RegexFunctionsAreHeaderRecords(lines: seq<string>, n: nat)
    requires n <= |lines|
    ensures RegexFunctions(lines, n) == HeaderRecords(lines, n, IsDefLine, RecordOf(lines))
  {
    if n > 0 {
      RegexFunctionsAreHeaderRecords(lines, n - 1);
      var step := if IsDefLine(lines[n - 1]) then [RecordOf(lines)(n - 1)] else [];
      assert LineRecords(lines, n - 1) == step by {
        assert RecordOf(lines)(n - 1) == RegexRecord(lines, n - 1);
      }
      assert HeaderRecords(lines, n, IsDefLine, RecordOf(lines))
             == HeaderRecords(lines, n - 1, IsDefLine, RecordOf(lines)) + step;
    }
  }

  lemma RegexFunctionsAt(lines: seq<string>, n: nat)
    requires n <= |lines|
    ensures var ds := DefStarts(lines, n, IsDefLine);
            |RegexFunctions(lines, n)| == |ds|
            && forall k :: 0 <= k < |ds| ==> RegexFunctions(lines, n)[k] == RegexRecord(lines, ds[k])
  {
    RegexFunctionsAreHeaderRecords(lines, n);
    HeaderRecordsAt(lines, n, IsDefLine, RecordOf(lines));
  }

  /** The record of a header line starts there, carries the header's own
      name and covers at least the header. */
  lemma RegexRecordAtHeader(lines: seq<string>, i: nat)
    requires i < |lines| && IsDefLine(lines[i])
    ensures var r := RegexRecord(lines, i);
            r.startLine == i + 1 && Some(r.name) == HeaderName(lines[i])
            && r.lineCount >= 1 && r.cyclomaticComplexity >= 1
  {
    NameMatchOnHeader(lines[i]);
  }

  /** Each line-based record starts on a header line, carries that
      header's own name and covers at least its header. */
  lemma RegexRecordsStartOnHeaders(lines: seq<string>)
    ensures var fs := RegexFunctions(lines, |lines|);
            forall k :: 0 <= k < |fs| ==>
              1 <= fs[k].startLine <= |lines| && IsDefLine(lines[fs[k].startLine - 1])
              && Some(fs[k].name) == HeaderName(lines[fs[k].startLine - 1])
              && fs[k].lineCount >= 1 && fs[k].cyclomaticComplexity >= 1
  {
    RegexFunctionsAt(lines, |lines|);
    DefStartsShape(lines, |lines|, IsDefLine);
    var ds := DefStarts(lines, |lines|, IsDefLine);
    var fs := RegexFunctions(lines, |lines|);
    forall k | 0 <= k < |fs|
      ensures 1 <= fs[k].startLine <= |lines| && IsDefLine(lines[fs[k].startLine - 1])
              && Some(fs[k].name) == HeaderName(lines[fs[k].startLine - 1])
              && fs[k].lineCount >= 1 && fs[k].cyclomaticComplexity >= 1
    {
      RegexRecordAtHeader(lines, ds[k]);
    }
  }

  /** The line-based records tile the file from the first header on: each
      ends right before the next, the last ends on the last line, and no
      header line before the first record is skipped. */
  lemma RegexRecordsTile(lines: seq<string>)
    ensures var fs := RegexFunctions(lines, |lines|);
            (forall k :: 0 <= k < |fs| - 1 ==> fs[k].startLine + fs[k].lineCount == fs[k + 1].startLine)
            && (|fs| > 0 ==> fs[|fs| - 1].startLine + fs[|fs| - 1].lineCount == |lines| + 1)
            && (forall i :: 0 <= i < |lines| && (|fs| == 0 || i < fs[0].startLine - 1)
                  ==> !IsDefLine(lines[i]))
  {
    RegexFunctionsAt(lines, |lines|);
    var fs := RegexFunctions(lines, |lines|);
    forall k | 0 <= k < |fs| - 1
      ensures fs[k].startLine + fs[k].lineCount == fs[k + 1].startLine
    {
      TileStep(lines, k);
    }
    if |fs| > 0 {
      TileLast(lines);
    }
    TileFirst(lines);
  }

  /** Neighbouring records meet: one ends where the next starts. */
  lemma TileStep(lines: seq<string>, k: nat)
    requires k + 1 < |RegexFunctions(lines, |lines|)|
    ensures RegexFunctions(lines, |lines|)[k].startLine + RegexFunctions(lines, |lines|)[k].lineCount
            == RegexFunctions(lines, |lines|)[k + 1].startLine
  {
    RegexFunctionsAt(lines, |lines|);
    SpanEndsAtNextStart(lines, IsDefLine, k);
  }

  /** The last record ends at the end of the file. */
  lemma TileLast(lines: seq<string>)
    requires |RegexFunctions(lines, |lines|)| > 0
    ensures var fs := RegexFunctions(lines, |lines|);
            fs[|fs| - 1].startLine + fs[|fs| - 1].lineCount == |lines| + 1
  {
    RegexFunctionsAt(lines, |lines|);
    LastSpanEndsAtEof(lines, IsDefLine);
  }

  /** No header comes before the first record. */
  lemma TileFirst(lines: seq<string>)
    ensures forall i :: 0 <= i < |lines| && (|RegexFunctions(lines, |lines|)| == 0 || i < RegexFunctions(lines, |lines|)[0].startLine - 1)
              ==> !IsDefLine(lines[i])
  {
    RegexFunctionsAt(lines, |lines|);
    DefStartsShape(lines, |lines|, IsDefLine);
  }

  /** The line-based analysis of a text: the count is consistent, the file
      has one line more than it has line feeds, and the records start on
      headers and tile the file (the two lemmas above). */
  lemma RegexMetricsShape(source: string, filePath: string, language: Language)
    ensures var m := RegexMetrics(source, filePath, language);
            Consistent(m) && m.totalLines == CountChar(source, '\n') + 1
            && m.functions == RegexFunctions(Split(source, '\n'), m.totalLines)
            && m.language == language && m.filePath == filePath
  {
    SplitCount(source, '\n');
  }

  // ---------------------------------------------------------------------
  // Entry points
  // ---------------------------------------------------------------------

  /** Whether the structural path is used: a TypeScript or JavaScript file
      that the structural parser accepted. */
  predicate UsesTree(filePath: string, parsed: Option<Node>)
  {
    (DetectLanguage(filePath) == TypeScript || DetectLanguage(filePath) == JavaScript) && parsed.Some?
  }

  /** What `analyzeFile` resolves to; `None` when it rejects (the text could
      not be read on the line-based path). */
  function AnalyzeFileResult(filePath: string, parsed: Option<Node>, source: Option<string>): Option<FileMetrics>
  {
    var language := DetectLanguage(filePath);
    if UsesTree(filePath, parsed) then Some(TreeMetrics(filePath, parsed.value).(language := language))
    else if source.None? then None
    else Some(RegexMetrics(source.value, filePath, language))
  }

  /** `analyzeFile`: the structural analyzer for TypeScript and JavaScript,
      falling back to the line-based one when it throws; the line-based one
      for every other language. */
  method AnalyzeFile(filePath: string, parsed: Option<Node>, source: Option<string>) returns (r: Option<FileMetrics>)
    ensures r == AnalyzeFileResult(filePath, parsed, source)
  {
    var language := DetectLanguage(filePath);
    if language == TypeScript || language == JavaScript {
      if parsed.Some? {
        var result := AnalyzeWithTree(filePath, parsed.value);
        return Some(result.(language := language));
      }
    }
    if source.None? {
      return None;
    }
    var m := AnalyzeWithRegex(source.value, filePath, language);
    r := Some(m);
  }

  /** The result always carries the path and the detected language and
      keeps its count consistent; it is absent exactly when the structural
      path is not taken and the text cannot be read; Python and unknown
      files never take the structural path. */
  lemma AnalyzeFileResultShape(filePath: string, parsed: Option<Node>, source: Option<string>)
    ensures var r := AnalyzeFileResult(filePath, parsed, source);
            (r.None? <==> !UsesTree(filePath, parsed) && source.None?)
            && (r.Some? ==> r.value.filePath == filePath && r.value.language == DetectLanguage(filePath)
                            && Consistent(r.value))
            && (DetectLanguage(filePath) == Python || DetectLanguage(filePath) == Unknown ==>
                  r == (if source.None? then None
                        else Some(RegexMetrics(source.value, filePath, DetectLanguage(filePath)))))
  {
    if parsed.Some? {
      TreeMetricsShape(filePath, parsed.value);
    }
  }

  /** `analyzeFileSync`: always the line-based analyzer. */
  method AnalyzeFileSync(filePath: string, source: Option<string>) returns (r: Option<FileMetrics>)
    ensures r.None? <==> source.None?
    ensures source.Some? ==> r == Some(RegexMetrics(source.value, filePath, DetectLanguage(filePath)))
  {
    var language := DetectLanguage(filePath);
    if source.None? {
      return None;
    }
    var m := AnalyzeWithRegex(source.value, filePath, language);
    r := Some(m);
  }
}
