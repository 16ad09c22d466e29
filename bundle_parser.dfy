/** The analyzer as shipped in the built application bundle: the same
    language detection, function collection, naming and line-based scan as
    the desktop sources, but each function record keeps only its name,
    start, size and complexity (no parameter count, no nesting depth). */
module BundleParser {
  import opened Wrappers
  import opened Text
  import opened SyntaxTree
  import opened PyHeuristics
  import MainParser
  import LegacyParser

  type FunctionMetrics = LegacyParser.FunctionMetrics

  datatype FileMetrics = FileMetrics(
    filePath: string,
    totalLines: int,
    totalFunctions: int,
    functions: seq<FunctionMetrics>,
    language: MainParser.Language)

  /** A desktop record without its two newer fields. */
  function Basic(f: MainParser.FunctionMetrics): FunctionMetrics
  {
    LegacyParser.FunctionMetrics(f.name, f.startLine, f.lineCount, f.cyclomaticComplexity)
  }

  function BasicAll(fs: seq<MainParser.FunctionMetrics>): (r: seq<FunctionMetrics>)
    ensures |r| == |fs| && forall k :: 0 <= k < |fs| ==> r[k] == Basic(fs[k])
  {
    seq(|fs|, k requires 0 <= k < |fs| => Basic(fs[k]))
  }

  /** A desktop analysis without the two newer fields of its records. */
  function Project(m: MainParser.FileMetrics): FileMetrics
  {
    FileMetrics(m.filePath, m.totalLines, m.totalFunctions, BasicAll(m.functions), m.language)
  }

  lemma BasicAllSnoc(fs: seq<MainParser.FunctionMetrics>, f: MainParser.FunctionMetrics)
    ensures BasicAll(fs + [f]) == BasicAll(fs) + [Basic(f)]
  {
    assert forall k :: 0 <= k < |fs| ==> (fs + [f])[k] == fs[k];
  }

  lemma BasicAllAppend(fs: seq<MainParser.FunctionMetrics>, gs: seq<MainParser.FunctionMetrics>)
    ensures BasicAll(fs + gs) == BasicAll(fs) + BasicAll(gs)
  {
    assert forall k :: 0 <= k < |fs| ==> (fs + gs)[k] == fs[k];
    assert forall k :: 0 <= k < |gs| ==> (fs + gs)[|fs| + k] == gs[k];
  }

  /** `analyzeWithTsMorph` of the bundle: the desktop records, projected. */
  method AnalyzeWithTree(filePath: string, root: Node) returns (m: FileMetrics)
    ensures m == Project(MainParser.TreeMetrics(filePath, root))
  {
    var sites := FunctionSites(root);
    var functions: seq<FunctionMetrics> := [];
    var i := 0;
    while i < |sites|
      invariant 0 <= i <= |sites|
      invariant functions == BasicAll(MainParser.TreeRecords(sites[..i]))
    {
      var record := AnalyzeSite(sites[i]);
      MainParser.TreeRecordsStep(sites, i);
      BasicAllSnoc(MainParser.TreeRecords(sites[..i]), MainParser.TreeRecord(sites[i]));
      functions := functions + [record];
      i := i + 1;
    }
    assert sites[..|sites|] == sites;
    m := FileMetrics(filePath, root.endLine, |functions|, functions, MainParser.TypeScript);
  }

  /** The bundle's record of one collected function: its name, start, size
      and complexity. */
  method AnalyzeSite(site: Site) returns (record: FunctionMetrics)
    ensures record == Basic(MainParser.TreeRecord(site))
  {
    var fn := site.fn;
    var name := MainParser.ResolveName(fn, site.parentName);
    var startLine := fn.startLine;
    var lineCount := fn.endLine - startLine + 1;
    var complexity := CyclomaticComplexity(fn);
    record := LegacyParser.FunctionMetrics(name, startLine, lineCount, complexity);
  }

  /** The bundle's record of the function whose header is line `i`: its
      name, start, size and complexity. */
  method AnalyzeHeader(lines: seq<string>, i: nat) returns (record: FunctionMetrics)
    requires i < |lines|
    ensures record == Basic(MainParser.RegexRecord(lines, i))
  {
    var name := NameMatch(lines[i]).GetOr("anonymous");
    var endLine := MainParser.FindEnd(lines, i);
    var fnLines := lines[i..endLine];
    var complexity := 1 + KeywordTotal(fnLines);
    record := LegacyParser.FunctionMetrics(name, i + 1, |fnLines|, complexity);
  }

  /** One pass of the bundle's line loop: the header patterns are tried on
      line `i`, and a header's record is pushed. */
  method AnalyzeLine(lines: seq<string>, i: nat) returns (found: seq<FunctionMetrics>)
    requires i < |lines|
    ensures found == BasicAll(MainParser.LineRecords(lines, i))
  {
    found := [];
    if IsDefLine(lines[i]) {
      var record := AnalyzeHeader(lines, i);
      found := [record];
      assert BasicAll([MainParser.RegexRecord(lines, i)]) == [record];
    }
  }

  /** `analyzeWithRegex` of the bundle: the same scan as the desktop one,
      projected. */
  method AnalyzeWithRegex(source: string, filePath: string, language: MainParser.Language) returns (m: FileMetrics)
    ensures m == Project(MainParser.RegexMetrics(source, filePath, language))
  {
    var lines := Split(source, '\n');
    var functions := ScanLines(lines);
    m := FileMetrics(filePath, |lines|, |functions|, functions, language);
  }

  /** The bundle's loop over the lines. */
  method ScanLines(lines: seq<string>) returns (functions: seq<FunctionMetrics>)
    ensures functions == BasicAll(MainParser.RegexFunctions(lines, |lines|))
  {
    functions := [];
    var i: nat := 0;
    while i < |lines|
      invariant i <= |lines|
      invariant functions == BasicAll(MainParser.RegexFunctions(lines, i))
    {
      var found := AnalyzeLine(lines, i);
      ScanStep(lines, i);
      functions := functions + found;
      i := i + 1;
    }
  }

  /** One more line of the scan appends that line's projected records. */
  lemma ScanStep(lines: seq<string>, i: nat)
    requires i < |lines|
    ensures BasicAll(MainParser.RegexFunctions(lines, i + 1))
            == BasicAll(MainParser.RegexFunctions(lines, i)) + BasicAll(MainParser.LineRecords(lines, i))
  {
    MainParser.RegexFunctionsStep(lines, i);
    BasicAllAppend(MainParser.RegexFunctions(lines, i), MainParser.LineRecords(lines, i));
  }

  /** What the bundle's `analyzeFile` resolves to. */
  function AnalyzeFileResult(filePath: string, parsed: Option<Node>, source: Option<string>): Option<FileMetrics>
  {
    var language := MainParser.DetectLanguage(filePath);
    if MainParser.UsesTree(filePath, parsed) then Some(Project(MainParser.TreeMetrics(filePath, parsed.value)).(language := language))
    else if source.None? then None
    else Some(Project(MainParser.RegexMetrics(source.value, filePath, language)))
  }

  /** `analyzeFile` of the bundle: the same dispatch as the desktop one. */
  method AnalyzeFile(filePath: string, parsed: Option<Node>, source: Option<string>) returns (r: Option<FileMetrics>)
    ensures r == AnalyzeFileResult(filePath, parsed, source)
  {
    var language := MainParser.DetectLanguage(filePath);
    if language == MainParser.TypeScript || language == MainParser.JavaScript {
      if parsed.Some? {
        var result := AnalyzeWithTree(filePath, parsed.value);
        return Some(result.(language := language));
      }
    }
    if source.None? {
      return None;
    }
    var m := AnalyzeWithRegex(source.value, filePath, language);
    r := Some(m);
  }

  /** The bundle's analysis fails only when the source is needed and cannot
      be read; it reports the file's path and detected language, and its
      records are those of the desktop analysis without the two newer
      fields. */
  lemma AnalyzeFileResultShape(filePath: string, parsed: Option<Node>, source: Option<string>)
    ensures var r := AnalyzeFileResult(filePath, parsed, source);
            var full := MainParser.AnalyzeFileResult(filePath, parsed, source);
            (r.None? <==> full.None?)
            && (r.Some? ==> r.value.filePath == filePath && r.value.language == MainParser.DetectLanguage(filePath)
                            && r.value.functions == BasicAll(full.value.functions))
  {
    MainParser.AnalyzeFileResultShape(filePath, parsed, source);
  }
}
