/** The first command-line revision of the analyzer: structural analysis
    only, four metrics per function, and a naming rule that keeps any name
    that is not `undefined`, the empty string included. The parse result is
    an input; `None` means the structural parser threw, which the revision
    does not catch. */
module LegacyParser {
  import opened Wrappers
  import opened SyntaxTree
  import MainParser

  datatype FunctionMetrics = FunctionMetrics(
    name: string,
    startLine: int,
    lineCount: int,
    cyclomaticComplexity: int)

  datatype FileMetrics = FileMetrics(
    filePath: string,
    totalLines: int,
    totalFunctions: int,
    functions: seq<FunctionMetrics>)

  /** The own name when it is defined, else `anonymous`; a result of
      `anonymous` is replaced by the parent's name when that is defined. */
  function ResolveName(fn: Node, parentName: Option<string>): (name: string)
    ensures fn.name.Some? && fn.name.value != "anonymous" ==> name == fn.name.value
    ensures (fn.name.None? || fn.name.value == "anonymous") && parentName.Some? ==> name == parentName.value
    ensures (fn.name.None? || fn.name.value == "anonymous") && parentName.None? ==> name == "anonymous"
  {
    var own := if fn.name.Some? then fn.name.value else "anonymous";
    if own == "anonymous" && parentName.Some? then parentName.value else own
  }

  function Record(s: Site): FunctionMetrics
  {
    FunctionMetrics(ResolveName(s.fn, s.parentName), s.fn.startLine, LineCount(s.fn), Complexity(s.fn))
  }

  function Records(sites: seq<Site>): (fs: seq<FunctionMetrics>)
    ensures |fs| == |sites|
  {
    if sites == [] then [] else Records(sites[..|sites| - 1]) + [Record(sites[|sites| - 1])]
  }

  /** The analysis of a parsed file. */
  function Metrics(filePath: string, root: Node): FileMetrics
  {
    var fs := Records(FunctionSites(root));
    FileMetrics(filePath, root.endLine, |fs|, fs)
  }

  /** `analyzeFile`: one record per collected function; the call fails when
      the file cannot be parsed. */
  method AnalyzeFile(filePath: string, parsed: Option<Node>) returns (r: Option<FileMetrics>)
    ensures r.None? <==> parsed.None?
    ensures parsed.Some? ==> r == Some(Metrics(filePath, parsed.value))
  {
    if parsed.None? {
      return None;
    }
    var root := parsed.value;
    var sites := FunctionSites(root);
    var functions: seq<FunctionMetrics> := [];
    var i := 0;
    while i < |sites|
      invariant 0 <= i <= |sites|
      invariant functions == Records(sites[..i])
    {
      var fn := sites[i].fn;
      var name := ResolveName(fn, sites[i].parentName);
      var startLine := fn.startLine;
      var endLine := fn.endLine;
      var complexity := CyclomaticComplexity(fn);
      functions := functions + [FunctionMetrics(name, startLine, endLine - startLine + 1, complexity)];
      assert sites[..i + 1][..i] == sites[..i];
      i := i + 1;
    }
    assert sites[..|sites|] == sites;
    r := Some(FileMetrics(filePath, root.endLine, |functions|, functions));
  }

  lemma {:induction false} RecordsAt(sites: seq<Site>)
    ensures forall k :: 0 <= k < |sites| ==> Records(sites)[k] == Record(sites[k])
  {
    if sites != [] {
      RecordsAt(sites[..|sites| - 1]);
    }
  }

  /** The legacy analysis and the desktop one see the same functions in the
      same order with the same start, size and complexity; their names agree
      whenever no own or parent name is the empty string. */
  lemma AgreesWithMain(filePath: string, root: Node)
    ensures var legacy := Metrics(filePath, root).functions;
            var main := MainParser.TreeMetrics(filePath, root).functions;
            |legacy| == |main|
            && forall k :: 0 <= k < |legacy| ==>
                 legacy[k].startLine == main[k].startLine && legacy[k].lineCount == main[k].lineCount
                 && legacy[k].cyclomaticComplexity == main[k].cyclomaticComplexity
                 && (var s := FunctionSites(root)[k];
                     s.fn.name != Some("") && s.parentName != Some("") ==> legacy[k].name == main[k].name)
  {
    var sites := FunctionSites(root);
    RecordsAt(sites);
    MainParser.TreeRecordsAt(sites);
  }

  /** Where the revisions differ: a function whose name is the empty string
      keeps that empty name here, while the desktop analyzer reports it as
      `anonymous` (or by its parent's name). */
  lemma EmptyNameKept()
    ensures var fn := Node(FunctionDeclaration, 1, 1, [], Some(""), None);
            ResolveName(fn, None) == "" && MainParser.ResolveName(fn, None) == "anonymous"
  {
  }
}
