/** `scanProject` of the bundled application: collect the project's files,
    read, analyse, score and save each one, then build the import graph of
    every file that could be read and sort the scores, highest first.

    Everything outside the process is an input: the file system and the
    file contents, the structural parse of each file (`None` when the
    parser throws), the set of files whose database writes throw, the
    configured project path and ignore list, the output of git, and the
    import captures. */
module BundleScan {
  import opened Wrappers
  import SyntaxTree
  import MainParser
  import BundleParser
  import BundleRisk
  import Churn
  import FileWalk
  import ImportGraph
  import Sorting

  datatype Environment = Environment(
    fs: FileWalk.FileSystem,
    readFile: string -> Option<string>,
    parse: string -> Option<SyntaxTree.Node>,
    saveFails: set<string>,
    configProjectPath: string,
    ignore: seq<string>,
    gitLog: Option<string>,
    captures: ImportGraph.Captures)

  datatype ScanResult = ScanResult(files: seq<BundleRisk.RiskScoreResult>, edges: seq<ImportGraph.Edge>)

  function Score(r: BundleRisk.RiskScoreResult): real
  {
    r.globalScore
  }

  /** One pass of the loop: the file's score, or `None` when reading,
      analysing or saving it throws. */
  function FileResult(env: Environment, file: string): Option<BundleRisk.RiskScoreResult>
  {
    match env.readFile(file)
    case None => None
    case Some(source) =>
      match BundleParser.AnalyzeFileResult(file, env.parse(file), Some(source))
      case None => None
      case Some(analysis) =>
        var churn := Churn.ChurnOf(env.configProjectPath, env.gitLog, analysis.filePath);
        if file in env.saveFails then None
        else Some(BundleRisk.CalculateRiskScore(analysis, churn))
  }

  /** The scores pushed by the loop, in file order. */
  function Results(env: Environment, files: seq<string>): seq<BundleRisk.RiskScoreResult>
  {
    if files == [] then []
    else
      var r := FileResult(env, files[|files| - 1]);
      Results(env, files[..|files| - 1]) + (if r.Some? then [r.value] else [])
  }

  /** The sources recorded by the loop: every file that could be read. */
  function Sources(env: Environment, files: seq<string>): map<string, string>
  {
    if files == [] then map[]
    else
      var file := files[|files| - 1];
      var prev := Sources(env, files[..|files| - 1]);
      if env.readFile(file).Some? then prev[file := env.readFile(file).value] else prev
  }

  /** The result of a scan of the files `files`. */
  function ScanOf(env: Environment, files: seq<string>): ScanResult
  {
    ScanResult(
      Sorting.SortDesc(Results(env, files), Score),
      ImportGraph.Dedup(ImportGraph.AllEdges(files, Sources(env, files), env.captures, set f | f in files)))
  }

  /** The result of a scan of `projectPath`. */
  function Scan(env: Environment, projectPath: string): ScanResult
    requires FileWalk.WellFormed(env.fs)
  {
    ScanOf(env, FileWalk.Walk(env.fs, projectPath, env.ignore, {}).files)
  }

  lemma ResultsStep(env: Environment, files: seq<string>, i: int)
    requires 0 <= i < |files|
    ensures Results(env, files[..i + 1])
              == Results(env, files[..i]) + (if FileResult(env, files[i]).Some? then [FileResult(env, files[i]).value] else [])
  {
    assert files[..i + 1][..i] == files[..i];
  }

  lemma SourcesStep(env: Environment, files: seq<string>, i: int)
    requires 0 <= i < |files|
    ensures Sources(env, files[..i + 1])
              == if env.readFile(files[i]).Some? then Sources(env, files[..i])[files[i] := env.readFile(files[i]).value]
                 else Sources(env, files[..i])
  {
    assert files[..i + 1][..i] == files[..i];
  }

  /** `scanProject`. The churn cache is cleared first and filled from the
      git output on the first score computed. */
  method ScanProject(env: Environment, projectPath: string, cache: Churn.ChurnCache) returns (r: ScanResult)
    requires FileWalk.WellFormed(env.fs)
    modifies cache
    ensures r == Scan(env, projectPath)
    ensures cache.cache.None? || cache.cache == Some(Churn.ChurnTable(env.configProjectPath, env.gitLog))
  {
    var walker := new FileWalk.Walker();
    walker.GetFiles(env.fs, projectPath, env.ignore);
    var files := walker.fileList;
    cache.Clear();
    var results: seq<BundleRisk.RiskScoreResult> := [];
    var fileSources: map<string, string> := map[];
    var i := 0;
    while i < |files|
      invariant 0 <= i <= |files|
      invariant results == Results(env, files[..i])
      invariant fileSources == Sources(env, files[..i])
      invariant cache.Valid()
      invariant cache.cache.None? || cache.cache == Some(Churn.ChurnTable(env.configProjectPath, env.gitLog))
    {
      var file := files[i];
      ResultsStep(env, files, i);
      SourcesStep(env, files, i);
      var source, result := ScanFile(env, file, cache);
      if source.Some? {
        fileSources := fileSources[file := source.value];
      }
      if result.Some? {
        results := results + [result.value];
      }
      assert results == Results(env, files[..i + 1]);
      assert fileSources == Sources(env, files[..i + 1]);
      i := i + 1;
    }
    assert files[..|files|] == files;
    var edges := ImportGraph.BuildEdges(files, fileSources, env.captures);
    r := ScanResult(Sorting.SortDesc(results, Score), edges);
  }

  /** One pass of the loop of `scanProject`: read the file, analyse it,
      score it with its churn and save the score; `result` is `None` when
      any of these throws, `source` is `None` when the read does. */
  method ScanFile(env: Environment, file: string, cache: Churn.ChurnCache)
    returns (source: Option<string>, result: Option<BundleRisk.RiskScoreResult>)
    requires cache.Valid()
    requires cache.cache.None? || cache.cache == Some(Churn.ChurnTable(env.configProjectPath, env.gitLog))
    modifies cache
    ensures cache.Valid()
    ensures cache.cache.None? || cache.cache == Some(Churn.ChurnTable(env.configProjectPath, env.gitLog))
    ensures source == env.readFile(file) && result == FileResult(env, file)
  {
    source := env.readFile(file);
    if source.None? {
      return source, None;
    }
    var analysis := BundleParser.AnalyzeFile(file, env.parse(file), source);
    if analysis.None? {
      return source, None;
    }
    var churn := cache.GetChurnScore(analysis.value.filePath, env.configProjectPath, env.gitLog);
    var riskScore := BundleRisk.CalculateRiskScore(analysis.value, churn);
    if file in env.saveFails {
      return source, None;
    }
    result := Some(riskScore);
  }

  /** Every file that can be read and saved is scored, with its own path
      and detected language; nothing else is scored. */
  lemma FileResultFacts(env: Environment, file: string)
    ensures var r := FileResult(env, file);
            (r.Some? <==> env.readFile(file).Some? && file !in env.saveFails)
            && (r.Some? ==> r.value.filePath == file && r.value.language == MainParser.DetectLanguage(file)
                            && 0.0 <= r.value.globalScore <= 100.0)
  {
    if env.readFile(file).Some? {
      BundleParser.AnalyzeFileResultShape(file, env.parse(file), env.readFile(file));
      MainParser.AnalyzeFileResultShape(file, env.parse(file), env.readFile(file));
    }
  }

  /** A score the loop may push for one of `files`. */
  ghost predicate Scored(env: Environment, files: seq<string>, r: BundleRisk.RiskScoreResult)
  {
    r.filePath in files && env.readFile(r.filePath).Some? && r.filePath !in env.saveFails
    && r.language == MainParser.DetectLanguage(r.filePath)
  }

  lemma {:induction false} ResultsSound(env: Environment, files: seq<string>)
    ensures forall k :: 0 <= k < |Results(env, files)| ==> Scored(env, files, Results(env, files)[k])
  {
    if files != [] {
      var init := files[..|files| - 1];
      var file := files[|files| - 1];
      ResultsSound(env, init);
      FileResultFacts(env, file);
      var prev := Results(env, init);
      var rs := Results(env, files);
      var r := FileResult(env, file);
      assert rs == prev + (if r.Some? then [r.value] else []);
      forall k | 0 <= k < |rs|
        ensures Scored(env, files, rs[k])
      {
        if k < |prev| {
          assert rs[k] == prev[k] && Scored(env, init, prev[k]);
          assert prev[k].filePath in init;
        } else {
          assert r.Some? && rs[k] == r.value;
        }
      }
    }
  }

  /** The loop pushes a score for `f`. */
  ghost predicate Reported(rs: seq<BundleRisk.RiskScoreResult>, f: string)
  {
    exists k :: 0 <= k < |rs| && rs[k].filePath == f
  }

  lemma {:induction false} ResultsComplete(env: Environment, files: seq<string>)
    ensures forall f :: f in files && env.readFile(f).Some? && f !in env.saveFails ==> Reported(Results(env, files), f)
  {
    if files != [] {
      var init := files[..|files| - 1];
      var file := files[|files| - 1];
      ResultsComplete(env, init);
      FileResultFacts(env, file);
      var prev := Results(env, init);
      var rs := Results(env, files);
      var r := FileResult(env, file);
      assert rs == prev + (if r.Some? then [r.value] else []);
      forall f | f in files && env.readFile(f).Some? && f !in env.saveFails
        ensures Reported(rs, f)
      {
        if f != file {
          var j :| 0 <= j < |files| && files[j] == f;
          assert init[j] == f;
          assert Reported(prev, f);
          var k :| 0 <= k < |prev| && prev[k].filePath == f;
          assert rs[k].filePath == f;
        } else {
          assert rs[|rs| - 1].filePath == f;
        }
      }
    }
  }

  /** The files of a scan are sorted by score, highest first, and are the
      scores the loop pushed, each once; every readable, savable file is
      scored; every edge joins two scanned files, the first of which has a
      non-empty source. */
  lemma ScanOfFacts(env: Environment, files: seq<string>)
    ensures var r := ScanOf(env, files);
            var rs := Results(env, files);
            && Sorting.SortedDesc(r.files, Score)
            && multiset(r.files) == multiset(rs)
            && (forall k :: 0 <= k < |rs| ==> rs[k].filePath in files)
            && (forall f :: f in files && env.readFile(f).Some? && f !in env.saveFails ==> Reported(rs, f))
            && (forall e :: e in r.edges ==>
                  e.from in files && e.to in files && env.readFile(e.from).Some? && env.readFile(e.from).value != "")
  {
    Sorting.SortDescCorrect(Results(env, files), Score);
    ResultsSound(env, files);
    ResultsComplete(env, files);
    ImportGraph.BuildEdgesFacts(files, Sources(env, files), env.captures);
    SourcesFacts(env, files);
  }

  lemma {:induction false} SourcesFacts(env: Environment, files: seq<string>)
    ensures forall f :: f in Sources(env, files) <==> f in files && env.readFile(f).Some?
    ensures forall f :: f in Sources(env, files) ==> Sources(env, files)[f] == env.readFile(f).value
  {
    if files != [] {
      SourcesFacts(env, files[..|files| - 1]);
      assert files == files[..|files| - 1] + [files[|files| - 1]];
    }
  }

  /** A score of a project scan is one the loop pushed. */
  lemma InSortedScan(env: Environment, files: seq<string>, r: BundleRisk.RiskScoreResult)
    requires r in ScanOf(env, files).files
    ensures r in Results(env, files)
  {
    Sorting.SortDescCorrect(Results(env, files), Score);
    assert r in multiset(ScanOf(env, files).files);
  }

  /** Every scored file of a project scan was collected by the walk and has
      a language the analyzer recognises. */
  lemma ScanLanguagesKnown(env: Environment, projectPath: string)
    requires FileWalk.WellFormed(env.fs)
    ensures forall r :: r in Scan(env, projectPath).files ==>
              r.language != MainParser.Unknown && FileWalk.Collected(r.filePath, projectPath, env.ignore)
  {
    var files := FileWalk.Walk(env.fs, projectPath, env.ignore, {}).files;
    FileWalk.WalkSound(env.fs, projectPath, env.ignore, {});
    ResultsSound(env, files);
    var rs := Results(env, files);
    forall r | r in ScanOf(env, files).files
      ensures r.language != MainParser.Unknown && FileWalk.Collected(r.filePath, projectPath, env.ignore)
    {
      InSortedScan(env, files, r);
      var k :| 0 <= k < |rs| && rs[k] == r;
      assert Scored(env, files, rs[k]);
      var j :| 0 <= j < |files| && files[j] == r.filePath;
      assert FileWalk.Collected(files[j], projectPath, env.ignore);
      FileWalk.CollectedHasLanguage(r.filePath, projectPath, env.ignore);
    }
  }
}
