/** `scanProject` of the second command-line scanner
    (`src/main/cli/scanner.ts`): list the project's files, analyse and score
    each one, skip a file whose analysis or scoring throws, and sort the
    scores, highest first.

    As written, the loop passes the promise returned by `analyzeFile` to
    `calculateRiskScore` without awaiting it; `calculateRiskScore` then reads
    the `functions` of a promise, which throws, so every file is skipped.
    `ScanAsWritten` models that; `Scan` models the loop with the analysis
    awaited, which is what the loop is evidently meant to do.

    The file system, the structural parse and the text of each path (`None`
    when parsing or reading throws) and the per-file commit count are
    inputs. */
module MainCliScan {
  import opened Wrappers
  import SyntaxTree
  import MainParser
  import MainRisk
  import LegacyWalk
  import Paths
  import ScanLoop
  import Sorting

  datatype Environment = Environment(
    root: LegacyWalk.Tree,
    parse: string -> Option<SyntaxTree.Node>,
    readFile: string -> Option<string>,
    churn: string -> nat,
    ignore: seq<string>)

  function Score(r: MainRisk.RiskScoreResult): real
  {
    r.globalScore
  }

  /** What `calculateRiskScore` is given: an analysis, or a promise of one
      (`None` for a promise that rejects). */
  datatype Argument =
    | Analysis(metrics: MainParser.FileMetrics)
    | Pending(outcome: Option<MainParser.FileMetrics>)

  /** `calculateRiskScore(arg)` with the file's churn: a promise has no
      `functions` to filter, so the call throws. */
  function RiskOf(arg: Argument, churn: nat): Option<MainRisk.RiskScoreResult>
  {
    match arg
    case Analysis(metrics) => Some(MainRisk.CalculateRiskScore(metrics, churn))
    case Pending(_) => None
  }

  function Analyze(env: Environment, file: string): Option<MainParser.FileMetrics>
  {
    MainParser.AnalyzeFileResult(file, env.parse(file), env.readFile(file))
  }

  /** One pass of the loop as written: the unawaited promise is scored. */
  function FileResultAsWritten(env: Environment, file: string): Option<MainRisk.RiskScoreResult>
  {
    RiskOf(Pending(Analyze(env, file)), env.churn(file))
  }

  /** One pass of the loop with the analysis awaited: a rejected analysis
      is caught and the file skipped. */
  function FileResult(env: Environment, file: string): Option<MainRisk.RiskScoreResult>
  {
    match Analyze(env, file)
    case None => None
    case Some(metrics) => RiskOf(Analysis(metrics), env.churn(metrics.filePath))
  }

  function OutcomeAsWritten(env: Environment): string -> Option<MainRisk.RiskScoreResult>
  {
    file => FileResultAsWritten(env, file)
  }

  function Outcome(env: Environment): string -> Option<MainRisk.RiskScoreResult>
  {
    file => FileResult(env, file)
  }

  /** What `scanProject(projectPath)` resolves to as written; `None` when it
      rejects because the walk throws. */
  function ScanAsWritten(env: Environment, projectPath: string): Option<seq<MainRisk.RiskScoreResult>>
  {
    match LegacyWalk.List(projectPath, env.root, env.ignore)
    case None => None
    case Some(files) => Some(Sorting.SortDesc(ScanLoop.Collect(files, OutcomeAsWritten(env)), Score))
  }

  /** What `scanProject(projectPath)` resolves to with the analysis
      awaited. */
  function Scan(env: Environment, projectPath: string): Option<seq<MainRisk.RiskScoreResult>>
  {
    match LegacyWalk.List(projectPath, env.root, env.ignore)
    case None => None
    case Some(files) => Some(Sorting.SortDesc(ScanLoop.Collect(files, Outcome(env)), Score))
  }

  /** `scanProject` as written. */
  method ScanProjectAsWritten(env: Environment, projectPath: string) returns (r: Option<seq<MainRisk.RiskScoreResult>>)
    ensures r == ScanAsWritten(env, projectPath)
  {
    var listed := LegacyWalk.ListFiles(projectPath, env.root, env.ignore);
    if listed.None? {
      return None;
    }
    var results := ScanFilesAsWritten(env, listed.value);
    r := Some(Sorting.SortDesc(results, Score));
  }

  /** The loop of `scanProject` as written. */
  method ScanFilesAsWritten(env: Environment, files: seq<string>) returns (results: seq<MainRisk.RiskScoreResult>)
    ensures results == ScanLoop.Collect(files, OutcomeAsWritten(env))
  {
    results := [];
    var i := 0;
    while i < |files|
      invariant 0 <= i <= |files|
      invariant results == ScanLoop.Collect(files[..i], OutcomeAsWritten(env))
    {
      var file := files[i];
      ScanLoop.CollectStep(files, i, OutcomeAsWritten(env));
      var result := ScanFileAsWritten(env, file);
      results := ScanLoop.Push(results, result);
      assert results == ScanLoop.Collect(files[..i + 1], OutcomeAsWritten(env));
      i := i + 1;
    }
    assert files[..|files|] == files;
  }

  /** `scanProject` with `await analyzeFile(file)`. */
  method ScanProject(env: Environment, projectPath: string) returns (r: Option<seq<MainRisk.RiskScoreResult>>)
    ensures r == Scan(env, projectPath)
  {
    var listed := LegacyWalk.ListFiles(projectPath, env.root, env.ignore);
    if listed.None? {
      return None;
    }
    var results := ScanFiles(env, listed.value);
    r := Some(Sorting.SortDesc(results, Score));
  }

  /** The loop of `scanProject` with the analysis awaited. */
  method ScanFiles(env: Environment, files: seq<string>) returns (results: seq<MainRisk.RiskScoreResult>)
    ensures results == ScanLoop.Collect(files, Outcome(env))
  {
    results := [];
    var i := 0;
    while i < |files|
      invariant 0 <= i <= |files|
      invariant results == ScanLoop.Collect(files[..i], Outcome(env))
    {
      var file := files[i];
      ScanLoop.CollectStep(files, i, Outcome(env));
      var result := ScanFile(env, file);
      results := ScanLoop.Push(results, result);
      assert results == ScanLoop.Collect(files[..i + 1], Outcome(env));
      i := i + 1;
    }
    assert files[..|files|] == files;
  }

  /** One pass of the loop as written: the score computed on the pending
      analysis, `None` when computing it throws. */
  method ScanFileAsWritten(env: Environment, file: string) returns (result: Option<MainRisk.RiskScoreResult>)
    ensures result == OutcomeAsWritten(env)(file)
  {
    var analysis := MainParser.AnalyzeFile(file, env.parse(file), env.readFile(file));
    result := RiskOf(Pending(analysis), env.churn(file));
  }

  /** One pass of the loop with the analysis awaited: the file's score,
      `None` when the analysis rejects. */
  method ScanFile(env: Environment, file: string) returns (result: Option<MainRisk.RiskScoreResult>)
    ensures result == Outcome(env)(file)
  {
    var analysis := MainParser.AnalyzeFile(file, env.parse(file), env.readFile(file));
    if analysis.None? {
      return None;
    }
    var riskScore := MainRisk.CalculateRiskScore(analysis.value, env.churn(analysis.value.filePath));
    result := Some(riskScore);
  }

  /** As written, a scan that does not reject resolves to no scores at all,
      whatever the project holds. */
  lemma AsWrittenScoresNothing(env: Environment, projectPath: string)
    ensures var r := ScanAsWritten(env, projectPath);
            (r.None? <==> LegacyWalk.List(projectPath, env.root, env.ignore).None?)
            && (r.Some? ==> r.value == [])
  {
    var listing := LegacyWalk.List(projectPath, env.root, env.ignore);
    if listing.Some? {
      var files := listing.value;
      forall i | 0 <= i < |files|
        ensures OutcomeAsWritten(env)(files[i]).None?
      {
        assert FileResultAsWritten(env, files[i]).None?;
      }
      ScanLoop.CollectNothing(files, OutcomeAsWritten(env));
    }
  }

  /** A listed file that can be analysed is scored with the analysis
      awaited, and lost as written. */
  lemma MissingAwaitLosesScores(env: Environment, projectPath: string, f: string)
    requires LegacyWalk.List(projectPath, env.root, env.ignore).Some?
    requires f in LegacyWalk.List(projectPath, env.root, env.ignore).value && Analyze(env, f).Some?
    ensures ScanAsWritten(env, projectPath) == Some([])
    ensures Scan(env, projectPath).Some? && Scored(Scan(env, projectPath).value, f)
  {
    AsWrittenScoresNothing(env, projectPath);
    ScanComplete(env, projectPath);
  }

  /** A project `/p` holding one empty file `a.ts`, which parses to a bare
      source file: the scan with the analysis awaited scores it; the loop as
      written scores nothing. */
  lemma MissingAwaitExample()
    ensures var env := Environment(LegacyWalk.Directory("p", [LegacyWalk.File("a.ts")]),
                                   f => Some(SyntaxTree.Node(SyntaxTree.SourceFile, 1, 1, [], None, None)), f => Some(""), f => 0, []);
            ScanAsWritten(env, "/p") == Some([])
            && Scan(env, "/p").Some? && Scored(Scan(env, "/p").value, "/p/a.ts")
  {
    var env := Environment(LegacyWalk.Directory("p", [LegacyWalk.File("a.ts")]),
                           f => Some(SyntaxTree.Node(SyntaxTree.SourceFile, 1, 1, [], None, None)), f => Some(""), f => 0, []);
    LegacyWalk.ShortNameKept("a.ts");
    LegacyWalk.EndsWithJoin("/p", "a.ts", ".ts");
    LegacyWalk.OnlyFile("/p", "p", "a.ts");
    assert Paths.Join("/p", "a.ts") == "/p/a.ts";
    assert "/p/a.ts" in LegacyWalk.List("/p", env.root, env.ignore).value;
    assert Analyze(env, "/p/a.ts").Some?;
    MissingAwaitLosesScores(env, "/p", "/p/a.ts");
  }

  /** The scan rejects exactly when the walk throws; otherwise its scores
      are sorted by score, highest first, and are the pushed scores, each
      once. */
  lemma ScanOrdered(env: Environment, projectPath: string)
    ensures var r := Scan(env, projectPath);
            var listing := LegacyWalk.List(projectPath, env.root, env.ignore);
            && (r.None? <==> listing.None?)
            && (r.Some? ==>
                  Sorting.SortedDesc(r.value, Score)
                  && multiset(r.value) == multiset(ScanLoop.Collect(listing.value, Outcome(env))))
  {
    var listing := LegacyWalk.List(projectPath, env.root, env.ignore);
    if listing.Some? {
      Sorting.SortDescCorrect(ScanLoop.Collect(listing.value, Outcome(env)), Score);
    }
  }

  /** Every score of a scan is that of a listed file that can be analysed,
      with its own path and detected language and a score within
      [0, 100]; the path ends in `.js` or `.ts`, lies below the project,
      and its own name passes the entry filter. */
  lemma ScanSound(env: Environment, projectPath: string)
    requires LegacyWalk.Plain(env.root)
    ensures var r := Scan(env, projectPath);
            var listing := LegacyWalk.List(projectPath, env.root, env.ignore);
            r.Some? ==> forall s :: s in r.value ==>
              && s.filePath in listing.value && Analyze(env, s.filePath).Some?
              && s.language == MainParser.DetectLanguage(s.filePath)
              && 0.0 <= s.globalScore <= 100.0
              && LegacyWalk.Reported(s.filePath, projectPath, env.ignore)
  {
    var listing := LegacyWalk.List(projectPath, env.root, env.ignore);
    if listing.Some? {
      var files := listing.value;
      var rs := ScanLoop.Collect(files, Outcome(env));
      Sorting.SortDescCorrect(rs, Score);
      ScanLoop.CollectExactly(files, Outcome(env));
      LegacyWalk.ListSound(projectPath, env.root, env.ignore);
      forall s | s in Sorting.SortDesc(rs, Score)
        ensures && s.filePath in files && Analyze(env, s.filePath).Some?
                && s.language == MainParser.DetectLanguage(s.filePath)
                && 0.0 <= s.globalScore <= 100.0
                && LegacyWalk.Reported(s.filePath, projectPath, env.ignore)
      {
        assert s in multiset(Sorting.SortDesc(rs, Score));
        assert ScanLoop.Produced(files, Outcome(env), s);
        var i :| 0 <= i < |files| && Outcome(env)(files[i]) == Some(s);
        var file := files[i];
        assert FileResult(env, file) == Some(s);
        MainParser.AnalyzeFileResultShape(file, env.parse(file), env.readFile(file));
        assert LegacyWalk.Reported(file, projectPath, env.ignore);
      }
    }
  }

  /** Some score of `rs` is for `f`. */
  ghost predicate Scored(rs: seq<MainRisk.RiskScoreResult>, f: string)
  {
    exists s :: s in rs && s.filePath == f
  }

  /** Every listed file that can be analysed is scored. */
  lemma ScanComplete(env: Environment, projectPath: string)
    ensures var r := Scan(env, projectPath);
            var listing := LegacyWalk.List(projectPath, env.root, env.ignore);
            r.Some? ==> forall f :: f in listing.value && Analyze(env, f).Some? ==> Scored(r.value, f)
  {
    var listing := LegacyWalk.List(projectPath, env.root, env.ignore);
    if listing.Some? {
      var files := listing.value;
      var rs := ScanLoop.Collect(files, Outcome(env));
      var r := Sorting.SortDesc(rs, Score);
      Sorting.SortDescCorrect(rs, Score);
      ScanLoop.CollectExactly(files, Outcome(env));
      forall f | f in files && Analyze(env, f).Some?
        ensures Scored(r, f)
      {
        var i :| 0 <= i < |files| && files[i] == f;
        MainParser.AnalyzeFileResultShape(f, env.parse(f), env.readFile(f));
        assert Outcome(env)(files[i]).Some?;
        var s := FileResult(env, f).value;
        assert s in multiset(rs);
        assert s in r && s.filePath == f;
      }
    }
  }
}
