/** `scanProject` of the first command-line scanner (`src/cli/scanner.ts`):
    list the project's files, analyse and score each one, skip a file whose
    analysis throws, and sort the scores, highest first. A walk that
    throws makes the whole scan throw (`None`).

    The file system and the structural parse of each path (`None` when the
    parser throws, as it does for a directory or an unreadable file) are
    inputs. */
module CliScan {
  import opened Wrappers
  import SyntaxTree
  import LegacyParser
  import LegacyRisk
  import LegacyWalk
  import ScanLoop
  import Sorting

  datatype Environment = Environment(
    root: LegacyWalk.Tree,
    parse: string -> Option<SyntaxTree.Node>,
    ignore: seq<string>)

  function Score(r: LegacyRisk.RiskScoreResult): real
  {
    r.globalScore
  }

  /** One pass of the loop: the file's score, or `None` when its analysis
      throws. */
  function FileResult(env: Environment, file: string): Option<LegacyRisk.RiskScoreResult>
  {
    match env.parse(file)
    case None => None
    case Some(root) => Some(LegacyRisk.CalculateRiskScore(LegacyParser.Metrics(file, root)))
  }

  function Outcome(env: Environment): string -> Option<LegacyRisk.RiskScoreResult>
  {
    file => FileResult(env, file)
  }

  /** The result of `scanProject(projectPath)`. */
  function Scan(env: Environment, projectPath: string): Option<seq<LegacyRisk.RiskScoreResult>>
  {
    match LegacyWalk.List(projectPath, env.root, env.ignore)
    case None => None
    case Some(files) => Some(Sorting.SortDesc(ScanLoop.Collect(files, Outcome(env)), Score))
  }

  /** `scanProject`. */
  method ScanProject(env: Environment, projectPath: string) returns (r: Option<seq<LegacyRisk.RiskScoreResult>>)
    ensures r == Scan(env, projectPath)
  {
    var listed := LegacyWalk.ListFiles(projectPath, env.root, env.ignore);
    if listed.None? {
      return None;
    }
    var results := ScanFiles(env, listed.value);
    r := Some(Sorting.SortDesc(results, Score));
  }

  /** The loop of `scanProject` over the listed files. */
  method ScanFiles(env: Environment, files: seq<string>) returns (results: seq<LegacyRisk.RiskScoreResult>)
    ensures results == ScanLoop.Collect(files, Outcome(env))
  {
    results := [];
    var i := 0;
    while i < |files|
      invariant 0 <= i <= |files|
      invariant results == ScanLoop.Collect(files[..i], Outcome(env))
    {
      var file := files[i];
      ScanLoop.CollectStep(files, i, Outcome(env));
      var result := ScanFile(env, file);
      results := ScanLoop.Push(results, result);
      assert results == ScanLoop.Collect(files[..i + 1], Outcome(env));
      i := i + 1;
    }
    assert files[..|files|] == files;
  }

  /** One pass of the loop: analyse and score the file; `None` when the
      analysis throws. */
  method ScanFile(env: Environment, file: string) returns (result: Option<LegacyRisk.RiskScoreResult>)
    ensures result == Outcome(env)(file)
  {
    var analysis := LegacyParser.AnalyzeFile(file, env.parse(file));
    if analysis.None? {
      return None;
    }
    var riskScore := LegacyRisk.CalculateRiskScore(analysis.value);
    result := Some(riskScore);
  }

  /** The scan throws exactly when the walk does; otherwise its scores are
      sorted by score, highest first, and are the pushed scores, each once. */
  lemma ScanOrdered(env: Environment, projectPath: string)
    ensures var r := Scan(env, projectPath);
            var listing := LegacyWalk.List(projectPath, env.root, env.ignore);
            && (r.None? <==> listing.None?)
            && (r.Some? ==>
                  Sorting.SortedDesc(r.value, Score)
                  && multiset(r.value) == multiset(ScanLoop.Collect(listing.value, Outcome(env))))
  {
    var listing := LegacyWalk.List(projectPath, env.root, env.ignore);
    if listing.Some? {
      Sorting.SortDescCorrect(ScanLoop.Collect(listing.value, Outcome(env)), Score);
    }
  }

  /** Every score of a scan is that of a listed file that parses, with its
      own path: a `.js` or `.ts` path below the project whose own name
      passes the entry filter. */
  lemma ScanSound(env: Environment, projectPath: string)
    requires LegacyWalk.Plain(env.root)
    ensures Scan(env, projectPath).Some? ==> forall s :: s in Scan(env, projectPath).value ==>
              s.filePath in LegacyWalk.List(projectPath, env.root, env.ignore).value && env.parse(s.filePath).Some?
              && LegacyWalk.Reported(s.filePath, projectPath, env.ignore)
  {
    var listing := LegacyWalk.List(projectPath, env.root, env.ignore);
    if listing.Some? {
      var files := listing.value;
      var rs := ScanLoop.Collect(files, Outcome(env));
      Sorting.SortDescMembers(rs, Score);
      ScanLoop.CollectExactly(files, Outcome(env));
      LegacyWalk.ListSound(projectPath, env.root, env.ignore);
      forall s | s in rs
        ensures s.filePath in files && env.parse(s.filePath).Some?
                && LegacyWalk.Reported(s.filePath, projectPath, env.ignore)
      {
        assert ScanLoop.Produced(files, Outcome(env), s);
        var i :| 0 <= i < |files| && Outcome(env)(files[i]) == Some(s);
        FileResultPath(env, files[i]);
      }
    }
  }

  /** A file's score carries the file's own path, and only a parsed file
      is scored. */
  lemma FileResultPath(env: Environment, file: string)
    ensures FileResult(env, file).Some? ==> FileResult(env, file).value.filePath == file && env.parse(file).Some?
  {
  }

  /** Some score of `rs` is for `f`. */
  ghost predicate Scored(rs: seq<LegacyRisk.RiskScoreResult>, f: string)
  {
    exists s :: s in rs && s.filePath == f
  }

  /** Every listed file that parses is scored. */
  lemma ScanComplete(env: Environment, projectPath: string)
    ensures var r := Scan(env, projectPath);
            var listing := LegacyWalk.List(projectPath, env.root, env.ignore);
            r.Some? ==> forall f :: f in listing.value && env.parse(f).Some? ==> Scored(r.value, f)
  {
    var listing := LegacyWalk.List(projectPath, env.root, env.ignore);
    if listing.Some? {
      var files := listing.value;
      var rs := ScanLoop.Collect(files, Outcome(env));
      var r := Sorting.SortDesc(rs, Score);
      Sorting.SortDescCorrect(rs, Score);
      ScanLoop.CollectExactly(files, Outcome(env));
      forall f | f in files && env.parse(f).Some?
        ensures Scored(r, f)
      {
        var i :| 0 <= i < |files| && files[i] == f;
        assert Outcome(env)(files[i]).Some?;
        var s := FileResult(env, f).value;
        assert s in multiset(rs);
        assert s in r && s.filePath == f;
      }
    }
  }
}
