/** The first command-line risk score: the worst complexity and the
    largest function over all functions of the file, anonymous ones
    included, scaled to 0–100 and weighted 60/40. */
module LegacyRisk {
  import opened Clamp
  import LegacyParser

  type FunctionMetrics = LegacyParser.FunctionMetrics

  const ComplexitySafe: real := 3.0
  const ComplexityDanger: real := 10.0
  const SizeSafe: real := 20.0
  const SizeDanger: real := 60.0

  const ComplexityWeight: real := 0.6
  const SizeWeight: real := 0.4

  datatype Details = Details(complexityScore: real, functionSizeScore: real)

  datatype RiskScoreResult = RiskScoreResult(filePath: string, globalScore: real, details: Details)

  function Complexities(fs: seq<FunctionMetrics>): (r: seq<int>)
    ensures |r| == |fs| && forall k :: 0 <= k < |fs| ==> r[k] == fs[k].cyclomaticComplexity
  {
    seq(|fs|, k requires 0 <= k < |fs| => fs[k].cyclomaticComplexity)
  }

  function Sizes(fs: seq<FunctionMetrics>): (r: seq<int>)
    ensures |r| == |fs| && forall k :: 0 <= k < |fs| ==> r[k] == fs[k].lineCount
  {
    seq(|fs|, k requires 0 <= k < |fs| => fs[k].lineCount)
  }

  lemma ColumnsSnoc(fs: seq<FunctionMetrics>, f: FunctionMetrics)
    ensures Complexities(fs + [f]) == Complexities(fs) + [f.cyclomaticComplexity]
    ensures Sizes(fs + [f]) == Sizes(fs) + [f.lineCount]
  {
    assert forall k :: 0 <= k < |fs| ==> (fs + [f])[k] == fs[k];
  }

  /** `calculateRiskScore`. */
  function CalculateRiskScore(metrics: LegacyParser.FileMetrics): (r: RiskScoreResult)
    ensures 0.0 <= r.globalScore <= 100.0
    ensures r.filePath == metrics.filePath
  {
    var complexityScore := ClampedScore(MaxOr0(Complexities(metrics.functions)) as real, ComplexitySafe, ComplexityDanger);
    var functionSizeScore := ClampedScore(MaxOr0(Sizes(metrics.functions)) as real, SizeSafe, SizeDanger);
    RiskScoreResult(
      metrics.filePath,
      complexityScore * ComplexityWeight + functionSizeScore * SizeWeight,
      Details(complexityScore, functionSizeScore))
  }

  /** Adding a function with non-negative metrics never lowers the score. */
  lemma AddingFunctionNeverLowers(metrics: LegacyParser.FileMetrics, f: FunctionMetrics)
    requires f.cyclomaticComplexity >= 0 && f.lineCount >= 0
    ensures CalculateRiskScore(metrics).globalScore
            <= CalculateRiskScore(metrics.(functions := metrics.functions + [f])).globalScore
  {
    var fs := metrics.functions;
    ColumnsSnoc(fs, f);
    ScoreOfMaxGrows(Complexities(fs), f.cyclomaticComplexity, ComplexitySafe, ComplexityDanger);
    ScoreOfMaxGrows(Sizes(fs), f.lineCount, SizeSafe, SizeDanger);
  }

  /** A file scores zero exactly when every function has complexity at most
      3 and at most 20 lines. */
  lemma ZeroScoreIffSafe(metrics: LegacyParser.FileMetrics)
    ensures CalculateRiskScore(metrics).globalScore == 0.0
            <==> forall k :: 0 <= k < |metrics.functions| ==>
                   metrics.functions[k].cyclomaticComplexity as real <= ComplexitySafe
                   && metrics.functions[k].lineCount as real <= SizeSafe
  {
    ScoreOfMaxZeroIff(Complexities(metrics.functions), ComplexitySafe, ComplexityDanger);
    ScoreOfMaxZeroIff(Sizes(metrics.functions), SizeSafe, SizeDanger);
  }

  /** A file scores the full 100 exactly when some function reaches
      complexity 10 and some function reaches 60 lines. */
  lemma FullScoreIffDanger(metrics: LegacyParser.FileMetrics)
    ensures CalculateRiskScore(metrics).globalScore == 100.0
            <==> (exists k :: 0 <= k < |metrics.functions| &&
                             metrics.functions[k].cyclomaticComplexity as real >= ComplexityDanger)
                 && (exists k :: 0 <= k < |metrics.functions| &&
                                metrics.functions[k].lineCount as real >= SizeDanger)
  {
    var cs, ss := Complexities(metrics.functions), Sizes(metrics.functions);
    if exists k :: 0 <= k < |metrics.functions| && metrics.functions[k].cyclomaticComplexity as real >= ComplexityDanger {
      var k :| 0 <= k < |metrics.functions| && metrics.functions[k].cyclomaticComplexity as real >= ComplexityDanger;
      assert cs[k] <= MaxOr0(cs);
    }
    if exists k :: 0 <= k < |metrics.functions| && metrics.functions[k].lineCount as real >= SizeDanger {
      var k :| 0 <= k < |metrics.functions| && metrics.functions[k].lineCount as real >= SizeDanger;
      assert ss[k] <= MaxOr0(ss);
    }
    if MaxOr0(cs) as real >= ComplexityDanger {
      var k :| 0 <= k < |cs| && cs[k] == MaxOr0(cs);
    }
    if MaxOr0(ss) as real >= SizeDanger {
      var k :| 0 <= k < |ss| && ss[k] == MaxOr0(ss);
    }
  }
}
