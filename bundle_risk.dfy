/** The risk score as shipped in the application bundle: the worst
    complexity and the largest function over all functions of the file
    (anonymous ones included) and the file's churn, scaled to 0–100 and
    weighted 50/30/20. The churn is an input. */
module BundleRisk {
  import opened Clamp
  import MainParser
  import BundleParser
  import LegacyParser
  import LegacyRisk
  import MainRisk

  type FunctionMetrics = BundleParser.FunctionMetrics

  const ComplexitySafe: real := 3.0
  const ComplexityDanger: real := 10.0
  const SizeSafe: real := 20.0
  const SizeDanger: real := 60.0
  const ChurnSafe: real := 5.0
  const ChurnDanger: real := 20.0

  const ComplexityWeight: real := 0.5
  const SizeWeight: real := 0.3
  const ChurnWeight: real := 0.2

  datatype Details = Details(complexityScore: real, functionSizeScore: real, churnScore: real)

  datatype RiskScoreResult = RiskScoreResult(
    filePath: string,
    language: MainParser.Language,
    globalScore: real,
    details: Details)

  /** `calculateRiskScore` with the file's churn given. */
  function CalculateRiskScore(metrics: BundleParser.FileMetrics, churn: int): (r: RiskScoreResult)
    ensures 0.0 <= r.globalScore <= 100.0
    ensures r.filePath == metrics.filePath && r.language == metrics.language
  {
    var complexityScore := ClampedScore(MaxOr0(LegacyRisk.Complexities(metrics.functions)) as real, ComplexitySafe, ComplexityDanger);
    var functionSizeScore := ClampedScore(MaxOr0(LegacyRisk.Sizes(metrics.functions)) as real, SizeSafe, SizeDanger);
    var churnScore := ClampedScore(churn as real, ChurnSafe, ChurnDanger);
    RiskScoreResult(
      metrics.filePath, metrics.language,
      complexityScore * ComplexityWeight + functionSizeScore * SizeWeight + churnScore * ChurnWeight,
      Details(complexityScore, functionSizeScore, churnScore))
  }

  /** More churn never lowers the score. */
  lemma ChurnMonotone(metrics: BundleParser.FileMetrics, c1: int, c2: int)
    requires c1 <= c2
    ensures CalculateRiskScore(metrics, c1).globalScore <= CalculateRiskScore(metrics, c2).globalScore
  {
    ClampedMonotone(c1 as real, c2 as real, ChurnSafe, ChurnDanger);
  }

  /** Adding a function with non-negative metrics never lowers the score. */
  lemma AddingFunctionNeverLowers(metrics: BundleParser.FileMetrics, f: FunctionMetrics, churn: int)
    requires f.cyclomaticComplexity >= 0 && f.lineCount >= 0
    ensures CalculateRiskScore(metrics, churn).globalScore
            <= CalculateRiskScore(metrics.(functions := metrics.functions + [f]), churn).globalScore
  {
    var fs := metrics.functions;
    LegacyRisk.ColumnsSnoc(fs, f);
    ScoreOfMaxGrows(LegacyRisk.Complexities(fs), f.cyclomaticComplexity, ComplexitySafe, ComplexityDanger);
    ScoreOfMaxGrows(LegacyRisk.Sizes(fs), f.lineCount, SizeSafe, SizeDanger);
  }

  /** A file scores zero exactly when every function has complexity at most
      3 and at most 20 lines and the churn is at most 5. */
  lemma ZeroScoreIffSafe(metrics: BundleParser.FileMetrics, churn: int)
    ensures CalculateRiskScore(metrics, churn).globalScore == 0.0
            <==> (forall k :: 0 <= k < |metrics.functions| ==>
                    metrics.functions[k].cyclomaticComplexity as real <= ComplexitySafe
                    && metrics.functions[k].lineCount as real <= SizeSafe)
                 && churn as real <= ChurnSafe
  {
    ScoreOfMaxZeroIff(LegacyRisk.Complexities(metrics.functions), ComplexitySafe, ComplexityDanger);
    ScoreOfMaxZeroIff(LegacyRisk.Sizes(metrics.functions), SizeSafe, SizeDanger);
  }

  /** Unlike the desktop score, an anonymous function counts: a file whose
      only function is an anonymous one of complexity 10 scores 50 here and
      0 on the desktop. */
  lemma AnonymousCounts()
    ensures var bundleFile := BundleParser.FileMetrics("/p/a.ts", 1, 1,
              [LegacyParser.FunctionMetrics("anonymous", 1, 1, 10)], MainParser.TypeScript);
            var mainFile := MainParser.FileMetrics("/p/a.ts", 1, 1,
              [MainParser.FunctionMetrics("anonymous", 1, 1, 10, 0, 0)], MainParser.TypeScript);
            CalculateRiskScore(bundleFile, 0).globalScore == 50.0
            && MainRisk.CalculateRiskScore(mainFile, 0).globalScore == 0.0
  {
    var fs := [LegacyParser.FunctionMetrics("anonymous", 1, 1, 10)];
    assert MaxOr0(LegacyRisk.Complexities(fs)) == 10;
    assert MaxOr0(LegacyRisk.Sizes(fs)) == 1;
    var ms := [MainParser.FunctionMetrics("anonymous", 1, 1, 10, 0, 0)];
    assert MainRisk.Named(ms) == [] by {
      assert ms[..0] == [];
    }
  }
}
