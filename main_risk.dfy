/** The desktop risk score of a file: the worst complexity, function size,
    nesting depth and parameter count over its named functions, and its
    churn, each scaled to 0–100 and combined with fixed weights. Functions
    named `anonymous` are left out (they would count twice with the function
    that contains them). The churn of the file is an input. */
module MainRisk {
  import opened Clamp
  import MainParser

  type FunctionMetrics = MainParser.FunctionMetrics

  // Thresholds (safe, danger) and weights.
  const ComplexitySafe: real := 3.0
  const ComplexityDanger: real := 10.0
  const SizeSafe: real := 20.0
  const SizeDanger: real := 60.0
  const DepthSafe: real := 2.0
  const DepthDanger: real := 5.0
  const ParamsSafe: real := 3.0
  const ParamsDanger: real := 7.0
  const ChurnSafe: real := 5.0
  const ChurnDanger: real := 20.0

  const ComplexityWeight: real := 0.35
  const SizeWeight: real := 0.20
  const ChurnWeight: real := 0.15
  const DepthWeight: real := 0.20
  const ParamsWeight: real := 0.10

  datatype Details = Details(
    complexityScore: real,
    functionSizeScore: real,
    churnScore: real,
    depthScore: real,
    paramScore: real,
    fanIn: int,
    fanOut: int)

  datatype RiskScoreResult = RiskScoreResult(
    filePath: string,
    language: MainParser.Language,
    globalScore: real,
    details: Details)

  /** The functions not named `anonymous`, in order. */
  function Named(fs: seq<FunctionMetrics>): (r: seq<FunctionMetrics>)
    ensures forall k :: 0 <= k < |r| ==> r[k].name != "anonymous" && r[k] in fs
    ensures forall f :: f in fs && f.name != "anonymous" ==> f in r
  {
    if fs == [] then []
    else
      var prev := Named(fs[..|fs| - 1]);
      var f := fs[|fs| - 1];
      assert forall g :: g in fs[..|fs| - 1] ==> g in fs;
      assert forall g :: g in fs ==> g in fs[..|fs| - 1] || g == f;
      if f.name != "anonymous" then prev + [f] else prev
  }

  lemma {:induction false} NamedAppend(a: seq<FunctionMetrics>, b: seq<FunctionMetrics>)
    ensures Named(a + b) == Named(a) + Named(b)
    decreases |b|
  {
    if b == [] {
      assert a + b == a;
    } else {
      assert (a + b)[..|a + b| - 1] == a + b[..|b| - 1];
      NamedAppend(a, b[..|b| - 1]);
    }
  }

  function Complexities(fs: seq<FunctionMetrics>): (r: seq<int>)
    ensures |r| == |fs| && forall k :: 0 <= k < |fs| ==> r[k] == fs[k].cyclomaticComplexity
  {
    seq(|fs|, k requires 0 <= k < |fs| => fs[k].cyclomaticComplexity)
  }

  function Sizes(fs: seq<FunctionMetrics>): (r: seq<int>)
    ensures |r| == |fs| && forall k :: 0 <= k < |fs| ==> r[k] == fs[k].lineCount
  {
    seq(|fs|, k requires 0 <= k < |fs| => fs[k].lineCount)
  }

  function Depths(fs: seq<FunctionMetrics>): (r: seq<int>)
    ensures |r| == |fs| && forall k :: 0 <= k < |fs| ==> r[k] == fs[k].maxDepth
  {
    seq(|fs|, k requires 0 <= k < |fs| => fs[k].maxDepth)
  }

  function ParamCounts(fs: seq<FunctionMetrics>): (r: seq<int>)
    ensures |r| == |fs| && forall k :: 0 <= k < |fs| ==> r[k] == fs[k].parameterCount
  {
    seq(|fs|, k requires 0 <= k < |fs| => fs[k].parameterCount)
  }

  /** The weighted sum of the five component scores. */
  function GlobalScore(d: Details): real
  {
    d.complexityScore * ComplexityWeight + d.functionSizeScore * SizeWeight + d.churnScore * ChurnWeight
    + d.depthScore * DepthWeight + d.paramScore * ParamsWeight
  }

  predicate InRange(d: Details)
  {
    0.0 <= d.complexityScore <= 100.0 && 0.0 <= d.functionSizeScore <= 100.0
    && 0.0 <= d.churnScore <= 100.0 && 0.0 <= d.depthScore <= 100.0 && 0.0 <= d.paramScore <= 100.0
  }

  /** The weights add up to one, so the global score stays in 0–100 and is
      zero exactly when every component is. */
  lemma GlobalScoreRange(d: Details)
    requires InRange(d)
    ensures 0.0 <= GlobalScore(d) <= 100.0
    ensures GlobalScore(d) == 0.0 <==> (d.complexityScore == 0.0 && d.functionSizeScore == 0.0
                                        && d.churnScore == 0.0 && d.depthScore == 0.0 && d.paramScore == 0.0)
  {
  }

  /** The global score grows with each component. */
  lemma GlobalScoreMonotone(d1: Details, d2: Details)
    requires d1.complexityScore <= d2.complexityScore && d1.functionSizeScore <= d2.functionSizeScore
    requires d1.churnScore <= d2.churnScore && d1.depthScore <= d2.depthScore && d1.paramScore <= d2.paramScore
    ensures GlobalScore(d1) <= GlobalScore(d2)
  {
  }

  /** The component scores of a list of (named) functions and a churn. */
  function ScoreDetails(fns: seq<FunctionMetrics>, churn: int): (d: Details)
    ensures InRange(d) && d.fanIn == 0 && d.fanOut == 0
  {
    Details(
      ClampedScore(MaxOr0(Complexities(fns)) as real, ComplexitySafe, ComplexityDanger),
      ClampedScore(MaxOr0(Sizes(fns)) as real, SizeSafe, SizeDanger),
      ClampedScore(churn as real, ChurnSafe, ChurnDanger),
      ClampedScore(MaxOr0(Depths(fns)) as real, DepthSafe, DepthDanger),
      ClampedScore(MaxOr0(ParamCounts(fns)) as real, ParamsSafe, ParamsDanger),
      0, 0)
  }

  /** `calculateRiskScore` with the file's churn given. */
  function CalculateRiskScore(metrics: MainParser.FileMetrics, churn: int): (r: RiskScoreResult)
    ensures 0.0 <= r.globalScore <= 100.0
    ensures r.filePath == metrics.filePath && r.language == metrics.language
    ensures r.details.fanIn == 0 && r.details.fanOut == 0
  {
    var details := ScoreDetails(Named(metrics.functions), churn);
    GlobalScoreRange(details);
    RiskScoreResult(metrics.filePath, metrics.language, GlobalScore(details), details)
  }

  /** The score depends on the functions only through the named ones: an
      `anonymous` record inserted anywhere changes nothing. */
  lemma AnonymousIgnored(metrics: MainParser.FileMetrics, k: nat, a: FunctionMetrics, churn: int)
    requires k <= |metrics.functions| && a.name == "anonymous"
    ensures var fs := metrics.functions;
            CalculateRiskScore(metrics.(functions := fs[..k] + [a] + fs[k..]), churn)
            == CalculateRiskScore(metrics, churn)
  {
    var fs := metrics.functions;
    NamedAppend(fs[..k] + [a], fs[k..]);
    NamedAppend(fs[..k], [a]);
    NamedAppend(fs[..k], fs[k..]);
    assert Named([a]) == [] by {
      assert [a][..0] == [];
    }
    assert fs[..k] + fs[k..] == fs;
  }

  /** A file whose functions are all anonymous (or that has none) scores on
      churn alone. */
  lemma OnlyChurnWithoutNamedFunctions(metrics: MainParser.FileMetrics, churn: int)
    requires Named(metrics.functions) == []
    ensures CalculateRiskScore(metrics, churn).globalScore
            == ChurnWeight * ClampedScore(churn as real, ChurnSafe, ChurnDanger)
  {
  }

  /** More churn never lowers the score. */
  lemma ChurnMonotone(metrics: MainParser.FileMetrics, c1: int, c2: int)
    requires c1 <= c2
    ensures CalculateRiskScore(metrics, c1).globalScore <= CalculateRiskScore(metrics, c2).globalScore
  {
    ClampedMonotone(c1 as real, c2 as real, ChurnSafe, ChurnDanger);
    var fns := Named(metrics.functions);
    GlobalScoreMonotone(ScoreDetails(fns, c1), ScoreDetails(fns, c2));
  }

  /** Adding a named function with non-negative metrics never lowers the
      score. */
  lemma AddingFunctionNeverLowers(metrics: MainParser.FileMetrics, f: FunctionMetrics, churn: int)
    requires f.name != "anonymous"
    requires f.cyclomaticComplexity >= 0 && f.lineCount >= 0 && f.maxDepth >= 0 && f.parameterCount >= 0
    ensures CalculateRiskScore(metrics, churn).globalScore
            <= CalculateRiskScore(metrics.(functions := metrics.functions + [f]), churn).globalScore
  {
    var fs := metrics.functions;
    NamedAppend(fs, [f]);
    assert Named([f]) == [f] by {
      assert [f][..0] == [];
    }
    var before := Named(fs);
    ColumnsSnoc(before, f);
    ScoreOfMaxGrows(Complexities(before), f.cyclomaticComplexity, ComplexitySafe, ComplexityDanger);
    ScoreOfMaxGrows(Sizes(before), f.lineCount, SizeSafe, SizeDanger);
    ScoreOfMaxGrows(Depths(before), f.maxDepth, DepthSafe, DepthDanger);
    ScoreOfMaxGrows(ParamCounts(before), f.parameterCount, ParamsSafe, ParamsDanger);
    GlobalScoreMonotone(ScoreDetails(before, churn), ScoreDetails(before + [f], churn));
  }

  lemma ColumnsSnoc(fs: seq<FunctionMetrics>, f: FunctionMetrics)
    ensures Complexities(fs + [f]) == Complexities(fs) + [f.cyclomaticComplexity]
    ensures Sizes(fs + [f]) == Sizes(fs) + [f.lineCount]
    ensures Depths(fs + [f]) == Depths(fs) + [f.maxDepth]
    ensures ParamCounts(fs + [f]) == ParamCounts(fs) + [f.parameterCount]
  {
    assert forall k :: 0 <= k < |fs| ==> (fs + [f])[k] == fs[k];
  }

  /** Every named function stays within its safe thresholds. */
  predicate AllNamedSafe(fs: seq<FunctionMetrics>)
  {
    forall f :: f in fs && f.name != "anonymous" ==>
      f.cyclomaticComplexity as real <= ComplexitySafe && f.lineCount as real <= SizeSafe
      && f.maxDepth as real <= DepthSafe && f.parameterCount as real <= ParamsSafe
  }

  /** A file scores zero exactly when every named function is within all
      four safe thresholds and the churn is within its own. */
  lemma ZeroScoreIffSafe(metrics: MainParser.FileMetrics, churn: int)
    ensures CalculateRiskScore(metrics, churn).globalScore == 0.0
            <==> AllNamedSafe(metrics.functions) && churn as real <= ChurnSafe
  {
    var fns := Named(metrics.functions);
    GlobalScoreRange(ScoreDetails(fns, churn));
    ScoreOfMaxZeroIff(Complexities(fns), ComplexitySafe, ComplexityDanger);
    ScoreOfMaxZeroIff(Sizes(fns), SizeSafe, SizeDanger);
    ScoreOfMaxZeroIff(Depths(fns), DepthSafe, DepthDanger);
    ScoreOfMaxZeroIff(ParamCounts(fns), ParamsSafe, ParamsDanger);
    NamedSafe(metrics.functions);
  }

  /** The safety of the named functions, index by index. */
  lemma NamedSafe(fs: seq<FunctionMetrics>)
    ensures var fns := Named(fs);
            AllNamedSafe(fs) <==>
              forall k :: 0 <= k < |fns| ==>
                fns[k].cyclomaticComplexity as real <= ComplexitySafe && fns[k].lineCount as real <= SizeSafe
                && fns[k].maxDepth as real <= DepthSafe && fns[k].parameterCount as real <= ParamsSafe
  {
    var fns := Named(fs);
    if !AllNamedSafe(fs) {
      var f :| f in fs && f.name != "anonymous"
        && !(f.cyclomaticComplexity as real <= ComplexitySafe && f.lineCount as real <= SizeSafe
             && f.maxDepth as real <= DepthSafe && f.parameterCount as real <= ParamsSafe);
      assert f in fns;
    }
  }
}
