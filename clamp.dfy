/** The 0–100 scaling shared by every revision of the risk score, and the
    maximum of a list of metrics (`Math.max(...xs)`, 0 for an empty list).
    Scores are real numbers; the rounding of JavaScript numbers is not
    modelled. */
module Clamp {

  /** 0 up to `safe`, 100 from `danger` on, linear in between. No
      precondition: when `safe >= danger` the division is never reached. */
  function ClampedScore(value: real, safe: real, danger: real): (r: real)
    ensures 0.0 <= r <= 100.0
    ensures r == 0.0 <==> value <= safe
    ensures r == 100.0 <==> value > safe && value >= danger
  {
    if value <= safe then 0.0
    else if value >= danger then 100.0
    else
      var x, y := value - safe, danger - safe;
      assert 0.0 < x < y;
      FractionBelowOne(x, y);
      (x / y) * 100.0
  }

  lemma FractionBelowOne(x: real, y: real)
    requires 0.0 < x < y
    ensures 0.0 < x / y < 1.0
  {
    var q, p := x / y, (y - x) / y;
    PositiveQuotient(x, y);
    PositiveQuotient(y - x, y);
    assert q * y == x;
    assert p * y == y - x;
    Distribute(p, q - 1.0, y);
    ZeroFactor(p + q - 1.0, y);
  }

  lemma PositiveQuotient(x: real, y: real)
    requires 0.0 < x && 0.0 < y
    ensures x / y > 0.0
  {
  }

  lemma Distribute(a: real, b: real, y: real)
    ensures (a + b) * y == a * y + b * y
  {
  }

  lemma ZeroFactor(a: real, y: real)
    requires y != 0.0 && a * y == 0.0
    ensures a == 0.0
  {
  }

  /** A larger metric never gets a smaller score. */
  lemma ClampedMonotone(v1: real, v2: real, safe: real, danger: real)
    requires v1 <= v2
    ensures ClampedScore(v1, safe, danger) <= ClampedScore(v2, safe, danger)
  {
    if safe < v1 && v2 < danger {
      var y := danger - safe;
      assert (v1 - safe) / y <= (v2 - safe) / y by {
        DivMonotone(v1 - safe, v2 - safe, y);
      }
    }
  }

  lemma DivMonotone(a: real, b: real, y: real)
    requires a <= b && y > 0.0
    ensures a / y <= b / y
  {
    assert (b / y - a / y) * y == b - a;
  }

  /** Between the thresholds the score is the fraction of the way from
      `safe` to `danger`, scaled to 100: the two ends of the segment are 0
      and 100. */
  lemma ClampedLinear(value: real, safe: real, danger: real)
    requires safe < value < danger
    ensures ClampedScore(value, safe, danger) * (danger - safe) == (value - safe) * 100.0
  {
    var x, y := value - safe, danger - safe;
    assert (x / y) * y == x;
  }

  /** `fns.length > 0 ? Math.max(...xs) : 0`: an attained upper bound of a
      non-empty list, 0 for the empty one. */
  function MaxOr0(xs: seq<int>): (m: int)
    ensures |xs| == 0 ==> m == 0
    ensures forall i :: 0 <= i < |xs| ==> xs[i] <= m
    ensures |xs| > 0 ==> exists i :: 0 <= i < |xs| && xs[i] == m
  {
    if |xs| == 0 then 0
    else if |xs| == 1 then xs[0]
    else
      var prev := MaxOr0(xs[..|xs| - 1]);
      assert forall i :: 0 <= i < |xs| - 1 ==> xs[..|xs| - 1][i] == xs[i];
      if xs[|xs| - 1] > prev then xs[|xs| - 1] else prev
  }

  /** Adding an element never lowers the maximum of a non-empty list, and
      a non-negative element never lowers it from the empty list's 0. */
  lemma MaxOr0Append(xs: seq<int>, x: int)
    requires |xs| > 0 || x >= 0
    ensures MaxOr0(xs + [x]) >= MaxOr0(xs)
  {
    if |xs| > 0 {
      var i :| 0 <= i < |xs| && xs[i] == MaxOr0(xs);
      assert (xs + [x])[i] == xs[i];
    }
  }

  /** The score of a maximum never drops when a value is added. */
  lemma ScoreOfMaxGrows(xs: seq<int>, x: int, safe: real, danger: real)
    requires |xs| > 0 || x >= 0
    ensures ClampedScore(MaxOr0(xs) as real, safe, danger) <= ClampedScore(MaxOr0(xs + [x]) as real, safe, danger)
  {
    MaxOr0Append(xs, x);
    ClampedMonotone(MaxOr0(xs) as real, MaxOr0(xs + [x]) as real, safe, danger);
  }

  /** The score of a maximum is zero exactly when every value is safe. */
  lemma ScoreOfMaxZeroIff(xs: seq<int>, safe: real, danger: real)
    requires safe >= 0.0
    ensures ClampedScore(MaxOr0(xs) as real, safe, danger) == 0.0
            <==> forall k :: 0 <= k < |xs| ==> xs[k] as real <= safe
  {
  }
}
