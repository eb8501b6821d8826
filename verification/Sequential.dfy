/** The anytime-valid analyzer (`internal/analysis/sequential.go`), over exact reals.

    `ln` and `sqrt` are parameters: any two functions with the sign facts of `Lawful` will do. */
module Sequential {
  import opened Basics
  import opened Missingness
  import opened Analysis

  datatype Math = Math(ln: real -> real, sqrt: real -> real)

  /** The only facts about the two functions that any proof here uses. */
  ghost predicate Lawful(m: Math) {
    && m.ln(1.0) == 0.0
    && (forall x: real :: x > 1.0 ==> m.ln(x) > 0.0)
    && (forall x: real :: 0.0 < x < 1.0 ==> m.ln(x) <= x - 1.0)
    && (forall x: real :: x > 0.0 ==> m.sqrt(x) > 0.0)
  }

  /** The range one observation can take, as configured; (0, 0) means unset. */
  datatype Range = Range(lower: real, upper: real)

  function Effective(c: Range): Range {
    if c.lower == 0.0 && c.upper == 0.0 then Range(-1.0, 1.0) else c
  }

  // ---- One observation ----

  /** The running state of the loop: estimates for the next observation, and the sums so far. */
  datatype Running = Running(muHat: real, varHat: real, sumZ: real, sumSq: real,
                             sumLambdaZ: real, sumLambda: real, penalty: real, stake: real)

  const START := Running(0.5, 0.25, 0.0, 0.0, 0.0, 0.0, 0.0, 0.0)

  ghost predicate Sound(s: Running) {
    s.varHat > 0.0 && s.sumSq >= 0.0 && s.penalty >= 0.0 && s.sumLambda >= 0.0
  }

  function PsiE(m: Math, stake: real): real {
    (-m.ln(1.0 - stake) - stake) / 4.0
  }

  lemma Product(x: real, y: real)
    requires x > 0.0 && y > 0.0
    ensures x * y > 0.0
  {
  }

  function Stake(m: Math, logInv: real, width: real, varHat: real, n: nat): (stake: real)
    requires Lawful(m) && width > 0.0 && varHat > 0.0 && n >= 1
    ensures 0.0 < stake <= 0.9
  {
    assert m.ln(1.0 + n as real) > 0.0;
    Product(varHat, n as real);
    Product(varHat * n as real, m.ln(1.0 + n as real));
    var argument := 2.0 * logInv / (varHat * n as real * m.ln(1.0 + n as real));
    // The root of a negative number is not a number, which fails every comparison but the last.
    var raw := if argument < 0.0 then 0.0 else m.sqrt(argument);
    var capped := if raw > 0.5 / width then 0.5 / width else raw;
    var limited := if capped > 0.9 then 0.9 else capped;
    if limited <= 0.0 then 0.000001 else limited
  }

  function Observe(m: Math, logInv: real, r: Range, s: Running, d: real, n: nat): (s': Running)
    requires Lawful(m) && r.lower < r.upper && Sound(s) && n >= 1
    ensures Sound(s') && s'.sumLambda > s.sumLambda && 0.0 < s'.stake <= 0.9
  {
    var width := r.upper - r.lower;
    var z := (d - r.lower) / width;
    var stake := Stake(m, logInv, width, s.varHat, n);
    var v := 4.0 * ((z - s.muHat) * (z - s.muHat));
    assert m.ln(1.0 - stake) <= -stake;
    assert PsiE(m, stake) >= 0.0;
    NonNegative(v, PsiE(m, stake));
    var sumSq := s.sumSq + (z - s.muHat) * (z - s.muHat);
    Running((0.5 + (s.sumZ + z)) / (n as real + 1.0), (0.25 + sumSq) / (n as real + 1.0), s.sumZ + z, sumSq,
            s.sumLambdaZ + stake * z, s.sumLambda + stake, s.penalty + v * PsiE(m, stake), stake)
  }

  lemma NonNegative(x: real, y: real)
    requires x >= 0.0 && y >= 0.0
    ensures x * y >= 0.0
  {
  }

  /** The state after a whole prefix. */
  function After(m: Math, logInv: real, r: Range, diffs: seq<real>): (s: Running)
    requires Lawful(m) && r.lower < r.upper
    ensures Sound(s)
    ensures diffs != [] ==> s.sumLambda > 0.0 && 0.0 < s.stake <= 0.9
  {
    if diffs == [] then START
    else Observe(m, logInv, r, After(m, logInv, r, diffs[..|diffs| - 1]), diffs[|diffs| - 1], |diffs|)
  }

  // ---- The interval ----

  function Envelope(r: Range, logInv: real, s: Running): Interval
    requires s.sumLambda > 0.0
  {
    var center := s.sumLambdaZ / s.sumLambda;
    var radius := (logInv + s.penalty) / s.sumLambda;
    Bounded(r.lower + (center - radius) * (r.upper - r.lower), r.lower + (center + radius) * (r.upper - r.lower))
  }

  function IntervalOf(m: Math, config: Range, diffs: seq<real>, alpha: real): Interval
    requires Lawful(m) && alpha > 0.0
  {
    var r := Effective(config);
    if diffs == [] || r.upper <= r.lower then Unbounded
    else
      var logInv := m.ln(2.0 / alpha);
      Envelope(r, logInv, After(m, logInv, r, diffs))
  }

  method ComputeInterval(m: Math, config: Range, diffs: seq<real>, alpha: real) returns (i: Interval)
    requires Lawful(m) && alpha > 0.0
    ensures i == IntervalOf(m, config, diffs, alpha)
  {
    if diffs == [] {
      return Unbounded;
    }
    var r := Effective(config);
    if r.upper - r.lower <= 0.0 {
      return Unbounded;
    }
    hide Envelope;
    var logInv := m.ln(2.0 / alpha);
    var s := START;
    for k := 0 to |diffs|
      invariant Sound(s) && s == After(m, logInv, r, diffs[..k])
    {
      hide Observe;
      assert diffs[..k + 1][..k] == diffs[..k];
      s := Observe(m, logInv, r, s, diffs[k], k + 1);
    }
    assert diffs[..|diffs|] == diffs;
    i := Envelope(r, logInv, s);
  }

  // ---- Predictability ----

  /** The stake placed on observation i. */
  function StakeAt(m: Math, logInv: real, r: Range, diffs: seq<real>, i: nat): (stake: real)
    requires Lawful(m) && r.lower < r.upper && i < |diffs|
    ensures 0.0 < stake <= 0.9
  {
    After(m, logInv, r, diffs[..i + 1]).stake
  }

  /** Two histories that agree before i place the same stake on observation i, whatever it and the later
      ones turn out to be. */
  lemma StakeIsPredictable(m: Math, logInv: real, r: Range, one: seq<real>, other: seq<real>, i: nat)
    requires Lawful(m) && r.lower < r.upper && i < |one| && i < |other|
    requires one[..i] == other[..i]
    ensures StakeAt(m, logInv, r, one, i) == StakeAt(m, logInv, r, other, i)
  {
    assert one[..i + 1][..i] == one[..i];
    assert other[..i + 1][..i] == other[..i];
  }

  // ---- The mean the interval is built around ----

  function StakeSum(m: Math, logInv: real, r: Range, diffs: seq<real>, upTo: nat): real
    requires Lawful(m) && r.lower < r.upper && upTo <= |diffs|
  {
    if upTo == 0 then 0.0
    else StakeSum(m, logInv, r, diffs, upTo - 1) + StakeAt(m, logInv, r, diffs, upTo - 1)
  }

  function WeightedSum(m: Math, logInv: real, r: Range, diffs: seq<real>, upTo: nat): real
    requires Lawful(m) && r.lower < r.upper && upTo <= |diffs|
  {
    if upTo == 0 then 0.0
    else WeightedSum(m, logInv, r, diffs, upTo - 1) + StakeAt(m, logInv, r, diffs, upTo - 1) * diffs[upTo - 1]
  }

  function Scaled(r: Range, d: real): real
    requires r.lower < r.upper
  {
    (d - r.lower) / (r.upper - r.lower)
  }

  lemma ObserveSums(m: Math, logInv: real, r: Range, s: Running, d: real, n: nat)
    requires Lawful(m) && r.lower < r.upper && Sound(s) && n >= 1
    ensures var s' := Observe(m, logInv, r, s, d, n);
            && s'.sumLambda == s.sumLambda + s'.stake
            && s'.sumLambdaZ == s.sumLambdaZ + s'.stake * Scaled(r, d)
  {
    hide Stake, PsiE;
  }

  lemma {:induction false} SumsMatch(m: Math, logInv: real, r: Range, diffs: seq<real>, k: nat)
    requires Lawful(m) && r.lower < r.upper && k <= |diffs|
    ensures After(m, logInv, r, diffs[..k]).sumLambda == StakeSum(m, logInv, r, diffs, k)
    ensures WeightedSum(m, logInv, r, diffs, k) ==
            r.lower * StakeSum(m, logInv, r, diffs, k)
            + (r.upper - r.lower) * After(m, logInv, r, diffs[..k]).sumLambdaZ
  {
    hide Observe;
    if k > 0 {
      SumsMatch(m, logInv, r, diffs, k - 1);
      assert diffs[..k][..k - 1] == diffs[..k - 1];
      var before, after := After(m, logInv, r, diffs[..k - 1]), After(m, logInv, r, diffs[..k]);
      var stake, d := StakeAt(m, logInv, r, diffs, k - 1), diffs[k - 1];
      ObserveSums(m, logInv, r, before, d, k);
      SumsStep(r, before.sumLambda, before.sumLambdaZ, stake, d);
    }
  }

  lemma SumsStep(r: Range, total: real, totalZ: real, stake: real, d: real)
    requires r.lower < r.upper
    ensures r.lower * total + (r.upper - r.lower) * totalZ + stake * d
            == r.lower * (total + stake) + (r.upper - r.lower) * (totalZ + stake * Scaled(r, d))
  {
    Rescale(r.lower, r.upper - r.lower, stake, d);
    Distribute(r.upper - r.lower, totalZ, stake * Scaled(r, d));
    Distribute(r.lower, total, stake);
  }

  lemma Rescale(lower: real, width: real, stake: real, d: real)
    requires width > 0.0
    ensures stake * d == lower * stake + width * (stake * ((d - lower) / width))
  {
    var z := (d - lower) / width;
    assert width * z == d - lower;
    assert width * (stake * z) == stake * (width * z);
    assert stake * (d - lower) == stake * d - lower * stake;
  }

  lemma Distribute(x: real, y: real, z: real)
    ensures x * (y + z) == x * y + x * z
  {
  }

  lemma {:induction false} WeightedSumInRange(m: Math, logInv: real, r: Range, diffs: seq<real>, k: nat)
    requires Lawful(m) && r.lower < r.upper && k <= |diffs|
    requires forall d :: d in diffs ==> r.lower <= d <= r.upper
    ensures r.lower * StakeSum(m, logInv, r, diffs, k) <= WeightedSum(m, logInv, r, diffs, k)
    ensures WeightedSum(m, logInv, r, diffs, k) <= r.upper * StakeSum(m, logInv, r, diffs, k)
  {
    hide Observe, After, StakeAt, Lawful;
    if k > 0 {
      WeightedSumInRange(m, logInv, r, diffs, k - 1);
      var stake, d := StakeAt(m, logInv, r, diffs, k - 1), diffs[k - 1];
      assert d in diffs;
      RangeStep(r, StakeSum(m, logInv, r, diffs, k - 1), WeightedSum(m, logInv, r, diffs, k - 1), stake, d);
    }
  }

  lemma RangeStep(r: Range, total: real, weighted: real, stake: real, d: real)
    requires stake > 0.0 && r.lower <= d <= r.upper
    requires r.lower * total <= weighted <= r.upper * total
    ensures r.lower * (total + stake) <= weighted + stake * d <= r.upper * (total + stake)
  {
    NonNegative(stake, d - r.lower);
    NonNegative(stake, r.upper - d);
    Distribute(r.lower, total, stake);
    Distribute(r.upper, total, stake);
    Distribute(stake, d, -r.lower);
    Distribute(stake, r.upper, -d);
  }

  /** The mean of the observations, each weighted by its stake. */
  function WeightedMean(m: Math, logInv: real, r: Range, diffs: seq<real>): real
    requires Lawful(m) && r.lower < r.upper && diffs != []
  {
    SumsMatch(m, logInv, r, diffs, |diffs|);
    assert diffs[..|diffs|] == diffs;
    WeightedSum(m, logInv, r, diffs, |diffs|) / StakeSum(m, logInv, r, diffs, |diffs|)
  }

  lemma MeanIsCenter(m: Math, logInv: real, r: Range, diffs: seq<real>)
    requires Lawful(m) && r.lower < r.upper && diffs != []
    ensures var s := After(m, logInv, r, diffs);
            WeightedMean(m, logInv, r, diffs) == r.lower + (s.sumLambdaZ / s.sumLambda) * (r.upper - r.lower)
  {
    hide Observe, After, StakeSum, WeightedSum, StakeAt;
    SumsMatch(m, logInv, r, diffs, |diffs|);
    assert diffs[..|diffs|] == diffs;
    var s := After(m, logInv, r, diffs);
    MeanFromCenter(r.lower, r.upper - r.lower, s.sumLambdaZ, s.sumLambda, WeightedSum(m, logInv, r, diffs, |diffs|));
  }

  lemma MeanInRange(m: Math, logInv: real, r: Range, diffs: seq<real>)
    requires Lawful(m) && r.lower < r.upper && diffs != []
    requires forall d :: d in diffs ==> r.lower <= d <= r.upper
    ensures r.lower <= WeightedMean(m, logInv, r, diffs) <= r.upper
  {
    hide Observe;
    SumsMatch(m, logInv, r, diffs, |diffs|);
    assert diffs[..|diffs|] == diffs;
    WeightedSumInRange(m, logInv, r, diffs, |diffs|);
    Divide(r.lower, WeightedSum(m, logInv, r, diffs, |diffs|), r.upper, StakeSum(m, logInv, r, diffs, |diffs|));
  }

  /** At any level below 2 the interval is finite, strictly contains the weighted mean, and that mean lies within
      the range when every observation does. */
  lemma IntervalContainsMean(m: Math, config: Range, diffs: seq<real>, alpha: real)
    requires Lawful(m) && 0.0 < alpha < 2.0 && diffs != []
    requires Effective(config).lower < Effective(config).upper
    ensures var r, i := Effective(config), IntervalOf(m, config, diffs, alpha);
            var mean := WeightedMean(m, m.ln(2.0 / alpha), r, diffs);
            && i.Bounded? && i.lower < mean < i.upper
            && ((forall d :: d in diffs ==> r.lower <= d <= r.upper) ==> r.lower <= mean <= r.upper)
  {
    hide Observe, WeightedMean;
    var r := Effective(config);
    LevelBelowTwo(alpha);
    var logInv := m.ln(2.0 / alpha);
    var s := After(m, logInv, r, diffs);
    MeanIsCenter(m, logInv, r, diffs);
    Around(r.lower, r.upper - r.lower, s.sumLambdaZ / s.sumLambda, logInv + s.penalty, s.sumLambda);
    if forall d :: d in diffs ==> r.lower <= d <= r.upper {
      MeanInRange(m, logInv, r, diffs);
    }
  }

  /** The bounds are in order exactly when the spread is not negative. */
  lemma EnvelopeOrdered(r: Range, logInv: real, s: Running)
    requires r.lower < r.upper && s.sumLambda > 0.0
    ensures var i := Envelope(r, logInv, s);
            && i.Bounded?
            && (i.lower <= i.upper <==> logInv + s.penalty >= 0.0)
            && i.lower + i.upper == 2.0 * (r.lower + s.sumLambdaZ / s.sumLambda * (r.upper - r.lower))
  {
    var width, center, radius := r.upper - r.lower, s.sumLambdaZ / s.sumLambda, (logInv + s.penalty) / s.sumLambda;
    assert radius * s.sumLambda == logInv + s.penalty;
    assert (center - radius) * width == center * width - radius * width;
    assert (center + radius) * width == center * width + radius * width;
    SameSign(radius, s.sumLambda);
    SameSign(radius, width);
  }

  lemma SameSign(x: real, y: real)
    requires y > 0.0
    ensures x * y >= 0.0 <==> x >= 0.0
  {
  }

  /** Up to a level of 2 the bounds do not cross. */
  lemma IntervalOrdered(m: Math, config: Range, diffs: seq<real>, alpha: real)
    requires Lawful(m) && 0.0 < alpha <= 2.0
    ensures var i := IntervalOf(m, config, diffs, alpha); i.Bounded? ==> i.lower <= i.upper
  {
    hide Envelope, After;
    var r := Effective(config);
    if diffs != [] && r.lower < r.upper {
      var logInv := m.ln(2.0 / alpha);
      if alpha < 2.0 {
        LevelBelowTwo(alpha);
      }
      EnvelopeOrdered(r, logInv, After(m, logInv, r, diffs));
    }
  }

  function Middle(r: Range): real { r.lower + (r.upper - r.lower) / 2.0 }

  /** Above a level of 2 they do: one observation at the middle of the range surprises nobody, and nothing is left to widen
      the interval. */
  lemma MiddleCrosses(m: Math, config: Range, alpha: real)
    requires Lawful(m) && alpha > 2.0 && Effective(config).lower < Effective(config).upper
    ensures var i, mid := IntervalOf(m, config, [Middle(Effective(config))], alpha), Middle(Effective(config));
            i.Bounded? && i.upper < mid < i.lower && i.lower - mid == mid - i.upper
  {
    hide Envelope;
    var r := Effective(config);
    var mid, logInv := Middle(r), m.ln(2.0 / alpha);
    LevelAboveTwo(alpha);
    assert [mid][..0] == [];
    var s := After(m, logInv, r, [mid]);
    MiddleState(m, logInv, r);
    EnvelopeOrdered(r, logInv, s);
  }

  lemma MiddleState(m: Math, logInv: real, r: Range)
    requires Lawful(m) && r.lower < r.upper
    ensures var s := After(m, logInv, r, [Middle(r)]); s.penalty == 0.0 && s.sumLambda > 0.0 && s.sumLambdaZ / s.sumLambda == 0.5
  {
    assert [Middle(r)][..0] == [];
    var width := r.upper - r.lower;
    assert (Middle(r) - r.lower) / width == 0.5;
    var stake := Stake(m, logInv, width, START.varHat, 1);
    assert After(m, logInv, r, [Middle(r)]) == Observe(m, logInv, r, START, Middle(r), 1);
    assert (stake * 0.5) / stake == 0.5;
  }

  lemma LevelAboveTwo(alpha: real)
    requires alpha > 2.0
    ensures 0.0 < 2.0 / alpha < 1.0
  {
    assert (2.0 / alpha) * alpha == 2.0;
  }

  lemma LevelBelowTwo(alpha: real)
    requires 0.0 < alpha < 2.0
    ensures 2.0 / alpha > 1.0
  {
    assert (2.0 / alpha) * alpha == 2.0;
  }

  lemma Around(lower: real, width: real, center: real, spread: real, total: real)
    requires width > 0.0 && spread > 0.0 && total > 0.0
    ensures lower + (center - spread / total) * width < lower + center * width < lower + (center + spread / total) * width
  {
    var radius := spread / total;
    assert radius * total == spread;
    assert radius > 0.0;
    Product(radius, width);
    assert (center - radius) * width == center * width - radius * width;
    assert (center + radius) * width == center * width + radius * width;
  }

  lemma MeanFromCenter(lower: real, width: real, sumLambdaZ: real, total: real, weighted: real)
    requires total > 0.0 && weighted == lower * total + width * sumLambdaZ
    ensures weighted / total == lower + (sumLambdaZ / total) * width
  {
    var center := sumLambdaZ / total;
    assert center * total == sumLambdaZ;
    assert (lower + center * width) * total == lower * total + width * (center * total);
  }

  lemma Divide(x: real, y: real, w: real, total: real)
    requires total > 0.0 && x * total <= y <= w * total
    ensures x <= y / total <= w
  {
    var q := y / total;
    assert q * total == y;
    NotAbove(q, w, total);
    NotAbove(x, q, total);
  }

  lemma NotAbove(x: real, q: real, total: real)
    requires total > 0.0 && x * total <= q * total
    ensures x <= q
  {
    assert (x - q) * total == x * total - q * total;
  }
}
