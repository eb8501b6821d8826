/** How wide the anytime-valid interval is: what the loop accumulates, said over prefixes of the observations. */
module SequentialWidth {
  import opened Basics
  import opened Missingness
  import opened Analysis
  import opened Sequential

  // ---- The running estimates ----

  function Square(x: real): real { x * x }

  /** What is left when a quarter or a half is imagined beside i observations. */
  function Share(x: real, i: nat): real { x / (i as real + 1.0) }

  /** What one surprise costs: four times it, by the cumulant of its stake. */
  function Price(m: Math, surprise: real, stake: real): real { 4.0 * surprise * ((-m.ln(1.0 - stake) - stake) / 4.0) }

  /** The sum of the first k observations, each scaled to its place in the range. */
  function ScaledSum(r: Range, diffs: seq<real>, k: nat): real
    requires r.lower < r.upper && k <= |diffs|
  {
    if k == 0 then 0.0 else ScaledSum(r, diffs, k - 1) + Scaled(r, diffs[k - 1])
  }

  /** The mean estimated before observation i: that of the earlier ones and one imagined in the middle of the range. */
  function MeanBefore(r: Range, diffs: seq<real>, i: nat): real
    requires r.lower < r.upper && i <= |diffs|
  {
    Share(0.5 + ScaledSum(r, diffs, i), i)
  }

  /** How far observation i lies, squared, from what was expected of it. */
  function Surprise(r: Range, diffs: seq<real>, i: nat): real
    requires r.lower < r.upper && i < |diffs|
  {
    Square(Scaled(r, diffs[i]) - MeanBefore(r, diffs, i))
  }

  function SurpriseSum(r: Range, diffs: seq<real>, k: nat): real
    requires r.lower < r.upper && k <= |diffs|
  {
    if k == 0 then 0.0 else SurpriseSum(r, diffs, k - 1) + Surprise(r, diffs, k - 1)
  }

  /** The variance estimated before observation i, with a quarter imagined. */
  function VarianceBefore(r: Range, diffs: seq<real>, i: nat): real
    requires r.lower < r.upper && i <= |diffs|
  {
    Share(0.25 + SurpriseSum(r, diffs, i), i)
  }

  /** What the surprises so far cost. */
  function Cost(m: Math, logInv: real, r: Range, diffs: seq<real>, k: nat): real
    requires Lawful(m) && r.lower < r.upper && k <= |diffs|
  {
    if k == 0 then 0.0
    else
      Cost(m, logInv, r, diffs, k - 1) + Price(m, Surprise(r, diffs, k - 1), StakeAt(m, logInv, r, diffs, k - 1))
  }

  lemma ObserveEstimates(m: Math, logInv: real, r: Range, s: Running, d: real, n: nat)
    requires Lawful(m) && r.lower < r.upper && Sound(s) && n >= 1
    ensures var s', z := Observe(m, logInv, r, s, d, n), Scaled(r, d);
            && s'.sumZ == s.sumZ + z && s'.muHat == Share(0.5 + s'.sumZ, n)
            && s'.sumSq == s.sumSq + Square(z - s.muHat) && s'.varHat == Share(0.25 + s'.sumSq, n)
            && s'.penalty == s.penalty + Price(m, Square(z - s.muHat), s'.stake)
            && s'.stake == Stake(m, logInv, r.upper - r.lower, s.varHat, n)
  {
    hide Stake;
  }

  /** What the loop has accumulated after k observations. */
  lemma {:induction false} EstimatesMatch(m: Math, logInv: real, r: Range, diffs: seq<real>, k: nat)
    requires Lawful(m) && r.lower < r.upper && k <= |diffs|
    ensures var s := After(m, logInv, r, diffs[..k]);
            && s.sumZ == ScaledSum(r, diffs, k) && s.muHat == MeanBefore(r, diffs, k)
            && s.sumSq == SurpriseSum(r, diffs, k) && s.varHat == VarianceBefore(r, diffs, k)
            && s.penalty == Cost(m, logInv, r, diffs, k)
  {
    hide Observe, Lawful, Square, Share, Price, Scaled;
    ShareOfNone();
    if k > 0 {
      EstimatesMatch(m, logInv, r, diffs, k - 1);
      assert diffs[..k][..k - 1] == diffs[..k - 1];
      ObserveEstimates(m, logInv, r, After(m, logInv, r, diffs[..k - 1]), diffs[k - 1], k);
    }
  }

  lemma ShareOfNone()
    ensures Share(0.5, 0) == 0.5 && Share(0.25, 0) == 0.25
  {
  }

  // ---- The stake ----

  /** What the stake would be without limits. */
  function Ideal(m: Math, logInv: real, variance: real, n: nat): real
    requires Lawful(m) && variance > 0.0 && n >= 1
  {
    assert m.ln(n as real + 1.0) > 0.0;
    Product(variance, n as real);
    Product(variance * n as real, m.ln(n as real + 1.0));
    m.sqrt(2.0 * logInv / (variance * n as real * m.ln(n as real + 1.0)))
  }

  /** The stake on observation i follows from the variance of the earlier ones: it is the ideal one unless that is above nine
      tenths or half the width's inverse, and then it is the smaller of those two; where there is no ideal one, because the
      level is above 2, it is next to nothing. */
  lemma StakeMeaning(m: Math, logInv: real, r: Range, diffs: seq<real>, i: nat)
    requires Lawful(m) && r.lower < r.upper && i < |diffs|
    ensures VarianceBefore(r, diffs, i) > 0.0
    ensures var stake, half := StakeAt(m, logInv, r, diffs, i), 0.5 / (r.upper - r.lower);
            var ideal := Ideal(m, logInv, VarianceBefore(r, diffs, i), i + 1);
            && (logInv > 0.0 ==> stake <= ideal && stake <= half && stake <= 0.9
                                 && (stake == ideal || stake == half || stake == 0.9))
            && (logInv < 0.0 ==> stake == 0.000001)
  {
    hide After, Lawful;
    EstimatesMatch(m, logInv, r, diffs, i);
    assert diffs[..i + 1][..i] == diffs[..i];
    var s := After(m, logInv, r, diffs[..i]);
    AfterNext(m, logInv, r, diffs, i);
    ObserveEstimates(m, logInv, r, s, diffs[i], i + 1);
    StakeLimits(m, logInv, r.upper - r.lower, s.varHat, i + 1);
  }

  lemma AfterNext(m: Math, logInv: real, r: Range, diffs: seq<real>, i: nat)
    requires Lawful(m) && r.lower < r.upper && i < |diffs|
    ensures After(m, logInv, r, diffs[..i + 1]) == Observe(m, logInv, r, After(m, logInv, r, diffs[..i]), diffs[i], i + 1)
  {
    assert diffs[..i + 1][..i] == diffs[..i];
  }

  lemma StakeLimits(m: Math, logInv: real, width: real, variance: real, n: nat)
    requires Lawful(m) && width > 0.0 && variance > 0.0 && n >= 1
    ensures var stake, half, ideal := Stake(m, logInv, width, variance, n), 0.5 / width, Ideal(m, logInv, variance, n);
            && (logInv > 0.0 ==> stake <= ideal && stake <= half && stake <= 0.9
                                 && (stake == ideal || stake == half || stake == 0.9))
            && (logInv < 0.0 ==> stake == 0.000001)
  {
    assert 1.0 + n as real == n as real + 1.0;
    Product(variance, n as real);
    Product(variance * n as real, m.ln(n as real + 1.0));
    var d := variance * n as real * m.ln(n as real + 1.0);
    SignOfRatio(2.0 * logInv, d);
    SignOfRatio(0.5, width);
  }

  lemma SignOfRatio(x: real, d: real)
    requires d > 0.0
    ensures (x > 0.0 ==> x / d > 0.0) && (x < 0.0 ==> x / d < 0.0)
  {
    var q := x / d;
    assert q * d == x;
  }

  // ---- The width ----

  /** So much of the range, up and down. */
  function Spread(width: real, x: real, total: real): real
    requires total > 0.0
  {
    2.0 * width * (x / total)
  }

  /** The interval is twice as wide as the level's share and the surprises' cost over the stakes, in units of the range; and
      it lies evenly about the weighted mean. */
  lemma WidthMeaning(m: Math, config: Range, diffs: seq<real>, alpha: real)
    requires Lawful(m) && alpha > 0.0 && diffs != [] && Effective(config).lower < Effective(config).upper
    ensures var r, i, logInv := Effective(config), IntervalOf(m, config, diffs, alpha), m.ln(2.0 / alpha);
            var total := StakeSum(m, logInv, r, diffs, |diffs|);
            && i.Bounded? && total > 0.0
            && i.upper - i.lower == Spread(r.upper - r.lower, logInv + Cost(m, logInv, r, diffs, |diffs|), total)
            && i.upper + i.lower == 2.0 * WeightedMean(m, logInv, r, diffs)
  {
    hide Lawful, Envelope, After, Cost, StakeSum, WeightedMean, Spread, Center;
    var r, logInv := Effective(config), m.ln(2.0 / alpha);
    var s := After(m, logInv, r, diffs);
    TotalsMatch(m, logInv, r, diffs);
    CenterIsMean(m, logInv, r, diffs);
    EnvelopeWidth(r, logInv, s);
  }

  function Center(r: Range, s: Running): real
    requires s.sumLambda > 0.0
  {
    r.lower + s.sumLambdaZ / s.sumLambda * (r.upper - r.lower)
  }

  lemma TotalsMatch(m: Math, logInv: real, r: Range, diffs: seq<real>)
    requires Lawful(m) && r.lower < r.upper && diffs != []
    ensures var s := After(m, logInv, r, diffs);
            && s.sumLambda == StakeSum(m, logInv, r, diffs, |diffs|) && s.penalty == Cost(m, logInv, r, diffs, |diffs|)
  {
    hide Lawful, After, Cost, StakeSum, WeightedSum;
    assert diffs[..|diffs|] == diffs;
    SumsMatch(m, logInv, r, diffs, |diffs|);
    EstimatesMatch(m, logInv, r, diffs, |diffs|);
  }

  lemma CenterIsMean(m: Math, logInv: real, r: Range, diffs: seq<real>)
    requires Lawful(m) && r.lower < r.upper && diffs != []
    ensures Center(r, After(m, logInv, r, diffs)) == WeightedMean(m, logInv, r, diffs)
  {
    hide Lawful, After, WeightedMean;
    MeanIsCenter(m, logInv, r, diffs);
  }

  lemma EnvelopeWidth(r: Range, logInv: real, s: Running)
    requires r.lower < r.upper && s.sumLambda > 0.0
    ensures var i := Envelope(r, logInv, s);
            && i.Bounded? && i.upper - i.lower == Spread(r.upper - r.lower, logInv + s.penalty, s.sumLambda)
            && i.upper + i.lower == 2.0 * Center(r, s)
  {
    var width, center, radius := r.upper - r.lower, s.sumLambdaZ / s.sumLambda, (logInv + s.penalty) / s.sumLambda;
    assert (center - radius) * width == center * width - radius * width;
    assert (center + radius) * width == center * width + radius * width;
    assert 2.0 * width * radius == 2.0 * (radius * width);
  }
}
