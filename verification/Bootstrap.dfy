/** The fixed-sample analyzer (`internal/analysis/bootstrap.go`), over exact reals.

    Random draws are a parameter: one row of indices per resample. */
module Bootstrap {
  import opened Basics
  import opened Sorting
  import opened Missingness
  import opened Analysis
  import Gate = SequentialGate

  const BOOTSTRAP_FLOOR := 30

  predicate RealLeq(a: real, b: real) { a <= b }

  /** Every draw picks one of the n differences. */
  ghost predicate Draws(draws: seq<seq<nat>>, n: nat) {
    forall r :: 0 <= r < |draws| ==> |draws[r]| == n && forall i :: 0 <= i < n ==> draws[r][i] < n
  }

  ghost predicate Draw(row: seq<nat>, n: nat, upTo: nat) {
    upTo <= |row| && forall i :: 0 <= i < upTo ==> row[i] < n
  }

  function DrawSum(diffs: seq<real>, row: seq<nat>, upTo: nat): real
    requires Draw(row, |diffs|, upTo)
  {
    if upTo == 0 then 0.0 else DrawSum(diffs, row, upTo - 1) + diffs[row[upTo - 1]]
  }

  function DrawMean(diffs: seq<real>, row: seq<nat>): real
    requires |diffs| > 0 && Draw(row, |diffs|, |diffs|)
  {
    DrawSum(diffs, row, |diffs|) / |diffs| as real
  }

  function Means(diffs: seq<real>, draws: seq<seq<nat>>): seq<real>
    requires |diffs| > 0 && Draws(draws, |diffs|)
  {
    seq(|draws|, r requires 0 <= r < |draws| => DrawMean(diffs, draws[r]))
  }

  /** Truncation toward zero, clamped into the list, as an integer conversion and two guards do it. */
  function Position(p: real, n: nat): (i: nat)
    requires n > 0
    ensures i < n
  {
    Clamp(p * n as real, n)
  }

  function Clamp(x: real, n: nat): (i: nat)
    requires n > 0
    ensures i < n
  {
    if x < 0.0 then 0
    else if x.Floor >= n then n - 1
    else x.Floor
  }

  function Percentile(sorted: seq<real>, p: real): real
    requires sorted != []
  {
    sorted[Position(p, |sorted|)]
  }

  /** With a single difference there is no interval. */
  function BootstrapInterval(diffs: seq<real>, alpha: real, draws: seq<seq<nat>>): Interval
    requires |diffs| > 0 && Draws(draws, |diffs|) && draws != []
  {
    if |diffs| == 1 then Unbounded
    else
      SortKeeps(Means(diffs, draws), RealLeq);
      var sorted := Sort(Means(diffs, draws), RealLeq);
      Bounded(Percentile(sorted, alpha / 2.0), Percentile(sorted, 1.0 - alpha / 2.0))
  }

  method BootstrapCI(diffs: seq<real>, alpha: real, draws: seq<seq<nat>>) returns (i: Interval)
    requires |diffs| > 0 && Draws(draws, |diffs|) && draws != []
    ensures i == BootstrapInterval(diffs, alpha, draws)
  {
    var n := |diffs|;
    if n == 1 {
      return Unbounded;
    }
    var means := new real[|draws|];
    for r := 0 to |draws|
      invariant forall k :: 0 <= k < r ==> means[k] == DrawMean(diffs, draws[k])
    {
      var sum := 0.0;
      for k := 0 to n
        invariant Draw(draws[r], n, k)
        invariant sum == DrawSum(diffs, draws[r], k)
      {
        sum := sum + diffs[draws[r][k]];
      }
      means[r] := sum / n as real;
    }
    assert means[..] == Means(diffs, draws);
    SortKeeps(means[..], RealLeq);
    var sorted := Sort(means[..], RealLeq);
    i := Bounded(Percentile(sorted, alpha / 2.0), Percentile(sorted, 1.0 - alpha / 2.0));
  }

  // ---- The bounds ----

  lemma {:induction false} DrawSumRange(diffs: seq<real>, row: seq<nat>, upTo: nat, lo: real, hi: real)
    requires Draw(row, |diffs|, upTo) && forall d :: d in diffs ==> lo <= d <= hi
    ensures lo * upTo as real <= DrawSum(diffs, row, upTo) <= hi * upTo as real
  {
    if upTo > 0 {
      DrawSumRange(diffs, row, upTo - 1, lo, hi);
      assert diffs[row[upTo - 1]] in diffs;
      assert upTo as real == (upTo - 1) as real + 1.0;
    }
  }

  lemma MeansRange(diffs: seq<real>, draws: seq<seq<nat>>, r: nat, lo: real, hi: real)
    requires |diffs| > 0 && Draws(draws, |diffs|) && r < |draws| && forall d :: d in diffs ==> lo <= d <= hi
    ensures lo <= Means(diffs, draws)[r] <= hi
  {
    DrawSumRange(diffs, draws[r], |diffs|, lo, hi);
    DivideRange(DrawSum(diffs, draws[r], |diffs|), |diffs| as real, lo, hi);
  }

  lemma DivideRange(x: real, n: real, lo: real, hi: real)
    requires n > 0.0 && lo * n <= x <= hi * n
    ensures lo <= x / n <= hi
  {
    var q := x / n;
    assert q * n == x;
    ScaleOrder(hi, q, n);
    ScaleOrder(q, lo, n);
  }

  lemma ClampMonotone(x: real, y: real, n: nat)
    requires n > 0 && x <= y
    ensures Clamp(x, n) <= Clamp(y, n)
  {
    FloorMonotone(x, y);
  }

  lemma FloorMonotone(x: real, y: real)
    requires x <= y
    ensures x.Floor <= y.Floor
  {
    assert x.Floor as real <= x && y < y.Floor as real + 1.0;
  }

  lemma ScaleKeepsOrder(p: real, q: real, n: nat)
    requires n > 0 && p <= q
    ensures p * n as real <= q * n as real
  {
    ScaleOrder(q, p, n as real);
  }

  /** A larger proportion never picks an earlier position. */
  lemma PositionMonotone(p: real, q: real, n: nat)
    requires n > 0 && p <= q
    ensures Position(p, n) <= Position(q, n)
  {
    hide Clamp;
    ScaleKeepsOrder(p, q, n);
    ClampMonotone(p * n as real, q * n as real, n);
  }

  lemma RealLeqIsOrder()
    ensures TotalPreorder(RealLeq)
  {
  }

  // ---- Levels that cross the bounds ----

  /** A level up to 1 never crosses the bounds. An even number of resamples tolerates no more; an odd number tolerates
      levels short of one resample's share above 1; one resample tolerates every level. */
  predicate LevelKeepsOrder(alpha: real, n: nat)
    requires n > 0
  {
    n == 1 || (if n % 2 == 0 then alpha <= 1.0 else alpha * n as real < n as real + 1.0)
  }

  /** The two positions meet or cross according to which whole numbers lie between them. */
  lemma PositionsOrdered(x: real, n: nat)
    requires n > 0
    ensures Clamp(x, n) <= Clamp(n as real - x, n) <==>
            n == 1 || (if n % 2 == 0 then x <= n as real / 2.0 else x < (n as real + 1.0) / 2.0)
  {
    var h := n / 2;
    if n > 1 {
      if n % 2 == 0 {
        assert n as real / 2.0 == h as real;
        HalfwayEven(x, n, h);
      } else {
        assert (n as real + 1.0) / 2.0 == (h + 1) as real;
        HalfwayOdd(x, n, h);
      }
    }
  }

  lemma HalfwayEven(x: real, n: nat, h: nat)
    requires n == 2 * h && h > 0
    ensures Clamp(x, n) <= Clamp(n as real - x, n) <==> x <= h as real
  {
    if x <= h as real {
      ClampMonotone(x, n as real - x, n);
    } else {
      AtLeast(x, n, h);
      Below(n as real - x, n, h);
    }
  }

  lemma HalfwayOdd(x: real, n: nat, h: nat)
    requires n == 2 * h + 1 && h > 0
    ensures Clamp(x, n) <= Clamp(n as real - x, n) <==> x < (h + 1) as real
  {
    if x < (h + 1) as real {
      if x < h as real {
        ClampMonotone(x, n as real - x, n);
      } else {
        Below(x, n, h + 1);
        AtLeast(n as real - x, n, h);
      }
    } else {
      AtLeast(x, n, h + 1);
      Below(n as real - x, n, h + 1);
    }
  }

  lemma AtLeast(x: real, n: nat, k: nat)
    requires k < n && k as real <= x
    ensures Clamp(x, n) >= k
  {
    FloorMonotone(k as real, x);
  }

  lemma Below(x: real, n: nat, k: nat)
    requires 0 < k <= n && x < k as real
    ensures Clamp(x, n) < k
  {
  }

  lemma LevelPositions(alpha: real, n: nat)
    requires n > 0
    ensures Position(alpha / 2.0, n) <= Position(1.0 - alpha / 2.0, n) <==> LevelKeepsOrder(alpha, n)
  {
    hide Clamp;
    var x, r := (alpha / 2.0) * n as real, n as real;
    Halves(alpha, r);
    assert (1.0 - alpha / 2.0) * r == r - x;
    PositionsOrdered(x, n);
    if n % 2 == 0 {
      ScaleOrder(1.0, alpha, r);
    }
  }

  lemma Halves(alpha: real, r: real)
    ensures (1.0 - alpha / 2.0) * r == r - (alpha / 2.0) * r && alpha * r == 2.0 * ((alpha / 2.0) * r)
  {
  }

  lemma {:induction false} SortedStays(s: seq<real>)
    requires SortedBy(s, RealLeq)
    ensures Sort(s, RealLeq) == s
  {
    if s != [] {
      SortedStays(s[1..]);
      assert s == [s[0]] + s[1..];
      assert s[1..] != [] ==> RealLeq(s[0], s[1]);
    }
  }

  const ZERO_ONE := [0.0, 1.0]

  /** Resamples of the differences 0 and 1: some all 0, then some all 1. */
  function Stepped(n: nat, p: nat): seq<seq<nat>> { seq(n, r => if r < p then [0, 0] else [1, 1]) }

  lemma SteppedMeans(n: nat, p: nat)
    requires p <= n
    ensures Draws(Stepped(n, p), 2)
    ensures var s := Means(ZERO_ONE, Stepped(n, p)); |s| == n && (forall r :: 0 <= r < n ==> s[r] == if r < p then 0.0 else 1.0)
  {
    forall row | row == [0, 0] || row == [1, 1]
      ensures Draw(row, 2, 2) && DrawMean(ZERO_ONE, row) == row[0] as real
    {
      assert DrawSum(ZERO_ONE, row, 0) == 0.0;
      assert DrawSum(ZERO_ONE, row, 1) == row[0] as real;
    }
  }

  /** Where the positions cross, these resamples give the bounds 1 and 0. */
  lemma SteppedCrosses(alpha: real, n: nat)
    requires n > 0 && Position(1.0 - alpha / 2.0, n) < Position(alpha / 2.0, n)
    ensures Draws(Stepped(n, Position(alpha / 2.0, n)), 2)
    ensures BootstrapInterval(ZERO_ONE, alpha, Stepped(n, Position(alpha / 2.0, n))) == Bounded(1.0, 0.0)
  {
    hide Position, Draws, Stepped;
    var p := Position(alpha / 2.0, n);
    SteppedMeans(n, p);
    var s := Means(ZERO_ONE, Stepped(n, p));
    assert SortedBy(s, RealLeq);
    SortedStays(s);
  }

  ghost predicate AlwaysOrdered(alpha: real, n: nat) {
    forall diffs: seq<real>, draws: seq<seq<nat>> ::
      |diffs| > 1 && |draws| == n && n > 0 && Draws(draws, |diffs|) ==>
        BootstrapInterval(diffs, alpha, draws).lower <= BootstrapInterval(diffs, alpha, draws).upper
  }

  /** Exactly which levels keep the bounds in order, whatever the differences and whatever is drawn. */
  lemma OrderedExactly(alpha: real, n: nat)
    requires n > 0
    ensures AlwaysOrdered(alpha, n) <==> LevelKeepsOrder(alpha, n)
  {
    LevelPositions(alpha, n);
    if LevelKeepsOrder(alpha, n) {
      forall diffs: seq<real>, draws: seq<seq<nat>> | |diffs| > 1 && |draws| == n && Draws(draws, |diffs|)
        ensures BootstrapInterval(diffs, alpha, draws).lower <= BootstrapInterval(diffs, alpha, draws).upper
      {
        OrderedAtLevel(diffs, alpha, draws);
      }
    } else {
      CrossedAtLevel(alpha, n);
    }
  }

  lemma OrderedAtLevel(diffs: seq<real>, alpha: real, draws: seq<seq<nat>>)
    requires |diffs| > 1 && draws != [] && Draws(draws, |diffs|) && LevelKeepsOrder(alpha, |draws|)
    ensures BootstrapInterval(diffs, alpha, draws).lower <= BootstrapInterval(diffs, alpha, draws).upper
  {
    hide Position, LevelKeepsOrder, Draws;
    var means := Means(diffs, draws);
    var sorted := Sort(means, RealLeq);
    SortKeeps(means, RealLeq);
    RealLeqIsOrder();
    SortSorts(means, RealLeq);
    LevelPositions(alpha, |draws|);
    var p, q := Position(alpha / 2.0, |sorted|), Position(1.0 - alpha / 2.0, |sorted|);
    assert p < q ==> RealLeq(sorted[p], sorted[q]);
  }

  /** Whatever is drawn, at every level, the bounds lie between the smallest and the largest difference. */
  lemma BoundsWithin(diffs: seq<real>, alpha: real, draws: seq<seq<nat>>, lo: real, hi: real)
    requires |diffs| > 1 && Draws(draws, |diffs|) && draws != []
    requires forall d :: d in diffs ==> lo <= d <= hi
    ensures var i := BootstrapInterval(diffs, alpha, draws); i.Bounded? && lo <= i.lower <= hi && lo <= i.upper <= hi
  {
    hide Draws, DrawMean;
    var means := Means(diffs, draws);
    var sorted := Sort(means, RealLeq);
    SortKeeps(means, RealLeq);
    forall k | 0 <= k < |sorted|
      ensures lo <= sorted[k] <= hi
    {
      SortMembers(means, RealLeq, sorted[k]);
      var r :| 0 <= r < |means| && means[r] == sorted[k];
      MeansRange(diffs, draws, r, lo, hi);
    }
  }

  /** For a level up to 1 the bounds are ordered and lie between the smallest and the largest difference, whatever is
      drawn. */
  lemma BoundsMeaning(diffs: seq<real>, alpha: real, draws: seq<seq<nat>>, lo: real, hi: real)
    requires |diffs| > 1 && Draws(draws, |diffs|) && draws != [] && alpha <= 1.0
    requires forall d :: d in diffs ==> lo <= d <= hi
    ensures var i := BootstrapInterval(diffs, alpha, draws); i.Bounded? && lo <= i.lower <= i.upper <= hi
  {
    hide Draws, BootstrapInterval;
    BoundsWithin(diffs, alpha, draws, lo, hi);
    ScaleKeepsOrder(alpha, 1.0, |draws|);
    OrderedAtLevel(diffs, alpha, draws);
  }

  lemma CrossedAtLevel(alpha: real, n: nat)
    requires n > 0 && !LevelKeepsOrder(alpha, n)
    ensures !AlwaysOrdered(alpha, n)
  {
    hide Position, LevelKeepsOrder, BootstrapInterval, Stepped, Draws;
    LevelPositions(alpha, n);
    SteppedMeans(n, Position(alpha / 2.0, n));
    SteppedCrosses(alpha, n);
  }

  // ---- One metric ----

  function PairedScores(req: Request, metric: string): seq<real> {
    var both := Measured(req.observations, metric);
    seq(|both|, i requires 0 <= i < |both| => both[i].candidate[metric])
  }

  function PairedDifferences(req: Request, metric: string): seq<real> {
    var both := Measured(req.observations, metric);
    seq(|both|, i requires 0 <= i < |both| => both[i].candidate[metric] - both[i].incumbent[metric])
  }

  /** The draws a run of the generator makes for this metric. */
  ghost predicate DrawsFor(req: Request, metric: string, draws: seq<seq<nat>>) {
    draws != [] && Draws(draws, |PairedDifferences(req, metric)|)
  }

  function MetricOf(req: Request, metric: Metric, draws: seq<seq<nat>>): MetricResult
    requires DrawsFor(req, metric.name, draws)
  {
    var diffs := PairedDifferences(req, metric.name);
    var result := MetricResult(metric.name, metric.test, false, false, false, Unbounded, |diffs|, Gate.LevelOf(metric.alpha));
    if |diffs| == 0 then result
    else if metric.test == Threshold then ThresholdResult(result, metric, PairedScores(req, metric.name))
    else Read(result, metric, BootstrapInterval(diffs, result.alpha, draws))
  }

  method ComputeMetric(req: Request, metric: Metric, draws: seq<seq<nat>>) returns (result: MetricResult)
    requires DrawsFor(req, metric.name, draws)
    ensures result == MetricOf(req, metric, draws)
  {
    var incumbent, candidate := Values(req.observations, metric.name);
    result := MetricResult(metric.name, metric.test, false, false, false, Unbounded, |incumbent|, metric.alpha);
    if result.alpha == 0.0 {
      result := result.(alpha := DEFAULT_ALPHA);
    }
    if |incumbent| == 0 {
      return;
    }
    if metric.test == Threshold {
      assert candidate == PairedScores(req, metric.name);
      result := CheckThreshold(result, metric, candidate);
      return;
    }
    var diffs := Differences(incumbent, candidate);
    assert diffs == PairedDifferences(req, metric.name);
    var interval := BootstrapCI(diffs, result.alpha, draws);
    result := Read(result, metric, interval);
  }

  /** The paired metric was measured and its evidence lies wholly on the acceptable side. */
  ghost predicate Established(req: Request, metric: Metric, draws: seq<seq<nat>>)
    requires DrawsFor(req, metric.name, draws)
  {
    var diffs := PairedDifferences(req, metric.name);
    && diffs != []
    && if metric.test == Threshold then WithinThreshold(metric, PairedScores(req, metric.name))
       else WhollyAcceptable(metric, BootstrapInterval(diffs, Gate.LevelOf(metric.alpha), draws))
  }

  /** The paired metric was measured and its evidence lies wholly on the wrong side. */
  ghost predicate Breached(req: Request, metric: Metric, draws: seq<seq<nat>>)
    requires DrawsFor(req, metric.name, draws)
  {
    var diffs := PairedDifferences(req, metric.name);
    && diffs != []
    && if metric.test == Threshold then !WithinThreshold(metric, PairedScores(req, metric.name))
       else WhollyWorse(metric, BootstrapInterval(diffs, Gate.LevelOf(metric.alpha), draws))
  }

  /** At every level, what each reading of a metric means; an unmeasured one gets none of them. */
  lemma ReadingMeaning(req: Request, metric: Metric, draws: seq<seq<nat>>)
    requires DrawsFor(req, metric.name, draws)
    ensures var r := MetricOf(req, metric, draws);
            && (r.pass <==> Established(req, metric, draws))
            && (r.inferior <==> Breached(req, metric, draws))
            && (r.indeterminate <==> !r.pass && !r.inferior && PairedDifferences(req, metric.name) != [])
            && r.n == |PairedDifferences(req, metric.name)|
  {
    hide BootstrapInterval;
    var diffs := PairedDifferences(req, metric.name);
    if diffs != [] && metric.test == Threshold {
      ThresholdMeaning(MetricResult(metric.name, metric.test, false, false, false, Unbounded, |diffs|,
                                    Gate.LevelOf(metric.alpha)), metric, PairedScores(req, metric.name));
    }
  }

  /** A measured metric gets exactly one reading wherever its level keeps the bounds in order, and so does every
      threshold. */
  lemma ExactlyOneReading(req: Request, metric: Metric, draws: seq<seq<nat>>)
    requires DrawsFor(req, metric.name, draws)
    ensures var r := MetricOf(req, metric, draws);
            metric.test == Threshold || LevelKeepsOrder(Gate.LevelOf(metric.alpha), |draws|) ==>
              && !(r.pass && r.inferior)
              && (r.pass || r.inferior || r.indeterminate <==> PairedDifferences(req, metric.name) != [])
              && !(r.indeterminate && (r.pass || r.inferior))
  {
    hide MetricOf, LevelKeepsOrder;
    ReadingMeaning(req, metric, draws);
    var diffs := PairedDifferences(req, metric.name);
    if |diffs| > 1 && metric.test != Threshold && LevelKeepsOrder(Gate.LevelOf(metric.alpha), |draws|) {
      OrderedAtLevel(diffs, Gate.LevelOf(metric.alpha), draws);
    }
  }

  // ---- The decision ----

  function Decide(v: Verdict): Outcome {
    if v.missing.attempted > 0 && !v.missingCheck.pass then Inconclusive
    else if exists i :: 0 <= i < |v.guardrails| && v.guardrails[i].inferior then WaveOff
    else if exists i :: 0 <= i < |v.guardrails| && (v.guardrails[i].indeterminate || !v.guardrails[i].pass) then Inconclusive
    else if v.primary.n == 0 then Inconclusive
    else if v.primary.n < BOOTSTRAP_FLOOR then Inconclusive
    else if v.primary.indeterminate then Inconclusive
    else if v.primary.pass then Promote
    else WaveOff
  }

  ghost predicate AllDraws(req: Request, draws: seq<seq<nat>>, guardDraws: seq<seq<seq<nat>>>) {
    && DrawsFor(req, req.primary.name, draws)
    && |guardDraws| == |req.guardrails|
    && forall i :: 0 <= i < |req.guardrails| ==> DrawsFor(req, req.guardrails[i].name, guardDraws[i])
  }

  function AnalysisOf(req: Request, draws: seq<seq<nat>>, guardDraws: seq<seq<seq<nat>>>): Verdict
    requires AllDraws(req, draws, guardDraws)
  {
    var guardrails := seq(|req.guardrails|, i requires 0 <= i < |req.guardrails| =>
                            MetricOf(req, GuardLevel(req, req.guardrails[i]), guardDraws[i]));
    var v := Verdict(Inconclusive, MetricOf(req, req.primary, draws), guardrails, req.missing,
                     CheckOf(req.missing, req.missingPolicy, Gate.Fallback(req)));
    v.(outcome := Decide(v))
  }

  /** A guardrail without a level of its own takes the primary's, when that is positive. */
  function GuardLevel(req: Request, g: Metric): Metric {
    if g.alpha == 0.0 then g.(alpha := Gate.Fallback(req)) else g
  }

  method ComputeGuardrails(req: Request, guardDraws: seq<seq<seq<nat>>>) returns (guardrails: seq<MetricResult>)
    requires |guardDraws| == |req.guardrails|
    requires forall i :: 0 <= i < |req.guardrails| ==> DrawsFor(req, req.guardrails[i].name, guardDraws[i])
    ensures |guardrails| == |req.guardrails|
    ensures forall i :: 0 <= i < |guardrails| ==>
              guardrails[i] == MetricOf(req, GuardLevel(req, req.guardrails[i]), guardDraws[i])
  {
    hide MetricOf, DrawsFor;
    guardrails := [];
    for i := 0 to |req.guardrails|
      invariant |guardrails| == i
      invariant forall k :: 0 <= k < i ==> guardrails[k] == MetricOf(req, GuardLevel(req, req.guardrails[k]), guardDraws[k])
    {
      var result := ComputeMetric(req, GuardLevel(req, req.guardrails[i]), guardDraws[i]);
      guardrails := guardrails + [result];
    }
  }

  method Analyze(req: Request, draws: seq<seq<nat>>, guardDraws: seq<seq<seq<nat>>>) returns (answer: Result<Verdict>)
    requires AllDraws(req, draws, guardDraws)
    ensures answer == if ValidRequest(req) then Ok(AnalysisOf(req, draws, guardDraws)) else Err
  {
    hide MetricOf, DrawsFor, ValidRequest, CheckOf, Decide;
    var valid := Validate(req);
    if !valid {
      return Err;
    }
    var primary := ComputeMetric(req, req.primary, draws);
    var guardrails := ComputeGuardrails(req, guardDraws);
    var check := CheckMissingness(req.missing, req.missingPolicy, Gate.Fallback(req));
    var v := Verdict(Inconclusive, primary, guardrails, req.missing, check);
    assert guardrails == AnalysisOf(req, draws, guardDraws).guardrails;
    answer := Ok(v.(outcome := Decide(v)));
  }

  /** When the fixed-sample analyzer promotes: the exact condition, at every level. An unmeasured primary never does. A
      guardrail must not also be breached, as it can be at a level that crosses its bounds; a primary may be. */
  lemma PromotionMeaning(req: Request, draws: seq<seq<nat>>, guardDraws: seq<seq<seq<nat>>>)
    requires AllDraws(req, draws, guardDraws)
    ensures AnalysisOf(req, draws, guardDraws).outcome == Promote <==>
            && Gate.SampleTrusted(req)
            && (forall i :: 0 <= i < |req.guardrails| ==>
                  Established(req, GuardLevel(req, req.guardrails[i]), guardDraws[i])
                  && !Breached(req, GuardLevel(req, req.guardrails[i]), guardDraws[i]))
            && |PairedDifferences(req, req.primary.name)| >= 30
            && Established(req, req.primary, draws)
  {
    hide MetricOf, Established, Breached, CheckOf, DrawsFor;
    var v := AnalysisOf(req, draws, guardDraws);
    ReadingMeaning(req, req.primary, draws);
    forall i | 0 <= i < |req.guardrails|
      ensures v.guardrails[i].pass <==> Established(req, GuardLevel(req, req.guardrails[i]), guardDraws[i])
      ensures v.guardrails[i].inferior <==> Breached(req, GuardLevel(req, req.guardrails[i]), guardDraws[i])
      ensures !(v.guardrails[i].pass && v.guardrails[i].indeterminate)
    {
      ReadingMeaning(req, GuardLevel(req, req.guardrails[i]), guardDraws[i]);
    }
    assert v.primary == MetricOf(req, req.primary, draws);
    assert |v.guardrails| == |req.guardrails|;
  }

  // ---- A guardrail that passes and is inferior ----

  const LATENCY := Metric("latency", PairedBootstrap, 0.5, 0.0, 2.0, Higher)

  /** A request validation accepts, with a guardrail at level 2: validation looks at no level but the primary's. */
  function HighLevelRequest(): Request {
    Request(Metric("task-completion", PairedBootstrap, -0.02, 0.0, 0.05, Higher), [LATENCY],
            [Observation("a", map["latency" := 0.0], map["latency" := 0.0]),
             Observation("b", map["latency" := 0.0], map["latency" := 1.0])],
            Counts(0, 0, 0, 0, 0), Policy(0.0, 0.0), Paired)
  }

  lemma HighLevelIsValid()
    ensures ValidRequest(HighLevelRequest())
  {
    var obs := HighLevelRequest().observations;
    assert obs[0].item == "a" && obs[1].item == "b" && "a"[0] != "b"[0];
  }

  lemma MeasuredTwo(one: Observation, two: Observation, metric: string)
    requires metric in one.incumbent && metric in one.candidate && metric in two.incumbent && metric in two.candidate
    ensures Measured([one, two], metric) == [one, two]
  {
    assert [one, two][..1] == [one] && [one][..0] == [];
    assert Measured([one], metric) == [one];
  }

  lemma HighLevelDifferences()
    ensures PairedDifferences(HighLevelRequest(), "latency") == ZERO_ONE
  {
    hide Measured;
    var obs := HighLevelRequest().observations;
    MeasuredTwo(obs[0], obs[1], "latency");
    assert obs == [obs[0], obs[1]];
  }

  lemma EndPositions(n: nat)
    requires n > 0
    ensures Position(1.0, n) == n - 1 && Position(0.0, n) == 0
  {
  }

  /** A level above 1 can cross the bounds, so that one metric of an accepted request both passes and is inferior, with
      any number of resamples but one. */
  lemma HighLevelInverts(n: nat) returns (req: Request, g: Metric, draws: seq<seq<nat>>)
    requires n > 1
    ensures ValidRequest(req) && g in req.guardrails && DrawsFor(req, g.name, draws) && |draws| == n
    ensures var r := MetricOf(req, GuardLevel(req, g), draws); r.pass && r.inferior
  {
    req, g, draws := HighLevelRequest(), LATENCY, Stepped(n, n - 1);
    hide BootstrapInterval, ValidRequest, PairedDifferences, Stepped, Draws;
    HighLevelIsValid();
    HighLevelDifferences();
    EndPositions(n);
    SteppedMeans(n, n - 1);
    SteppedCrosses(2.0, n);
  }
}
