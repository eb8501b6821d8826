/** What the fixed-sample analyzer's interval and outcome mean (`internal/analysis/bootstrap.go`), said without its own
    arithmetic: means are means of what was drawn, and bounds are quantiles of those means. */
module BootstrapMeaning {
  import opened Basics
  import opened Sorting
  import opened Missingness
  import opened Analysis
  import opened Bootstrap
  import Gate = SequentialGate

  // ---- One resample ----

  function Sum(s: seq<real>): real { if s == [] then 0.0 else s[0] + Sum(s[1..]) }

  /** What one resample drew, in the order it was drawn. */
  function Drawn(diffs: seq<real>, row: seq<nat>): seq<real>
    requires Draw(row, |diffs|, |diffs|)
  {
    seq(|diffs|, i requires 0 <= i < |diffs| => diffs[row[i]])
  }

  lemma {:induction false} SumAppend(s: seq<real>, x: real)
    ensures Sum(s + [x]) == Sum(s) + x
  {
    if s == [] {
      assert ([x])[1..] == [];
    } else {
      SumAppend(s[1..], x);
      assert (s + [x])[1..] == s[1..] + [x];
    }
  }

  lemma {:induction false} DrawSumIsSum(diffs: seq<real>, row: seq<nat>, upTo: nat)
    requires Draw(row, |diffs|, |diffs|) && upTo <= |diffs|
    ensures DrawSum(diffs, row, upTo) == Sum(Drawn(diffs, row)[..upTo])
  {
    if upTo > 0 {
      DrawSumIsSum(diffs, row, upTo - 1);
      SumAppend(Drawn(diffs, row)[..upTo - 1], diffs[row[upTo - 1]]);
      assert Drawn(diffs, row)[..upTo] == Drawn(diffs, row)[..upTo - 1] + [diffs[row[upTo - 1]]];
    }
  }

  /** The means are the means of what each resample drew. */
  ghost predicate MeansOf(diffs: seq<real>, draws: seq<seq<nat>>, means: seq<real>)
    requires Draws(draws, |diffs|)
  {
    |means| == |draws| && forall r :: 0 <= r < |draws| ==> means[r] * |diffs| as real == Sum(Drawn(diffs, draws[r]))
  }

  lemma MeansAreMeans(diffs: seq<real>, draws: seq<seq<nat>>, means: seq<real>)
    requires |diffs| > 0 && Draws(draws, |diffs|)
    ensures MeansOf(diffs, draws, means) <==> means == Means(diffs, draws)
  {
    hide DrawMean, Drawn, Sum;
    if |means| == |draws| {
      forall r | 0 <= r < |draws|
        ensures means[r] * |diffs| as real == Sum(Drawn(diffs, draws[r])) <==> means[r] == Means(diffs, draws)[r]
      {
        RowMean(diffs, draws[r], means[r]);
      }
    }
  }

  lemma RowMean(diffs: seq<real>, row: seq<nat>, mean: real)
    requires |diffs| > 0 && Draw(row, |diffs|, |diffs|)
    ensures mean * |diffs| as real == Sum(Drawn(diffs, row)) <==> mean == DrawMean(diffs, row)
  {
    hide DrawSum, Sum, Drawn;
    DrawSumIsSum(diffs, row, |diffs|);
    assert Drawn(diffs, row)[..|diffs|] == Drawn(diffs, row) by { DrawnLength(diffs, row); }
    QuotientIs(Sum(Drawn(diffs, row)), |diffs| as real, mean);
  }

  lemma DrawnLength(diffs: seq<real>, row: seq<nat>)
    requires Draw(row, |diffs|, |diffs|)
    ensures |Drawn(diffs, row)| == |diffs|
  {
  }

  lemma QuotientIs(x: real, n: real, mean: real)
    requires n > 0.0
    ensures mean * n == x <==> mean == x / n
  {
    assert (x / n) * n == x;
    if mean * n == x {
      SameQuotient(mean, x / n, n);
    }
  }

  lemma SameQuotient(x: real, y: real, n: real)
    requires n > 0.0 && x * n == y * n
    ensures x == y
  {
    ScaleOrder(x, y, n);
    ScaleOrder(y, x, n);
  }

  // ---- The bounds are quantiles ----

  function HowMany(s: seq<real>, p: real -> bool): nat {
    if s == [] then 0 else (if p(s[0]) then 1 else 0) + HowMany(s[1..], p)
  }

  function Under(x: real): real -> bool { (v: real) => v < x }

  function UpTo(x: real): real -> bool { (v: real) => v <= x }

  lemma {:induction false} HowManyAppend(s: seq<real>, t: seq<real>, p: real -> bool)
    ensures HowMany(s + t, p) == HowMany(s, p) + HowMany(t, p)
  {
    if s == [] {
      assert s + t == t;
    } else {
      HowManyAppend(s[1..], t, p);
      assert (s + t)[1..] == s[1..] + t;
    }
  }

  lemma {:induction false} InsertCounts(x: real, s: seq<real>, p: real -> bool)
    ensures HowMany(Insert(x, s, RealLeq), p) == HowMany(s, p) + if p(x) then 1 else 0
  {
    if s == [] || RealLeq(x, s[0]) {
      assert ([x] + s)[1..] == s;
    } else {
      InsertCounts(x, s[1..], p);
      assert ([s[0]] + Insert(x, s[1..], RealLeq))[1..] == Insert(x, s[1..], RealLeq);
    }
  }

  lemma {:induction false} SortCounts(s: seq<real>, p: real -> bool)
    ensures HowMany(Sort(s, RealLeq), p) == HowMany(s, p)
  {
    if s != [] {
      SortCounts(s[1..], p);
      InsertCounts(s[0], Sort(s[1..], RealLeq), p);
    }
  }

  lemma {:induction false} HowManyAtMost(s: seq<real>, p: real -> bool)
    ensures HowMany(s, p) <= |s|
  {
    if s != [] {
      HowManyAtMost(s[1..], p);
    }
  }

  lemma {:induction false} AllCount(s: seq<real>, p: real -> bool)
    requires forall i :: 0 <= i < |s| ==> p(s[i])
    ensures HowMany(s, p) == |s|
  {
    if s != [] {
      assert p(s[0]);
      AllCount(s[1..], p);
      assert HowMany(s, p) == 1 + HowMany(s[1..], p);
    }
  }

  lemma {:induction false} NoneCount(s: seq<real>, p: real -> bool)
    requires forall i :: 0 <= i < |s| ==> !p(s[i])
    ensures HowMany(s, p) == 0
  {
    if s != [] {
      assert !p(s[0]);
      NoneCount(s[1..], p);
      assert HowMany(s, p) == HowMany(s[1..], p);
    }
  }

  /** In a sorted list, at most k elements are below the one at position k, and more than k are no greater. */
  lemma RankInSorted(s: seq<real>, k: nat)
    requires SortedBy(s, RealLeq) && k < |s|
    ensures HowMany(s, Under(s[k])) <= k < HowMany(s, UpTo(s[k]))
  {
    assert s == s[..k] + s[k..] && s == s[..k + 1] + s[k + 1..];
    forall i | k <= i < |s|
      ensures s[k] <= s[i]
    {
      assert i > k ==> RealLeq(s[k], s[i]);
    }
    forall i | 0 <= i <= k
      ensures s[i] <= s[k]
    {
      assert i < k ==> RealLeq(s[i], s[k]);
    }
    HowManyAppend(s[..k], s[k..], Under(s[k]));
    HowManyAtMost(s[..k], Under(s[k]));
    NoneCount(s[k..], Under(s[k]));
    HowManyAppend(s[..k + 1], s[k + 1..], UpTo(s[k]));
    AllCount(s[..k + 1], UpTo(s[k]));
  }

  /** One of the values, with no more than the given share of them below it and more than that share of them no greater. A share
      below 0 means the smallest, and one of at least 1 the greatest. */
  ghost predicate IsQuantile(values: seq<real>, share: real, x: real) {
    var n := |values| as real;
    && x in values
    && (share < 0.0 ==> HowMany(values, Under(x)) == 0)
    && (0.0 <= share < 1.0 ==> HowMany(values, Under(x)) as real <= share * n < HowMany(values, UpTo(x)) as real)
    && (share >= 1.0 ==> HowMany(values, UpTo(x)) == |values|)
  }

  lemma PercentileIsQuantile(values: seq<real>, share: real)
    requires values != []
    ensures |Sort(values, RealLeq)| == |values|
    ensures IsQuantile(values, share, Percentile(Sort(values, RealLeq), share))
  {
    hide Position, HowMany, Sort;
    SortKeeps(values, RealLeq);
    var s, k := Sort(values, RealLeq), Position(share, |values|);
    RealLeqIsOrder();
    SortSorts(values, RealLeq);
    RankInSorted(s, k);
    SortCounts(values, Under(s[k]));
    SortCounts(values, UpTo(s[k]));
    HowManyAtMost(values, UpTo(s[k]));
    SortMembers(values, RealLeq, s[k]);
    PositionMeaning(share, |values|, share * |values| as real);
  }

  lemma ScaledShare(share: real, n: real, x: real)
    requires n > 0.0 && x == share * n
    ensures share < 0.0 <==> x < 0.0
    ensures share < 1.0 <==> x < n
  {
    ScaleOrder(share, 0.0, n);
    ScaleOrder(share, 1.0, n);
  }

  lemma PositionMeaning(share: real, n: nat, x: real)
    requires n > 0 && x == share * n as real
    ensures var k := Position(share, n);
            && (share < 0.0 ==> k == 0)
            && (0.0 <= share < 1.0 ==> k as real <= x < (k + 1) as real)
            && (share >= 1.0 ==> k == n - 1)
  {
    var k := Position(share, n);
    assert k == Clamp(x, n);
    assert share < 0.0 <==> x < 0.0 by { ScaledShare(share, n as real, x); }
    assert share < 1.0 <==> x < n as real by { ScaledShare(share, n as real, x); }
    ClampMeaning(x, n);
  }

  lemma ClampMeaning(x: real, n: nat)
    requires n > 0
    ensures x < 0.0 ==> Clamp(x, n) == 0
    ensures 0.0 <= x < n as real ==> Clamp(x, n) as real <= x < (Clamp(x, n) + 1) as real
    ensures x >= n as real ==> Clamp(x, n) == n - 1
  {
    assert x.Floor as real <= x < x.Floor as real + 1.0;
  }

  /** The bounds leave half the level of the resampled means outside on each side: they are quantiles of the means, at every
      level. */
  lemma IntervalMeaning(diffs: seq<real>, alpha: real, draws: seq<seq<nat>>, means: seq<real>)
    requires |diffs| > 1 && Draws(draws, |diffs|) && draws != [] && MeansOf(diffs, draws, means)
    ensures var i := BootstrapInterval(diffs, alpha, draws);
            i.Bounded? && IsQuantile(means, alpha / 2.0, i.lower) && IsQuantile(means, 1.0 - alpha / 2.0, i.upper)
  {
    hide IsQuantile, Percentile, Draws, MeansOf;
    MeansAreMeans(diffs, draws, means);
    PercentileIsQuantile(means, alpha / 2.0);
    PercentileIsQuantile(means, 1.0 - alpha / 2.0);
  }

  /** What the interval of a metric is: quantiles of the means of resampled differences, each difference the candidate's score
      less the incumbent's for one item, at the metric's level or else 5%. */
  lemma MetricIntervalMeaning(req: Request, metric: Metric, draws: seq<seq<nat>>, diffs: seq<real>, means: seq<real>)
    requires DrawsFor(req, metric.name, draws) && metric.test != Threshold
    requires |diffs| == |Measured(req.observations, metric.name)| > 1
    requires forall i :: 0 <= i < |diffs| ==>
               var o := Measured(req.observations, metric.name)[i]; diffs[i] == o.candidate[metric.name] - o.incumbent[metric.name]
    requires Draws(draws, |diffs|) && MeansOf(diffs, draws, means)
    ensures var r, level := MetricOf(req, metric, draws), if metric.alpha == 0.0 then 0.05 else metric.alpha;
            && r.alpha == level && r.interval.Bounded?
            && IsQuantile(means, level / 2.0, r.interval.lower) && IsQuantile(means, 1.0 - level / 2.0, r.interval.upper)
  {
    hide IsQuantile, BootstrapInterval, MeansOf, Draws;
    assert PairedDifferences(req, metric.name) == diffs;
    IntervalMeaning(diffs, if metric.alpha == 0.0 then 0.05 else metric.alpha, draws, means);
  }

  // ---- Defaults ----

  /** The request with every default written out: 5% for the primary metric and the sample check, the primary's level for
      guardrails, and a fifth for drops. */
  function Explicit(req: Request): Request {
    var level := if req.primary.alpha > 0.0 then req.primary.alpha else 0.05;
    req.(primary := if req.primary.alpha == 0.0 then req.primary.(alpha := 0.05) else req.primary,
         guardrails := seq(|req.guardrails|, i requires 0 <= i < |req.guardrails| => Gate.WithLevel(req.guardrails[i], level)),
         missingPolicy := Policy(if req.missingPolicy.maxRate <= 0.0 then 0.2 else req.missingPolicy.maxRate,
                                 if req.missingPolicy.alpha <= 0.0 then level else req.missingPolicy.alpha))
  }

  lemma SameReading(req: Request, other: Request, metric: Metric, same: Metric, draws: seq<seq<nat>>)
    requires DrawsFor(req, metric.name, draws) && other.observations == req.observations
    requires same == Gate.WithLevel(metric, 0.05)
    ensures DrawsFor(other, same.name, draws) && MetricOf(other, same, draws) == MetricOf(req, metric, draws)
  {
    hide BootstrapInterval, Draws;
    assert PairedDifferences(other, same.name) == PairedDifferences(req, metric.name);
    assert PairedScores(other, same.name) == PairedScores(req, metric.name);
    if PairedScores(req, metric.name) != [] {
      SameThreshold(metric, same, PairedScores(req, metric.name));
    }
  }

  /** Writing the defaults out changes nothing in the answer. */
  lemma DefaultsAreExplicit(req: Request, draws: seq<seq<nat>>, guardDraws: seq<seq<seq<nat>>>)
    requires AllDraws(req, draws, guardDraws)
    ensures AllDraws(Explicit(req), draws, guardDraws)
    ensures AnalysisOf(Explicit(req), draws, guardDraws) == AnalysisOf(req, draws, guardDraws)
  {
    hide MetricOf, DrawsFor;
    var other := Explicit(req);
    SameReading(req, other, req.primary, other.primary, draws);
    forall i | 0 <= i < |req.guardrails|
      ensures DrawsFor(other, other.guardrails[i].name, guardDraws[i])
      ensures MetricOf(other, GuardLevel(other, other.guardrails[i]), guardDraws[i])
              == MetricOf(req, GuardLevel(req, req.guardrails[i]), guardDraws[i])
    {
      SameReading(req, other, GuardLevel(req, req.guardrails[i]), GuardLevel(other, other.guardrails[i]), guardDraws[i]);
    }
    var v, w := AnalysisOf(req, draws, guardDraws), AnalysisOf(other, draws, guardDraws);
    assert v.guardrails == w.guardrails;
  }

  // ---- Waving off ----

  /** When the fixed-sample analyzer waves off: the exact condition, at every level. Fewer than thirty pairs never do, unless a
      guardrail is breached. */
  lemma WaveOffMeaning(req: Request, draws: seq<seq<nat>>, guardDraws: seq<seq<seq<nat>>>)
    requires AllDraws(req, draws, guardDraws)
    ensures AnalysisOf(req, draws, guardDraws).outcome == WaveOff <==>
            && Gate.SampleTrusted(req)
            && ((exists i :: 0 <= i < |req.guardrails|
                             && Breached(req, GuardLevel(req, req.guardrails[i]), guardDraws[i]))
                || (&& (forall i :: 0 <= i < |req.guardrails| ==>
                          Established(req, GuardLevel(req, req.guardrails[i]), guardDraws[i]))
                    && |PairedDifferences(req, req.primary.name)| >= 30
                    && Breached(req, req.primary, draws) && !Established(req, req.primary, draws)))
  {
    hide MetricOf, Established, Breached, CheckOf, DrawsFor, PairedDifferences;
    var v := AnalysisOf(req, draws, guardDraws);
    ReadingMeaning(req, req.primary, draws);
    forall i | 0 <= i < |req.guardrails|
      ensures v.guardrails[i].pass <==> Established(req, GuardLevel(req, req.guardrails[i]), guardDraws[i])
      ensures v.guardrails[i].inferior <==> Breached(req, GuardLevel(req, req.guardrails[i]), guardDraws[i])
      ensures !(v.guardrails[i].pass && v.guardrails[i].indeterminate)
    {
      ReadingMeaning(req, GuardLevel(req, req.guardrails[i]), guardDraws[i]);
    }
    assert v.primary == MetricOf(req, req.primary, draws);
    assert |v.guardrails| == |req.guardrails|;
  }
}
