/** The decision of the anytime-valid analyzer (`internal/analysis/sequential.go`, lines 54-179 and 282-324). */
module SequentialGate {
  import opened Basics
  import opened Missingness
  import opened Analysis
  import opened Sequential
  import opened SequentialWidth

  // ---- One metric ----

  function LevelOf(alpha: real): real { if alpha == 0.0 then DEFAULT_ALPHA else alpha }

  function IncumbentScores(req: Request, metric: string): seq<real> {
    if req.design == Unpaired then ArmScores(IncumbentArm(req.observations), metric)
    else
      var both := Measured(req.observations, metric);
      seq(|both|, i requires 0 <= i < |both| => both[i].incumbent[metric])
  }

  function CandidateScores(req: Request, metric: string): seq<real> {
    if req.design == Unpaired then ArmScores(CandidateArm(req.observations), metric)
    else
      var both := Measured(req.observations, metric);
      seq(|both|, i requires 0 <= i < |both| => both[i].candidate[metric])
  }

  /** The range each arm's own sequence is run over in an unpaired design. */
  function ArmRange(config: Range): Range {
    if config.upper > config.lower then config else Range(0.0, 1.0)
  }

  /** A negative level has no logarithm; its bounds fail every comparison, as unbounded ones do. */
  function LevelInterval(m: Math, config: Range, xs: seq<real>, alpha: real): Interval
    requires Lawful(m)
  {
    if alpha <= 0.0 then Unbounded else IntervalOf(m, config, xs, alpha)
  }

  /** Two independent sequences at half the level, combined by their worst corners. */
  function WorstCorners(incumbent: Interval, candidate: Interval): Interval {
    if incumbent.Bounded? && candidate.Bounded?
    then Bounded(candidate.lower - incumbent.upper, candidate.upper - incumbent.lower)
    else Unbounded
  }

  function MetricInterval(m: Math, config: Range, design: Design, incumbent: seq<real>, candidate: seq<real>,
                          alpha: real): Interval
    requires Lawful(m) && (design == Paired ==> |incumbent| == |candidate|)
  {
    if design == Unpaired then
      WorstCorners(LevelInterval(m, ArmRange(config), incumbent, alpha / 2.0),
                   LevelInterval(m, ArmRange(config), candidate, alpha / 2.0))
    else LevelInterval(m, config, Differences(incumbent, candidate), alpha)
  }

  function MetricOf(m: Math, config: Range, req: Request, metric: Metric): MetricResult
    requires Lawful(m)
  {
    var incumbent, candidate := IncumbentScores(req, metric.name), CandidateScores(req, metric.name);
    var n := if req.design == Unpaired && |candidate| < |incumbent| then |candidate| else |incumbent|;
    var result := MetricResult(metric.name, metric.test, false, false, false, Unbounded, n, LevelOf(metric.alpha));
    if incumbent == [] || candidate == [] then result
    else if metric.test == Threshold then ThresholdResult(result, metric, candidate)
    else Read(result, metric, MetricInterval(m, config, req.design, incumbent, candidate, result.alpha))
  }

  // ---- The decision ----

  function DecideSequential(v: Verdict): Outcome {
    if v.missing.attempted > 0 && !v.missingCheck.pass then Inconclusive
    else if exists i :: 0 <= i < |v.guardrails| && v.guardrails[i].inferior then WaveOff
    else if v.primary.inferior then WaveOff
    else if v.primary.indeterminate then Inconclusive
    else if exists i :: 0 <= i < |v.guardrails| && !v.guardrails[i].pass then Inconclusive
    else Promote
  }

  /** A guardrail without a level of its own takes the primary's. */
  function GuardLevel(req: Request, g: Metric): Metric {
    if g.alpha == 0.0 then g.(alpha := LevelOf(req.primary.alpha)) else g
  }

  function Fallback(req: Request): real {
    if req.primary.alpha > 0.0 then req.primary.alpha else DEFAULT_ALPHA
  }

  function AnalysisOf(m: Math, config: Range, req: Request): Verdict
    requires Lawful(m)
  {
    var guardrails := seq(|req.guardrails|, i requires 0 <= i < |req.guardrails| =>
                            MetricOf(m, config, req, GuardLevel(req, req.guardrails[i])));
    var v := Verdict(Inconclusive, MetricOf(m, config, req, req.primary), guardrails, req.missing,
                     CheckOf(req.missing, req.missingPolicy, Fallback(req)));
    v.(outcome := DecideSequential(v))
  }

  method Extract(req: Request, metric: string) returns (incumbent: seq<real>, candidate: seq<real>)
    ensures incumbent == IncumbentScores(req, metric) && candidate == CandidateScores(req, metric)
    ensures req.design == Paired ==> |incumbent| == |candidate|
  {
    if req.design == Unpaired {
      incumbent, candidate := Arms(req.observations, metric);
    } else {
      incumbent, candidate := Values(req.observations, metric);
    }
  }

  method ComputeMetric(m: Math, config: Range, req: Request, metric: Metric) returns (result: MetricResult)
    requires Lawful(m)
    ensures result == MetricOf(m, config, req, metric)
  {
    hide IncumbentScores, CandidateScores, IntervalOf, Read, ThresholdResult;
    var incumbent, candidate := Extract(req, metric.name);
    var n := |incumbent|;
    if req.design == Unpaired && |candidate| < n {
      n := |candidate|;
    }
    result := MetricResult(metric.name, metric.test, false, false, false, Unbounded, n, metric.alpha);
    if result.alpha == 0.0 {
      result := result.(alpha := DEFAULT_ALPHA);
    }
    if |incumbent| == 0 || |candidate| == 0 {
      return;
    }
    if metric.test == Threshold {
      result := CheckThreshold(result, metric, candidate);
      return;
    }
    var interval := Unbounded;
    if result.alpha > 0.0 {
      if req.design == Unpaired {
        var inc := ComputeInterval(m, ArmRange(config), incumbent, result.alpha / 2.0);
        var cand := ComputeInterval(m, ArmRange(config), candidate, result.alpha / 2.0);
        interval := WorstCorners(inc, cand);
      } else {
        interval := ComputeInterval(m, config, Differences(incumbent, candidate), result.alpha);
      }
    }
    result := Read(result, metric, interval);
  }

  method Analyze(m: Math, config: Range, req: Request) returns (answer: Result<Verdict>)
    requires Lawful(m)
    ensures answer == if ValidRequest(req) then Ok(AnalysisOf(m, config, req)) else Err
  {
    var valid := Validate(req);
    if !valid {
      return Err;
    }
    var primary := ComputeMetric(m, config, req, req.primary);
    var guardrails: seq<MetricResult> := [];
    for i := 0 to |req.guardrails|
      invariant |guardrails| == i
      invariant forall k :: 0 <= k < i ==> guardrails[k] == MetricOf(m, config, req, GuardLevel(req, req.guardrails[k]))
    {
      var result := ComputeMetric(m, config, req, GuardLevel(req, req.guardrails[i]));
      guardrails := guardrails + [result];
    }
    var check := CheckMissingness(req.missing, req.missingPolicy, Fallback(req));
    var v := Verdict(Inconclusive, primary, guardrails, req.missing, check);
    assert guardrails == AnalysisOf(m, config, req).guardrails;
    answer := Ok(v.(outcome := DecideSequential(v)));
  }

  // ---- What an answer means ----

  ghost predicate Unmeasured(req: Request, metric: Metric) {
    IncumbentScores(req, metric.name) == [] || CandidateScores(req, metric.name) == []
  }

  /** The metric was measured on both arms and the evidence lies wholly on the acceptable side. */
  ghost predicate Established(m: Math, config: Range, req: Request, metric: Metric)
    requires Lawful(m)
  {
    var incumbent, candidate := IncumbentScores(req, metric.name), CandidateScores(req, metric.name);
    && !Unmeasured(req, metric)
    && if metric.test == Threshold then WithinThreshold(metric, candidate)
       else WhollyAcceptable(metric, MetricInterval(m, config, req.design, incumbent, candidate, LevelOf(metric.alpha)))
  }

  /** The metric was measured on both arms and the evidence lies wholly on the wrong side. */
  ghost predicate Breached(m: Math, config: Range, req: Request, metric: Metric)
    requires Lawful(m)
  {
    var incumbent, candidate := IncumbentScores(req, metric.name), CandidateScores(req, metric.name);
    && !Unmeasured(req, metric)
    && if metric.test == Threshold then !WithinThreshold(metric, candidate)
       else WhollyWorse(metric, MetricInterval(m, config, req.design, incumbent, candidate, LevelOf(metric.alpha)))
  }

  lemma LevelIntervalOrdered(m: Math, config: Range, xs: seq<real>, alpha: real)
    requires Lawful(m) && alpha <= 2.0
    ensures var i := LevelInterval(m, config, xs, alpha);
            i.Bounded? ==> i.lower <= i.upper && (alpha < 2.0 ==> i.lower < i.upper)
  {
    hide IntervalOf;
    if alpha > 0.0 {
      IntervalOrdered(m, config, xs, alpha);
      NoRangeNoInterval(m, config, xs, alpha);
      if alpha < 2.0 && xs != [] && Effective(config).lower < Effective(config).upper {
        IntervalContainsMean(m, config, xs, alpha);
      }
    }
  }

  lemma NoRangeNoInterval(m: Math, config: Range, xs: seq<real>, alpha: real)
    requires Lawful(m) && alpha > 0.0
    ensures IntervalOf(m, config, xs, alpha).Bounded? <==> xs != [] && Effective(config).lower < Effective(config).upper
  {
  }

  /** Up to this level the bounds cannot cross: an unpaired design runs each arm at half the level. */
  function CrossingLevel(design: Design): real { if design == Unpaired then 4.0 else 2.0 }

  lemma MetricIntervalOrdered(m: Math, config: Range, design: Design, incumbent: seq<real>, candidate: seq<real>,
                              alpha: real)
    requires Lawful(m) && (design == Paired ==> |incumbent| == |candidate|) && alpha <= CrossingLevel(design)
    ensures var i := MetricInterval(m, config, design, incumbent, candidate, alpha);
            i.Bounded? ==> i.lower <= i.upper && (alpha < CrossingLevel(design) ==> i.lower < i.upper)
  {
    hide LevelInterval;
    if design == Unpaired {
      LevelIntervalOrdered(m, ArmRange(config), incumbent, alpha / 2.0);
      LevelIntervalOrdered(m, ArmRange(config), candidate, alpha / 2.0);
    } else {
      LevelIntervalOrdered(m, config, Differences(incumbent, candidate), alpha);
    }
  }

  /** How wide one arm's sequence is at the end. */
  function WidthOf(m: Math, r: Range, xs: seq<real>, alpha: real): real
    requires Lawful(m) && alpha > 0.0 && xs != [] && r.lower < r.upper
  {
    var logInv := m.ln(2.0 / alpha);
    SumsMatch(m, logInv, r, xs, |xs|);
    assert xs[..|xs|] == xs;
    Spread(r.upper - r.lower, logInv + Cost(m, logInv, r, xs, |xs|), StakeSum(m, logInv, r, xs, |xs|))
  }

  /** The interval of an unpaired metric, from arms run at half its level over the range [0, 1] when none is set: it lies evenly
      about the candidate's weighted mean less the incumbent's, and its width is the two arms' together. */
  lemma UnpairedInterval(m: Math, config: Range, incumbent: seq<real>, candidate: seq<real>, alpha: real)
    requires Lawful(m) && alpha > 0.0 && incumbent != [] && candidate != []
    ensures var r := if config.lower < config.upper then config else Range(0.0, 1.0);
            var i := MetricInterval(m, config, Unpaired, incumbent, candidate, alpha);
            && i.Bounded?
            && i.upper - i.lower == WidthOf(m, r, incumbent, alpha / 2.0) + WidthOf(m, r, candidate, alpha / 2.0)
            && i.upper + i.lower == 2.0 * (WeightedMean(m, m.ln(2.0 / (alpha / 2.0)), r, candidate)
                                           - WeightedMean(m, m.ln(2.0 / (alpha / 2.0)), r, incumbent))
  {
    hide IntervalOf, WidthOf, WeightedMean;
    IntervalWidth(m, ArmRange(config), incumbent, alpha / 2.0);
    IntervalWidth(m, ArmRange(config), candidate, alpha / 2.0);
  }

  lemma IntervalWidth(m: Math, config: Range, xs: seq<real>, alpha: real)
    requires Lawful(m) && alpha > 0.0 && xs != [] && Effective(config).lower < Effective(config).upper
    ensures var r, i := Effective(config), IntervalOf(m, config, xs, alpha);
            && i.Bounded? && i.upper - i.lower == WidthOf(m, r, xs, alpha)
            && i.upper + i.lower == 2.0 * WeightedMean(m, m.ln(2.0 / alpha), r, xs)
  {
    hide IntervalOf, WeightedMean, Spread, Cost, StakeSum, Lawful, Effective;
    WidthMeaning(m, config, xs, alpha);
  }

  /** That of a paired metric: about the weighted mean of the candidate's scores less the incumbent's, item by item, over the
      range [-1, 1] when none is set. */
  lemma PairedInterval(m: Math, config: Range, incumbent: seq<real>, candidate: seq<real>, diffs: seq<real>, alpha: real)
    requires Lawful(m) && alpha > 0.0 && |incumbent| == |candidate| == |diffs| > 0
    requires forall k :: 0 <= k < |diffs| ==> diffs[k] == candidate[k] - incumbent[k]
    ensures var r := if config == Range(0.0, 0.0) then Range(-1.0, 1.0) else config;
            var i := MetricInterval(m, config, Paired, incumbent, candidate, alpha);
            && (i.Bounded? <==> r.lower < r.upper)
            && (i.Bounded? ==>
                  && i.upper - i.lower == WidthOf(m, r, diffs, alpha)
                  && i.upper + i.lower == 2.0 * WeightedMean(m, m.ln(2.0 / alpha), r, diffs))
  {
    hide IntervalOf, WidthOf, WeightedMean;
    assert Differences(incumbent, candidate) == diffs;
    NoRangeNoInterval(m, config, diffs, alpha);
    if Effective(config).lower < Effective(config).upper {
      IntervalWidth(m, config, diffs, alpha);
    }
  }

  /** Which scores a metric is read from: each arm's own in an unpaired design, and otherwise those of the items both arms
      measured; with either list empty, or against a threshold, there is no interval. The level is 5% unless one is set. */
  lemma MetricMeaning(m: Math, config: Range, req: Request, metric: Metric, incumbent: seq<real>, candidate: seq<real>)
    requires Lawful(m)
    requires req.design == Unpaired ==>
               && incumbent == ArmScores(IncumbentArm(req.observations), metric.name)
               && candidate == ArmScores(CandidateArm(req.observations), metric.name)
    requires req.design == Paired ==>
               var both := Measured(req.observations, metric.name);
               && |incumbent| == |candidate| == |both|
               && forall i :: 0 <= i < |both| ==>
                    incumbent[i] == both[i].incumbent[metric.name] && candidate[i] == both[i].candidate[metric.name]
    ensures var r, level := MetricOf(m, config, req, metric), if metric.alpha == 0.0 then 0.05 else metric.alpha;
            && r.alpha == level && (r.n <= |incumbent| && r.n <= |candidate|) && (r.n == |incumbent| || r.n == |candidate|)
            && r.interval == if incumbent == [] || candidate == [] || metric.test == Threshold || level <= 0.0 then Unbounded
                             else MetricInterval(m, config, req.design, incumbent, candidate, level)
  {
    hide IntervalOf;
    assert IncumbentScores(req, metric.name) == incumbent && CandidateScores(req, metric.name) == candidate;
  }

  /** The request with its default levels written out: 5% for the primary metric, and the primary's level for guardrails. */
  function Explicit(req: Request): Request {
    var level := if req.primary.alpha == 0.0 then 0.05 else req.primary.alpha;
    req.(primary := req.primary.(alpha := level),
         guardrails := seq(|req.guardrails|, i requires 0 <= i < |req.guardrails| => WithLevel(req.guardrails[i], level)))
  }

  function WithLevel(g: Metric, level: real): Metric { if g.alpha == 0.0 then g.(alpha := level) else g }

  lemma SameReading(m: Math, config: Range, req: Request, other: Request, metric: Metric)
    requires Lawful(m) && other.observations == req.observations && other.design == req.design
    ensures MetricOf(m, config, other, WithLevel(metric, 0.05)) == MetricOf(m, config, req, metric)
  {
    hide MetricInterval, ArmScores, Measured;
    var same := WithLevel(metric, 0.05);
    assert CandidateScores(other, same.name) == CandidateScores(req, metric.name);
    assert IncumbentScores(other, same.name) == IncumbentScores(req, metric.name);
    if CandidateScores(req, metric.name) != [] {
      SameThreshold(metric, same, CandidateScores(req, metric.name));
    }
  }

  /** Writing the default levels out changes nothing in the answer. */
  lemma DefaultsAreExplicit(m: Math, config: Range, req: Request)
    requires Lawful(m)
    ensures AnalysisOf(m, config, Explicit(req)) == AnalysisOf(m, config, req)
  {
    hide MetricOf, CheckOf;
    var other := Explicit(req);
    SameReading(m, config, req, other, req.primary);
    forall i | 0 <= i < |req.guardrails|
      ensures MetricOf(m, config, other, GuardLevel(other, other.guardrails[i]))
              == MetricOf(m, config, req, GuardLevel(req, req.guardrails[i]))
    {
      SameReading(m, config, req, other, GuardLevel(req, req.guardrails[i]));
    }
    assert AnalysisOf(m, config, other).guardrails == AnalysisOf(m, config, req).guardrails;
    assert CheckOf(other.missing, other.missingPolicy, Fallback(other)) == CheckOf(req.missing, req.missingPolicy, Fallback(req));
  }

  ghost predicate AlwaysOrdered(m: Math, config: Range, design: Design, alpha: real)
    requires Lawful(m)
  {
    forall incumbent, candidate | design == Paired ==> |incumbent| == |candidate| ::
      var i := MetricInterval(m, config, design, incumbent, candidate, alpha); i.Bounded? ==> i.lower <= i.upper
  }

  /** The configured range is one a sequence can be run over; an unpaired design falls back to another. */
  predicate Runs(config: Range, design: Design) {
    design == Unpaired || Effective(config).lower < Effective(config).upper
  }

  /** Scores that nothing could be less surprised by: the middle of the range. */
  function Calm(config: Range, design: Design): (real, real) {
    if design == Unpaired then (Middle(Effective(ArmRange(config))), Middle(Effective(ArmRange(config))))
    else (0.0, Middle(Effective(config)))
  }

  lemma CalmCrosses(m: Math, config: Range, design: Design, alpha: real)
    requires Lawful(m) && Runs(config, design) && alpha > CrossingLevel(design)
    ensures var (inc, cand) := Calm(config, design);
            var i := MetricInterval(m, config, design, [inc], [cand], alpha);
            i.Bounded? && i.upper < cand - inc < i.lower
  {
    hide IntervalOf;
    var (inc, cand) := Calm(config, design);
    if design == Unpaired {
      MiddleCrosses(m, ArmRange(config), alpha / 2.0);
    } else {
      MiddleCrosses(m, config, alpha);
      assert Differences([inc], [cand]) == [cand - inc];
    }
  }

  /** Exactly which levels keep the bounds in order, whatever is observed. */
  lemma OrderedExactly(m: Math, config: Range, design: Design, alpha: real)
    requires Lawful(m)
    ensures AlwaysOrdered(m, config, design, alpha) <==> alpha <= CrossingLevel(design) || !Runs(config, design)
  {
    hide MetricInterval;
    if alpha <= CrossingLevel(design) {
      forall incumbent, candidate | design == Paired ==> |incumbent| == |candidate|
        ensures var i := MetricInterval(m, config, design, incumbent, candidate, alpha); i.Bounded? ==> i.lower <= i.upper
      {
        MetricIntervalOrdered(m, config, design, incumbent, candidate, alpha);
      }
    } else if !Runs(config, design) {
      forall incumbent: seq<real>, candidate: seq<real> | |incumbent| == |candidate|
        ensures MetricInterval(m, config, design, incumbent, candidate, alpha) == Unbounded
      {
        NothingRuns(m, config, incumbent, candidate, alpha);
      }
    } else {
      CalmCrosses(m, config, design, alpha);
      var (inc, cand) := Calm(config, design);
      assert |[inc]| == |[cand]|;
    }
  }

  lemma NothingRuns(m: Math, config: Range, incumbent: seq<real>, candidate: seq<real>, alpha: real)
    requires Lawful(m) && |incumbent| == |candidate| && !Runs(config, Paired)
    ensures MetricInterval(m, config, Paired, incumbent, candidate, alpha) == Unbounded
  {
  }

  /** At every level, what each reading of a metric means; an unmeasured one gets none of them. */
  lemma ReadingMeaning(m: Math, config: Range, req: Request, metric: Metric)
    requires Lawful(m)
    ensures var r := MetricOf(m, config, req, metric);
            && (r.pass <==> Established(m, config, req, metric))
            && (r.inferior <==> Breached(m, config, req, metric))
            && (r.indeterminate <==> !r.pass && !r.inferior && !Unmeasured(req, metric))
  {
    hide IntervalOf, IncumbentScores, CandidateScores;
    var incumbent, candidate := IncumbentScores(req, metric.name), CandidateScores(req, metric.name);
    if !Unmeasured(req, metric) && metric.test == Threshold {
      ThresholdMeaning(MetricResult(metric.name, metric.test, false, false, false, Unbounded,
                                    if req.design == Unpaired && |candidate| < |incumbent| then |candidate| else |incumbent|,
                                    LevelOf(metric.alpha)), metric, candidate);
    }
  }

  /** A measured metric gets exactly one of the three readings wherever its bounds cannot cross, and so does every
      threshold. */
  lemma ExactlyOneReading(m: Math, config: Range, req: Request, metric: Metric)
    requires Lawful(m)
    ensures var r := MetricOf(m, config, req, metric);
            metric.test == Threshold || LevelOf(metric.alpha) <= CrossingLevel(req.design) ==>
              && !(r.pass && r.inferior)
              && (r.pass || r.inferior || r.indeterminate <==> !Unmeasured(req, metric))
              && !(r.indeterminate && (r.pass || r.inferior))
  {
    hide IntervalOf, MetricOf;
    ReadingMeaning(m, config, req, metric);
    if !Unmeasured(req, metric) && metric.test != Threshold && LevelOf(metric.alpha) <= CrossingLevel(req.design) {
      MetricIntervalOrdered(m, config, req.design, IncumbentScores(req, metric.name), CandidateScores(req, metric.name),
                            LevelOf(metric.alpha));
    }
  }

  /** A request validation accepts, with one observation of a guardrail at this level. */
  function HighLevelRequest(design: Design, alpha: real, inc: real, cand: real): Request {
    Request(Metric("task-completion", SequentialTest, -0.02, 0.0, 0.05, Higher),
            [Metric("latency", SequentialTest, cand - inc, 0.0, alpha, Higher)],
            [Observation("a", map["latency" := inc], map["latency" := cand])], Counts(0, 0, 0, 0, 0), Policy(0.0, 0.0), design)
  }

  lemma HighLevelScores(design: Design, alpha: real, inc: real, cand: real)
    ensures var req := HighLevelRequest(design, alpha, inc, cand);
            IncumbentScores(req, "latency") == [inc] && CandidateScores(req, "latency") == [cand]
  {
    var req := HighLevelRequest(design, alpha, inc, cand);
    var obs := req.observations;
    assert obs[..0] == [];
    assert Measured(obs, "latency") == [obs[0]];
    assert IncumbentArm(obs) == [obs[0].incumbent] && CandidateArm(obs) == [obs[0].candidate];
    assert [obs[0].incumbent][..0] == [] && [obs[0].candidate][..0] == [];
    if design == Unpaired {
      assert ArmScores([obs[0].incumbent], "latency") == [inc];
      assert ArmScores([obs[0].candidate], "latency") == [cand];
    } else {
      assert IncumbentScores(req, "latency") == [inc];
      assert CandidateScores(req, "latency") == [cand];
    }
  }

  /** At every level above that one there is a request that validation accepts and one metric that both passes and is
      inferior. */
  lemma HighLevelReadsBoth(m: Math, config: Range, design: Design, alpha: real) returns (req: Request, g: Metric)
    requires Lawful(m) && Runs(config, design) && alpha > CrossingLevel(design)
    ensures ValidRequest(req) && req.design == design && g in req.guardrails && g.alpha == alpha
    ensures var r := MetricOf(m, config, req, GuardLevel(req, g)); r.pass && r.inferior
  {
    hide MetricInterval, IncumbentScores, CandidateScores;
    var (inc, cand) := Calm(config, design);
    req := HighLevelRequest(design, alpha, inc, cand);
    g := req.guardrails[0];
    CalmCrosses(m, config, design, alpha);
    HighLevelScores(design, alpha, inc, cand);
  }

  ghost predicate SampleTrusted(req: Request) {
    req.missing.attempted > 0 ==> CheckOf(req.missing, req.missingPolicy, Fallback(req)).pass
  }

  /** The metric is established and is not also breached, as both can be at a level so high that its bounds cross. */
  ghost predicate Cleared(m: Math, config: Range, req: Request, metric: Metric)
    requires Lawful(m)
  {
    Established(m, config, req, metric) && !Breached(m, config, req, metric)
  }

  /** When the analyzer promotes, and when it waves off: the exact conditions, at every level. */
  lemma DecisionMeaning(m: Math, config: Range, req: Request)
    requires Lawful(m)
    ensures AnalysisOf(m, config, req).outcome == Promote <==>
            && SampleTrusted(req)
            && (forall g :: g in req.guardrails ==> Cleared(m, config, req, GuardLevel(req, g)))
            && (Cleared(m, config, req, req.primary) || Unmeasured(req, req.primary))
    ensures AnalysisOf(m, config, req).outcome == WaveOff <==>
            && SampleTrusted(req)
            && (Breached(m, config, req, req.primary)
                || exists g :: g in req.guardrails && Breached(m, config, req, GuardLevel(req, g)))
  {
    hide MetricOf, Established, Breached, CheckOf;
    var v := AnalysisOf(m, config, req);
    ReadingMeaning(m, config, req, req.primary);
    UnmeasuredIsNeither(m, config, req, req.primary);
    forall i | 0 <= i < |req.guardrails|
      ensures v.guardrails[i].pass <==> Established(m, config, req, GuardLevel(req, req.guardrails[i]))
      ensures v.guardrails[i].inferior <==> Breached(m, config, req, GuardLevel(req, req.guardrails[i]))
    {
      ReadingMeaning(m, config, req, GuardLevel(req, req.guardrails[i]));
    }
    assert v.primary == MetricOf(m, config, req, req.primary);
    assert |v.guardrails| == |req.guardrails|;
    assert forall g :: g in req.guardrails <==> exists i :: 0 <= i < |req.guardrails| && req.guardrails[i] == g;
  }

  /** A guardrail of the verdict is inferior exactly when a guardrail of the request is breached. */
  lemma InferiorGuardrails(m: Math, config: Range, req: Request)
    requires Lawful(m)
    ensures (exists r :: r in AnalysisOf(m, config, req).guardrails && r.inferior) <==>
            exists g :: g in req.guardrails && Breached(m, config, req, GuardLevel(req, g))
  {
    hide MetricOf, Breached, Established;
    var rs := AnalysisOf(m, config, req).guardrails;
    forall i | 0 <= i < |req.guardrails|
      ensures rs[i].inferior <==> Breached(m, config, req, GuardLevel(req, req.guardrails[i]))
    {
      ReadingMeaning(m, config, req, GuardLevel(req, req.guardrails[i]));
    }
    assert |rs| == |req.guardrails|;
    if r :| r in rs && r.inferior {
      var i :| 0 <= i < |rs| && rs[i] == r;
      assert req.guardrails[i] in req.guardrails;
    }
    if g :| g in req.guardrails && Breached(m, config, req, GuardLevel(req, g)) {
      var i :| 0 <= i < |req.guardrails| && req.guardrails[i] == g;
      assert rs[i] in rs;
    }
  }

  lemma UnmeasuredIsNeither(m: Math, config: Range, req: Request, metric: Metric)
    requires Lawful(m)
    ensures Unmeasured(req, metric) ==> !Established(m, config, req, metric) && !Breached(m, config, req, metric)
  {
  }

  /** With no value of the primary metric under one of the arms, an empty guardrail list and nothing counted as missing,
      the analyzer promotes: no comparison was made. */
  lemma UnmeasuredPrimaryPromotes(m: Math, config: Range, req: Request)
    requires Lawful(m) && ValidRequest(req) && Unmeasured(req, req.primary)
    requires req.guardrails == [] && req.missing.attempted == 0
    ensures AnalysisOf(m, config, req).outcome == Promote
    ensures !AnalysisOf(m, config, req).primary.pass
  {
  }

  lemma UnmeasuredRequestExists() returns (req: Request)
    ensures ValidRequest(req) && Unmeasured(req, req.primary)
    ensures req.guardrails == [] && req.missing.attempted == 0
  {
    var primary := Metric("task-completion", SequentialTest, -0.02, 0.0, 0.05, Higher);
    var o := Observation("s1", map["latency" := 1.0], map[]);
    req := Request(primary, [], [o], Counts(0, 0, 0, 0, 0), Policy(0.0, 0.0), Unpaired);
    var arm := CandidateArm(req.observations);
    assert |arm| == 1 && arm[0] == map[] && arm[..0] == [];
    assert ArmScores(arm[..0], "task-completion") == [];
  }
}
