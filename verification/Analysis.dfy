/** What an analyzer is given and what it answers (`internal/analysis/analysis.go`), and the threshold test
    both analyzers share (`internal/analysis/bootstrap.go`). Scores are reals. */
module Analysis {
  import opened Basics
  import opened Missingness
  import opened Sorting

  datatype Test = Threshold | PairedBootstrap | SequentialTest

  datatype Direction = Higher | Lower

  datatype Metric = Metric(name: string, test: Test, margin: real, threshold: real, alpha: real, direction: Direction)

  datatype Design = Paired | Unpaired

  datatype Observation = Observation(item: string, incumbent: map<string, real>, candidate: map<string, real>)

  datatype Request = Request(primary: Metric, guardrails: seq<Metric>, observations: seq<Observation>,
                             missing: Counts, missingPolicy: Policy, design: Design)

  /** A confidence interval; `Unbounded` reaches infinity on both sides. */
  datatype Interval = Unbounded | Bounded(lower: real, upper: real)

  datatype MetricResult = MetricResult(name: string, test: Test, pass: bool, inferior: bool, indeterminate: bool,
                                       interval: Interval, n: nat, alpha: real)

  datatype Outcome = Promote | WaveOff | Inconclusive

  datatype Verdict = Verdict(outcome: Outcome, primary: MetricResult, guardrails: seq<MetricResult>, missing: Counts,
                             missingCheck: Check)

  // ---- Request validation ----

  ghost predicate DistinctItems(obs: seq<Observation>) {
    forall i, j :: 0 <= i < j < |obs| ==> obs[i].item != obs[j].item
  }

  ghost predicate ValidRequest(r: Request) {
    && r.primary.name != ""
    && r.observations != []
    && (r.design == Unpaired ||
        (&& DistinctItems(r.observations)
         && 0.0 <= r.primary.alpha < 1.0
         && forall g :: g in r.guardrails ==> g.name != ""))
  }

  method Validate(r: Request) returns (ok: bool)
    ensures ok <==> ValidRequest(r)
  {
    if r.primary.name == "" {
      return false;
    }
    if r.observations == [] {
      return false;
    }
    if r.design == Unpaired {
      return true;
    }
    var seen: set<string> := {};
    for i := 0 to |r.observations|
      invariant seen == set k | 0 <= k < i :: r.observations[k].item
      invariant DistinctItems(r.observations[..i])
    {
      var o := r.observations[i];
      if o.item in seen {
        var k :| 0 <= k < i && r.observations[k].item == o.item;
        assert r.observations[i].item == o.item;
        return false;
      }
      seen := seen + {o.item};
    }
    assert r.observations[..|r.observations|] == r.observations;
    if r.primary.alpha < 0.0 || r.primary.alpha >= 1.0 {
      return false;
    }
    for i := 0 to |r.guardrails|
      invariant forall k :: 0 <= k < i ==> r.guardrails[k].name != ""
    {
      if r.guardrails[i].name == "" {
        return false;
      }
    }
    return true;
  }

  // ---- Extracting one metric ----

  function ArmScores(arm: seq<map<string, real>>, metric: string): seq<real> {
    if arm == [] then []
    else
      var last := arm[|arm| - 1];
      ArmScores(arm[..|arm| - 1], metric) + (if metric in last then [last[metric]] else [])
  }

  function IncumbentArm(obs: seq<Observation>): seq<map<string, real>> {
    seq(|obs|, i requires 0 <= i < |obs| => obs[i].incumbent)
  }

  function CandidateArm(obs: seq<Observation>): seq<map<string, real>> {
    seq(|obs|, i requires 0 <= i < |obs| => obs[i].candidate)
  }

  /** The observations both arms measured. */
  function Measured(obs: seq<Observation>, metric: string): (r: seq<Observation>)
    ensures forall o :: o in r ==> metric in o.incumbent && metric in o.candidate
  {
    if obs == [] then []
    else
      var last := obs[|obs| - 1];
      Measured(obs[..|obs| - 1], metric) + (if metric in last.incumbent && metric in last.candidate then [last] else [])
  }

  function BothCarry(metric: string): Observation -> bool { (o: Observation) => metric in o.incumbent && metric in o.candidate }

  function HasScore(metric: string): map<string, real> -> bool { (scores: map<string, real>) => metric in scores }

  /** None of the observations both arms measured is left out, and they keep their order. */
  lemma {:induction false} MeasuredMeaning(obs: seq<Observation>, metric: string)
    ensures Measured(obs, metric) == Filter(obs, BothCarry(metric))
  {
    if obs != [] {
      var front, last := obs[..|obs| - 1], obs[|obs| - 1];
      MeasuredMeaning(front, metric);
      FilterAppend(front, last, BothCarry(metric));
      assert obs == front + [last];
    }
  }

  /** One arm's scores are those of the observations that carry the metric, in order. */
  lemma {:induction false} ArmScoresMeaning(arm: seq<map<string, real>>, metric: string)
    ensures var carrying := Filter(arm, HasScore(metric));
            && |ArmScores(arm, metric)| == |carrying|
            && forall i :: 0 <= i < |carrying| ==> metric in carrying[i] && ArmScores(arm, metric)[i] == carrying[i][metric]
  {
    if arm != [] {
      var front, last := arm[..|arm| - 1], arm[|arm| - 1];
      ArmScoresMeaning(front, metric);
      FilterAppend(front, last, HasScore(metric));
      assert arm == front + [last];
    }
  }

  method Arms(obs: seq<Observation>, metric: string) returns (incumbent: seq<real>, candidate: seq<real>)
    ensures incumbent == ArmScores(IncumbentArm(obs), metric)
    ensures candidate == ArmScores(CandidateArm(obs), metric)
  {
    incumbent, candidate := [], [];
    for i := 0 to |obs|
      invariant incumbent == ArmScores(IncumbentArm(obs[..i]), metric)
      invariant candidate == ArmScores(CandidateArm(obs[..i]), metric)
    {
      assert IncumbentArm(obs[..i + 1])[..i] == IncumbentArm(obs[..i]);
      assert CandidateArm(obs[..i + 1])[..i] == CandidateArm(obs[..i]);
      if metric in obs[i].incumbent {
        incumbent := incumbent + [obs[i].incumbent[metric]];
      }
      if metric in obs[i].candidate {
        candidate := candidate + [obs[i].candidate[metric]];
      }
    }
    assert obs[..|obs|] == obs;
  }

  /** The two lists stay aligned: position k of each comes from the same item. */
  method Values(obs: seq<Observation>, metric: string) returns (incumbent: seq<real>, candidate: seq<real>)
    ensures |incumbent| == |candidate| == |Measured(obs, metric)|
    ensures forall k :: 0 <= k < |incumbent| ==>
              incumbent[k] == Measured(obs, metric)[k].incumbent[metric]
              && candidate[k] == Measured(obs, metric)[k].candidate[metric]
  {
    incumbent, candidate := [], [];
    for i := 0 to |obs|
      invariant |incumbent| == |candidate| == |Measured(obs[..i], metric)|
      invariant forall k :: 0 <= k < |incumbent| ==>
                  incumbent[k] == Measured(obs[..i], metric)[k].incumbent[metric]
                  && candidate[k] == Measured(obs[..i], metric)[k].candidate[metric]
    {
      assert obs[..i + 1][..i] == obs[..i];
      if metric in obs[i].incumbent && metric in obs[i].candidate {
        incumbent := incumbent + [obs[i].incumbent[metric]];
        candidate := candidate + [obs[i].candidate[metric]];
      }
    }
    assert obs[..|obs|] == obs;
  }

  function Differences(incumbent: seq<real>, candidate: seq<real>): seq<real>
    requires |incumbent| == |candidate|
  {
    seq(|incumbent|, i requires 0 <= i < |incumbent| => candidate[i] - incumbent[i])
  }

  // ---- Reading a result against its margin ----

  /** Every value the interval contains is acceptable for the metric. */
  ghost predicate WhollyAcceptable(m: Metric, i: Interval) {
    i.Bounded? && (if m.direction == Lower then i.upper < m.margin else i.lower > m.margin)
  }

  ghost predicate WhollyWorse(m: Metric, i: Interval) {
    i.Bounded? && (if m.direction == Lower then i.lower > m.margin else i.upper < m.margin)
  }

  /** The three-way reading of an interval. */
  function Read(result: MetricResult, m: Metric, i: Interval): MetricResult {
    var pass := i.Bounded? && (if m.direction == Lower then i.upper < m.margin else i.lower > m.margin);
    var inferior := i.Bounded? && (if m.direction == Lower then i.lower > m.margin else i.upper < m.margin);
    result.(interval := i, pass := pass, inferior := inferior, indeterminate := !pass && !inferior)
  }

  ghost predicate WithinThreshold(m: Metric, candidate: seq<real>) {
    forall v :: v in candidate ==> if m.direction == Lower then v <= m.threshold else v >= m.threshold
  }

  function Worst(m: Metric, candidate: seq<real>): real
    requires candidate != []
  {
    if |candidate| == 1 then candidate[0]
    else
      var v, w := candidate[|candidate| - 1], Worst(m, candidate[..|candidate| - 1]);
      if (m.direction == Lower && v > w) || (m.direction != Lower && v < w) then v else w
  }

  function ThresholdResult(result: MetricResult, m: Metric, candidate: seq<real>): MetricResult
    requires candidate != []
  {
    var worst := Worst(m, candidate);
    var pass := if m.direction == Lower then worst <= m.threshold else worst >= m.threshold;
    result.(pass := pass, inferior := !pass)
  }

  lemma {:induction false} WorstBounds(m: Metric, candidate: seq<real>)
    requires candidate != []
    ensures Worst(m, candidate) in candidate
    ensures forall v :: v in candidate ==>
              if m.direction == Lower then v <= Worst(m, candidate) else v >= Worst(m, candidate)
  {
    if |candidate| > 1 {
      WorstBounds(m, candidate[..|candidate| - 1]);
      assert candidate == candidate[..|candidate| - 1] + [candidate[|candidate| - 1]];
    }
  }

  /** A threshold test passes exactly when every single observation is on the right side. */
  lemma ThresholdMeaning(result: MetricResult, m: Metric, candidate: seq<real>)
    requires candidate != []
    ensures ThresholdResult(result, m, candidate).pass <==> WithinThreshold(m, candidate)
    ensures ThresholdResult(result, m, candidate).inferior <==> !WithinThreshold(m, candidate)
  {
    WorstBounds(m, candidate);
  }

  /** The level has no part in a threshold. */
  lemma {:induction false} SameThreshold(metric: Metric, same: Metric, candidate: seq<real>)
    requires candidate != [] && same == metric.(alpha := same.alpha)
    ensures Worst(same, candidate) == Worst(metric, candidate)
  {
    if |candidate| > 1 {
      SameThreshold(metric, same, candidate[..|candidate| - 1]);
    }
  }

  method CheckThreshold(result: MetricResult, m: Metric, candidate: seq<real>) returns (r: MetricResult)
    requires candidate != []
    ensures r == ThresholdResult(result, m, candidate)
  {
    var worst := candidate[0];
    assert candidate[..1] == [candidate[0]];
    for i := 1 to |candidate|
      invariant worst == Worst(m, candidate[..i])
    {
      var v := candidate[i];
      assert candidate[..i + 1][..i] == candidate[..i];
      if m.direction == Lower && v > worst {
        worst := v;
      }
      if m.direction != Lower && v < worst {
        worst := v;
      }
    }
    assert candidate[..|candidate|] == candidate;
    var pass := if m.direction == Lower then worst <= m.threshold else worst >= m.threshold;
    r := result.(pass := pass, inferior := !pass);
  }

  /** At most one of the three readings holds whenever the interval is not inverted. */
  lemma ReadingsExclude(result: MetricResult, m: Metric, i: Interval)
    requires i.Bounded? ==> i.lower <= i.upper
    ensures var r := Read(result, m, i);
            && (r.pass <==> WhollyAcceptable(m, i))
            && (r.inferior <==> WhollyWorse(m, i))
            && !(r.pass && r.inferior)
            && (r.indeterminate <==> !r.pass && !r.inferior)
  {
  }
}
