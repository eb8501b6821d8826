/** What it takes for a live or shadow stage to promote or to roll back, through the controller's step and the in-process
    analyzer. */
module LivePromotion {
  import opened Basics
  import opened Missingness
  import opened Analysis
  import opened Traffic
  import opened Routing
  import opened Rollout
  import opened RolloutDecisions
  import opened Sequential
  import Gate = SequentialGate

  /** The request a step hands its analyzer. A live stage's arms saw different inputs; a shadow stage's the same ones. */
  function RequestOf(stage: Stage, observations: seq<Observation>, missing: Counts): Request {
    Request(stage.primary, stage.guardrails, observations, missing, Policy(0.0, 0.0),
            if stage.mode == Live then Unpaired else Paired)
  }

  /** The verdict of the step came from the in-process analyzer on the step's own observations. */
  ghost predicate InProcess(m: Math, config: Range, stage: Stage, pass: Pass)
    requires Lawful(m)
  {
    pass.observations.Ok? ==>
      var req := RequestOf(stage, pass.observations.value, pass.missing);
      pass.verdict == if ValidRequest(req) then Ok(Gate.AnalysisOf(m, config, req)) else Err
  }

  /** The stage was watched long enough, and not past its budget. */
  predicate InWindow(stage: Stage, elapsed: int) {
    && (stage.maxDuration.Some? ==> elapsed <= stage.maxDuration.value)
    && (stage.minObservationWindow.Some? ==> elapsed >= stage.minObservationWindow.value)
  }

  ghost predicate EvidenceSuffices(m: Math, config: Range, req: Request)
    requires Lawful(m)
  {
    && ValidRequest(req)
    && Gate.SampleTrusted(req)
    && (forall g :: g in req.guardrails ==> Gate.Cleared(m, config, req, Gate.GuardLevel(req, g)))
    && (Gate.Cleared(m, config, req, req.primary) || Gate.Unmeasured(req, req.primary))
  }

  /** Exactly when a step promotes. The last disjunct of the evidence is the one case without evidence: a primary
      metric that no observation carries for one of the arms. */
  lemma StepPromotesExactlyWhen(m: Math, config: Range, spec: Spec, stage: Stage, routes: map<Place, Route>, p: Place,
                                pass: Pass, startedAt: int)
    requires Lawful(m) && InProcess(m, config, stage, pass)
    ensures var r := Advance(spec, stage, routes, p, pass, startedAt);
            (r.Ok? && r.value.outcome == PromoteStage) <==>
            && p in routes && pass.splitReadable && Readable(routes[p])
            && InWindow(stage, pass.now - startedAt)
            && !pass.activity.Unavailable?
            && !(pass.activity.Finding? && pass.activity.violated && spec.rollback.Fires(WriteDivergence))
            && pass.observations.Ok?
            && EvidenceSuffices(m, config, RequestOf(stage, pass.observations.value, pass.missing))
  {
    hide Gate.MetricOf, Gate.Cleared, Gate.Unmeasured, CheckOf;
    if pass.observations.Ok? {
      Gate.DecisionMeaning(m, config, RequestOf(stage, pass.observations.value, pass.missing));
    }
  }

  /** With at least one value of the primary metric under each arm, a step that promotes has its whole primary
      interval on the acceptable side of the margin, every guardrail established, and the sample trusted. */
  lemma MeasuredPromotionIsEarned(m: Math, config: Range, spec: Spec, stage: Stage, routes: map<Place, Route>, p: Place,
                                  pass: Pass, startedAt: int)
    requires Lawful(m) && InProcess(m, config, stage, pass)
    requires pass.observations.Ok?
    requires var req := RequestOf(stage, pass.observations.value, pass.missing);
             !Gate.Unmeasured(req, req.primary)
    requires var r := Advance(spec, stage, routes, p, pass, startedAt); r.Ok? && r.value.outcome == PromoteStage
    ensures var req := RequestOf(stage, pass.observations.value, pass.missing);
            && InWindow(stage, pass.now - startedAt)
            && Gate.SampleTrusted(req)
            && Gate.Cleared(m, config, req, req.primary)
            && forall g :: g in req.guardrails ==> Gate.Cleared(m, config, req, Gate.GuardLevel(req, g))
  {
    StepPromotesExactlyWhen(m, config, spec, stage, routes, p, pass, startedAt);
  }

  // ---- Rolling back ----

  /** The evidence calls for a rollback on this trigger. */
  ghost predicate EvidenceCondemns(m: Math, config: Range, req: Request, trigger: Trigger)
    requires Lawful(m)
  {
    match trigger
    case GuardrailViolation =>
      && ValidRequest(req) && Gate.SampleTrusted(req)
      && exists g :: g in req.guardrails && Gate.Breached(m, config, req, Gate.GuardLevel(req, g))
    case GateFail =>
      && ValidRequest(req) && Gate.SampleTrusted(req) && Gate.Breached(m, config, req, req.primary)
      && forall g :: g in req.guardrails ==> !Gate.Breached(m, config, req, Gate.GuardLevel(req, g))
    case AnalyzerUnavailable => !ValidRequest(req)
    case _ => false
  }

  /** Exactly when the evidence rolls a step back, and on what trigger: within its budget and with no divergence that fires,
      on observations of which the interval of a guardrail, or that of the primary and of no guardrail, lies wholly on the
      wrong side, or which make no valid request. */
  lemma EvidenceRollsBackExactlyWhen(m: Math, config: Range, spec: Spec, stage: Stage, routes: map<Place, Route>, p: Place,
                                     pass: Pass, startedAt: int, trigger: Trigger)
    requires Lawful(m) && InProcess(m, config, stage, pass)
    requires trigger != BudgetBreach && trigger != WriteDivergence
    ensures var r := Advance(spec, stage, routes, p, pass, startedAt);
            (r.Ok? && r.value.outcome == RollBack(trigger)) <==>
            && p in routes && pass.splitReadable && Readable(routes[p])
            && Asks(spec, stage, pass, pass.now - startedAt) && Automatic(spec, trigger)
            && EvidenceCondemns(m, config, RequestOf(stage, pass.observations.value, pass.missing), trigger)
  {
    hide Advance, Gate.MetricOf, Gate.Established, Gate.Breached, Gate.Unmeasured, Gate.AnalysisOf, ValidRequest, CheckOf;
    RollsBackExactlyWhen(spec, stage, routes, p, pass, startedAt, trigger);
    if pass.observations.Ok? {
      var req := RequestOf(stage, pass.observations.value, pass.missing);
      Gate.DecisionMeaning(m, config, req);
      Gate.InferiorGuardrails(m, config, req);
    }
  }

  // ---- Whole runs ----

  /** Every attempt that works on a live or shadow stage is answered by the in-process analyzer. */
  ghost predicate AllInProcess(m: Math, config: Range, spec: Spec, w: World, attempts: seq<Attempt>)
    requires Lawful(m)
  {
    forall n: nat, k: nat ::
      n < |attempts| && k < |spec.stages| && spec.stages[k].mode != OfflineReplay
      && NextStage(spec, Current(spec, AfterAll(spec, w, attempts[..n]).status).stages) == Some(k) ==>
        InProcess(m, config, spec.stages[k], attempts[n].pass)
  }

  ghost predicate Earned(m: Math, config: Range, stage: Stage, pass: Pass, e: StageStatus)
    requires Lawful(m)
  {
    if stage.mode == OfflineReplay then pass.offline == Ok(Promote)
    else
      && e.startedAt.Some? && InWindow(stage, pass.now - e.startedAt.value)
      && pass.observations.Ok? && EvidenceSuffices(m, config, RequestOf(stage, pass.observations.value, pass.missing))
  }

  /** In every run, each promoted stage was promoted by an attempt whose evidence sufficed: the evaluation's word offline,
      and live the intervals of its own observations, inside the stage's window. */
  lemma EveryPromotionWasEarned(m: Math, config: Range, spec: Spec, w: World, attempts: seq<Attempt>, e: StageStatus)
    requires Lawful(m) && AllInProcess(m, config, spec, w, attempts)
    requires w.status.observedGeneration != spec.generation
    requires e in Current(spec, AfterAll(spec, w, attempts).status).stages && e.phase == Phase.Promoted
    ensures exists n, k: nat ::
              && 0 <= n < |attempts| && k < |spec.stages| && spec.stages[k].name == e.name
              && e.finishedAt == Some(attempts[n].pass.now) && Earned(m, config, spec.stages[k], attempts[n].pass, e)
  {
    hide AfterAll, Advance, EvidenceSuffices, NextStage, Admitted, InProcess;
    EveryPromotionWasDecided(spec, w, attempts, e);
    var n, k: nat :| 0 <= n < |attempts| && Decides(spec, AfterAll(spec, w, attempts[..n]), attempts[n], k, e);
    var before, stage, pass := AfterAll(spec, w, attempts[..n]), spec.stages[k], attempts[n].pass;
    if stage.mode != OfflineReplay {
      StepPromotesExactlyWhen(m, config, spec, stage, before.routes, PlaceOf(stage, pass), pass, e.startedAt.value);
    }
    assert Earned(m, config, stage, pass, e);
  }
}
