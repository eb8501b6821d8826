/** What each decision of a stage rests on: when a step rolls back and for what, what every completed pass leaves
    behind, and why each promoted stage of a run was promoted. */
module RolloutDecisions {
  import opened Basics
  import opened Missingness
  import opened Analysis
  import opened Traffic
  import opened Routing
  import opened Rollout
  import opened RolloutSafety

  // ---- One step ----

  predicate OverBudget(stage: Stage, elapsed: int) { stage.maxDuration.Some? && elapsed > stage.maxDuration.value }

  /** Rollback is automatic, for this trigger or for all. */
  predicate Automatic(spec: Spec, trigger: Trigger) {
    spec.rollback.auto && (spec.rollback.triggers == [] || trigger in spec.rollback.triggers)
  }

  predicate Diverged(spec: Spec, pass: Pass) {
    pass.activity.Finding? && pass.activity.violated && Automatic(spec, WriteDivergence)
  }

  /** The step gets as far as asking its analyzer. */
  predicate Asks(spec: Spec, stage: Stage, pass: Pass, elapsed: int) {
    && !OverBudget(stage, elapsed) && !pass.activity.Unavailable? && !Diverged(spec, pass)
    && pass.observations.Ok? && pass.observations.value != []
  }

  /** What calls for a rollback, in the order in which it is looked for. */
  ghost predicate CallsForRollback(spec: Spec, stage: Stage, pass: Pass, elapsed: int, trigger: Trigger) {
    match trigger
    case BudgetBreach => OverBudget(stage, elapsed)
    case WriteDivergence => !OverBudget(stage, elapsed) && Diverged(spec, pass)
    case AnalyzerUnavailable => Asks(spec, stage, pass, elapsed) && pass.verdict.Err? && Automatic(spec, AnalyzerUnavailable)
    case GuardrailViolation =>
      && Asks(spec, stage, pass, elapsed) && pass.verdict.Ok? && pass.verdict.value.outcome == WaveOff
      && (exists g :: g in pass.verdict.value.guardrails && g.inferior) && Automatic(spec, GuardrailViolation)
    case GateFail =>
      && Asks(spec, stage, pass, elapsed) && pass.verdict.Ok? && pass.verdict.value.outcome == WaveOff
      && (forall g :: g in pass.verdict.value.guardrails ==> !g.inferior) && Automatic(spec, GateFail)
  }

  /** Exactly when a step rolls back, and for what. */
  lemma RollsBackExactlyWhen(spec: Spec, stage: Stage, routes: map<Place, Route>, p: Place, pass: Pass, startedAt: int,
                             trigger: Trigger)
    ensures var r := Advance(spec, stage, routes, p, pass, startedAt);
            (r.Ok? && r.value.outcome == RollBack(trigger)) <==>
            && p in routes && pass.splitReadable && Readable(routes[p])
            && CallsForRollback(spec, stage, pass, pass.now - startedAt, trigger)
  {
    if pass.verdict.Ok? {
      TriggerMeaning(pass.verdict.value);
    }
    hide WaveOffTrigger;
  }

  lemma TriggerMeaning(v: Verdict)
    ensures WaveOffTrigger(v) == if exists g :: g in v.guardrails && g.inferior then GuardrailViolation else GateFail
  {
    if g :| g in v.guardrails && g.inferior {
      var i :| 0 <= i < |v.guardrails| && v.guardrails[i] == g;
    }
  }

  /** What happens otherwise: the step fails exactly when something it needs cannot be read, promotes exactly on a verdict to
      promote that is not too early, and in all else goes on, reporting the share the route carries. */
  lemma StepMeaning(spec: Spec, stage: Stage, routes: map<Place, Route>, p: Place, pass: Pass, startedAt: int)
    ensures var r, elapsed := Advance(spec, stage, routes, p, pass, startedAt), pass.now - startedAt;
            && (r.Err? <==>
                  || p !in routes || !pass.splitReadable || !Readable(routes[p])
                  || (!OverBudget(stage, elapsed) && (pass.activity.Unavailable? || (!Diverged(spec, pass) && pass.observations.Err?)))
                  || (Asks(spec, stage, pass, elapsed) && pass.verdict.Err? && !Automatic(spec, AnalyzerUnavailable)))
            && (r.Ok? ==> r.value.weight == ViewOf(routes[p], p.target).split.candidate)
            && (r.Ok? && r.value.outcome == PromoteStage <==>
                  && p in routes && pass.splitReadable && Readable(routes[p])
                  && Asks(spec, stage, pass, elapsed) && pass.verdict.Ok? && pass.verdict.value.outcome == Promote
                  && (stage.minObservationWindow.Some? ==> elapsed >= stage.minObservationWindow.value))
  {
    hide WaveOffTrigger;
    if p in routes && Readable(routes[p]) {
      ReadIsViewed(routes[p], p.target);
    }
  }

  lemma ReadIsViewed(route: Route, t: Target)
    requires Readable(route)
    ensures ReadSplit(route, t) == Ok(ViewOf(route, t).split)
  {
  }

  // ---- A stage that replays offline ----

  /** What a completed pass over an offline stage leaves: the outcome of the evaluation, recorded as such. Only an outcome
      to promote adds a promoted entry, and only after the last stage is the rollout promoted; a wave-off ends it waved
      off; an inconclusive outcome or none at all holds it. No route moves. */
  lemma OfflinePassEnds(spec: Spec, m: Machine, k: nat, pass: Pass)
    requires Ready(spec, m, k) && spec.stages[k].mode == OfflineReplay && pass.manifestsFound
    ensures var (m', c) := Reconcile(spec, m, pass);
            var before, after := Current(spec, m.status).stages, m'.status.stages;
            c.Finished? ==>
              && m'.routes == m.routes && m'.status.observedGeneration == spec.generation
              && (pass.offline == Ok(Promote) ==>
                    && m'.status.phase == (if k == |spec.stages| - 1 then Phase.Promoted else Running)
                    && PassedStages(after) == k + 1 && |after| == k + 1
                    && after[k].name == spec.stages[k].name && after[k].phase == Phase.Promoted)
              && (pass.offline == Ok(WaveOff) ==>
                    && m'.status.phase == WavedOff && PassedStages(after) == k && |after| == k + 1
                    && after[k].name == spec.stages[k].name && after[k].phase == WavedOff && !after[k].rolledBack)
              && (pass.offline == Ok(Inconclusive) ==>
                    && m'.status.phase == Held && PassedStages(after) == k && |after| == k + 1
                    && after[k].name == spec.stages[k].name && after[k].phase == Held)
              && (pass.offline.Err? ==> m'.status.phase == Held && after == before)
  {
    hide Ready, RecordStage, NextStage, PassedStages;
    OfflineUnstarted(spec, m, k);
    if pass.offline.Ok? {
      OfflineEntry(spec, m, k, pass.now, PhaseOf(pass.offline.value));
    }
  }

  lemma OfflineEntry(spec: Spec, m: Machine, k: nat, now: int, phase: Phase)
    requires Ready(spec, m, k) && spec.stages[k].mode == OfflineReplay
    ensures var stages, s := Current(spec, m.status).stages,
                             StageStatus(spec.stages[k].name, phase, Some(now), Some(now), 0, false, None);
            && RecordStage(stages, s) == stages + [s]
            && PassedStages(stages + [s]) == if phase == Phase.Promoted then k + 1 else k
  {
    hide Ready, RecordStage, Current;
    OfflineUnstarted(spec, m, k);
    RecordAppends(Current(spec, m.status).stages, StageStatus(spec.stages[k].name, phase, Some(now), Some(now), 0, false, None));
  }

  /** An offline stage is never left half done: nothing is recorded for it before its outcome is. */
  lemma OfflineUnstarted(spec: Spec, m: Machine, k: nat)
    requires Ready(spec, m, k) && spec.stages[k].mode == OfflineReplay
    ensures var st := Current(spec, m.status);
            && !Terminal(st.phase) && |st.stages| == k < |spec.stages| && NextStage(spec, st.stages) == Some(k)
            && forall i :: 0 <= i < k ==> st.stages[i].name != spec.stages[k].name
  {
    hide NextStage, AllAuthorised, RoutesMatch, Current;
    NextIsAfterPassed(spec, Current(spec, m.status).stages);
  }

  // ---- A stage that moves traffic ----

  function PlaceOf(stage: Stage, pass: Pass): (p: Place)
    requires Admitted(stage, pass)
    ensures stage.traffic == Some(p)
  {
    stage.traffic.value
  }

  /** Stage k moves traffic, is the one to work on, and the pass gets as far as working on it. */
  ghost predicate Working(spec: Spec, m: Machine, k: nat, pass: Pass) {
    Ready(spec, m, k) && spec.stages[k].mode != OfflineReplay && pass.manifestsFound && Admitted(spec.stages[k], pass)
  }

  function StartOf(spec: Spec, m: Machine, k: nat): Option<int>
    requires k < |spec.stages|
  {
    StageStatusOf(Current(spec, m.status).stages, spec.stages[k].name).startedAt
  }

  /** The traffic sources are there, the router is one that is known, and a live stage has a sequential primary metric and
      sessions that stay on one arm. */
  predicate MayTouchTraffic(stage: Stage, pass: Pass) {
    && pass.manifestsFound && pass.sourcesFound
    && stage.traffic.Some? && stage.traffic.value.router in {GatewayApi, IstioMesh}
    && (stage.mode == Live ==> stage.primary.test == SequentialTest && pass.sticky)
  }

  lemma AdmittedExactly(stage: Stage, pass: Pass)
    ensures pass.manifestsFound && Admitted(stage, pass) <==> MayTouchTraffic(stage, pass)
  {
  }

  /** A pass that may not touch traffic moves no route and records nothing: it holds the rollout. */
  lemma OtherwiseHeld(spec: Spec, m: Machine, k: nat, pass: Pass)
    requires Ready(spec, m, k) && spec.stages[k].mode != OfflineReplay && !MayTouchTraffic(spec.stages[k], pass)
    ensures var (m', c) := Reconcile(spec, m, pass);
            && m'.routes == m.routes && Current(spec, m'.status).stages == Current(spec, m.status).stages
            && (c.Finished? ==> m'.status.phase == Held)
  {
    hide NextStage, AllAuthorised, RoutesMatch, Admitted, MayTouchTraffic;
    AdmittedExactly(spec.stages[k], pass);
    NextIsAfterPassed(spec, Current(spec, m.status).stages);
  }

  lemma EnterCarries(spec: Spec, m: Machine, k: nat, p: Place)
    requires k < |spec.stages| && spec.stages[k].mode != OfflineReplay && spec.stages[k].traffic == Some(p)
    requires AllAuthorised(spec, k, m.routes) && Enter(m, spec.stages[k], p).1 == Okay
    ensures var stage := spec.stages[k];
            Carries(Enter(m, stage, p).0.routes, p,
                    if stage.mode == Live then View(Split(100 - stage.weight, stage.weight), 0)
                    else View(Split(100, 0), if stage.mirrorPercent == 0 then 100 else stage.mirrorPercent))
  {
    hide PutSplit, PutMirror, ViewOf;
    var stage := spec.stages[k];
    EnterKeeps(spec, m, k, p);
    if stage.mode == Shadow {
      PutSplitKeeps(spec, m, k, p, FULLY_INCUMBENT);
      PutMirrorKeeps(spec, PutSplit(m, p, FULLY_INCUMBENT).0, k, p, MirrorShare(stage));
    } else {
      PutMirrorKeeps(spec, m, k, p, 0);
      PutSplitKeeps(spec, PutMirror(m, p, 0).0, k, p, Split(100 - stage.weight, stage.weight));
    }
  }

  /** A completed pass over a stage that has not begun leaves its route carrying what the stage asks for and the stage running
      from now, or the rollout held with nothing recorded. */
  lemma BeginningEnds(spec: Spec, m: Machine, k: nat, pass: Pass)
    requires Working(spec, m, k, pass) && StartOf(spec, m, k).None?
    ensures var (m', c), stage := Reconcile(spec, m, pass), spec.stages[k];
            c.Finished? ==>
              || (m'.status.phase == Held && m'.status.stages == Current(spec, m.status).stages)
              || (&& m'.status.phase == Running && |m'.status.stages| == k + 1
                  && m'.status.stages[k] == StageStatus(stage.name, Running, Some(pass.now), None, 0, false, None)
                  && Carries(m'.routes, stage.traffic.value,
                             if stage.mode == Live then View(Split(100 - stage.weight, stage.weight), 0)
                             else View(Split(100, 0), if stage.mirrorPercent == 0 then 100 else stage.mirrorPercent)))
  {
    hide Advance, Enter, Withdraw, RecordStage, StageStatusOf, NextStage, AllAuthorised, RoutesMatch, Admitted, ViewOf;
    var st, stage, p := Current(spec, m.status), spec.stages[k], PlaceOf(spec.stages[k], pass);
    NextIsAfterPassed(spec, st.stages);
    RecordCurrent(spec, st.stages, StageStatus(stage.name, Running, Some(pass.now), None, 0, false, None));
    MovesKeepStatus(m, stage, p);
    if Enter(m, stage, p).1 == Okay {
      EnterCarries(spec, m, k, p);
    }
  }

  /** A completed pass over a stage whose evidence, budget or writes call for a rollback leaves it rolled back on that
      trigger, finished now, with its route the incumbent's alone; or, if the route cannot be read or withdrawn, the rollout
      held with nothing recorded. */
  lemma RollbackEnds(spec: Spec, m: Machine, k: nat, pass: Pass, trigger: Trigger)
    requires Working(spec, m, k, pass) && StartOf(spec, m, k).Some?
    requires CallsForRollback(spec, spec.stages[k], pass, pass.now - StartOf(spec, m, k).value, trigger)
    ensures var (m', c) := Reconcile(spec, m, pass);
            c.Finished? ==>
              || (m'.status.phase == Held && m'.status.stages == Current(spec, m.status).stages)
              || (&& m'.status.phase == WavedOff && RolledBack(spec, m'.status, k) && |m'.status.stages| == k + 1
                  && m'.status.stages[k].phase == WavedOff && m'.status.stages[k].trigger == Some(trigger)
                  && m'.status.stages[k].finishedAt == Some(pass.now)
                  && Carries(m'.routes, spec.stages[k].traffic.value, View(Split(100, 0), 0)))
  {
    hide Advance, Withdraw, RecordStage, StageStatusOf, NextStage, AllAuthorised, RoutesMatch, Admitted, CallsForRollback;
    var st, stage, p := Current(spec, m.status), spec.stages[k], PlaceOf(spec.stages[k], pass);
    var entry, startedAt := StageStatusOf(st.stages, stage.name), StartOf(spec, m, k).value;
    NextIsAfterPassed(spec, st.stages);
    RollsBackExactlyWhen(spec, stage, m.routes, p, pass, startedAt, trigger);
    UnreadableFails(spec, stage, m.routes, p, pass, startedAt);
    RecordCurrent(spec, st.stages, entry.(name := stage.name));
    WithdrawKeeps(spec, m, k, p);
    var advanced := Advance(spec, stage, m.routes, p, pass, startedAt);
    if advanced.Ok? {
      RecordCurrent(spec, st.stages, entry.(weight := advanced.value.weight, phase := WavedOff, rolledBack := true,
                                            trigger := Some(trigger), finishedAt := Some(pass.now)));
    }
  }

  lemma UnreadableFails(spec: Spec, stage: Stage, routes: map<Place, Route>, p: Place, pass: Pass, startedAt: int)
    ensures Advance(spec, stage, routes, p, pass, startedAt).Ok? ==> p in routes && pass.splitReadable && Readable(routes[p])
  {
  }

  /** The stage worked on has the last entry, and what is recorded of it replaces that entry. */
  lemma WorkedOn(spec: Spec, m: Machine, k: nat, pass: Pass, weight: int)
    requires Working(spec, m, k, pass) && StartOf(spec, m, k).Some?
    ensures var st, stage := Current(spec, m.status), spec.stages[k];
            var seen := StageStatusOf(st.stages, stage.name).(weight := weight);
            var passed := seen.(phase := Phase.Promoted, finishedAt := Some(pass.now));
            && !Terminal(st.phase) && NextStage(spec, st.stages) == Some(k) && seen.phase == Running
            && |RecordStage(st.stages, seen)| == |RecordStage(st.stages, passed)| == k + 1
            && RecordStage(st.stages, seen)[k] == seen && RecordStage(st.stages, passed)[k] == passed
  {
    hide RecordStage, StageStatusOf, NextStage, AllAuthorised, RoutesMatch, Admitted;
    var st, stage := Current(spec, m.status), spec.stages[k];
    var seen := StageStatusOf(st.stages, stage.name).(weight := weight);
    NextIsAfterPassed(spec, st.stages);
    RecordCurrent(spec, st.stages, seen.(name := stage.name));
    RecordCurrent(spec, st.stages, seen);
    RecordCurrent(spec, st.stages, seen.(phase := Phase.Promoted, finishedAt := Some(pass.now)));
  }

  /** A completed pass whose step promotes the stage records that, from when it began and as of now, and moves no route; only
      after the last stage is the rollout promoted. A step that goes on records the share the route carries and no more; one
      that fails holds the rollout. */
  lemma OtherwiseEnds(spec: Spec, m: Machine, k: nat, pass: Pass)
    requires Working(spec, m, k, pass) && StartOf(spec, m, k).Some?
    ensures var (m', c), stage, entry := Reconcile(spec, m, pass), spec.stages[k],
                                         StageStatusOf(Current(spec, m.status).stages, spec.stages[k].name);
            var r := Advance(spec, stage, m.routes, stage.traffic.value, pass, StartOf(spec, m, k).value);
            c.Finished? ==>
              && (r.Err? ==> m' == m.(status := m'.status, replies := m'.replies) && m'.status.phase == Held
                             && m'.status.stages == Current(spec, m.status).stages)
              && (r.Ok? && !r.value.outcome.RollBack? ==>
                    && m'.routes == m.routes && |m'.status.stages| == k + 1
                    && m'.status.stages[k].startedAt == entry.startedAt && m'.status.stages[k].weight == r.value.weight
                    && m'.status.stages[k].phase == (if r.value.outcome == PromoteStage then Phase.Promoted else Running)
                    && (r.value.outcome == PromoteStage ==> m'.status.stages[k].finishedAt == Some(pass.now))
                    && m'.status.phase == (if r.value.outcome == PromoteStage && k == |spec.stages| - 1 then Phase.Promoted
                                           else Running))
  {
    hide Advance, Enter, Withdraw, RecordStage, StageStatusOf, NextStage, AllAuthorised, RoutesMatch, Admitted, RunOffline;
    hide SafeMachine, PassedStages;
    var stage, p := spec.stages[k], PlaceOf(spec.stages[k], pass);
    var advanced := Advance(spec, stage, m.routes, p, pass, StartOf(spec, m, k).value);
    WorkedOn(spec, m, k, pass, if advanced.Ok? then advanced.value.weight else 0);
  }

  // ---- Why a stage of a run was promoted ----

  /** The attempt works on stage k, its evidence promotes the stage, and the entry is what it would record. */
  ghost predicate Decides(spec: Spec, w: World, a: Attempt, k: nat, e: StageStatus) {
    var stages := Current(spec, w.status).stages;
    && a.pass.manifestsFound && k < |spec.stages| && NextStage(spec, stages) == Some(k)
    && var stage := spec.stages[k];
       && e.name == stage.name && e.finishedAt == Some(a.pass.now)
       && if stage.mode == OfflineReplay then a.pass.offline == Ok(Promote)
          else
            var entry := StageStatusOf(stages, stage.name);
            && Admitted(stage, a.pass) && entry.startedAt.Some? && e.startedAt == entry.startedAt
            && var r := Advance(spec, stage, w.routes, stage.traffic.value, a.pass, entry.startedAt.value);
               r.Ok? && r.value.outcome == PromoteStage && e.weight == r.value.weight
  }

  ghost predicate Decided(spec: Spec, w: World, attempts: seq<Attempt>, e: StageStatus) {
    exists n, k: nat :: 0 <= n < |attempts| && Decides(spec, AfterAll(spec, w, attempts[..n]), attempts[n], k, e)
  }

  lemma {:induction false} RecordMembers(stages: seq<StageStatus>, s: StageStatus, e: StageStatus)
    ensures e in RecordStage(stages, s) ==> e in stages || e == s
  {
    if stages != [] {
      RecordMembers(stages[1..], s, e);
    }
  }

  lemma {:induction false} EntryOrFresh(stages: seq<StageStatus>, name: string)
    ensures var s := StageStatusOf(stages, name); s.name == name && (s in stages || s.phase == Unset)
  {
    if stages != [] {
      EntryOrFresh(stages[1..], name);
    }
  }

  lemma {:induction false} NextIsNotPromoted(spec: Spec, stages: seq<StageStatus>, i: nat, k: nat)
    requires i <= |spec.stages| && NextStageFrom(spec, stages, i) == Some(k)
    ensures !PromotedName(stages, spec.stages[k].name)
    decreases |spec.stages| - i
  {
    if PromotedName(stages, spec.stages[i].name) {
      NextIsNotPromoted(spec, stages, i + 1, k);
    }
  }

  lemma SaveWrites(spec: Spec, m: Machine, st: Status, phase: Phase, requeue: Requeue)
    requires st.observedGeneration == spec.generation
    ensures var stages := Current(spec, Save(m, st, phase, requeue).0.status).stages;
            stages == Current(spec, m.status).stages || stages == st.stages
  {
  }

  lemma LiveDecides(spec: Spec, w: World, a: Attempt, k: nat, e: StageStatus)
    requires k < |spec.stages| && spec.stages[k].mode != OfflineReplay && a.pass.manifestsFound
    requires NextStage(spec, Current(spec, w.status).stages) == Some(k)
    requires var m := Machine(w.routes, w.status, a.replies);
             e in Current(spec, AdvanceLive(spec, m, Current(spec, w.status), k, a.pass).0.status).stages
    requires e.phase == Phase.Promoted
    ensures e in Current(spec, w.status).stages || Decides(spec, w, a, k, e)
  {
    hide Save, Enter, Withdraw, Advance, RecordStage, StageStatusOf, NextStage, Current;
    var m, st, stage := Machine(w.routes, w.status, a.replies), Current(spec, w.status), spec.stages[k];
    assert st.observedGeneration == spec.generation by { CurrentGeneration(spec, w.status); }
    forall m1: Machine, stages, phase, requeue | m1.status == w.status
      ensures var after := Current(spec, Save(m1, st.(stages := stages), phase, requeue).0.status).stages;
              after == st.stages || after == stages
    {
      SaveWrites(spec, m1, st.(stages := stages), phase, requeue);
    }
    if Admitted(stage, a.pass) {
      MovesKeepStatus(m, stage, stage.traffic.value);
      var entry := StageStatusOf(st.stages, stage.name);
      EntryOrFresh(st.stages, stage.name);
      NotPromotedEntry(spec, st.stages, k);
      forall s
        ensures e in RecordStage(st.stages, s) ==> e in st.stages || e == s
      {
        RecordMembers(st.stages, s, e);
      }
    }
  }

  lemma CurrentGeneration(spec: Spec, st: Status)
    ensures Current(spec, st).observedGeneration == spec.generation
  {
  }

  lemma NotPromotedEntry(spec: Spec, stages: seq<StageStatus>, k: nat)
    requires k < |spec.stages| && NextStage(spec, stages) == Some(k)
    ensures StageStatusOf(stages, spec.stages[k].name).phase != Phase.Promoted
  {
    hide StageStatusOf;
    NextIsNotPromoted(spec, stages, 0, k);
    EntryOrFresh(stages, spec.stages[k].name);
  }

  lemma OfflineDecides(spec: Spec, w: World, a: Attempt, k: nat, e: StageStatus)
    requires k < |spec.stages| && spec.stages[k].mode == OfflineReplay && a.pass.manifestsFound
    requires NextStage(spec, Current(spec, w.status).stages) == Some(k)
    requires var m := Machine(w.routes, w.status, a.replies);
             e in Current(spec, RunOffline(spec, m, Current(spec, w.status), k, a.pass).0.status).stages
    requires e.phase == Phase.Promoted
    ensures e in Current(spec, w.status).stages || Decides(spec, w, a, k, e)
  {
    hide Save, RecordStage, NextStage, StageStatusOf, Current;
    var m, st := Machine(w.routes, w.status, a.replies), Current(spec, w.status);
    CurrentGeneration(spec, w.status);
    var m1 := Save(m, st, Running, Never).0;
    SaveWrites(spec, m, st, Running, Never);
    SaveWrites(spec, m1, st, Held, Never);
    if a.pass.offline.Ok? {
      var phase := PhaseOf(a.pass.offline.value);
      var s := StageStatus(spec.stages[k].name, phase, Some(a.pass.now), Some(a.pass.now), 0, false, None);
      RecordMembers(st.stages, s, e);
      SaveWrites(spec, m1, st.(stages := RecordStage(st.stages, s)), Running, Immediately);
      SaveWrites(spec, m1, st.(stages := RecordStage(st.stages, s)), phase, Never);
    }
  }

  lemma AttemptDecides(spec: Spec, w: World, a: Attempt, e: StageStatus)
    requires e in Current(spec, Leaves(spec, w, a).status).stages && e.phase == Phase.Promoted
    ensures e in Current(spec, w.status).stages || exists k: nat :: Decides(spec, w, a, k, e)
  {
    hide AdvanceLive, RunOffline, Save, NextStage, Decides;
    var m, st := Machine(w.routes, w.status, a.replies), Current(spec, w.status);
    SaveWrites(spec, m, st, Held, Never);
    SaveWrites(spec, m, st, Phase.Promoted, Never);
    var next := NextStage(spec, st.stages);
    if a.pass.manifestsFound && next.Some? && !(Terminal(w.status.phase) && w.status.observedGeneration == spec.generation) {
      if spec.stages[next.value].mode == OfflineReplay {
        OfflineDecides(spec, w, a, next.value, e);
      } else {
        LiveDecides(spec, w, a, next.value, e);
      }
    }
  }

  lemma DecidedLater(spec: Spec, w: World, front: seq<Attempt>, a: Attempt, e: StageStatus)
    ensures Decided(spec, w, front, e) ==> Decided(spec, w, front + [a], e)
    ensures (exists k: nat :: Decides(spec, AfterAll(spec, w, front), a, k, e)) ==> Decided(spec, w, front + [a], e)
  {
    hide Decides, AfterAll;
    var all := front + [a];
    if n, k: nat :| 0 <= n < |front| && Decides(spec, AfterAll(spec, w, front[..n]), front[n], k, e) {
      assert all[..n] == front[..n] && all[n] == front[n];
    }
    assert all[..|front|] == front && all[|front|] == a;
  }

  /** In every run, whatever its stages are called, each promoted entry was decided by an attempt that worked on a stage of
      that name: offline, one whose evaluation said to promote; live, one whose step promoted the stage. */
  lemma {:induction false} EveryPromotionWasDecided(spec: Spec, w: World, attempts: seq<Attempt>, e: StageStatus)
    requires w.status.observedGeneration != spec.generation
    requires e in Current(spec, AfterAll(spec, w, attempts).status).stages && e.phase == Phase.Promoted
    ensures Decided(spec, w, attempts, e)
  {
    hide Leaves, Decides, Decided;
    if attempts != [] {
      var front, a := attempts[..|attempts| - 1], attempts[|attempts| - 1];
      assert attempts == front + [a];
      var before := AfterAll(spec, w, front);
      AttemptDecides(spec, before, a, e);
      DecidedLater(spec, w, front, a, e);
      if e in Current(spec, before.status).stages {
        EveryPromotionWasDecided(spec, w, front, e);
      }
    }
  }

  // ---- Passes that work on no stage ----

  /** A pass over a rollout that is over changes nothing. Otherwise one whose manifests are missing holds the rollout, and one that
      finds every stage's name promoted completes it; neither touches a route or an entry. */
  lemma OtherPasses(spec: Spec, m: Machine, pass: Pass)
    ensures var (m', c), over := Reconcile(spec, m, pass),
                                 Terminal(m.status.phase) && m.status.observedGeneration == spec.generation;
            var stages := Current(spec, m.status).stages;
            var done := forall k :: 0 <= k < |spec.stages| ==> PromotedName(stages, spec.stages[k].name);
            && (over ==> m' == m && c == Finished(Never))
            && (!over && (!pass.manifestsFound || done) ==>
                  && m'.routes == m.routes && Current(spec, m'.status).stages == stages
                  && (c.Finished? ==> m'.status.phase == if pass.manifestsFound then Phase.Promoted else Held))
  {
    hide PromotedName, AdvanceLive, RunOffline;
    var stages := Current(spec, m.status).stages;
    var next := NextStage(spec, stages);
    if next.Some? {
      NextIsNotPromoted(spec, stages, 0, next.value);
    }
  }

  // ---- When the next pass comes ----

  lemma {:induction false} RecordedPromoted(stages: seq<StageStatus>, s: StageStatus)
    requires !PromotedName(stages, s.name)
    ensures PromotedName(RecordStage(stages, s), s.name) <==> s.phase == Phase.Promoted
  {
    var after := RecordStage(stages, s);
    if stages == [] || stages[0].name == s.name {
      assert after[0] == s;
      forall i | 0 < i < |after|
        ensures !(after[i].phase == Phase.Promoted && after[i].name == s.name)
      {
        assert after[i] == stages[i];
      }
    } else {
      forall i | 0 <= i < |stages| - 1
        ensures !(stages[1..][i].phase == Phase.Promoted && stages[1..][i].name == s.name)
      {
        assert stages[1..][i] == stages[i + 1];
      }
      var rest := RecordStage(stages[1..], s);
      RecordedPromoted(stages[1..], s);
      assert forall i :: 0 < i < |after| ==> after[i] == rest[i - 1];
      assert forall i :: 0 <= i < |rest| ==> after[i + 1] == rest[i];
      assert after[0] == stages[0];
    }
  }

  lemma NotAtOnce(spec: Spec, stage: Stage, routes: map<Place, Route>, p: Place, pass: Pass, startedAt: int)
    ensures var r := Advance(spec, stage, routes, p, pass, startedAt); r.Ok? ==> r.value.requeue != Immediately
  {
  }

  lemma WorkedOnPromoted(spec: Spec, stages: seq<StageStatus>, k: nat, s: StageStatus)
    requires k < |spec.stages| && NextStage(spec, stages) == Some(k) && s.name == spec.stages[k].name
    ensures !PromotedName(stages, s.name)
    ensures PromotedName(RecordStage(stages, s), s.name) <==> s.phase == Phase.Promoted
  {
    NextIsNotPromoted(spec, stages, 0, k);
    RecordedPromoted(stages, s);
  }

  lemma LiveFollowedUp(spec: Spec, m: Machine, k: nat, pass: Pass)
    requires k < |spec.stages| && NextStage(spec, Current(spec, m.status).stages) == Some(k)
    ensures var st := Current(spec, m.status);
            var (m', c) := AdvanceLive(spec, m, st, k, pass);
            c.Finished? ==>
              && (Terminal(m'.status.phase) ==> c.requeue == Never)
              && (!Terminal(m'.status.phase) ==>
                    (c.requeue == Immediately <==> PromotedName(Current(spec, m'.status).stages, spec.stages[k].name)))
  {
    hide Advance, Enter, Withdraw, NextStage, RecordStage, StageStatusOf, PromotedName;
    var st, stage := Current(spec, m.status), spec.stages[k];
    var entry := StageStatusOf(st.stages, stage.name);
    EntryOrFresh(st.stages, stage.name);
    NotPromotedEntry(spec, st.stages, k);
    WorkedOnPromoted(spec, st.stages, k, StageStatus(stage.name, Running, Some(pass.now), None, 0, false, None));
    if stage.traffic.Some? && entry.startedAt.Some? {
      var advanced := Advance(spec, stage, m.routes, stage.traffic.value, pass, entry.startedAt.value);
      NotAtOnce(spec, stage, m.routes, stage.traffic.value, pass, entry.startedAt.value);
      if advanced.Ok? {
        var seen := entry.(weight := advanced.value.weight);
        WorkedOnPromoted(spec, st.stages, k, seen);
        WorkedOnPromoted(spec, st.stages, k, seen.(phase := Phase.Promoted, finishedAt := Some(pass.now)));
      }
    }
  }

  lemma OfflineFollowedUp(spec: Spec, m: Machine, k: nat, pass: Pass)
    requires k < |spec.stages| && NextStage(spec, Current(spec, m.status).stages) == Some(k)
    ensures var st := Current(spec, m.status);
            var (m', c) := RunOffline(spec, m, st, k, pass);
            c.Finished? ==>
              && (Terminal(m'.status.phase) ==> c.requeue == Never)
              && (!Terminal(m'.status.phase) ==>
                    (c.requeue == Immediately <==> PromotedName(Current(spec, m'.status).stages, spec.stages[k].name)))
  {
    hide RecordStage, NextStage, PromotedName;
    if pass.offline.Ok? {
      var s := StageStatus(spec.stages[k].name, PhaseOf(pass.offline.value), Some(pass.now), Some(pass.now), 0, false, None);
      WorkedOnPromoted(spec, Current(spec, m.status).stages, k, s);
    }
  }

  /** A pass that completes is followed by another at once exactly when it leaves the rollout unfinished with the stage it worked
      on promoted, and by none when it ends the rollout. */
  lemma FollowedUp(spec: Spec, m: Machine, pass: Pass)
    ensures var (m', c) := Reconcile(spec, m, pass);
            var next := NextStage(spec, Current(spec, m.status).stages);
            c.Finished? ==>
              && (Terminal(m'.status.phase) ==> c.requeue == Never)
              && (!Terminal(m'.status.phase) ==>
                    (c.requeue == Immediately <==>
                     next.Some? && PromotedName(Current(spec, m'.status).stages, spec.stages[next.value].name)))
  {
    hide AdvanceLive, RunOffline, NextStage, PromotedName;
    var next := NextStage(spec, Current(spec, m.status).stages);
    if pass.manifestsFound && next.Some? {
      LiveFollowedUp(spec, m, next.value, pass);
      OfflineFollowedUp(spec, m, next.value, pass);
    }
  }
}
