/** What one reconcile can do to the routes, and what the routes therefore carry in every run. */
module RolloutRoutes {
  import opened Basics
  import opened Analysis
  import opened Traffic
  import opened Routing
  import opened Rollout
  import opened RolloutSafety

  // ---- One attempt ----

  /** The attempt gets as far as working on stage k, a stage that moves traffic. */
  ghost predicate WorksOn(spec: Spec, w: World, a: Attempt, k: nat) {
    && !(Terminal(w.status.phase) && w.status.observedGeneration == spec.generation)
    && a.pass.manifestsFound
    && k < |spec.stages| && NextStage(spec, Current(spec, w.status).stages) == Some(k)
    && spec.stages[k].mode != OfflineReplay && Admitted(spec.stages[k], a.pass)
  }

  ghost predicate Started(spec: Spec, w: World, k: nat)
    requires k < |spec.stages|
  {
    StageStatusOf(Current(spec, w.status).stages, spec.stages[k].name).startedAt.Some?
  }

  /** The attempt puts the traffic configuration of stage k in place, or tries to. */
  ghost predicate EntersAt(spec: Spec, w: World, a: Attempt, k: nat) {
    WorksOn(spec, w, a, k) && !Started(spec, w, k)
  }

  /** Routes change only by entering the next stage, or by withdrawing it once it has started. */
  lemma WhatMoves(spec: Spec, w: World, a: Attempt)
    ensures var m, w' := Machine(w.routes, w.status, a.replies), Leaves(spec, w, a);
            || w'.routes == w.routes
            || (var next := NextStage(spec, Current(spec, w.status).stages);
                && next.Some? && WorksOn(spec, w, a, next.value)
                && var stage := spec.stages[next.value];
                   w'.routes == if Started(spec, w, next.value) then Withdraw(m, stage.traffic.value).0.routes
                                else Enter(m, stage, stage.traffic.value).0.routes)
  {
    hide Enter, Withdraw, Advance, RecordStage, NextStage, StageStatusOf, Admitted;
  }

  function StageSplit(s: Stage): Split { if s.mode == Live then Split(100 - s.weight, s.weight) else FULLY_INCUMBENT }

  function StageMirror(s: Stage): int { if s.mode == Live then 0 else MirrorShare(s) }

  /** The route at p, seen before and after: each part is as it was, or as asked for. */
  ghost predicate Between(before: map<Place, Route>, after: map<Place, Route>, p: Place, split: Split, mirror: int) {
    p in before && p in after && Readable(before[p]) && Readable(after[p]) ==>
      var v, v' := ViewOf(before[p], p.target), ViewOf(after[p], p.target);
      (v'.split == v.split || v'.split == split) && (v'.mirror == v.mirror || v'.mirror == mirror)
  }

  lemma EnterMoves(spec: Spec, m: Machine, k: nat, p: Place)
    requires k < |spec.stages| && spec.stages[k].mode != OfflineReplay && spec.stages[k].traffic == Some(p)
    requires AllAuthorised(spec, k, m.routes)
    ensures var m' := Enter(m, spec.stages[k], p).0;
            OnlyAt(p, m.routes, m'.routes)
            && Between(m.routes, m'.routes, p, StageSplit(spec.stages[k]), StageMirror(spec.stages[k]))
  {
    hide PutSplit, PutMirror, ViewOf;
    var stage := spec.stages[k];
    if stage.mode == Shadow {
      PutSplitKeeps(spec, m, k, p, FULLY_INCUMBENT);
      PutMirrorKeeps(spec, PutSplit(m, p, FULLY_INCUMBENT).0, k, p, MirrorShare(stage));
    } else {
      PutMirrorKeeps(spec, m, k, p, 0);
      PutSplitKeeps(spec, PutMirror(m, p, 0).0, k, p, Split(100 - stage.weight, stage.weight));
    }
  }

  lemma WithdrawMoves(spec: Spec, m: Machine, k: nat, p: Place)
    requires AllAuthorised(spec, k, m.routes)
    ensures var m' := Withdraw(m, p).0;
            OnlyAt(p, m.routes, m'.routes) && Between(m.routes, m'.routes, p, FULLY_INCUMBENT, 0)
  {
    hide PutSplit, PutMirror, ViewOf;
    PutSplitKeeps(spec, m, k, p, FULLY_INCUMBENT);
    PutMirrorKeeps(spec, PutSplit(m, p, FULLY_INCUMBENT).0, k, p, 0);
  }

  /** What one attempt does to one route: nothing, or part of entering or withdrawing the stage it works on. */
  lemma RouteMoves(spec: Spec, w: World, a: Attempt, p: Place)
    requires DistinctNames(spec) && Safe(spec, Current(spec, w.status), w.routes) && p in w.routes
    ensures var w', k := Leaves(spec, w, a), PassedStages(Current(spec, w.status).stages);
            && p in w'.routes
            && (w'.routes[p] == w.routes[p]
                || (&& WorksOn(spec, w, a, k) && spec.stages[k].traffic == Some(p)
                    && Between(w.routes, w'.routes, p,
                               if Started(spec, w, k) then FULLY_INCUMBENT else StageSplit(spec.stages[k]),
                               if Started(spec, w, k) then 0 else StageMirror(spec.stages[k]))))
  {
    hide Leaves, Enter, Withdraw, Between, AllAuthorised, StageStatusOf;
    var m, st := Machine(w.routes, w.status, a.replies), Current(spec, w.status);
    WhatMoves(spec, w, a);
    NextIsAfterPassed(spec, st.stages);
    var k := PassedStages(st.stages);
    if Leaves(spec, w, a).routes != w.routes {
      var q := spec.stages[k].traffic.value;
      EnterMoves(spec, m, k, q);
      WithdrawMoves(spec, m, k, q);
    }
  }

  // ---- What a stage needs to begin, to pass, and to be rolled back ----

  /** Some route can carry what the stage asks for, and the controller lets it. */
  predicate CanBegin(s: Stage) {
    && s.mode != OfflineReplay && s.traffic.Some? && s.traffic.value.router != UnknownRouter
    && (s.mode == Live ==> s.primary.test == SequentialTest && 0 <= s.weight <= 100)
    && (s.mode == Shadow ==> 0 <= MirrorShare(s) <= 100)
  }

  /** Its observation window can end before its budget does. */
  predicate CanPass(s: Stage) {
    s.maxDuration.Some? && s.minObservationWindow.Some? ==> s.minObservationWindow.value <= s.maxDuration.value
  }

  /** It has a budget to breach, or some finding that rolls it back. */
  predicate CanRollBack(spec: Spec, s: Stage) {
    || s.maxDuration.Some? || spec.rollback.Fires(WriteDivergence) || spec.rollback.Fires(AnalyzerUnavailable)
    || spec.rollback.Fires(GateFail) || spec.rollback.Fires(GuardrailViolation)
  }

  lemma EnteredCanBegin(m: Machine, stage: Stage, p: Place, pass: Pass)
    requires Admitted(stage, pass) && stage.traffic == Some(p) && stage.mode != OfflineReplay
    requires Enter(m, stage, p).1 == Okay
    ensures CanBegin(stage)
  {
  }

  lemma OutcomesAllowed(spec: Spec, stage: Stage, routes: map<Place, Route>, p: Place, pass: Pass, startedAt: int)
    requires Advance(spec, stage, routes, p, pass, startedAt).Ok?
    ensures var o := Advance(spec, stage, routes, p, pass, startedAt).value.outcome;
            (o == PromoteStage ==> CanPass(stage)) && (o.RollBack? ==> CanRollBack(spec, stage))
  {
  }

  /** The stages a pass leaves are those it found, or those with one entry of stage k recorded; a promoted entry is
      recorded without touching the routes. */
  ghost predicate Recorded(spec: Spec, m: Machine, m': Machine, k: nat)
    requires k < |spec.stages|
  {
    Current(spec, m'.status).stages == Current(spec, m.status).stages || exists s: StageStatus :: RecordedAs(spec, m, m', k, s)
  }

  ghost predicate RecordedAs(spec: Spec, m: Machine, m': Machine, k: nat, s: StageStatus)
    requires k < |spec.stages|
  {
    var before := Current(spec, m.status).stages;
    && s.name == spec.stages[k].name && Current(spec, m'.status).stages == RecordStage(before, s)
    && (s.phase == Promoted ==> m'.routes == m.routes)
    && Earned(spec, before, k, s)
  }

  /** What must be true of the spec for the entry to be recorded. */
  ghost predicate Earned(spec: Spec, before: seq<StageStatus>, k: nat, s: StageStatus)
    requires k < |spec.stages|
  {
    var stage, started := spec.stages[k], StageStatusOf(before, s.name).startedAt.Some?;
    && (stage.mode != OfflineReplay && !started ==> CanBegin(stage) && s.phase == Running)
    && (stage.mode != OfflineReplay && s.phase == Promoted ==> CanPass(stage))
    && (s.rolledBack ==> stage.mode != OfflineReplay && CanRollBack(spec, stage) && s.phase == WavedOff)
  }

  lemma SaveRecords(spec: Spec, m: Machine, m1: Machine, k: nat, s: StageStatus, phase: Phase, requeue: Requeue)
    requires k < |spec.stages| && s.name == spec.stages[k].name
    requires Current(spec, m1.status).stages == Current(spec, m.status).stages
    requires s.phase == Promoted ==> m1.routes == m.routes
    requires Earned(spec, Current(spec, m.status).stages, k, s)
    ensures var st := Current(spec, m.status);
            Recorded(spec, m, Save(m1, st.(stages := RecordStage(st.stages, s)), phase, requeue).0, k)
  {
    hide RecordStage, Earned;
    var st := Current(spec, m.status);
    var m' := Save(m1, st.(stages := RecordStage(st.stages, s)), phase, requeue).0;
    assert Current(spec, m'.status).stages == st.stages || RecordedAs(spec, m, m', k, s);
  }

  lemma HoldRecords(spec: Spec, m: Machine, m1: Machine, st: Status, k: nat)
    requires k < |spec.stages| && st.stages == Current(spec, m.status).stages && st.observedGeneration == spec.generation
    requires Current(spec, m1.status).stages == Current(spec, m.status).stages
    ensures Recorded(spec, m, Hold(m1, st).0, k) && Recorded(spec, m, m1, k)
  {
    hide RecordStage, Earned;
  }

  lemma LiveRecords(spec: Spec, m: Machine, k: nat, pass: Pass)
    requires k < |spec.stages| && spec.stages[k].mode != OfflineReplay
    requires var entry := StageStatusOf(Current(spec, m.status).stages, spec.stages[k].name);
             entry.startedAt.Some? ==> !entry.rolledBack && entry.phase == Running
    ensures Recorded(spec, m, AdvanceLive(spec, m, Current(spec, m.status), k, pass).0, k)
  {
    hide Save, Hold, Enter, Withdraw, Advance, RecordStage, StageStatusOf, Recorded, CanBegin, CanPass, CanRollBack;
    var st, stage := Current(spec, m.status), spec.stages[k];
    HoldRecords(spec, m, m, st, k);
    if !Admitted(stage, pass) {
      return;
    }
    var p, entry := stage.traffic.value, StageStatusOf(st.stages, stage.name);
    StatusOfHasName(st.stages, stage.name);
    MovesKeepStatus(m, stage, p);
    if entry.startedAt.None? {
      var m1 := Enter(m, stage, p).0;
      HoldRecords(spec, m, m1, st, k);
      if Enter(m, stage, p).1 != Okay {
        return;
      }
      EnteredCanBegin(m, stage, p, pass);
      SaveRecords(spec, m, m1, k, StageStatus(stage.name, Running, Some(pass.now), None, 0, false, None), Running, After(POLL_INTERVAL));
      return;
    }
    var advanced := Advance(spec, stage, m.routes, p, pass, entry.startedAt.value);
    if advanced.Ok? {
      OutcomesAllowed(spec, stage, m.routes, p, pass, entry.startedAt.value);
      var seen := entry.(weight := advanced.value.weight);
      match advanced.value.outcome
      case RollBack(trigger) =>
        var m1 := Withdraw(m, p).0;
        HoldRecords(spec, m, m1, st, k);
        SaveRecords(spec, m, m1, k, seen.(phase := WavedOff, rolledBack := true, trigger := Some(trigger),
                                          finishedAt := Some(pass.now)), WavedOff, Never);
      case PromoteStage =>
        var passed := seen.(phase := Promoted, finishedAt := Some(pass.now));
        SaveRecords(spec, m, m, k, passed, Promoted, Never);
        SaveRecords(spec, m, m, k, passed, Running, Immediately);
      case Continue =>
        SaveRecords(spec, m, m, k, seen, Running, advanced.value.requeue);
    }
  }

  lemma OfflineRecords(spec: Spec, m: Machine, k: nat, pass: Pass)
    requires k < |spec.stages| && spec.stages[k].mode == OfflineReplay
    ensures Recorded(spec, m, RunOffline(spec, m, Current(spec, m.status), k, pass).0, k)
  {
    hide Save, RecordStage, StageStatusOf, Recorded;
    var st := Current(spec, m.status);
    var m1 := Save(m, st, Running, Never).0;
    SaveSame(spec, m, k);
    if pass.offline.Ok? {
      var phase := PhaseOf(pass.offline.value);
      var s := StageStatus(spec.stages[k].name, phase, Some(pass.now), Some(pass.now), 0, false, None);
      SaveRecords(spec, m, m1, k, s, Running, Immediately);
      SaveRecords(spec, m, m1, k, s, phase, Never);
    } else {
      HoldRecords(spec, m, m1, st, k);
    }
  }

  lemma SaveSame(spec: Spec, m: Machine, k: nat)
    requires k < |spec.stages|
    ensures var m1 := Save(m, Current(spec, m.status), Running, Never).0;
            Recorded(spec, m, m1, k) && m1.routes == m.routes
            && Current(spec, m1.status).stages == Current(spec, m.status).stages
  {
    hide RecordStage, Earned;
  }

  /** Every attempt records at most one entry, for the stage after those that passed. */
  lemma AttemptRecords(spec: Spec, w: World, a: Attempt)
    requires DistinctNames(spec) && Safe(spec, Current(spec, w.status), w.routes)
    ensures var m, st := Machine(w.routes, w.status, a.replies), Current(spec, w.status);
            var m', k := Reconcile(spec, m, a.pass).0, PassedStages(st.stages);
            if k < |spec.stages| && !Terminal(st.phase) then Recorded(spec, m, m', k)
            else Current(spec, m'.status).stages == st.stages && m'.routes == m.routes
  {
    hide AdvanceLive, RunOffline, RecordStage, NextStage, StageStatusOf, AllAuthorised, RoutesMatch, Recorded;
    var m, st := Machine(w.routes, w.status, a.replies), Current(spec, w.status);
    var k := PassedStages(st.stages);
    NextIsAfterPassed(spec, st.stages);
    if k < |spec.stages| && !Terminal(st.phase) {
      RecordCurrent(spec, st.stages, StageStatus(spec.stages[k].name, Running, None, None, 0, false, None));
      HoldRecords(spec, m, m, st, k);
      if spec.stages[k].mode == OfflineReplay {
        OfflineRecords(spec, m, k, a.pass);
      } else {
        LiveRecords(spec, m, k, a.pass);
      }
    }
  }

  /** One more stage passes only through a status write that leaves the routes alone. */
  lemma WhatPasses(spec: Spec, w: World, a: Attempt)
    requires DistinctNames(spec) && Safe(spec, Current(spec, w.status), w.routes)
    ensures var st, w' := Current(spec, w.status), Leaves(spec, w, a);
            var k, k' := PassedStages(st.stages), PassedStages(Current(spec, w'.status).stages);
            && (k' == k || k' == k + 1)
            && (k' == k + 1 ==>
                  && k < |spec.stages| && w'.routes == w.routes
                  && (spec.stages[k].mode == OfflineReplay || (k < |st.stages| && st.stages[k].phase == Running)))
  {
    hide Reconcile, RecordStage, StageStatusOf, AllAuthorised, RoutesMatch, CanBegin, CanPass, CanRollBack;
    var m, st := Machine(w.routes, w.status, a.replies), Current(spec, w.status);
    var k, m' := PassedStages(st.stages), Reconcile(spec, m, a.pass).0;
    AttemptRecords(spec, w, a);
    var after := Current(spec, m'.status).stages;
    if after != st.stages {
      var s: StageStatus :| RecordedAs(spec, m, m', k, s);
      RecordCurrent(spec, st.stages, s);
    }
  }

  // ---- Who may have sent traffic to the candidate ----

  /** Some attempt of the run entered stage i. */
  ghost predicate Entered(spec: Spec, w: World, attempts: seq<Attempt>, i: nat) {
    exists n :: 0 <= n < |attempts| && EntersAt(spec, AfterAll(spec, w, attempts[..n]), attempts[n], i)
  }

  lemma EnteredLater(spec: Spec, w: World, front: seq<Attempt>, a: Attempt, i: nat)
    ensures Entered(spec, w, front, i) ==> Entered(spec, w, front + [a], i)
    ensures EntersAt(spec, AfterAll(spec, w, front), a, i) ==> Entered(spec, w, front + [a], i)
  {
    hide EntersAt, AfterAll;
    var all := front + [a];
    if Entered(spec, w, front, i) {
      var n :| 0 <= n < |front| && EntersAt(spec, AfterAll(spec, w, front[..n]), front[n], i);
      assert all[..n] == front[..n] && all[n] == front[n];
    }
    assert all[..|front|] == front;
  }

  /** The candidate's share and copies at p are those of a stage the run entered. */
  ghost predicate FromEntry(spec: Spec, w: World, attempts: seq<Attempt>, p: Place, view: View) {
    && (view.split.candidate > 0 ==>
          exists i: nat :: Entered(spec, w, attempts, i) && SendsLive(spec, i, p, view.split.candidate))
    && (view.mirror > 0 ==> exists i: nat :: Entered(spec, w, attempts, i) && CopiesTo(spec, i, p, view.mirror))
  }

  lemma {:induction false} TrafficWasEntered(spec: Spec, w: World, attempts: seq<Attempt>, p: Place)
    requires DistinctNames(spec) && Fresh(spec, w) && p in w.routes
    ensures p in AfterAll(spec, w, attempts).routes && Readable(AfterAll(spec, w, attempts).routes[p])
    ensures FromEntry(spec, w, attempts, p, ViewOf(AfterAll(spec, w, attempts).routes[p], p.target))
  {
    hide Leaves, Safe, ViewOf, EntersAt, Entered;
    if attempts != [] {
      var front, a := attempts[..|attempts| - 1], attempts[|attempts| - 1];
      assert attempts == front + [a];
      TrafficWasEntered(spec, w, front, p);
      RunsAreSafe(spec, w, front);
      RunsAreSafe(spec, w, attempts);
      StepFromEntry(spec, w, front, a, p);
    }
  }

  lemma StepFromEntry(spec: Spec, w: World, front: seq<Attempt>, a: Attempt, p: Place)
    requires var before := AfterAll(spec, w, front);
             && DistinctNames(spec) && Safe(spec, Current(spec, before.status), before.routes)
             && p in before.routes && Readable(before.routes[p])
             && FromEntry(spec, w, front, p, ViewOf(before.routes[p], p.target))
    requires var after := AfterAll(spec, w, front + [a]);
             Safe(spec, Current(spec, after.status), after.routes)
    ensures var after := AfterAll(spec, w, front + [a]);
            p in after.routes && Readable(after.routes[p])
            && FromEntry(spec, w, front + [a], p, ViewOf(after.routes[p], p.target))
  {
    hide Leaves, NextStage, Admitted, StageStatusOf, ViewOf, Entered, Shape, RoutesMatch, Started;
    assert (front + [a])[..|front|] == front;
    var before, after := AfterAll(spec, w, front), AfterAll(spec, w, front + [a]);
    assert after == Leaves(spec, before, a);
    RouteMoves(spec, before, a, p);
    assert Authorised(spec, PassedStages(Current(spec, after.status).stages), p, after.routes[p]);
    var k := PassedStages(Current(spec, before.status).stages);
    forall i: nat
      ensures Entered(spec, w, front, i) ==> Entered(spec, w, front + [a], i)
      ensures EntersAt(spec, before, a, i) ==> Entered(spec, w, front + [a], i)
    {
      EnteredLater(spec, w, front, a, i);
    }
    var v, v' := ViewOf(before.routes[p], p.target), ViewOf(after.routes[p], p.target);
    if v'.split != v.split && v'.split.candidate > 0 {
      assert EntersAt(spec, before, a, k) && SendsLive(spec, k, p, v'.split.candidate);
      assert Entered(spec, w, front + [a], k);
    }
    if v'.mirror != v.mirror && v'.mirror > 0 {
      assert EntersAt(spec, before, a, k) && CopiesTo(spec, k, p, v'.mirror);
      assert Entered(spec, w, front + [a], k);
    }
  }

  /** In every run, whatever share of traffic or copies reaches the candidate belongs to a stage that the run entered, all
      of whose predecessors are persisted as promoted, and the two arms' shares add up to 100. */
  lemma CandidateTrafficIsEarned(spec: Spec, w: World, attempts: seq<Attempt>, p: Place)
    requires DistinctNames(spec) && Fresh(spec, w) && p in w.routes
    ensures var w' := AfterAll(spec, w, attempts);
            && p in w'.routes && Readable(w'.routes[p])
            && var stages, view := Current(spec, w'.status).stages, ViewOf(w'.routes[p], p.target);
            && view.split.incumbent + view.split.candidate == 100 && view.split.candidate >= 0
            && (view.split.candidate > 0 ==>
                  exists i: nat :: Entered(spec, w, attempts, i) && SendsLive(spec, i, p, view.split.candidate)
                                   && PromotedBefore(spec, stages, i))
            && (view.mirror > 0 ==>
                  exists i: nat :: Entered(spec, w, attempts, i) && CopiesTo(spec, i, p, view.mirror)
                                   && PromotedBefore(spec, stages, i))
  {
    hide AfterAll, Entered, Shape, RoutesMatch, ViewOf;
    TrafficWasEntered(spec, w, attempts, p);
    RunsAreSafe(spec, w, attempts);
    var w' := AfterAll(spec, w, attempts);
    assert Authorised(spec, PassedStages(Current(spec, w'.status).stages), p, w'.routes[p]);
    forall i: nat | Entered(spec, w, attempts, i)
      ensures PromotedBefore(spec, Current(spec, w'.status).stages, i)
    {
      EnteredAfterPromotions(spec, w, attempts, i);
    }
  }

  /** Every stage before i has its own promoted entry. */
  ghost predicate PromotedBefore(spec: Spec, stages: seq<StageStatus>, i: nat) {
    && i <= |stages| && i <= |spec.stages|
    && forall j :: 0 <= j < i ==> stages[j].name == spec.stages[j].name && stages[j].phase == Promoted
  }

  lemma WorksAfterPassed(spec: Spec, w: World, a: Attempt, i: nat)
    requires DistinctNames(spec) && Shape(spec, Current(spec, w.status)) && WorksOn(spec, w, a, i)
    ensures i == PassedStages(Current(spec, w.status).stages)
  {
    hide NextStage;
    NextIsAfterPassed(spec, Current(spec, w.status).stages);
  }

  lemma KeptPromotions(spec: Spec, earlier: seq<StageStatus>, st: Status)
    requires Keeps(earlier, st.stages) && Shape(spec, st)
    ensures PromotedBefore(spec, st.stages, PassedStages(earlier))
  {
  }

  lemma EnteredAfterPromotions(spec: Spec, w: World, attempts: seq<Attempt>, i: nat)
    requires DistinctNames(spec) && Fresh(spec, w) && Entered(spec, w, attempts, i)
    ensures PromotedBefore(spec, Current(spec, AfterAll(spec, w, attempts).status).stages, i)
  {
    hide AfterAll, AllAuthorised, RoutesMatch, Fresh, Current, Shape, WorksOn, Keeps, PromotedBefore;
    var n :| 0 <= n < |attempts| && EntersAt(spec, AfterAll(spec, w, attempts[..n]), attempts[n], i);
    RunsAreSafe(spec, w, attempts[..n]);
    RunsAreSafe(spec, w, attempts);
    var before, after := AfterAll(spec, w, attempts[..n]), AfterAll(spec, w, attempts);
    WorksAfterPassed(spec, before, attempts[n], i);
    assert attempts == attempts[..n] + attempts[n..];
    PromotionsPersist(spec, w, attempts[..n], attempts[n..]);
    KeptPromotions(spec, Current(spec, before.status).stages, Current(spec, after.status));
  }
}
