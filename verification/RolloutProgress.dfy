/** Rollouts end: a bound on how many reconciles can complete without reaching a terminal phase, and when the next one is
    scheduled. */
module RolloutProgress {
  import opened Basics
  import opened Missingness
  import opened Analysis
  import opened Traffic
  import opened Routing
  import opened Rollout
  import opened RolloutSafety

  // ---- The budget ----

  function Max0(x: int): nat { if x < 0 then 0 else x }

  /** Every stage that runs over time has an end. */
  ghost predicate Budgeted(spec: Spec) {
    forall s :: s in spec.stages && s.mode != OfflineReplay ==> s.maxDuration.Some?
  }

  /** How many completed reconciles a stage that has not started can take. */
  function StageCost(s: Stage): nat
    requires s.mode != OfflineReplay ==> s.maxDuration.Some?
  {
    if s.mode == OfflineReplay then 1 else 2 + Max0(s.maxDuration.value) / POLL_INTERVAL
  }

  function CostFrom(spec: Spec, i: nat): nat
    requires Budgeted(spec) && i <= |spec.stages|
    decreases |spec.stages| - i
  {
    if i == |spec.stages| then 0 else StageCost(spec.stages[i]) + CostFrom(spec, i + 1)
  }

  /** What is left of the current stage: all of it, or the polls its remaining budget allows. */
  function Remaining(spec: Spec, st: Status, clock: int): nat
    requires Budgeted(spec) && Ordered(spec, st.stages) && PassedStages(st.stages) < |spec.stages|
  {
    var k := PassedStages(st.stages);
    var stage := spec.stages[k];
    if k < |st.stages| && st.stages[k].startedAt.Some? && stage.mode != OfflineReplay
    then 1 + Max0(st.stages[k].startedAt.value + stage.maxDuration.value - clock) / POLL_INTERVAL
    else StageCost(stage)
  }

  /** An upper bound on the completed reconciles still to come, counted from the last time on the clock. */
  function Rank(spec: Spec, st: Status, clock: int): nat
    requires Budgeted(spec) && Ordered(spec, st.stages)
  {
    var k := PassedStages(st.stages);
    if Terminal(st.phase) then 0
    else if k == |spec.stages| then 1
    else 1 + Remaining(spec, st, clock) + CostFrom(spec, k + 1)
  }

  // ---- One reconcile ----

  /** Past its budget a stage is withdrawn, whatever else is read: no evidence can keep it running. */
  lemma PastBudget(spec: Spec, stage: Stage, routes: map<Place, Route>, p: Place, pass: Pass, startedAt: int)
    requires stage.maxDuration.Some? && pass.now - startedAt > stage.maxDuration.value
    ensures var r := Advance(spec, stage, routes, p, pass, startedAt);
            r.Ok? ==> r.value.outcome == RollBack(BudgetBreach)
    ensures Advance(spec, stage, routes, p, pass, startedAt).Err? <==>
            p !in routes || !pass.splitReadable || !Readable(routes[p])
  {
  }

  lemma FewerPolls(left: int, clock: int, now: int)
    requires now >= clock && left - now >= 0
    ensures Max0(left - now) / POLL_INTERVAL <= Max0(left - clock) / POLL_INTERVAL
    ensures now >= clock + POLL_INTERVAL ==> Max0(left - now) / POLL_INTERVAL < Max0(left - clock) / POLL_INTERVAL
  {
  }

  lemma LaterIsNoMore(spec: Spec, st: Status, clock: int, now: int)
    requires Budgeted(spec) && Ordered(spec, st.stages) && clock <= now
    ensures Rank(spec, st, now) <= Rank(spec, st, clock)
  {
  }

  /** What the last completed pass counts as after an attempt that did not complete: its own time, or a poll interval
      before the attempt, whichever is later. */
  function Later(clock: int, now: int): int { if clock < now - POLL_INTERVAL then now - POLL_INTERVAL else clock }

  /** A stage that is already running is looked at again only after a poll interval. */
  ghost predicate Spaced(st: Status, clock: int, now: int) {
    PassedStages(st.stages) < |st.stages| ==> now >= clock + POLL_INTERVAL
  }

  /** The rank of what a pass may save: no more than before, and less when the pass was far enough from the last. */
  ghost predicate Descends(spec: Spec, st: Status, st': Status, clock: int, now: int)
    requires Budgeted(spec) && Ordered(spec, st.stages)
  {
    && Ordered(spec, st'.stages) && st'.observedGeneration == spec.generation
    && Rank(spec, st', now) <= Rank(spec, st, clock)
    && Rank(spec, st', Later(clock, now)) <= Rank(spec, st, clock)
    && (Spaced(st, clock, now) && !Terminal(st'.phase) ==> Rank(spec, st', now) < Rank(spec, st, clock))
  }

  lemma BegunDescends(spec: Spec, st: Status, k: nat, now: int, clock: int)
    requires Budgeted(spec) && DistinctNames(spec) && Shape(spec, st) && !Terminal(st.phase) && clock <= now
    requires k == PassedStages(st.stages) < |spec.stages| && spec.stages[k].mode != OfflineReplay
    requires StageStatusOf(st.stages, spec.stages[k].name).startedAt.None?
    ensures var begun := StageStatus(spec.stages[k].name, Running, Some(now), None, 0, false, None);
            Descends(spec, st, st.(stages := RecordStage(st.stages, begun), phase := Running), clock, now)
  {
    hide RecordStage, StageStatusOf;
    RecordCurrent(spec, st.stages, StageStatus(spec.stages[k].name, Running, Some(now), None, 0, false, None));
  }

  lemma RankWhileRunning(spec: Spec, st: Status, k: nat, clock: int)
    requires Budgeted(spec) && Ordered(spec, st.stages) && !Terminal(st.phase)
    requires k == PassedStages(st.stages) < |st.stages| && spec.stages[k].mode != OfflineReplay
    requires st.stages[k].startedAt.Some?
    ensures spec.stages[k].maxDuration.Some?
    ensures Rank(spec, st, clock) ==
            2 + Max0(st.stages[k].startedAt.value + spec.stages[k].maxDuration.value - clock) / POLL_INTERVAL
            + CostFrom(spec, k + 1)
  {
    hide Max0, StageCost;
    assert spec.stages[k] in spec.stages;
  }

  lemma ContinuedDescends(spec: Spec, st: Status, k: nat, seen: StageStatus, now: int, clock: int)
    requires Budgeted(spec) && DistinctNames(spec) && Shape(spec, st) && !Terminal(st.phase) && clock <= now
    requires k == PassedStages(st.stages) < |st.stages| && spec.stages[k].mode != OfflineReplay
    requires seen == st.stages[k].(weight := seen.weight)
    requires now - seen.startedAt.value <= spec.stages[k].maxDuration.value
    ensures Descends(spec, st, st.(stages := RecordStage(st.stages, seen), phase := Running), clock, now)
  {
    hide Rank, Max0, RecordStage, StageStatusOf;
    RecordCurrent(spec, st.stages, seen);
    RankWhileRunning(spec, st, k, clock);
    RankWhileRunning(spec, st.(stages := RecordStage(st.stages, seen), phase := Running), k, now);
    FewerPolls(seen.startedAt.value + spec.stages[k].maxDuration.value, clock, now);
    RankWhileRunning(spec, st.(stages := RecordStage(st.stages, seen), phase := Running), k, clock);
    LaterIsNoMore(spec, st.(stages := RecordStage(st.stages, seen), phase := Running), clock, Later(clock, now));
  }

  lemma PassedDescends(spec: Spec, st: Status, k: nat, passed: StageStatus, phase: Phase, now: int, clock: int)
    requires Budgeted(spec) && DistinctNames(spec) && Shape(spec, st) && !Terminal(st.phase) && clock <= now
    requires k == PassedStages(st.stages) < |spec.stages|
    requires passed.name == spec.stages[k].name
    requires Terminal(phase) || (passed.phase == Promoted && k < |spec.stages| - 1)
    ensures Descends(spec, st, st.(stages := RecordStage(st.stages, passed), phase := phase), clock, now)
  {
    hide RecordStage, StageStatusOf;
    RecordCurrent(spec, st.stages, passed);
  }

  /** What a machine's status becomes through a save, seen by rank. */
  ghost predicate Progresses(spec: Spec, m: Machine, result: (Machine, Conclusion), clock: int, now: int)
    requires Budgeted(spec) && Ordered(spec, Current(spec, m.status).stages)
  {
    var st, st' := Current(spec, m.status), Current(spec, result.0.status);
    && Ordered(spec, st'.stages)
    && Rank(spec, st', now) <= Rank(spec, st, clock)
    && Rank(spec, st', Later(clock, now)) <= Rank(spec, st, clock)
    && (result.1.Finished? && Spaced(st, clock, now) && !Terminal(st'.phase) ==>
          Rank(spec, st', now) < Rank(spec, st, clock))
  }

  lemma SaveProgresses(spec: Spec, m: Machine, m1: Machine, st': Status, phase: Phase, requeue: Requeue, clock: int, now: int)
    requires Budgeted(spec) && Ordered(spec, Current(spec, m.status).stages) && clock <= now
    requires Current(spec, m1.status) == Current(spec, m.status)
    requires Descends(spec, Current(spec, m.status), st'.(phase := phase), clock, now)
    ensures Progresses(spec, m, Save(m1, st', phase, requeue), clock, now)
  {
    hide Rank;
    LaterIsNoMore(spec, Current(spec, m.status), clock, now);
    LaterIsNoMore(spec, Current(spec, m.status), clock, Later(clock, now));
  }

  lemma HoldProgresses(spec: Spec, m: Machine, m1: Machine, st: Status, clock: int, now: int)
    requires Budgeted(spec) && Ordered(spec, Current(spec, m.status).stages) && clock <= now
    requires Current(spec, m1.status) == Current(spec, m.status)
    requires Ordered(spec, st.stages) && st.observedGeneration == spec.generation
    ensures Progresses(spec, m, Hold(m1, st), clock, now)
    ensures Progresses(spec, m, (m1, Died), clock, now)
  {
    LaterIsNoMore(spec, Current(spec, m.status), clock, now);
    LaterIsNoMore(spec, Current(spec, m.status), clock, Later(clock, now));
    SaveProgresses(spec, m, m1, st, Held, Never, clock, now);
  }

  lemma AdvanceLiveProgresses(spec: Spec, m: Machine, k: nat, pass: Pass, clock: int)
    requires Ready(spec, m, k) && Budgeted(spec) && spec.stages[k].mode != OfflineReplay && clock <= pass.now
    ensures Progresses(spec, m, AdvanceLive(spec, m, Current(spec, m.status), k, pass), clock, pass.now)
  {
    hide Advance, Rank, Save, Hold, Enter, Withdraw, RecordStage, StageStatusOf, AllAuthorised, RoutesMatch, Progresses;
    var st, stage := Current(spec, m.status), spec.stages[k];
    assert stage in spec.stages;
    HoldProgresses(spec, m, m, st, clock, pass.now);
    if !Admitted(stage, pass) {
      return;
    }
    var p, entry := stage.traffic.value, StageStatusOf(st.stages, stage.name);
    if entry.startedAt.None? {
      MovesKeepStatus(m, stage, p);
      var m1 := Enter(m, stage, p).0;
      HoldProgresses(spec, m, m1, st, clock, pass.now);
      BegunDescends(spec, st, k, pass.now, clock);
      var begun := StageStatus(stage.name, Running, Some(pass.now), None, 0, false, None);
      SaveProgresses(spec, m, m1, st.(stages := RecordStage(st.stages, begun)), Running, After(POLL_INTERVAL), clock, pass.now);
      return;
    }
    RecordCurrent(spec, st.stages, entry.(name := stage.name));
    if pass.now - entry.startedAt.value > stage.maxDuration.value {
      PastBudget(spec, stage, m.routes, p, pass, entry.startedAt.value);
    }
    var advanced := Advance(spec, stage, m.routes, p, pass, entry.startedAt.value);
    if advanced.Ok? {
      var seen := entry.(weight := advanced.value.weight);
      match advanced.value.outcome
      case RollBack(trigger) =>
        MovesKeepStatus(m, stage, p);
        var m1 := Withdraw(m, p).0;
        HoldProgresses(spec, m, m1, st, clock, pass.now);
        var gone := seen.(phase := WavedOff, rolledBack := true, trigger := Some(trigger), finishedAt := Some(pass.now));
        PassedDescends(spec, st, k, gone, WavedOff, pass.now, clock);
        SaveProgresses(spec, m, m1, st.(stages := RecordStage(st.stages, gone)), WavedOff, Never, clock, pass.now);
      case PromoteStage =>
        var passed := seen.(phase := Promoted, finishedAt := Some(pass.now));
        var phase := if k == |spec.stages| - 1 then Promoted else Running;
        PassedDescends(spec, st, k, passed, phase, pass.now, clock);
        SaveProgresses(spec, m, m, st.(stages := RecordStage(st.stages, passed)), phase,
                       if k == |spec.stages| - 1 then Never else Immediately, clock, pass.now);
      case Continue =>
        ContinuedDescends(spec, st, k, seen, pass.now, clock);
        SaveProgresses(spec, m, m, st.(stages := RecordStage(st.stages, seen)), Running, advanced.value.requeue, clock, pass.now);
    }
  }

  lemma RunOfflineProgresses(spec: Spec, m: Machine, k: nat, pass: Pass, clock: int)
    requires Ready(spec, m, k) && Budgeted(spec) && spec.stages[k].mode == OfflineReplay && clock <= pass.now
    ensures Progresses(spec, m, RunOffline(spec, m, Current(spec, m.status), k, pass), clock, pass.now)
  {
    hide Save, Hold, RecordStage, StageStatusOf, AllAuthorised, RoutesMatch;
    var st := Current(spec, m.status);
    SetRunning(spec, m, st, clock, pass.now);
    var (m1, c) := Save(m, st, Running, Never);
    if !c.Finished? {
      return;
    }
    HoldDescends(spec, m, m1, st, clock, pass.now);
    if pass.offline.Ok? {
      var phase := PhaseOf(pass.offline.value);
      var entry := StageStatus(spec.stages[k].name, phase, Some(pass.now), Some(pass.now), 0, false, None);
      var final := if phase == Promoted && k != |spec.stages| - 1 then Running else phase;
      PassedDescends(spec, st, k, entry, final, pass.now, clock);
      SaveAfterRunning(spec, m, m1, st.(stages := RecordStage(st.stages, entry)), final,
                       if final == Running then Immediately else Never, clock, pass.now);
    }
  }

  /** Marking the rollout as running neither costs nor gains anything. */
  lemma SetRunning(spec: Spec, m: Machine, st: Status, clock: int, now: int)
    requires Budgeted(spec) && Ordered(spec, st.stages) && clock <= now && !Terminal(st.phase)
    requires st == Current(spec, m.status) && st.observedGeneration == spec.generation
    ensures var (m1, c) := Save(m, st, Running, Never);
            var st1 := Current(spec, m1.status);
            && st1.stages == st.stages && !Terminal(st1.phase)
            && Rank(spec, st1, now) <= Rank(spec, st, clock)
            && Rank(spec, st1, Later(clock, now)) <= Rank(spec, st, clock)
  {
    LaterIsNoMore(spec, st, clock, now);
    LaterIsNoMore(spec, st, clock, Later(clock, now));
  }

  lemma SaveAfterRunning(spec: Spec, m: Machine, m1: Machine, st': Status, phase: Phase, requeue: Requeue, clock: int, now: int)
    requires Budgeted(spec) && Ordered(spec, Current(spec, m.status).stages) && clock <= now
    requires var st1 := Current(spec, m1.status);
             && Ordered(spec, st1.stages) && Rank(spec, st1, now) <= Rank(spec, Current(spec, m.status), clock)
             && Rank(spec, st1, Later(clock, now)) <= Rank(spec, Current(spec, m.status), clock)
    requires Descends(spec, Current(spec, m.status), st'.(phase := phase), clock, now)
    ensures Progresses(spec, m, Save(m1, st', phase, requeue), clock, now)
  {
    hide Rank, Ordered, Budgeted;
  }

  lemma HoldDescends(spec: Spec, m: Machine, m1: Machine, st: Status, clock: int, now: int)
    requires Budgeted(spec) && Ordered(spec, Current(spec, m.status).stages) && clock <= now
    requires var st1 := Current(spec, m1.status);
             && Ordered(spec, st1.stages) && Rank(spec, st1, now) <= Rank(spec, Current(spec, m.status), clock)
             && Rank(spec, st1, Later(clock, now)) <= Rank(spec, Current(spec, m.status), clock)
    requires Ordered(spec, st.stages) && st.observedGeneration == spec.generation
    ensures Progresses(spec, m, Hold(m1, st), clock, now)
  {
  }

  /** A reconcile never raises the rank, however it is cut short; one that completes, spaced from the last, lowers it or
      leaves the rollout terminal. */
  lemma ReconcileProgresses(spec: Spec, m: Machine, pass: Pass, clock: int)
    requires DistinctNames(spec) && SafeMachine(spec, m) && Budgeted(spec) && clock <= pass.now
    ensures Progresses(spec, m, Reconcile(spec, m, pass), clock, pass.now)
  {
    hide Save, Hold, AdvanceLive, RunOffline, NextStage, AllAuthorised, RoutesMatch;
    if Terminal(m.status.phase) && m.status.observedGeneration == spec.generation {
      return;
    }
    var st := Current(spec, m.status);
    NextIsAfterPassed(spec, st.stages);
    var k := PassedStages(st.stages);
    if !pass.manifestsFound {
      HoldProgresses(spec, m, m, st, clock, pass.now);
    } else if k == |spec.stages| {
      SaveProgresses(spec, m, m, st, Promoted, Never, clock, pass.now);
    } else if spec.stages[k].mode != OfflineReplay {
      AdvanceLiveProgresses(spec, m, k, pass, clock);
    } else {
      RunOfflineProgresses(spec, m, k, pass, clock);
    }
  }

  // ---- Whole runs ----

  /** Time does not run backwards, and a completed look at a running stage is a poll interval after the last pass that
      completed. Attempts that fail may come as fast as they like. */
  ghost predicate Paced(spec: Spec, w: World, completed: int, last: int, attempts: seq<Attempt>)
    decreases |attempts|
  {
    attempts != [] ==>
      var now, done := attempts[0].pass.now, Completes(spec, w, attempts[0]);
      && last <= now
      && (done ==> Spaced(Current(spec, w.status), completed, now))
      && Paced(spec, Leaves(spec, w, attempts[0]), if done then now else completed, now, attempts[1..])
  }

  /** How many attempts complete and still leave the rollout short of a terminal phase. */
  function Unfinished(spec: Spec, w: World, attempts: seq<Attempt>): nat
    decreases |attempts|
  {
    if attempts == [] then 0
    else
      var w' := Leaves(spec, w, attempts[0]);
      (if Completes(spec, w, attempts[0]) && !Terminal(Current(spec, w'.status).phase) then 1 else 0)
      + Unfinished(spec, w', attempts[1..])
  }

  lemma AttemptProgresses(spec: Spec, w: World, clock: int, a: Attempt)
    requires DistinctNames(spec) && Budgeted(spec) && Safe(spec, Current(spec, w.status), w.routes) && clock <= a.pass.now
    ensures var st, st' := Current(spec, w.status), Current(spec, Leaves(spec, w, a).status);
            && Ordered(spec, st'.stages)
            && Rank(spec, st', a.pass.now) <= Rank(spec, st, clock)
            && Rank(spec, st', Later(clock, a.pass.now)) <= Rank(spec, st, clock)
            && (Completes(spec, w, a) && Spaced(st, clock, a.pass.now) && !Terminal(st'.phase) ==>
                  Rank(spec, st', a.pass.now) < Rank(spec, st, clock))
  {
    hide Reconcile, AllAuthorised, RoutesMatch, Rank;
    ReconcileProgresses(spec, Machine(w.routes, w.status, a.replies), a.pass, clock);
  }

  /** However many attempts fail in between, no more than the rank complete without ending the rollout. */
  lemma {:induction false} RolloutsEnd(spec: Spec, w: World, completed: int, last: int, attempts: seq<Attempt>)
    requires DistinctNames(spec) && Budgeted(spec) && Safe(spec, Current(spec, w.status), w.routes)
    requires completed <= last && Paced(spec, w, completed, last, attempts)
    ensures Unfinished(spec, w, attempts) <= Rank(spec, Current(spec, w.status), Later(completed, last))
    decreases |attempts|
  {
    hide Leaves, Completes, Rank, Safe;
    if attempts != [] {
      var now, w' := attempts[0].pass.now, Leaves(spec, w, attempts[0]);
      AttemptProgresses(spec, w, Later(completed, last), attempts[0]);
      LeavesKeeps(spec, w, attempts[0]);
      var completed' := if Completes(spec, w, attempts[0]) then now else completed;
      RolloutsEnd(spec, w', completed', now, attempts[1..]);
      assert Later(Later(completed, last), now) == Later(completed, now) && Later(now, now) == now;
    }
  }

  // ---- The next pass ----

  /** The stage's evidence waves it off, and no trigger that fires withdraws it. */
  ghost predicate Stalls(spec: Spec, stage: Stage, routes: map<Place, Route>, p: Place, pass: Pass, startedAt: int) {
    && p in routes && pass.splitReadable && Readable(routes[p])
    && !(stage.maxDuration.Some? && pass.now - startedAt > stage.maxDuration.value)
    && !pass.activity.Unavailable?
    && !(pass.activity.Finding? && pass.activity.violated && spec.rollback.Fires(WriteDivergence))
    && pass.observations.Ok? && pass.observations.value != []
    && pass.verdict.Ok? && pass.verdict.value.outcome == WaveOff
    && !spec.rollback.Fires(WaveOffTrigger(pass.verdict.value))
  }

  lemma StallsExactly(spec: Spec, stage: Stage, routes: map<Place, Route>, p: Place, pass: Pass, startedAt: int)
    ensures var r := Advance(spec, stage, routes, p, pass, startedAt);
            && (Stalls(spec, stage, routes, p, pass, startedAt) <==> r.Ok? && r.value.outcome == Continue && r.value.requeue == Never)
            && (r.Ok? && r.value.outcome == Continue && r.value.requeue != Never ==> r.value.requeue == After(POLL_INTERVAL))
  {
    hide WaveOffTrigger;
  }

  /** The pass looks at a running stage, and its evidence stalls it. */
  ghost predicate StalledBy(spec: Spec, m: Machine, pass: Pass) {
    var st := Current(spec, m.status);
    var next := NextStage(spec, st.stages);
    && pass.manifestsFound && next.Some?
    && var stage := spec.stages[next.value];
       var startedAt := StageStatusOf(st.stages, stage.name).startedAt;
       && stage.mode != OfflineReplay && Admitted(stage, pass) && startedAt.Some?
       && Stalls(spec, stage, m.routes, stage.traffic.value, pass, startedAt.value)
  }

  lemma AdvanceLiveSchedules(spec: Spec, m: Machine, index: nat, pass: Pass)
    requires index < |spec.stages| && spec.stages[index].mode != OfflineReplay && pass.manifestsFound
    requires NextStage(spec, Current(spec, m.status).stages) == Some(index)
    ensures var (m', c) := AdvanceLive(spec, m, Current(spec, m.status), index, pass);
            c.Finished? && !Terminal(m'.status.phase) ==>
              && (c.requeue == Never <==> StalledBy(spec, m, pass))
              && (StalledBy(spec, m, pass) ==> m'.routes == m.routes && m'.status.phase == Running)
              && (c.requeue != Never && c.requeue != Immediately ==> c.requeue == After(30))
  {
    hide Advance, Enter, Withdraw, RecordStage, StageStatusOf, NextStage, Stalls;
    var st, stage := Current(spec, m.status), spec.stages[index];
    var entry := StageStatusOf(st.stages, stage.name);
    if Admitted(stage, pass) && entry.startedAt.Some? {
      StallsExactly(spec, stage, m.routes, stage.traffic.value, pass, entry.startedAt.value);
    }
  }

  /** When a pass that completes and leaves the rollout unfinished is followed by another: always, unless the evidence waved
      off the stage and nothing withdrew it. Such a stage keeps its routes, and no later pass is scheduled to look at its
      budget. */
  lemma ScheduledExactly(spec: Spec, m: Machine, pass: Pass)
    ensures var (m', c) := Reconcile(spec, m, pass);
            c.Finished? && !Terminal(m'.status.phase) ==>
              && (c.requeue == Never <==> StalledBy(spec, m, pass))
              && (StalledBy(spec, m, pass) ==> m'.routes == m.routes && m'.status.phase == Running)
              && (c.requeue != Never && c.requeue != Immediately ==> c.requeue == After(30))
  {
    hide AdvanceLive, NextStage, Stalls, Admitted, RecordStage, StageStatusOf;
    var next := NextStage(spec, Current(spec, m.status).stages);
    if pass.manifestsFound && next.Some? && spec.stages[next.value].mode != OfflineReplay {
      AdvanceLiveSchedules(spec, m, next.value, pass);
    }
  }
}
