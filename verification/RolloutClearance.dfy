/** Which rollbacks return all traffic to the incumbent. */
module RolloutClearance {
  import opened Basics
  import opened Missingness
  import opened Analysis
  import opened Traffic
  import opened Routing
  import opened Rollout
  import opened RolloutSafety
  import opened RolloutRoutes

  // ---- The last stage to set a route ----

  predicate MovesAt(s: Stage, p: Place) { s.mode != OfflineReplay && s.traffic == Some(p) }

  /** The last of the first k stages that moves traffic at p. */
  function LastMover(spec: Spec, k: nat, p: Place): (j: Option<nat>)
    requires k <= |spec.stages|
    ensures j.Some? ==> j.value < k && MovesAt(spec.stages[j.value], p)
  {
    if k == 0 then None
    else if MovesAt(spec.stages[k - 1], p) then Some(k - 1)
    else LastMover(spec, k - 1, p)
  }

  /** The route at p is as the last of the first k stages to set it left it, or as it was at the start. */
  ghost predicate SettledAt(spec: Spec, k: nat, p: Place, routes: map<Place, Route>)
    requires k <= |spec.stages|
  {
    match LastMover(spec, k, p)
    case None => Carries(routes, p, View(FULLY_INCUMBENT, 0))
    case Some(j) => CarriesStage(spec.stages[j], routes)
  }

  /** Every route is settled, except the one the next stage sets. */
  ghost predicate Settled(spec: Spec, stages: seq<StageStatus>, routes: map<Place, Route>) {
    var k := PassedStages(stages);
    k <= |spec.stages|
    && forall p :: p in routes && !(k < |spec.stages| && MovesAt(spec.stages[k], p)) ==> SettledAt(spec, k, p, routes)
  }

  lemma SameRouteSameSettled(spec: Spec, k: nat, p: Place, before: map<Place, Route>, after: map<Place, Route>)
    requires k <= |spec.stages| && p in before && p in after && after[p] == before[p] && SettledAt(spec, k, p, before)
    ensures SettledAt(spec, k, p, after)
  {
    hide ViewOf;
  }

  lemma PassingSettles(spec: Spec, k: nat, p: Place, stages: seq<StageStatus>, routes: map<Place, Route>)
    requires k < |spec.stages| && PassedStages(stages) == k && p in routes && Settled(spec, stages, routes)
    requires MovesAt(spec.stages[k], p) ==> CarriesStage(spec.stages[k], routes)
    ensures SettledAt(spec, k + 1, p, routes)
  {
    hide CarriesStage;
  }

  lemma LeavesSettled(spec: Spec, w: World, a: Attempt)
    requires DistinctNames(spec) && Safe(spec, Current(spec, w.status), w.routes)
    requires Settled(spec, Current(spec, w.status).stages, w.routes)
    requires Safe(spec, Current(spec, Leaves(spec, w, a).status), Leaves(spec, w, a).routes)
    ensures Settled(spec, Current(spec, Leaves(spec, w, a).status).stages, Leaves(spec, w, a).routes)
  {
    hide Leaves, Between, AllAuthorised, SettledAt, NextStage, Admitted, CarriesStage;
    var st, w' := Current(spec, w.status), Leaves(spec, w, a);
    var st' := Current(spec, w'.status);
    var k, k' := PassedStages(st.stages), PassedStages(st'.stages);
    WhatPasses(spec, w, a);
    RoutesKeepPlaces(spec, w, a);
    forall p | p in w'.routes && !(k' < |spec.stages| && MovesAt(spec.stages[k'], p))
      ensures SettledAt(spec, k', p, w'.routes)
    {
      if k' == k {
        RouteMoves(spec, w, a, p);
        SameRouteSameSettled(spec, k, p, w.routes, w'.routes);
      } else {
        PassingSettles(spec, k, p, st.stages, w.routes);
      }
    }
  }

  lemma RoutesKeepPlaces(spec: Spec, w: World, a: Attempt)
    requires DistinctNames(spec) && Safe(spec, Current(spec, w.status), w.routes)
    ensures Leaves(spec, w, a).routes.Keys == w.routes.Keys
  {
    hide Leaves, Enter, Withdraw, AllAuthorised, StageStatusOf;
    var m, k := Machine(w.routes, w.status, a.replies), PassedStages(Current(spec, w.status).stages);
    WhatMoves(spec, w, a);
    NextIsAfterPassed(spec, Current(spec, w.status).stages);
    if Leaves(spec, w, a).routes != w.routes {
      EnterMoves(spec, m, k, spec.stages[k].traffic.value);
      WithdrawMoves(spec, m, k, spec.stages[k].traffic.value);
    }
  }

  // ---- What a rollback says of the spec ----

  /** Every recorded stage could begin, every passed one could pass, and one rolled back could be. */
  ghost predicate Possible(spec: Spec, stages: seq<StageStatus>) {
    forall j :: 0 <= j < |stages| && j < |spec.stages| ==> PossibleEntry(spec, spec.stages[j], stages[j])
  }

  ghost predicate PossibleEntry(spec: Spec, stage: Stage, s: StageStatus) {
    && (stage.mode != OfflineReplay && (s.phase == Promoted || s.phase == Running || s.rolledBack) ==> CanBegin(stage))
    && (stage.mode != OfflineReplay && s.phase == Promoted ==> CanPass(stage))
    && (s.rolledBack ==> stage.mode != OfflineReplay && CanRollBack(spec, stage))
  }

  lemma LeavesPossible(spec: Spec, w: World, a: Attempt)
    requires DistinctNames(spec) && Safe(spec, Current(spec, w.status), w.routes)
    requires Possible(spec, Current(spec, w.status).stages)
    ensures Possible(spec, Current(spec, Leaves(spec, w, a).status).stages)
  {
    hide Reconcile, RecordStage, StageStatusOf, AllAuthorised, RoutesMatch, CanBegin, CanPass, CanRollBack;
    var m, st := Machine(w.routes, w.status, a.replies), Current(spec, w.status);
    var k, m' := PassedStages(st.stages), Reconcile(spec, m, a.pass).0;
    AttemptRecords(spec, w, a);
    var after := Current(spec, m'.status).stages;
    if after != st.stages {
      var s: StageStatus :| RecordedAs(spec, m, m', k, s);
      RecordCurrent(spec, st.stages, s);
      assert after == st.stages[..k] + [s];
      if k < |st.stages| {
        assert PossibleEntry(spec, spec.stages[k], st.stages[k]);
      }
      assert PossibleEntry(spec, spec.stages[k], s);
      forall j | 0 <= j < |after| && j < |spec.stages|
        ensures PossibleEntry(spec, spec.stages[j], after[j])
      {
        assert j < k ==> after[j] == st.stages[j];
      }
    }
  }

  lemma {:induction false} RunsSettle(spec: Spec, w: World, attempts: seq<Attempt>)
    requires DistinctNames(spec) && Fresh(spec, w)
    ensures var w' := AfterAll(spec, w, attempts);
            Settled(spec, Current(spec, w'.status).stages, w'.routes) && Possible(spec, Current(spec, w'.status).stages)
  {
    hide Leaves, Safe, Settled, Possible;
    if attempts == [] {
      StartSettled(spec, w);
    } else {
      var front, a := attempts[..|attempts| - 1], attempts[|attempts| - 1];
      RunsSettle(spec, w, front);
      RunsAreSafe(spec, w, front);
      RunsAreSafe(spec, w, attempts);
      LeavesSettled(spec, AfterAll(spec, w, front), a);
      LeavesPossible(spec, AfterAll(spec, w, front), a);
    }
  }

  lemma StartSettled(spec: Spec, w: World)
    requires Fresh(spec, w)
    ensures Settled(spec, Current(spec, w.status).stages, w.routes) && Possible(spec, Current(spec, w.status).stages)
  {
  }

  // ---- A rollback that clears every route ----

  /** Whatever was left at p before stage i, it is the incumbent's alone. */
  ghost predicate AtRest(spec: Spec, i: nat, p: Place)
    requires i < |spec.stages|
  {
    var j := LastMover(spec, i, p);
    j.Some? ==> spec.stages[j.value].mode == Live && spec.stages[j.value].weight == 0
  }

  /** At every other place, the last stage before i to move traffic is absent, or is live with no share. */
  ghost predicate OthersAtRest(spec: Spec, i: nat)
    requires i < |spec.stages|
  {
    forall p :: spec.stages[i].traffic != Some(p) ==> AtRest(spec, i, p)
  }

  /** Stage i can be reached, entered and rolled back at all. */
  ghost predicate Rollable(spec: Spec, i: nat)
    requires i < |spec.stages|
  {
    && (forall j :: 0 <= j < i ==> Passable(spec.stages[j]))
    && CanBegin(spec.stages[i]) && CanRollBack(spec, spec.stages[i])
  }

  predicate Passable(s: Stage) { s.mode == OfflineReplay || (CanBegin(s) && CanPass(s)) }

  lemma RolledBackWasRollable(spec: Spec, w: World, attempts: seq<Attempt>, i: nat)
    requires DistinctNames(spec) && Fresh(spec, w) && RolledBack(spec, AfterAll(spec, w, attempts).status, i)
    ensures i < |spec.stages| && Rollable(spec, i)
  {
    hide AfterAll, AllAuthorised, RoutesMatch, Fresh, CanBegin, CanPass, CanRollBack, Settled;
    RunsAreSafe(spec, w, attempts);
    RunsSettle(spec, w, attempts);
    var stages := Current(spec, AfterAll(spec, w, attempts).status).stages;
    assert PossibleEntry(spec, spec.stages[i], stages[i]);
    forall j | 0 <= j < i
      ensures Passable(spec.stages[j])
    {
      assert PossibleEntry(spec, spec.stages[j], stages[j]);
    }
  }

  lemma RestingRollbackClears(spec: Spec, w: World, attempts: seq<Attempt>, i: nat, p: Place)
    requires DistinctNames(spec) && Fresh(spec, w) && RolledBack(spec, AfterAll(spec, w, attempts).status, i)
    requires i < |spec.stages| && OthersAtRest(spec, i) && p in AfterAll(spec, w, attempts).routes
    ensures Carries(AfterAll(spec, w, attempts).routes, p, View(FULLY_INCUMBENT, 0))
  {
    hide AfterAll, Fresh, Possible, ViewOf;
    RunsAreSafe(spec, w, attempts);
    RunsSettle(spec, w, attempts);
    var w' := AfterAll(spec, w, attempts);
    var k := PassedStages(w'.status.stages);
    assert k == i;
    assert Authorised(spec, k, p, w'.routes[p]);
    if spec.stages[i].traffic != Some(p) {
      assert SettledAt(spec, i, p, w'.routes);
      assert AtRest(spec, i, p);
    }
  }

  // ---- A run that reaches and rolls back a stage ----

  const METRIC := Metric("task-completion", SequentialTest, -0.02, 0.0, 0.05, Higher)
  const PASSES := MetricResult("task-completion", SequentialTest, true, false, false, Unbounded, 1, 0.05)
  const FAILS := PASSES.(pass := false, inferior := true)
  const NO_COUNTS := Counts(0, 0, 0, 0, 0)
  const DONE := [Done, Done, Done]

  function Answer(o: Outcome, guardrails: seq<MetricResult>): Verdict {
    Verdict(o, PASSES, guardrails, NO_COUNTS, Check(true, 0.0, 1.0))
  }

  /** A pass in which nothing is missing and the evidence is sufficient. */
  function GoodPass(now: int): Pass {
    Pass(now, true, true, true, Ok(Promote), true, NoSource, Ok([Observation("s", map[], map[])]), NO_COUNTS,
         Ok(Answer(Promote, [])))
  }

  /** A pass that gives the stage, started at t, some reason to be rolled back. */
  function BadPass(spec: Spec, stage: Stage, t: int): Pass {
    if stage.maxDuration.Some? then GoodPass(t + stage.maxDuration.value + 1)
    else if spec.rollback.Fires(WriteDivergence) then GoodPass(t).(activity := Finding(true))
    else if spec.rollback.Fires(AnalyzerUnavailable) then GoodPass(t).(verdict := Err)
    else if spec.rollback.Fires(GateFail) then GoodPass(t).(verdict := Ok(Answer(WaveOff, [])))
    else GoodPass(t).(verdict := Ok(Answer(WaveOff, [FAILS])))
  }

  lemma BadPassRollsBack(spec: Spec, stage: Stage, routes: map<Place, Route>, p: Place, t: int)
    requires CanRollBack(spec, stage) && p in routes && Readable(routes[p])
    ensures var r := Advance(spec, stage, routes, p, BadPass(spec, stage, t), t); r.Ok? && r.value.outcome.RollBack?
  {
    assert [FAILS][0].inferior;
  }

  /** How long a stage has to be watched before it passes. With a negative budget that is less than no time: only a clock
      set back in between, which a run may have, lets such a stage pass. */
  function Wait(s: Stage): int {
    if s.minObservationWindow.Some? then s.minObservationWindow.value
    else if s.maxDuration.Some? && s.maxDuration.value < 0 then s.maxDuration.value else 0
  }

  lemma GoodPassPromotes(spec: Spec, stage: Stage, routes: map<Place, Route>, p: Place, t: int)
    requires CanPass(stage) && p in routes && Readable(routes[p])
    ensures var r := Advance(spec, stage, routes, p, GoodPass(t + Wait(stage)), t); r.Ok? && r.value.outcome == PromoteStage
  {
  }

  function Carrying(v: View): Route { Abstract(v, true) }

  function StageView(s: Stage): View { View(StageSplit(s), StageMirror(s)) }

  lemma EntersFully(m: Machine, stage: Stage, p: Place)
    requires CanBegin(stage) && p in m.routes && m.routes[p].Abstract? && m.routes[p].canMirror && m.replies == DONE
    ensures Enter(m, stage, p) == (m.(routes := m.routes[p := Carrying(StageView(stage))], replies := [Done]), Okay)
  {
    var route := m.routes[p];
    var first := if stage.mode == Live then route.(view := route.view.(mirror := 0))
                 else route.(view := route.view.(split := FULLY_INCUMBENT));
    assert m.routes[p := first][p := Carrying(StageView(stage))] == m.routes[p := Carrying(StageView(stage))];
    assert DONE[1..] == [Done, Done] && [Done, Done][1..] == [Done];
  }

  lemma WithdrawsFully(m: Machine, p: Place)
    requires p in m.routes && m.routes[p].Abstract? && m.routes[p].canMirror && m.replies == DONE
    ensures Withdraw(m, p) == (m.(routes := m.routes[p := Carrying(View(FULLY_INCUMBENT, 0))], replies := [Done]), Okay)
  {
    var route := m.routes[p];
    var back := route.(view := route.view.(split := FULLY_INCUMBENT));
    assert m.routes[p := back][p := Carrying(View(FULLY_INCUMBENT, 0))] == m.routes[p := Carrying(View(FULLY_INCUMBENT, 0))];
    assert DONE[1..] == [Done, Done] && [Done, Done][1..] == [Done];
  }

  // ---- Step by step ----

  function Places(spec: Spec): set<Place> { set s | s in spec.stages && s.traffic.Some? :: s.traffic.value }

  function Desired(spec: Spec, k: nat, p: Place): View
    requires k <= |spec.stages|
  {
    var j := LastMover(spec, k, p);
    if j.Some? then StageView(spec.stages[j.value]) else View(FULLY_INCUMBENT, 0)
  }

  ghost predicate RoutesAt(spec: Spec, k: nat, routes: map<Place, Route>)
    requires k <= |spec.stages|
  {
    routes.Keys == Places(spec) && forall p :: p in routes ==> routes[p] == Carrying(Desired(spec, k, p))
  }

  /** The first k stages have passed, and every route is as they left it. */
  ghost predicate Reached(spec: Spec, k: nat, w: World) {
    var st := Current(spec, w.status);
    && k <= |spec.stages| && |st.stages| == k && Ordered(spec, st.stages) && PassedStages(st.stages) == k
    && !Terminal(st.phase) && RoutesAt(spec, k, w.routes)
  }

  function Begun(stage: Stage, t: int): StageStatus { StageStatus(stage.name, Running, Some(t), None, 0, false, None) }

  /** Stage k has begun at time t on top of that. */
  ghost predicate Underway(spec: Spec, k: nat, w: World, before: World, t: int)
    requires k < |spec.stages|
  {
    var stage := spec.stages[k];
    && Reached(spec, k, before) && CanBegin(stage)
    && w.status == Status(Running, Current(spec, before.status).stages + [Begun(stage, t)], spec.generation)
    && w.routes == before.routes[stage.traffic.value := Carrying(StageView(stage))]
  }

  lemma BeginsAt(spec: Spec, k: nat, w: World, t: int)
    requires DistinctNames(spec) && k < |spec.stages| && Reached(spec, k, w) && CanBegin(spec.stages[k])
    ensures Underway(spec, k, Leaves(spec, w, Attempt(GoodPass(t), DONE)), w, t)
  {
    hide Enter, RecordStage, StageStatusOf, NextStage, RoutesAt;
    var st, stage, m := Current(spec, w.status), spec.stages[k], Machine(w.routes, w.status, DONE);
    NextIsAfterPassed(spec, st.stages);
    NotRecorded(st.stages, stage.name);
    RecordAppends(st.stages, Begun(stage, t));
    assert stage in spec.stages;
    HasRoute(spec, k, w.routes, stage.traffic.value);
    EntersFully(m, stage, stage.traffic.value);
  }

  lemma HasRoute(spec: Spec, k: nat, routes: map<Place, Route>, p: Place)
    requires k <= |spec.stages| && RoutesAt(spec, k, routes) && p in Places(spec)
    ensures p in routes && routes[p].Abstract? && routes[p].canMirror
  {
  }

  lemma UnderwayReads(spec: Spec, k: nat, w: World, before: World, t: int)
    requires DistinctNames(spec) && k < |spec.stages| && Underway(spec, k, w, before, t)
    ensures var stages, stage := Current(spec, before.status).stages, spec.stages[k];
            && w.status.stages == stages + [Begun(stage, t)] && Ordered(spec, w.status.stages)
            && NextStage(spec, w.status.stages) == Some(k)
            && StageStatusOf(w.status.stages, stage.name) == Begun(stage, t)
            && forall s: StageStatus :: s.name == stage.name ==> RecordStage(w.status.stages, s) == stages + [s]
  {
    hide RecordStage, StageStatusOf, NextStage, RoutesAt;
    NextIsAfterPassed(spec, w.status.stages);
    forall s: StageStatus | s.name == spec.stages[k].name
      ensures RecordStage(w.status.stages, s) == Current(spec, before.status).stages + [s]
    {
      RecordCurrent(spec, w.status.stages, s);
    }
    RecordCurrent(spec, w.status.stages, Begun(spec.stages[k], t));
  }

  lemma PassesAt(spec: Spec, k: nat, w: World, before: World, t: int)
    requires DistinctNames(spec) && k + 1 < |spec.stages| && Underway(spec, k, w, before, t) && CanPass(spec.stages[k])
    ensures Reached(spec, k + 1, Leaves(spec, w, Attempt(GoodPass(t + Wait(spec.stages[k])), DONE)))
  {
    hide RoutesAt, Leaves, Wait, GoodPass;
    PassLeaves(spec, k, w, before, t);
    RoutesAdvance(spec, k, before.routes);
  }

  /** The pass that promotes stage k adds its entry and moves nothing. */
  lemma PassLeaves(spec: Spec, k: nat, w: World, before: World, t: int)
    requires DistinctNames(spec) && k + 1 < |spec.stages| && Underway(spec, k, w, before, t) && CanPass(spec.stages[k])
    ensures var w' := Leaves(spec, w, Attempt(GoodPass(t + Wait(spec.stages[k])), DONE));
            && w'.routes == w.routes && w'.status.phase == Running && w'.status.observedGeneration == spec.generation
            && exists s: StageStatus :: s.name == spec.stages[k].name && s.phase == Promoted
                                        && w'.status.stages == Current(spec, before.status).stages + [s]
  {
    hide Advance, RecordStage, StageStatusOf, NextStage, RoutesAt, Ordered, Wait;
    var stage := spec.stages[k];
    UnderwayReads(spec, k, w, before, t);
    GoodPassPromotes(spec, stage, w.routes, stage.traffic.value, t);
  }

  lemma RoutesAdvance(spec: Spec, k: nat, routes: map<Place, Route>)
    requires k < |spec.stages| && RoutesAt(spec, k, routes)
    ensures !MovesTraffic(spec.stages[k]) ==> RoutesAt(spec, k + 1, routes)
    ensures MovesTraffic(spec.stages[k]) ==>
              RoutesAt(spec, k + 1, routes[spec.stages[k].traffic.value := Carrying(StageView(spec.stages[k]))])
  {
    assert spec.stages[k] in spec.stages;
  }

  lemma OfflineAt(spec: Spec, k: nat, w: World, t: int)
    requires DistinctNames(spec) && k + 1 < |spec.stages| && Reached(spec, k, w) && spec.stages[k].mode == OfflineReplay
    ensures Reached(spec, k + 1, Leaves(spec, w, Attempt(GoodPass(t), DONE)))
  {
    hide RecordStage, StageStatusOf, NextStage, RoutesAt;
    var st, stage := Current(spec, w.status), spec.stages[k];
    NextIsAfterPassed(spec, st.stages);
    RecordAppends(st.stages, StageStatus(stage.name, Promoted, Some(t), Some(t), 0, false, None));
    RoutesAdvance(spec, k, w.routes);
    assert DONE[1..] == [Done, Done];
  }

  lemma RollsBackAt(spec: Spec, k: nat, w: World, before: World, t: int)
    requires DistinctNames(spec) && k < |spec.stages| && Underway(spec, k, w, before, t) && CanRollBack(spec, spec.stages[k])
    ensures var stage := spec.stages[k];
            var w' := Leaves(spec, w, Attempt(BadPass(spec, stage, t), DONE));
            && RolledBack(spec, w'.status, k)
            && w'.routes == w.routes[stage.traffic.value := Carrying(View(FULLY_INCUMBENT, 0))]
  {
    hide Advance, Withdraw, RecordStage, StageStatusOf, NextStage, RoutesAt, CanRollBack;
    var stage := spec.stages[k];
    UnderwayReads(spec, k, w, before, t);
    BadPassIsAdmitted(spec, stage, t);
    BadPassRollsBack(spec, stage, w.routes, stage.traffic.value, t);
    WithdrawsFully(Machine(w.routes, w.status, DONE), stage.traffic.value);
  }

  lemma BadPassIsAdmitted(spec: Spec, stage: Stage, t: int)
    requires CanBegin(stage)
    ensures BadPass(spec, stage, t).manifestsFound && Admitted(stage, BadPass(spec, stage, t))
  {
  }

  /** Before anything has happened, every route is the incumbent's. */
  function Untouched(spec: Spec): World {
    World(map p | p in Places(spec) :: Carrying(View(FULLY_INCUMBENT, 0)), Status(Unset, [], spec.generation - 1))
  }

  /** Some run passes the first k stages. */
  lemma {:induction false} Climb(spec: Spec, k: nat) returns (attempts: seq<Attempt>, t: int)
    requires DistinctNames(spec) && k < |spec.stages| && forall j :: 0 <= j < k ==> Passable(spec.stages[j])
    ensures Fresh(spec, Untouched(spec)) && Reached(spec, k, AfterAll(spec, Untouched(spec), attempts))
  {
    hide Leaves, Reached, Underway, CanBegin, CanPass;
    if k == 0 {
      attempts, t := [], 0;
      UntouchedIsReached(spec);
    } else {
      attempts, t := Climb(spec, k - 1);
      var w, stage := AfterAll(spec, Untouched(spec), attempts), spec.stages[k - 1];
      assert Passable(stage);
      var one := Attempt(GoodPass(t), DONE);
      OneMore(spec, Untouched(spec), attempts, one);
      if stage.mode == OfflineReplay {
        OfflineAt(spec, k - 1, w, t);
        attempts := attempts + [one];
      } else {
        BeginsAt(spec, k - 1, w, t);
        PassesAt(spec, k - 1, Leaves(spec, w, one), w, t);
        OneMore(spec, Untouched(spec), attempts + [one], Attempt(GoodPass(t + Wait(stage)), DONE));
        attempts := attempts + [one] + [Attempt(GoodPass(t + Wait(stage)), DONE)];
        t := t + Wait(stage);
      }
    }
  }

  lemma UntouchedIsReached(spec: Spec)
    ensures Fresh(spec, Untouched(spec)) && Reached(spec, 0, Untouched(spec))
  {
  }

  lemma OneMore(spec: Spec, w: World, attempts: seq<Attempt>, a: Attempt)
    ensures AfterAll(spec, w, attempts + [a]) == Leaves(spec, AfterAll(spec, w, attempts), a)
  {
    hide Leaves;
    assert (attempts + [a])[..|attempts|] == attempts;
  }

  /** Where an earlier stage last left something at another place, some run rolls stage i back and leaves it there. */
  lemma RollbackLeavesOtherRoutes(spec: Spec, i: nat, p: Place) returns (w: World, attempts: seq<Attempt>)
    requires DistinctNames(spec) && i < |spec.stages| && Rollable(spec, i)
    requires spec.stages[i].traffic != Some(p) && !AtRest(spec, i, p)
    ensures Fresh(spec, w) && RolledBack(spec, AfterAll(spec, w, attempts).status, i)
    ensures Carries(AfterAll(spec, w, attempts).routes, p, Desired(spec, i, p)) && Desired(spec, i, p) != View(FULLY_INCUMBENT, 0)
  {
    hide Leaves, CanPass, CanRollBack, Desired, Passable;
    w := Untouched(spec);
    var climbed, t := Climb(spec, i);
    var reached, stage := AfterAll(spec, w, climbed), spec.stages[i];
    var enter, leave := Attempt(GoodPass(t), DONE), Attempt(BadPass(spec, stage, t), DONE);
    BeginsAt(spec, i, reached, t);
    var running := Leaves(spec, reached, enter);
    RollsBackAt(spec, i, running, reached, t);
    OneMore(spec, w, climbed, enter);
    OneMore(spec, w, climbed + [enter], leave);
    attempts := climbed + [enter] + [leave];
    LastMoverHasPlace(spec, i, p);
    DesiredMoved(spec, i, p);
  }

  lemma LastMoverHasPlace(spec: Spec, i: nat, p: Place)
    requires i < |spec.stages| && LastMover(spec, i, p).Some?
    ensures p in Places(spec)
  {
    assert spec.stages[LastMover(spec, i, p).value] in spec.stages;
  }

  lemma DesiredMoved(spec: Spec, i: nat, p: Place)
    requires i < |spec.stages| && !AtRest(spec, i, p)
    ensures Desired(spec, i, p) != View(FULLY_INCUMBENT, 0)
  {
  }

  /** Every rollback of stage i, in every run, leaves every route wholly the incumbent's. */
  ghost predicate AlwaysClears(spec: Spec, i: nat) {
    forall w: World, attempts: seq<Attempt>, p: Place ::
      Fresh(spec, w) && RolledBack(spec, AfterAll(spec, w, attempts).status, i) && p in AfterAll(spec, w, attempts).routes ==>
        Carries(AfterAll(spec, w, attempts).routes, p, View(FULLY_INCUMBENT, 0))
  }

  /** When a rollback can be trusted to return all traffic: exactly when, at every other place, the last stage before it to
      move traffic is absent or is live with no share; or when it cannot happen at all. */
  lemma RollbackClearsExactly(spec: Spec, i: nat)
    requires DistinctNames(spec) && i < |spec.stages|
    ensures AlwaysClears(spec, i) <==> (Rollable(spec, i) ==> OthersAtRest(spec, i))
  {
    hide AfterAll, Rollable, AtRest, Fresh;
    if Rollable(spec, i) && !OthersAtRest(spec, i) {
      var p :| spec.stages[i].traffic != Some(p) && !AtRest(spec, i, p);
      var w, attempts := RollbackLeavesOtherRoutes(spec, i, p);
      assert !Carries(AfterAll(spec, w, attempts).routes, p, View(FULLY_INCUMBENT, 0));
    } else {
      forall w: World, attempts: seq<Attempt>, p: Place |
        Fresh(spec, w) && RolledBack(spec, AfterAll(spec, w, attempts).status, i) && p in AfterAll(spec, w, attempts).routes
        ensures Carries(AfterAll(spec, w, attempts).routes, p, View(FULLY_INCUMBENT, 0))
      {
        RolledBackWasRollable(spec, w, attempts, i);
        RestingRollbackClears(spec, w, attempts, i, p);
      }
    }
  }
}
