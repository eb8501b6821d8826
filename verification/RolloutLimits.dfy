/** What becomes of a rollout whose stage names repeat. */
module RolloutLimits {
  import opened Basics
  import opened Missingness
  import opened Analysis
  import opened Traffic
  import opened Routing
  import opened Rollout
  import opened RolloutSafety
  import opened RolloutRoutes
  import opened RolloutClearance
  import N = Names

  // ---- Repeated stage names ----

  ghost predicate DistinctEntries(stages: seq<StageStatus>) {
    forall i, j :: 0 <= i < j < |stages| ==> stages[i].name != stages[j].name
  }

  function StageNames(spec: Spec): seq<string> { seq(|spec.stages|, i requires 0 <= i < |spec.stages| => spec.stages[i].name) }

  function EntryNames(stages: seq<StageStatus>): seq<string> { seq(|stages|, i requires 0 <= i < |stages| => stages[i].name) }

  function Names(spec: Spec): set<string> { set name | name in StageNames(spec) }

  /** Holds of every persisted status of the generation, whatever the stages are called. */
  ghost predicate Accounted(spec: Spec, st: Status) {
    && DistinctEntries(st.stages)
    && (forall name :: name in EntryNames(st.stages) ==> name in StageNames(spec))
    && (st.phase == Promoted ==> forall name :: name in StageNames(spec) ==> PromotedName(st.stages, name))
  }

  lemma {:induction false} RecordKeepsDistinct(stages: seq<StageStatus>, s: StageStatus)
    requires DistinctEntries(stages)
    ensures var r := RecordStage(stages, s);
            && DistinctEntries(r)
            && (forall name :: name in EntryNames(r) <==> name in EntryNames(stages) || name == s.name)
            && (forall name :: name != s.name ==> (PromotedName(r, name) <==> PromotedName(stages, name)))
            && (PromotedName(r, s.name) <==> s.phase == Promoted)
  {
    var i := 0;
    while i < |stages| && stages[i].name != s.name
      invariant 0 <= i <= |stages|
      invariant forall k :: 0 <= k < i ==> stages[k].name != s.name
    {
      i := i + 1;
    }
    if i == |stages| {
      RecordAppends(stages, s);
      var r := stages + [s];
      forall name | PromotedName(stages, name)
        ensures PromotedName(r, name)
      {
        var k :| 0 <= k < |stages| && stages[k].phase == Promoted && stages[k].name == name;
        assert r[k] == stages[k];
      }
      assert r[|stages|] == s;
      assert EntryNames(r) == EntryNames(stages) + [s.name];
    } else {
      RecordReplaces(stages, s, i);
      var r := stages[i := s];
      forall name | name != s.name && PromotedName(stages, name)
        ensures PromotedName(r, name)
      {
        var k :| 0 <= k < |stages| && stages[k].phase == Promoted && stages[k].name == name;
        assert r[k] == stages[k];
      }
      assert r[i] == s;
      assert EntryNames(r) == EntryNames(stages);
      assert EntryNames(r)[i] == s.name;
    }
  }

  lemma {:induction false} NextMeaning(spec: Spec, stages: seq<StageStatus>, i: nat)
    requires i <= |spec.stages|
    requires forall j :: 0 <= j < i ==> PromotedName(stages, spec.stages[j].name)
    ensures match NextStageFrom(spec, stages, i)
            case Some(k) => !PromotedName(stages, spec.stages[k].name)
                            && forall j :: 0 <= j < k ==> PromotedName(stages, spec.stages[j].name)
            case None => forall j :: 0 <= j < |spec.stages| ==> PromotedName(stages, spec.stages[j].name)
    decreases |spec.stages| - i
  {
    if i < |spec.stages| && PromotedName(stages, spec.stages[i].name) {
      NextMeaning(spec, stages, i + 1);
    }
  }

  /** What a pass saves after recording an entry for stage k, which is the next one. */
  lemma RecordedAccounted(spec: Spec, st: Status, k: nat, s: StageStatus, phase: Phase)
    requires Accounted(spec, st) && NextStage(spec, st.stages) == Some(k) && s.name == spec.stages[k].name
    requires phase == Promoted ==> s.phase == Promoted && k == |spec.stages| - 1
    ensures Accounted(spec, st.(stages := RecordStage(st.stages, s), phase := phase))
  {
    RecordKeepsDistinct(st.stages, s);
    NextMeaning(spec, st.stages, 0);
    assert StageNames(spec)[k] == s.name;
  }

  /** Every pass keeps the account. */
  lemma LeavesAccounted(spec: Spec, w: World, a: Attempt)
    requires Accounted(spec, Current(spec, w.status))
    ensures Accounted(spec, Current(spec, Leaves(spec, w, a).status))
  {
    hide Enter, Withdraw, Advance, RecordStage, NextStage, Accounted;
    var m, st := Machine(w.routes, w.status, a.replies), Current(spec, w.status);
    OtherPhases(spec, st);
    if (Terminal(m.status.phase) && m.status.observedGeneration == spec.generation) || !a.pass.manifestsFound {
      return;
    }
    var next := NextStage(spec, st.stages);
    if next.None? {
      AllNamesPromoted(spec, st);
      return;
    }
    var k := next.value;
    var stage := spec.stages[k];
    if stage.mode == OfflineReplay {
      if a.pass.offline.Ok? {
        var phase := PhaseOf(a.pass.offline.value);
        var entry := StageStatus(stage.name, phase, Some(a.pass.now), Some(a.pass.now), 0, false, None);
        RecordedAccounted(spec, st, k, entry, if phase == Promoted && k != |spec.stages| - 1 then Running else phase);
      }
    } else if Admitted(stage, a.pass) {
      LiveAccounted(spec, m, st, k, a.pass);
    }
  }

  lemma OtherPhases(spec: Spec, st: Status)
    requires Accounted(spec, st)
    ensures forall phase :: phase != Promoted ==> Accounted(spec, st.(phase := phase))
  {
  }

  lemma AllNamesPromoted(spec: Spec, st: Status)
    requires Accounted(spec, st) && NextStage(spec, st.stages).None?
    ensures Accounted(spec, st.(phase := Promoted))
  {
    NextMeaning(spec, st.stages, 0);
  }

  lemma LiveAccounted(spec: Spec, m: Machine, st: Status, k: nat, pass: Pass)
    requires st == Current(spec, m.status) && Accounted(spec, st) && st.observedGeneration == spec.generation
    requires NextStage(spec, st.stages) == Some(k) && Admitted(spec.stages[k], pass)
    ensures Accounted(spec, Current(spec, AdvanceLive(spec, m, st, k, pass).0.status))
  {
    hide Enter, Withdraw, Advance, RecordStage, NextStage, Accounted, StageStatusOf;
    OtherPhases(spec, st);
    var stage := spec.stages[k];
    var p, entry := stage.traffic.value, StageStatusOf(st.stages, stage.name);
    StatusOfHasName(st.stages, stage.name);
    MovesKeepStatus(m, stage, p);
    if entry.startedAt.None? {
      RecordedAccounted(spec, st, k, StageStatus(stage.name, Running, Some(pass.now), None, 0, false, None), Running);
      return;
    }
    var advanced := Advance(spec, stage, m.routes, p, pass, entry.startedAt.value);
    if advanced.Ok? {
      var seen := entry.(weight := advanced.value.weight);
      match advanced.value.outcome
      case RollBack(trigger) =>
        RecordedAccounted(spec, st, k, seen.(phase := WavedOff, rolledBack := true, trigger := Some(trigger),
                                             finishedAt := Some(pass.now)), WavedOff);
      case PromoteStage =>
        RecordedAccounted(spec, st, k, seen.(phase := Promoted, finishedAt := Some(pass.now)),
                          if k == |spec.stages| - 1 then Promoted else Running);
      case Continue =>
        RecordedAccounted(spec, st, k, seen, Running);
    }
  }

  lemma {:induction false} RunsAreAccounted(spec: Spec, w: World, attempts: seq<Attempt>)
    requires w.status.observedGeneration != spec.generation
    ensures Accounted(spec, Current(spec, AfterAll(spec, w, attempts).status))
  {
    hide Leaves;
    if attempts != [] {
      RunsAreAccounted(spec, w, attempts[..|attempts| - 1]);
      LeavesAccounted(spec, AfterAll(spec, w, attempts[..|attempts| - 1]), attempts[|attempts| - 1]);
    }
  }

  lemma {:induction false} CountNames(names: seq<string>)
    ensures |set name | name in names| <= |names|
    ensures |set name | name in names| == |names| <==> N.Distinct(names)
  {
    if names != [] {
      var front, last := names[..|names| - 1], names[|names| - 1];
      CountNames(front);
      assert names == front + [last];
      assert (set name | name in names) == (set name | name in front) + {last};
      if last in front {
        var i :| 0 <= i < |front| && front[i] == last;
        assert names[i] == names[|names| - 1];
        assert (set name | name in names) == (set name | name in front);
      } else {
        assert N.Distinct(names) <==> N.Distinct(front) by {
          assert forall i :: 0 <= i < |front| ==> names[i] == front[i];
          assert forall i :: 0 <= i < |front| ==> front[i] in front;
        }
      }
    }
  }

  /** In any run at all, Promoted means one entry per distinct name, and so one per stage exactly when no name repeats. */
  lemma PromotedCountsNames(spec: Spec, w: World, attempts: seq<Attempt>)
    requires w.status.observedGeneration != spec.generation
    requires Current(spec, AfterAll(spec, w, attempts).status).phase == Promoted
    ensures var st := Current(spec, AfterAll(spec, w, attempts).status);
            && |st.stages| == |Names(spec)|
            && (|st.stages| == |spec.stages| <==> DistinctNames(spec))
  {
    hide AfterAll;
    RunsAreAccounted(spec, w, attempts);
    SameNames(spec, Current(spec, AfterAll(spec, w, attempts).status));
  }

  lemma SameNames(spec: Spec, st: Status)
    requires Accounted(spec, st) && st.phase == Promoted
    ensures |st.stages| == |Names(spec)|
    ensures |st.stages| == |spec.stages| <==> DistinctNames(spec)
  {
    var entries, names := EntryNames(st.stages), StageNames(spec);
    CountNames(entries);
    CountNames(names);
    forall name
      ensures name in entries <==> name in names
    {
      if name in names {
        var k :| 0 <= k < |st.stages| && st.stages[k].phase == Promoted && st.stages[k].name == name;
        assert entries[k] == name;
      }
    }
    assert (set name | name in entries) == Names(spec);
    assert N.Distinct(entries);
    if DistinctNames(spec) {
      forall i, j | 0 <= i < j < |names|
        ensures names[i] != names[j]
      {
        assert spec.stages[i].name != spec.stages[j].name;
      }
    }
    if N.Distinct(names) {
      forall i, j | 0 <= i < j < |spec.stages|
        ensures spec.stages[i].name != spec.stages[j].name
      {
        assert names[i] != names[j];
      }
    }
  }

  // ---- A stage whose name an earlier stage has ----

  predicate FirstOfName(spec: Spec, k: nat) {
    k < |spec.stages| && forall j :: 0 <= j < k ==> spec.stages[j].name != spec.stages[k].name
  }

  /** The stage a reconcile turns to is the first of its name. */
  lemma NextIsFirstOfName(spec: Spec, stages: seq<StageStatus>, k: nat)
    requires NextStage(spec, stages) == Some(k)
    ensures FirstOfName(spec, k)
  {
    NextMeaning(spec, stages, 0);
  }

  lemma MovesOnlyAt(m: Machine, stage: Stage, p: Place)
    ensures OnlyAt(p, m.routes, Enter(m, stage, p).0.routes) && OnlyAt(p, m.routes, Withdraw(m, p).0.routes)
  {
    hide PutSplit, PutMirror;
    WritesOnlyAt(m, p, FULLY_INCUMBENT, MirrorShare(stage));
    WritesOnlyAt(PutSplit(m, p, FULLY_INCUMBENT).0, p, FULLY_INCUMBENT, MirrorShare(stage));
    WritesOnlyAt(PutSplit(m, p, FULLY_INCUMBENT).0, p, FULLY_INCUMBENT, 0);
    WritesOnlyAt(m, p, FULLY_INCUMBENT, 0);
    WritesOnlyAt(PutMirror(m, p, 0).0, p, Split(100 - stage.weight, stage.weight), 0);
  }

  lemma WritesOnlyAt(m: Machine, p: Place, s: Split, percent: int)
    ensures OnlyAt(p, m.routes, PutSplit(m, p, s).0.routes) && OnlyAt(p, m.routes, PutMirror(m, p, percent).0.routes)
  {
    hide SetSplit, SetMirror;
  }

  /** The attempt writes no entry but one of a stage that is the first of its name, and moves no route but that stage's. */
  ghost predicate OnlyFirstOfName(spec: Spec, w: World, a: Attempt) {
    var before, after := Current(spec, w.status).stages, Current(spec, Leaves(spec, w, a).status).stages;
    || (after == before && Leaves(spec, w, a).routes == w.routes)
    || exists k: nat :: FirstOfName(spec, k) && NextStage(spec, before) == Some(k) && OnlyStage(spec, w, a, k)
  }

  ghost predicate OnlyStage(spec: Spec, w: World, a: Attempt, k: nat)
    requires k < |spec.stages|
  {
    && WritesOne(spec, Machine(w.routes, w.status, []), Machine(Leaves(spec, w, a).routes, Leaves(spec, w, a).status, []),
                 spec.stages[k].name)
    && Leaves(spec, w, a).routes.Keys == w.routes.Keys
    && forall p :: p in w.routes && !(spec.stages[k].mode != OfflineReplay && spec.stages[k].traffic == Some(p)) ==>
         Leaves(spec, w, a).routes[p] == w.routes[p]
  }

  ghost predicate WritesOne(spec: Spec, m: Machine, m': Machine, name: string) {
    var before, after := Current(spec, m.status).stages, Current(spec, m'.status).stages;
    after == before || exists s: StageStatus :: s.name == name && after == RecordStage(before, s)
  }

  lemma SaveWritesOne(spec: Spec, m: Machine, m1: Machine, st: Status, s: StageStatus, phase: Phase, requeue: Requeue)
    requires st.observedGeneration == spec.generation && st.stages == Current(spec, m.status).stages
    requires Current(spec, m1.status).stages == st.stages
    ensures WritesOne(spec, m, m1, s.name) && WritesOne(spec, m, Save(m1, st, phase, requeue).0, s.name)
    ensures WritesOne(spec, m, Save(m1, st.(stages := RecordStage(st.stages, s)), phase, requeue).0, s.name)
    ensures Current(spec, Save(m1, st, phase, requeue).0.status).stages == st.stages
  {
    hide RecordStage;
  }

  lemma LiveWritesOne(spec: Spec, m: Machine, k: nat, pass: Pass)
    requires k < |spec.stages| && spec.stages[k].mode != OfflineReplay
    ensures WritesOne(spec, m, AdvanceLive(spec, m, Current(spec, m.status), k, pass).0, spec.stages[k].name)
  {
    hide Save, Enter, Withdraw, Advance, RecordStage, StageStatusOf, WritesOne;
    var st, stage := Current(spec, m.status), spec.stages[k];
    var begun := StageStatus(stage.name, Running, Some(pass.now), None, 0, false, None);
    SaveWritesOne(spec, m, m, st, begun, Held, Never);
    if !Admitted(stage, pass) {
      return;
    }
    var p, entry := stage.traffic.value, StageStatusOf(st.stages, stage.name);
    StatusOfHasName(st.stages, stage.name);
    MovesKeepStatus(m, stage, p);
    var entered, withdrawn := Enter(m, stage, p).0, Withdraw(m, p).0;
    SaveWritesOne(spec, m, entered, st, begun, Held, Never);
    SaveWritesOne(spec, m, entered, st, begun, Running, After(POLL_INTERVAL));
    if entry.startedAt.None? {
      return;
    }
    var advanced := Advance(spec, stage, m.routes, p, pass, entry.startedAt.value);
    if advanced.Ok? {
      var seen := entry.(weight := advanced.value.weight);
      match advanced.value.outcome
      case RollBack(trigger) =>
        var gone := seen.(phase := WavedOff, rolledBack := true, trigger := Some(trigger), finishedAt := Some(pass.now));
        SaveWritesOne(spec, m, withdrawn, st, gone, Held, Never);
        SaveWritesOne(spec, m, withdrawn, st, gone, WavedOff, Never);
      case PromoteStage =>
        var passed := seen.(phase := Promoted, finishedAt := Some(pass.now));
        SaveWritesOne(spec, m, m, st, passed, Promoted, Never);
        SaveWritesOne(spec, m, m, st, passed, Running, Immediately);
      case Continue =>
        SaveWritesOne(spec, m, m, st, seen, Running, advanced.value.requeue);
    }
  }

  lemma OfflineWritesOne(spec: Spec, m: Machine, k: nat, pass: Pass)
    requires k < |spec.stages|
    ensures WritesOne(spec, m, RunOffline(spec, m, Current(spec, m.status), k, pass).0, spec.stages[k].name)
  {
    hide Save, RecordStage, WritesOne;
    var st, name := Current(spec, m.status), spec.stages[k].name;
    var phase := if pass.offline.Ok? then PhaseOf(pass.offline.value) else Held;
    var entry := StageStatus(name, phase, Some(pass.now), Some(pass.now), 0, false, None);
    SaveWritesOne(spec, m, m, st, entry, Running, Never);
    var m1 := Save(m, st, Running, Never).0;
    SaveWritesOne(spec, m, m1, st, entry, Held, Never);
    SaveWritesOne(spec, m, m1, st, entry, Running, Immediately);
    SaveWritesOne(spec, m, m1, st, entry, phase, Never);
  }

  lemma AttemptWritesNext(spec: Spec, w: World, a: Attempt, k: nat)
    requires NextStage(spec, Current(spec, w.status).stages) == Some(k)
    ensures WritesOne(spec, Machine(w.routes, w.status, a.replies), Reconcile(spec, Machine(w.routes, w.status, a.replies), a.pass).0,
                      spec.stages[k].name)
  {
    hide AdvanceLive, RunOffline, RecordStage, NextStage, WritesOne, Save;
    var m, st := Machine(w.routes, w.status, a.replies), Current(spec, w.status);
    var probe := StageStatus(spec.stages[k].name, Running, None, None, 0, false, None);
    SaveWritesOne(spec, m, m, st, probe, Held, Never);
    OfflineWritesOne(spec, m, k, a.pass);
    if spec.stages[k].mode != OfflineReplay {
      LiveWritesOne(spec, m, k, a.pass);
    }
  }

  lemma AttemptsRunFirstOfName(spec: Spec, w: World, a: Attempt)
    ensures OnlyFirstOfName(spec, w, a)
  {
    hide Enter, Withdraw, RecordStage, NextStage, StageStatusOf, FirstOfName, Reconcile;
    var m, next := Machine(w.routes, w.status, a.replies), NextStage(spec, Current(spec, w.status).stages);
    WhatMoves(spec, w, a);
    if next.Some? {
      var k := next.value;
      NextIsFirstOfName(spec, Current(spec, w.status).stages, k);
      AttemptWritesNext(spec, w, a, k);
      if spec.stages[k].traffic.Some? {
        MovesOnlyAt(m, spec.stages[k], spec.stages[k].traffic.value);
      }
      assert OnlyStage(spec, w, a, k);
    } else {
      NoNextWritesNothing(spec, w, a);
    }
  }

  lemma NoNextWritesNothing(spec: Spec, w: World, a: Attempt)
    requires NextStage(spec, Current(spec, w.status).stages).None?
    ensures Current(spec, Leaves(spec, w, a).status).stages == Current(spec, w.status).stages
    ensures Leaves(spec, w, a).routes == w.routes
  {
    hide NextStage;
  }

  /** No stage that is the first of its name moves traffic at p. */
  ghost predicate OnlyRepeatsAt(spec: Spec, p: Place) {
    forall k: nat :: FirstOfName(spec, k) ==> spec.stages[k].mode == OfflineReplay || spec.stages[k].traffic != Some(p)
  }

  /** In every run, a stage whose name an earlier stage has is never run: no attempt records an entry for it, and a route
      that only such stages would move is never moved. */
  lemma {:induction false} RepeatsAreNeverRun(spec: Spec, w: World, attempts: seq<Attempt>)
    ensures forall n :: 0 <= n < |attempts| ==> OnlyFirstOfName(spec, AfterAll(spec, w, attempts[..n]), attempts[n])
    ensures forall p :: p in w.routes && OnlyRepeatsAt(spec, p) ==>
              p in AfterAll(spec, w, attempts).routes && AfterAll(spec, w, attempts).routes[p] == w.routes[p]
  {
    hide Leaves, OnlyFirstOfName, OnlyStage, OnlyRepeatsAt;
    if attempts != [] {
      var front, a := attempts[..|attempts| - 1], attempts[|attempts| - 1];
      RepeatsAreNeverRun(spec, w, front);
      forall n | 0 <= n < |attempts|
        ensures OnlyFirstOfName(spec, AfterAll(spec, w, attempts[..n]), attempts[n])
      {
        AttemptsRunFirstOfName(spec, AfterAll(spec, w, attempts[..n]), attempts[n]);
        assert n < |front| ==> front[..n] == attempts[..n];
      }
      RepeatsMoveNothing(spec, AfterAll(spec, w, front), a);
    }
  }

  lemma RepeatsMoveNothing(spec: Spec, w: World, a: Attempt)
    ensures forall p :: p in w.routes && OnlyRepeatsAt(spec, p) ==>
              p in Leaves(spec, w, a).routes && Leaves(spec, w, a).routes[p] == w.routes[p]
  {
    hide Leaves, NextStage, FirstOfName;
    AttemptsRunFirstOfName(spec, w, a);
  }

  /** A canary that shares its name with an evaluation before it: the rollout is promoted, and the canary never ran. */
  lemma RepeatedNamePromotes(p: Place, weight: int) returns (spec: Spec, w: World, attempts: seq<Attempt>)
    ensures |spec.stages| == 2 && !DistinctNames(spec) && Fresh(spec, w) && p in w.routes
    ensures spec.stages[1].mode == Live && spec.stages[1].traffic == Some(p) && spec.stages[1].weight == weight
    ensures var w' := AfterAll(spec, w, attempts);
            Current(spec, w'.status).phase == Promoted && |Current(spec, w'.status).stages| == 1 && w'.routes == w.routes
  {
    var offline := Stage("check", OfflineReplay, METRIC, [], None, 0, 0, None, None);
    var canary := Stage("check", Live, METRIC, [], Some(p), weight, 0, None, Some(60));
    spec := Spec(1, [offline, canary], Rollback(true, []));
    w := World(map[p := Carrying(View(FULLY_INCUMBENT, 0))], Status(Unset, [], 0));
    var a := Attempt(GoodPass(0), DONE);
    attempts := [a, a];
    var entry := StageStatus("check", Promoted, Some(0), Some(0), 0, false, None);
    assert !PromotedName([], "check");
    assert NextStage(spec, []) == Some(0) by { NextMeaning(spec, [], 0); }
    assert DONE[1..] == [Done, Done] && RecordStage([], entry) == [entry];
    var one := World(w.routes, Status(Running, [entry], 1));
    assert Leaves(spec, w, a) == one;
    assert [entry][0].name == "check" && PromotedName([entry], "check");
    assert NextStage(spec, [entry]) == None by { NextMeaning(spec, [entry], 0); }
    assert Leaves(spec, one, a) == World(w.routes, Status(Promoted, [entry], 1));
    OneMore(spec, w, [], a);
    OneMore(spec, w, [a], a);
    assert [] + [a] == [a] && [a] + [a] == attempts;
    assert spec.stages[0].name == spec.stages[1].name;
  }
}
