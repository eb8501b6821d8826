/** What every reachable state of a rollout keeps: a run is any list of reconcile attempts, each reading anything
    at all and cut short anywhere. */
module RolloutSafety {
  import opened Basics
  import opened Analysis
  import opened Traffic
  import opened Routing
  import opened Rollout

  ghost predicate DistinctNames(spec: Spec) {
    forall i, j :: 0 <= i < j < |spec.stages| ==> spec.stages[i].name != spec.stages[j].name
  }

  // ---- The shape of a persisted status ----

  /** How many stages have passed. */
  function PassedStages(stages: seq<StageStatus>): nat {
    if stages == [] then 0
    else if stages[|stages| - 1].phase == Promoted then |stages|
    else |stages| - 1
  }

  /** The entries are the first stages of the spec, in order; all but perhaps the last are promoted. */
  ghost predicate Ordered(spec: Spec, stages: seq<StageStatus>) {
    && |stages| <= |spec.stages|
    && (forall i :: 0 <= i < |stages| ==> stages[i].name == spec.stages[i].name)
    && (forall i :: 0 <= i < |stages| - 1 ==> stages[i].phase == Promoted)
  }

  ghost predicate LastEntry(spec: Spec, st: Status)
    requires Ordered(spec, st.stages)
  {
    st.stages != [] ==>
      var last := st.stages[|st.stages| - 1];
      && (last.phase == Running ==> last.startedAt.Some? && spec.stages[|st.stages| - 1].mode != OfflineReplay)
      && (!Terminal(st.phase) ==> last.phase == Promoted || last.phase == Running)
  }

  ghost predicate Shape(spec: Spec, st: Status) {
    && st.observedGeneration == spec.generation
    && Ordered(spec, st.stages)
    && LastEntry(spec, st)
    && (forall i :: 0 <= i < |st.stages| && st.stages[i].rolledBack ==>
          i == |st.stages| - 1 && st.stages[i].phase == WavedOff && st.phase == WavedOff)
    && (st.phase == Promoted ==> PassedStages(st.stages) == |spec.stages|)
  }

  // ---- What the routes may carry ----

  /** Stage i is a live stage that sends share w to the candidate at place p. */
  ghost predicate SendsLive(spec: Spec, i: int, p: Place, w: int) {
    0 <= i < |spec.stages| && spec.stages[i].mode == Live && spec.stages[i].traffic == Some(p) && spec.stages[i].weight == w
  }

  ghost predicate CopiesTo(spec: Spec, i: int, p: Place, percent: int) {
    0 <= i < |spec.stages| && spec.stages[i].mode == Shadow && spec.stages[i].traffic == Some(p)
    && MirrorShare(spec.stages[i]) == percent
  }

  /** Traffic reaches the candidate only as some live stage's share, and copies only as some shadow stage's, where
      every stage before that one has passed. */
  ghost predicate Authorised(spec: Spec, passed: nat, p: Place, route: Route) {
    && Usable(route, p.target)
    && var view := ViewOf(route, p.target);
       && 0 <= view.split.candidate <= 100
       && view.split.incumbent == 100 - view.split.candidate
       && (view.split.candidate > 0 ==> exists i :: i <= passed && SendsLive(spec, i, p, view.split.candidate))
       && (view.mirror != 0 ==> exists i :: i <= passed && CopiesTo(spec, i, p, view.mirror))
  }

  ghost predicate AllAuthorised(spec: Spec, passed: nat, routes: map<Place, Route>) {
    forall p :: p in routes ==> Authorised(spec, passed, p, routes[p])
  }

  /** The route at p can be read, and carries this. */
  ghost predicate Carries(routes: map<Place, Route>, p: Place, view: View) {
    p in routes && Readable(routes[p]) && ViewOf(routes[p], p.target) == view
  }

  ghost predicate Withdrawn(stage: Stage, routes: map<Place, Route>) {
    && stage.mode != OfflineReplay
    && stage.traffic.Some? && Carries(routes, stage.traffic.value, View(FULLY_INCUMBENT, 0))
  }

  /** While a stage is recorded as running, its route carries what the stage asked for, or less. */
  ghost predicate CarriesStage(stage: Stage, routes: map<Place, Route>) {
    && stage.traffic.Some? && stage.traffic.value in routes && Readable(routes[stage.traffic.value])
    && var view := ViewOf(routes[stage.traffic.value], stage.traffic.value.target);
       if stage.mode == Live then view.mirror == 0 && (view.split.candidate == 0 || view.split.candidate == stage.weight)
       else view.split == FULLY_INCUMBENT
  }

  ghost predicate RoutesMatch(spec: Spec, st: Status, routes: map<Place, Route>)
    requires Ordered(spec, st.stages)
  {
    st.stages != [] ==>
      var last, stage := st.stages[|st.stages| - 1], spec.stages[|st.stages| - 1];
      && (last.rolledBack ==> Withdrawn(stage, routes))
      && (last.phase == Running ==> CarriesStage(stage, routes))
  }

  ghost predicate Safe(spec: Spec, st: Status, routes: map<Place, Route>) {
    && Shape(spec, st)
    && AllAuthorised(spec, PassedStages(st.stages), routes)
    && RoutesMatch(spec, st, routes)
  }

  ghost predicate SafeMachine(spec: Spec, m: Machine) {
    Safe(spec, Current(spec, m.status), m.routes)
  }

  /** Promoted entries are never changed or lost. */
  ghost predicate Keeps(before: seq<StageStatus>, after: seq<StageStatus>) {
    PassedStages(before) <= PassedStages(after) && before[..PassedStages(before)] <= after
  }

  // ---- Bookkeeping ----

  lemma {:induction false} RecordAppends(stages: seq<StageStatus>, s: StageStatus)
    requires forall i :: 0 <= i < |stages| ==> stages[i].name != s.name
    ensures RecordStage(stages, s) == stages + [s]
  {
    if stages != [] {
      RecordAppends(stages[1..], s);
    }
  }

  lemma {:induction false} RecordReplaces(stages: seq<StageStatus>, s: StageStatus, k: nat)
    requires k < |stages| && stages[k].name == s.name
    requires forall i :: 0 <= i < k ==> stages[i].name != s.name
    ensures RecordStage(stages, s) == stages[k := s]
    ensures StageStatusOf(stages, s.name) == stages[k]
  {
    if k > 0 {
      RecordReplaces(stages[1..], s, k - 1);
    }
  }

  lemma {:induction false} NotRecorded(stages: seq<StageStatus>, name: string)
    requires forall i :: 0 <= i < |stages| ==> stages[i].name != name
    ensures StageStatusOf(stages, name).startedAt.None?
  {
    if stages != [] {
      NotRecorded(stages[1..], name);
    }
  }

  lemma {:induction false} StatusOfHasName(stages: seq<StageStatus>, name: string)
    ensures StageStatusOf(stages, name).name == name
  {
    if stages != [] {
      StatusOfHasName(stages[1..], name);
    }
  }

  lemma MovesKeepStatus(m: Machine, stage: Stage, p: Place)
    ensures Enter(m, stage, p).0.status == m.status && Withdraw(m, p).0.status == m.status
  {
  }

  lemma {:induction false} NextFrom(spec: Spec, stages: seq<StageStatus>, i: nat)
    requires DistinctNames(spec) && Ordered(spec, stages) && i <= PassedStages(stages)
    ensures NextStageFrom(spec, stages, i) ==
            if PassedStages(stages) == |spec.stages| then None else Some(PassedStages(stages))
    decreases |spec.stages| - i
  {
    var k := PassedStages(stages);
    if i < k {
      assert stages[i].phase == Promoted && stages[i].name == spec.stages[i].name;
      NextFrom(spec, stages, i + 1);
    } else if k < |spec.stages| {
      forall j | 0 <= j < |stages| && stages[j].phase == Promoted
        ensures stages[j].name != spec.stages[k].name
      {
        assert j < k;
      }
    }
  }

  /** With distinct names the next stage is the one after the last that passed. */
  lemma NextIsAfterPassed(spec: Spec, stages: seq<StageStatus>)
    requires DistinctNames(spec) && Ordered(spec, stages)
    ensures NextStage(spec, stages) == if PassedStages(stages) == |spec.stages| then None else Some(PassedStages(stages))
  {
    NextFrom(spec, stages, 0);
  }

  /** Recording the current stage's entry: either it replaces the last one or it is added after the promoted ones. */
  lemma RecordCurrent(spec: Spec, stages: seq<StageStatus>, s: StageStatus)
    requires DistinctNames(spec) && Ordered(spec, stages) && PassedStages(stages) < |spec.stages|
    requires s.name == spec.stages[PassedStages(stages)].name
    ensures RecordStage(stages, s) == stages[..PassedStages(stages)] + [s]
    ensures Ordered(spec, RecordStage(stages, s)) && Keeps(stages, RecordStage(stages, s))
    ensures |stages| == PassedStages(stages) ==> StageStatusOf(stages, s.name).startedAt.None?
    ensures |stages| > PassedStages(stages) ==> StageStatusOf(stages, s.name) == stages[PassedStages(stages)]
  {
    var k := PassedStages(stages);
    if |stages| == k {
      RecordAppends(stages, s);
      NotRecorded(stages, s.name);
    } else {
      RecordReplaces(stages, s, k);
    }
  }

  // ---- Writes to routes ----

  ghost predicate OnlyAt(p: Place, before: map<Place, Route>, after: map<Place, Route>) {
    before.Keys == after.Keys && forall q :: q in before && q != p ==> after[q] == before[q]
  }

  lemma PutSplitKeeps(spec: Spec, m: Machine, k: nat, p: Place, s: Split)
    requires AllAuthorised(spec, k, m.routes)
    requires s == FULLY_INCUMBENT || (s.incumbent == 100 - s.candidate && SendsLive(spec, k, p, s.candidate))
    ensures var (m', ack) := PutSplit(m, p, s);
            && m'.status == m.status
            && OnlyAt(p, m.routes, m'.routes)
            && AllAuthorised(spec, k, m'.routes)
            && (p in m.routes ==>
                  var before, after := ViewOf(m.routes[p], p.target), ViewOf(m'.routes[p], p.target);
                  after.mirror == before.mirror && (after.split == s || after.split == before.split))
            && (ack == Okay ==> p in m.routes && ViewOf(m'.routes[p], p.target).split == s)
  {
    hide SetSplit, ViewOf;
    var m' := PutSplit(m, p, s).0;
    if p in m.routes {
      assert Authorised(spec, k, p, m.routes[p]);
      if SetSplit(m.routes[p], p.target, s).Ok? {
        AcceptedIsValid(m.routes[p], p.target, s);
        SplitReadsBack(m.routes[p], p.target, s);
      }
      assert Authorised(spec, k, p, m'.routes[p]);
    }
    assert forall q :: q in m.routes ==> Authorised(spec, k, q, m.routes[q]);
  }

  lemma AcceptedIsValid(r: Route, t: Target, s: Split)
    requires SetSplit(r, t, s).Ok?
    ensures s.Valid()
  {
  }

  lemma PutMirrorKeeps(spec: Spec, m: Machine, k: nat, p: Place, percent: int)
    requires AllAuthorised(spec, k, m.routes)
    requires percent == 0 || CopiesTo(spec, k, p, percent)
    ensures var (m', ack) := PutMirror(m, p, percent);
            && m'.status == m.status
            && OnlyAt(p, m.routes, m'.routes)
            && AllAuthorised(spec, k, m'.routes)
            && (p in m.routes ==>
                  var before, after := ViewOf(m.routes[p], p.target), ViewOf(m'.routes[p], p.target);
                  after.split == before.split && (after.mirror == percent || after.mirror == before.mirror))
            && (ack == Okay ==> p in m.routes && ViewOf(m'.routes[p], p.target).mirror == percent)
            && (ack == NotSupported && percent == 0 ==> p in m.routes && ViewOf(m'.routes[p], p.target).mirror == 0)
  {
    hide SetMirror, ViewOf;
    var m' := PutMirror(m, p, percent).0;
    if p in m.routes {
      assert Authorised(spec, k, p, m.routes[p]);
      MirrorReadsBack(m.routes[p], p.target, percent);
      assert Authorised(spec, k, p, m'.routes[p]);
    }
    assert forall q :: q in m.routes ==> Authorised(spec, k, q, m.routes[q]);
  }

  lemma EnterKeeps(spec: Spec, m: Machine, k: nat, p: Place)
    requires k < |spec.stages| && spec.stages[k].mode != OfflineReplay && spec.stages[k].traffic == Some(p)
    requires AllAuthorised(spec, k, m.routes)
    ensures var (m', ack) := Enter(m, spec.stages[k], p);
            && m'.status == m.status
            && AllAuthorised(spec, k, m'.routes)
            && (ack == Okay ==> CarriesStage(spec.stages[k], m'.routes))
  {
    hide PutSplit, PutMirror, ViewOf;
    var stage := spec.stages[k];
    if stage.mode == Shadow {
      PutSplitKeeps(spec, m, k, p, FULLY_INCUMBENT);
      PutMirrorKeeps(spec, PutSplit(m, p, FULLY_INCUMBENT).0, k, p, MirrorShare(stage));
    } else {
      PutMirrorKeeps(spec, m, k, p, 0);
      PutSplitKeeps(spec, PutMirror(m, p, 0).0, k, p, Split(100 - stage.weight, stage.weight));
    }
  }

  lemma WithdrawKeeps(spec: Spec, m: Machine, k: nat, p: Place)
    requires k < |spec.stages| && spec.stages[k].mode != OfflineReplay && spec.stages[k].traffic == Some(p)
    requires AllAuthorised(spec, k, m.routes)
    ensures var (m', ack) := Withdraw(m, p);
            && m'.status == m.status
            && AllAuthorised(spec, k, m'.routes)
            && (ack == Okay ==> Withdrawn(spec.stages[k], m'.routes))
            && (CarriesStage(spec.stages[k], m.routes) ==> CarriesStage(spec.stages[k], m'.routes))
  {
    hide PutSplit, PutMirror, ViewOf;
    PutSplitKeeps(spec, m, k, p, FULLY_INCUMBENT);
    PutMirrorKeeps(spec, PutSplit(m, p, FULLY_INCUMBENT).0, k, p, 0);
  }

  // ---- Whole reconciles ----

  /** The passes' common last step: a safe status is written, or nothing is. */
  lemma SaveKeeps(spec: Spec, m: Machine, st: Status, phase: Phase, requeue: Requeue)
    requires SafeMachine(spec, m) && Safe(spec, st.(phase := phase), m.routes)
    requires Keeps(Current(spec, m.status).stages, st.stages)
    ensures SafeMachine(spec, Save(m, st, phase, requeue).0)
    ensures Keeps(Current(spec, m.status).stages, Current(spec, Save(m, st, phase, requeue).0.status).stages)
  {
    hide Safe, Keeps;
    assert Keeps(Current(spec, m.status).stages, Current(spec, m.status).stages) by { KeepsItself(Current(spec, m.status).stages); }
    assert st.observedGeneration == spec.generation by { SafeIsCurrent(spec, st.(phase := phase), m.routes); }
  }

  lemma KeepsItself(stages: seq<StageStatus>)
    ensures Keeps(stages, stages)
  {
  }

  lemma SafeIsCurrent(spec: Spec, st: Status, routes: map<Place, Route>)
    requires Safe(spec, st, routes)
    ensures st.observedGeneration == spec.generation
  {
    hide AllAuthorised, RoutesMatch;
  }

  lemma HoldKeeps(spec: Spec, m: Machine, st: Status)
    requires SafeMachine(spec, m) && st.stages == Current(spec, m.status).stages
    requires st.observedGeneration == spec.generation && !Terminal(Current(spec, m.status).phase)
    ensures SafeMachine(spec, Hold(m, st).0)
    ensures Keeps(Current(spec, m.status).stages, Current(spec, Hold(m, st).0.status).stages)
  {
    SaveKeeps(spec, m, st, Held, Never);
  }

  /** The state in which stage k is the one to work on. */
  ghost predicate Ready(spec: Spec, m: Machine, k: nat) {
    && DistinctNames(spec) && SafeMachine(spec, m)
    && var st := Current(spec, m.status);
       !Terminal(st.phase) && k == PassedStages(st.stages) && k < |spec.stages|
  }

  ghost predicate KeptBy(spec: Spec, m: Machine, m': Machine) {
    SafeMachine(spec, m') && Keeps(Current(spec, m.status).stages, Current(spec, m'.status).stages)
  }

  lemma BeginKeeps(spec: Spec, m: Machine, k: nat, pass: Pass)
    requires Ready(spec, m, k) && spec.stages[k].mode != OfflineReplay && Admitted(spec.stages[k], pass)
    requires StageStatusOf(Current(spec, m.status).stages, spec.stages[k].name).startedAt.None?
    ensures KeptBy(spec, m, AdvanceLive(spec, m, Current(spec, m.status), k, pass).0)
  {
    hide Save, Hold, Enter, AllAuthorised, RecordStage, StageStatusOf;
    var st, stage := Current(spec, m.status), spec.stages[k];
    var p := stage.traffic.value;
    var begun := StageStatus(stage.name, Running, Some(pass.now), None, 0, false, None);
    RecordCurrent(spec, st.stages, begun);
    assert st.stages == st.stages[..k];
    EnterKeeps(spec, m, k, p);
    var (m1, ack) := Enter(m, stage, p);
    if ack == Okay {
      SaveKeeps(spec, m1, st.(stages := RecordStage(st.stages, begun)), Running, After(POLL_INTERVAL));
    } else if ack != Crashed {
      HoldKeeps(spec, m1, st);
    }
  }

  lemma RollBackKeeps(spec: Spec, m: Machine, k: nat, gone: StageStatus)
    requires Ready(spec, m, k) && k < |Current(spec, m.status).stages|
    requires gone.name == spec.stages[k].name && gone.phase == WavedOff && gone.rolledBack
    requires spec.stages[k].mode != OfflineReplay && spec.stages[k].traffic.Some?
    ensures var st, (m1, ack) := Current(spec, m.status), Withdraw(m, spec.stages[k].traffic.value);
            && KeptBy(spec, m, m1)
            && KeptBy(spec, m, Hold(m1, st).0)
            && (ack == Okay ==> KeptBy(spec, m, Save(m1, st.(stages := RecordStage(st.stages, gone)), WavedOff, Never).0))
  {
    hide Save, Hold, Withdraw, AllAuthorised, RecordStage, StageStatusOf;
    var st, p := Current(spec, m.status), spec.stages[k].traffic.value;
    WithdrawKeeps(spec, m, k, p);
    var (m1, ack) := Withdraw(m, p);
    RecordCurrent(spec, st.stages, gone);
    HoldKeeps(spec, m1, st);
    if ack == Okay {
      SaveKeeps(spec, m1, st.(stages := RecordStage(st.stages, gone)), WavedOff, Never);
    }
  }

  /** Recording a passed stage leaves a safe status, final after the last stage. */
  lemma PassedSafe(spec: Spec, m: Machine, k: nat, passed: StageStatus)
    requires Ready(spec, m, k)
    requires passed.name == spec.stages[k].name && passed.phase == Promoted && !passed.rolledBack
    ensures var st := Current(spec, m.status);
            var st' := st.(stages := RecordStage(st.stages, passed));
            && Keeps(st.stages, st'.stages)
            && Safe(spec, st'.(phase := if k == |spec.stages| - 1 then Promoted else Running), m.routes)
  {
    hide Authorised, RecordStage, StageStatusOf;
    var st := Current(spec, m.status);
    RecordCurrent(spec, st.stages, passed);
    AuthorisedLater(spec, k, k + 1, m.routes);
  }

  lemma PromoteKeeps(spec: Spec, m: Machine, k: nat, passed: StageStatus)
    requires Ready(spec, m, k)
    requires passed.name == spec.stages[k].name && passed.phase == Promoted && !passed.rolledBack
    ensures var st := Current(spec, m.status);
            var st' := st.(stages := RecordStage(st.stages, passed));
            && (k == |spec.stages| - 1 ==> KeptBy(spec, m, Save(m, st', Promoted, Never).0))
            && (k < |spec.stages| - 1 ==> KeptBy(spec, m, Save(m, st', Running, Immediately).0))
  {
    hide Save, Safe, RecordStage, Keeps;
    var st := Current(spec, m.status);
    var st' := st.(stages := RecordStage(st.stages, passed));
    PassedSafe(spec, m, k, passed);
    if k == |spec.stages| - 1 {
      SaveKeeps(spec, m, st', Promoted, Never);
    } else {
      SaveKeeps(spec, m, st', Running, Immediately);
    }
  }

  /** Noting a new share leaves a safe status. */
  lemma SeenSafe(spec: Spec, st: Status, routes: map<Place, Route>, k: nat, seen: StageStatus)
    requires DistinctNames(spec) && Safe(spec, st, routes) && !Terminal(st.phase)
    requires k == PassedStages(st.stages) && k < |st.stages| && seen == st.stages[k].(weight := seen.weight)
    ensures var st' := st.(stages := RecordStage(st.stages, seen), phase := Running);
            Keeps(st.stages, st'.stages) && Safe(spec, st', routes)
  {
    hide Shape, AllAuthorised, RoutesMatch, RecordStage, StageStatusOf, Keeps;
    SeenShape(spec, st, k, seen);
    RecordCurrent(spec, st.stages, seen);
    assert RecordStage(st.stages, seen) == st.stages[k := seen];
    SeenMatches(spec, st, routes, k, seen);
  }

  lemma SeenShape(spec: Spec, st: Status, k: nat, seen: StageStatus)
    requires Shape(spec, st) && !Terminal(st.phase)
    requires k == PassedStages(st.stages) && k < |st.stages| && seen == st.stages[k].(weight := seen.weight)
    ensures Ordered(spec, st.stages) && |st.stages| == k + 1 <= |spec.stages| && seen.name == spec.stages[k].name
    ensures Shape(spec, st.(stages := st.stages[k := seen], phase := Running))
    ensures PassedStages(st.stages[k := seen]) == k
  {
  }

  lemma SeenMatches(spec: Spec, st: Status, routes: map<Place, Route>, k: nat, seen: StageStatus)
    requires Ordered(spec, st.stages) && |st.stages| == k + 1 && seen == st.stages[k].(weight := seen.weight)
    requires Ordered(spec, st.stages[k := seen]) && RoutesMatch(spec, st, routes)
    ensures RoutesMatch(spec, st.(stages := st.stages[k := seen], phase := Running), routes)
  {
    hide Ordered, Withdrawn, CarriesStage;
  }

  lemma ContinueKeeps(spec: Spec, m: Machine, k: nat, seen: StageStatus, requeue: Requeue)
    requires Ready(spec, m, k) && k < |Current(spec, m.status).stages|
    requires seen == Current(spec, m.status).stages[k].(weight := seen.weight)
    ensures var st := Current(spec, m.status);
            KeptBy(spec, m, Save(m, st.(stages := RecordStage(st.stages, seen)), Running, requeue).0)
  {
    hide Save, Safe, RecordStage, Keeps;
    var st := Current(spec, m.status);
    SeenSafe(spec, st, m.routes, k, seen);
    SaveKeeps(spec, m, st.(stages := RecordStage(st.stages, seen)), Running, requeue);
  }

  lemma AdvanceLiveKeeps(spec: Spec, m: Machine, k: nat, pass: Pass)
    requires Ready(spec, m, k) && spec.stages[k].mode != OfflineReplay
    ensures KeptBy(spec, m, AdvanceLive(spec, m, Current(spec, m.status), k, pass).0)
  {
    hide Save, Hold, Enter, Withdraw, Advance, AllAuthorised, RecordStage, StageStatusOf;
    var st, stage := Current(spec, m.status), spec.stages[k];
    HoldKeeps(spec, m, st);
    if !Admitted(stage, pass) {
      return;
    }
    var entry := StageStatusOf(st.stages, stage.name);
    if entry.startedAt.None? {
      BeginKeeps(spec, m, k, pass);
      return;
    }
    RecordCurrent(spec, st.stages, entry.(name := stage.name));
    var advanced := Advance(spec, stage, m.routes, stage.traffic.value, pass, entry.startedAt.value);
    if advanced.Ok? {
      var seen := entry.(weight := advanced.value.weight);
      match advanced.value.outcome
      case RollBack(trigger) =>
        RollBackKeeps(spec, m, k, seen.(phase := WavedOff, rolledBack := true, trigger := Some(trigger),
                                        finishedAt := Some(pass.now)));
      case PromoteStage =>
        PromoteKeeps(spec, m, k, seen.(phase := Promoted, finishedAt := Some(pass.now)));
      case Continue =>
        ContinueKeeps(spec, m, k, seen, advanced.value.requeue);
    }
  }

  lemma AuthorisedLater(spec: Spec, k: nat, l: nat, routes: map<Place, Route>)
    requires k <= l && AllAuthorised(spec, k, routes)
    ensures AllAuthorised(spec, l, routes)
  {
    forall p | p in routes
      ensures Authorised(spec, l, p, routes[p])
    {
      assert Authorised(spec, k, p, routes[p]);
    }
  }

  lemma RunOfflineKeeps(spec: Spec, m: Machine, k: nat, pass: Pass)
    requires Ready(spec, m, k) && spec.stages[k].mode == OfflineReplay
    ensures KeptBy(spec, m, RunOffline(spec, m, Current(spec, m.status), k, pass).0)
  {
    hide Save, Hold, AllAuthorised, RecordStage, StageStatusOf;
    var st := Current(spec, m.status);
    assert st.stages == st.stages[..k];
    SaveKeeps(spec, m, st, Running, Never);
    var (m1, c) := Save(m, st, Running, Never);
    if !c.Finished? {
      return;
    }
    SavedIsCurrent(spec, m, st, Running, Never);
    if pass.offline.Err? {
      HoldKeeps(spec, m1, st);
      return;
    }
    var phase := PhaseOf(pass.offline.value);
    var entry := StageStatus(spec.stages[k].name, phase, Some(pass.now), Some(pass.now), 0, false, None);
    if phase == Promoted {
      PromoteKeeps(spec, m1, k, entry);
      SameStages(m1, Current(spec, m1.status), st, RecordStage(st.stages, entry));
    } else {
      RecordCurrent(spec, st.stages, entry);
      SaveKeeps(spec, m1, st.(stages := RecordStage(st.stages, entry)), phase, Never);
    }
  }

  lemma SavedIsCurrent(spec: Spec, m: Machine, st: Status, phase: Phase, requeue: Requeue)
    requires st.observedGeneration == spec.generation && Save(m, st, phase, requeue).1.Finished?
    ensures var m' := Save(m, st, phase, requeue).0;
            Current(spec, m'.status) == st.(phase := phase) && m'.routes == m.routes
  {
  }

  /** A save writes its own phase, so two statuses that differ only in phase are saved alike. */
  lemma SameStages(m: Machine, one: Status, other: Status, stages: seq<StageStatus>)
    requires one.observedGeneration == other.observedGeneration
    ensures forall phase, requeue ::
              Save(m, one.(stages := stages), phase, requeue) == Save(m, other.(stages := stages), phase, requeue)
  {
  }

  /** Any reconcile, cut short anywhere, keeps everything above and loses no promoted stage. */
  lemma ReconcileKeeps(spec: Spec, m: Machine, pass: Pass)
    requires DistinctNames(spec) && SafeMachine(spec, m)
    ensures KeptBy(spec, m, Reconcile(spec, m, pass).0)
  {
    hide Save, Hold, AdvanceLive, RunOffline, NextStage, AllAuthorised;
    if Terminal(m.status.phase) && m.status.observedGeneration == spec.generation {
      return;
    }
    var st := Current(spec, m.status);
    NextIsAfterPassed(spec, st.stages);
    var k := PassedStages(st.stages);
    if !pass.manifestsFound {
      HoldKeeps(spec, m, st);
    } else if k == |spec.stages| {
      SaveKeeps(spec, m, st, Promoted, Never);
    } else if spec.stages[k].mode != OfflineReplay {
      AdvanceLiveKeeps(spec, m, k, pass);
    } else {
      RunOfflineKeeps(spec, m, k, pass);
    }
  }

  // ---- Whole runs ----

  /** The generation is new to the controller, and the incumbent has all of every route, whichever router holds it. */
  ghost predicate Fresh(spec: Spec, w: World) {
    && w.status.observedGeneration != spec.generation
    && forall p :: p in w.routes ==> Usable(w.routes[p], p.target) && ViewOf(w.routes[p], p.target) == View(FULLY_INCUMBENT, 0)
  }

  lemma LeavesKeeps(spec: Spec, w: World, a: Attempt)
    requires DistinctNames(spec) && Safe(spec, Current(spec, w.status), w.routes)
    ensures var w' := Leaves(spec, w, a);
            && Safe(spec, Current(spec, w'.status), w'.routes)
            && Keeps(Current(spec, w.status).stages, Current(spec, w'.status).stages)
  {
    hide Reconcile, Safe;
    ReconcileKeeps(spec, Machine(w.routes, w.status, a.replies), a.pass);
  }

  lemma {:induction false} RunsAreSafe(spec: Spec, w: World, attempts: seq<Attempt>)
    requires DistinctNames(spec) && Fresh(spec, w)
    ensures var w' := AfterAll(spec, w, attempts); Safe(spec, Current(spec, w'.status), w'.routes)
  {
    hide Leaves;
    if attempts != [] {
      RunsAreSafe(spec, w, attempts[..|attempts| - 1]);
      LeavesKeeps(spec, AfterAll(spec, w, attempts[..|attempts| - 1]), attempts[|attempts| - 1]);
    }
  }

  /** In every run, a rollout reads Promoted only when every stage of the spec has its own promoted entry, in order. */
  lemma PromotedMeansEveryStage(spec: Spec, w: World, attempts: seq<Attempt>)
    requires DistinctNames(spec) && Fresh(spec, w)
    ensures var st := Current(spec, AfterAll(spec, w, attempts).status);
            st.phase == Promoted ==>
              && |st.stages| == |spec.stages|
              && forall i :: 0 <= i < |spec.stages| ==>
                   st.stages[i].name == spec.stages[i].name && st.stages[i].phase == Promoted
  {
    hide AfterAll, AllAuthorised, RoutesMatch, Fresh, Current;
    RunsAreSafe(spec, w, attempts);
  }

  lemma {:induction false} AfterMore(spec: Spec, w: World, first: seq<Attempt>, more: seq<Attempt>)
    ensures AfterAll(spec, w, first + more) == AfterAll(spec, AfterAll(spec, w, first), more)
  {
    if more == [] {
      assert first + more == first;
    } else {
      AfterMore(spec, w, first, more[..|more| - 1]);
      assert (first + more)[..|first + more| - 1] == first + more[..|more| - 1];
    }
  }

  lemma KeepsTrans(a: seq<StageStatus>, b: seq<StageStatus>, c: seq<StageStatus>)
    requires Keeps(a, b) && Keeps(b, c)
    ensures Keeps(a, c)
  {
    var k := PassedStages(a);
    assert a[..k] == b[..PassedStages(b)][..k] == c[..k];
  }

  /** Promoted entries survive, unchanged, whatever follows. */
  lemma {:induction false} PromotionsPersist(spec: Spec, w: World, first: seq<Attempt>, more: seq<Attempt>)
    requires DistinctNames(spec) && Fresh(spec, w)
    ensures Keeps(Current(spec, AfterAll(spec, w, first).status).stages,
                  Current(spec, AfterAll(spec, w, first + more).status).stages)
  {
    hide Leaves, Safe;
    if more == [] {
      assert first + more == first;
    } else {
      var front := first + more[..|more| - 1];
      PromotionsPersist(spec, w, first, more[..|more| - 1]);
      assert (first + more)[..|first + more| - 1] == front;
      RunsAreSafe(spec, w, front);
      LeavesKeeps(spec, AfterAll(spec, w, front), more[|more| - 1]);
      KeepsTrans(Current(spec, AfterAll(spec, w, first).status).stages, Current(spec, AfterAll(spec, w, front).status).stages,
                 Current(spec, AfterAll(spec, w, first + more).status).stages);
    }
  }

  ghost predicate RolledBack(spec: Spec, st: Status, i: nat) {
    st.observedGeneration == spec.generation && i < |st.stages| && st.stages[i].rolledBack
  }

  lemma {:induction false} TerminalStays(spec: Spec, w: World, more: seq<Attempt>)
    requires w.status.observedGeneration == spec.generation && Terminal(w.status.phase)
    ensures AfterAll(spec, w, more) == w
  {
    if more != [] {
      TerminalStays(spec, w, more[..|more| - 1]);
    }
  }

  /** In every run, once a stage is recorded as rolled back its route is wholly the incumbent's with no copies, and
      nothing that follows in this generation changes any route or the status. */
  lemma RollbackIsFinal(spec: Spec, w: World, attempts: seq<Attempt>, i: nat, more: seq<Attempt>)
    requires DistinctNames(spec) && Fresh(spec, w)
    requires RolledBack(spec, AfterAll(spec, w, attempts).status, i)
    ensures var w' := AfterAll(spec, w, attempts);
            && i < |spec.stages| && Withdrawn(spec.stages[i], w'.routes)
            && AfterAll(spec, w, attempts + more) == w'
  {
    RunsAreSafe(spec, w, attempts);
    AfterMore(spec, w, attempts, more);
    TerminalStays(spec, AfterAll(spec, w, attempts), more);
  }

  predicate MovesTraffic(s: Stage) { s.mode != OfflineReplay && s.traffic.Some? }

  /** The traffic-moving stages up to i all share one place. */
  ghost predicate OneRoute(spec: Spec, i: nat) {
    forall j, k ::
      (0 <= j < |spec.stages| && 0 <= k < |spec.stages| && j <= i && k <= i
       && MovesTraffic(spec.stages[j]) && MovesTraffic(spec.stages[k])) ==>
        spec.stages[j].traffic == spec.stages[k].traffic
  }

  /** When the traffic-moving stages up to the one rolled back all share one place, the rollback clears every route. */
  lemma RollbackClearsSharedRoute(spec: Spec, w: World, attempts: seq<Attempt>, i: nat, p: Place)
    requires DistinctNames(spec) && Fresh(spec, w)
    requires RolledBack(spec, AfterAll(spec, w, attempts).status, i)
    requires OneRoute(spec, i)
    requires p in AfterAll(spec, w, attempts).routes
    ensures Carries(AfterAll(spec, w, attempts).routes, p, View(FULLY_INCUMBENT, 0))
  {
    hide AfterAll;
    var w' := AfterAll(spec, w, attempts);
    RunsAreSafe(spec, w, attempts);
    var stages := w'.status.stages;
    assert Authorised(spec, PassedStages(stages), p, w'.routes[p]);
    var q := spec.stages[i].traffic.value;
    if p != q {
      forall j, share | j <= i
        ensures !SendsLive(spec, j, p, share) && !CopiesTo(spec, j, p, share)
      {
      }
    }
  }
}
