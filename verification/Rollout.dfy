/** One reconcile of a rollout (`internal/rollout/controller.go`, `internal/rollout/live.go`) as a function of the
    persisted status, the routes, and what the environment answers.

    Every write to a route or to status consumes one reply. When the replies run out the process dies there, so
    the machine left by a pass with a truncated list of replies is exactly what a crash leaves behind. */
module Rollout {
  import opened Basics
  import opened Missingness
  import opened Analysis
  import opened Traffic
  import opened Routing

  // ---- The rollout object ----

  datatype Mode = OfflineReplay | Shadow | Live

  datatype Router = GatewayApi | IstioMesh | UnknownRouter

  /** A stage's traffic block: which router, and the route and backends it controls. */
  datatype Place = Place(router: Router, target: Target)

  datatype Stage = Stage(name: string, mode: Mode, primary: Metric, guardrails: seq<Metric>, traffic: Option<Place>,
                         weight: int, mirrorPercent: int, minObservationWindow: Option<int>, maxDuration: Option<int>)

  datatype Trigger = GateFail | GuardrailViolation | BudgetBreach | WriteDivergence | AnalyzerUnavailable

  datatype Rollback = Rollback(auto: bool, triggers: seq<Trigger>) {
    predicate Fires(t: Trigger) {
      auto && (triggers == [] || t in triggers)
    }
  }

  datatype Spec = Spec(generation: int, stages: seq<Stage>, rollback: Rollback)

  datatype Phase = Unset | Running | Promoted | WavedOff | Held | Failed

  predicate Terminal(p: Phase) { p == Promoted || p == WavedOff || p == Held || p == Failed }

  datatype StageStatus = StageStatus(name: string, phase: Phase, startedAt: Option<int>, finishedAt: Option<int>,
                                     weight: int, rolledBack: bool, trigger: Option<Trigger>)

  datatype Status = Status(phase: Phase, stages: seq<StageStatus>, observedGeneration: int)

  // ---- The outside world ----

  /** `Lost`: the write took effect but its answer did not arrive. */
  datatype Reply = Done | Refused | Lost

  datatype Machine = Machine(routes: map<Place, Route>, status: Status, replies: seq<Reply>)

  datatype Ack = Okay | Failure | NotSupported | Crashed

  datatype Activity = NoSource | Unavailable | Finding(violated: bool)

  /** What one reconcile reads from everything but the rollout object and the routes. */
  datatype Pass = Pass(now: int, manifestsFound: bool, sourcesFound: bool, sticky: bool, offline: Result<Outcome>,
                       splitReadable: bool, activity: Activity, observations: Result<seq<Observation>>, missing: Counts,
                       verdict: Result<Verdict>)

  datatype Requeue = Never | Immediately | After(seconds: int)

  datatype Conclusion = Finished(requeue: Requeue) | Errored | Died

  const POLL_INTERVAL := 30

  // ---- Single writes ----

  function PutSplit(m: Machine, p: Place, s: Split): (Machine, Ack) {
    if m.replies == [] then (m, Crashed)
    else
      var rest := m.(replies := m.replies[1..]);
      if p !in m.routes || m.replies[0] == Refused then (rest, Failure)
      else match SetSplit(m.routes[p], p.target, s)
        case Err => (rest, Failure)
        case Ok(route) => (rest.(routes := m.routes[p := route]), if m.replies[0] == Done then Okay else Failure)
  }

  function PutMirror(m: Machine, p: Place, percent: int): (Machine, Ack) {
    if m.replies == [] then (m, Crashed)
    else
      var rest := m.(replies := m.replies[1..]);
      if p !in m.routes || m.replies[0] == Refused then (rest, Failure)
      else match SetMirror(m.routes[p], p.target, percent)
        case Unsupported => (rest, NotSupported)
        case Impossible => (rest, Failure)
        case Changed(route) => (rest.(routes := m.routes[p := route]), if m.replies[0] == Done then Okay else Failure)
  }

  function PutStatus(m: Machine, st: Status): (Machine, Ack) {
    if m.replies == [] then (m, Crashed)
    else
      var rest := m.(replies := m.replies[1..]);
      if m.replies[0] == Refused then (rest, Failure)
      else (rest.(status := st), if m.replies[0] == Done then Okay else Failure)
  }

  // ---- Status bookkeeping ----

  /** Write the status under a new phase and stop there. */
  function Save(m: Machine, st: Status, phase: Phase, requeue: Requeue): (Machine, Conclusion) {
    var (m', ack) := PutStatus(m, st.(phase := phase));
    (m', if ack == Okay then Finished(requeue) else if ack == Crashed then Died else Errored)
  }

  function Hold(m: Machine, st: Status): (Machine, Conclusion) { Save(m, st, Held, Never) }

  function RecordStage(stages: seq<StageStatus>, s: StageStatus): seq<StageStatus> {
    if stages == [] then [s]
    else if stages[0].name == s.name then [s] + stages[1..]
    else [stages[0]] + RecordStage(stages[1..], s)
  }

  function StageStatusOf(stages: seq<StageStatus>, name: string): StageStatus {
    if stages == [] then StageStatus(name, Unset, None, None, 0, false, None)
    else if stages[0].name == name then stages[0]
    else StageStatusOf(stages[1..], name)
  }

  predicate PromotedName(stages: seq<StageStatus>, name: string) {
    exists i :: 0 <= i < |stages| && stages[i].phase == Promoted && stages[i].name == name
  }

  /** The first stage without a promoted entry of its name, or none. */
  function NextStageFrom(spec: Spec, stages: seq<StageStatus>, i: nat): (next: Option<nat>)
    requires i <= |spec.stages|
    ensures next.Some? ==> i <= next.value < |spec.stages|
    decreases |spec.stages| - i
  {
    if i == |spec.stages| then None
    else if !PromotedName(stages, spec.stages[i].name) then Some(i)
    else NextStageFrom(spec, stages, i + 1)
  }

  function NextStage(spec: Spec, stages: seq<StageStatus>): (next: Option<nat>)
    ensures next.Some? ==> next.value < |spec.stages|
  {
    NextStageFrom(spec, stages, 0)
  }

  /** The status a reconcile works on: a status for another generation starts again. */
  function Current(spec: Spec, st: Status): Status {
    if st.observedGeneration == spec.generation then st else Status(Unset, [], spec.generation)
  }

  // ---- Moving traffic ----

  function MirrorShare(stage: Stage): int { if stage.mirrorPercent == 0 then 100 else stage.mirrorPercent }

  function Enter(m: Machine, stage: Stage, p: Place): (Machine, Ack) {
    match stage.mode
    case Shadow =>
      var (m1, ack) := PutSplit(m, p, FULLY_INCUMBENT);
      if ack != Okay then (m1, ack) else PutMirror(m1, p, MirrorShare(stage))
    case Live =>
      var (m1, ack) := PutMirror(m, p, 0);
      if ack != Okay && ack != NotSupported then (m1, ack)
      else PutSplit(m1, p, Split(100 - stage.weight, stage.weight))
    case OfflineReplay => (m, Failure)
  }

  function Withdraw(m: Machine, p: Place): (Machine, Ack) {
    var (m1, ack) := PutSplit(m, p, FULLY_INCUMBENT);
    if ack != Okay then (m1, ack)
    else
      var (m2, ack2) := PutMirror(m1, p, 0);
      (m2, if ack2 == NotSupported then Okay else ack2)
  }

  // ---- One step of a live or shadow stage ----

  datatype StepOutcome = Continue | PromoteStage | RollBack(trigger: Trigger)

  datatype Step = Step(outcome: StepOutcome, weight: int, requeue: Requeue)

  /** Which trigger a wave-off pulls: any inferior guardrail outranks the primary. */
  function WaveOffTrigger(v: Verdict): Trigger {
    if exists i :: 0 <= i < |v.guardrails| && v.guardrails[i].inferior then GuardrailViolation else GateFail
  }

  function Advance(spec: Spec, stage: Stage, routes: map<Place, Route>, p: Place, pass: Pass, startedAt: int): Result<Step> {
    if p !in routes || !pass.splitReadable || ReadSplit(routes[p], p.target).Err? then Err
    else
      var step := Step(Continue, ReadSplit(routes[p], p.target).value.candidate, After(POLL_INTERVAL));
      var elapsed := pass.now - startedAt;
      if stage.maxDuration.Some? && elapsed > stage.maxDuration.value then Ok(step.(outcome := RollBack(BudgetBreach)))
      else if pass.activity.Unavailable? then Err
      else if pass.activity.Finding? && pass.activity.violated && spec.rollback.Fires(WriteDivergence) then
        Ok(step.(outcome := RollBack(WriteDivergence)))
      else if pass.observations.Err? then Err
      else if pass.observations.value == [] then Ok(step)
      else if pass.verdict.Err? then
        if spec.rollback.Fires(AnalyzerUnavailable) then Ok(step.(outcome := RollBack(AnalyzerUnavailable))) else Err
      else match pass.verdict.value.outcome
        case WaveOff =>
          var trigger := WaveOffTrigger(pass.verdict.value);
          if spec.rollback.Fires(trigger) then Ok(step.(outcome := RollBack(trigger))) else Ok(step.(requeue := Never))
        case Promote =>
          if stage.minObservationWindow.Some? && elapsed < stage.minObservationWindow.value then Ok(step)
          else Ok(step.(outcome := PromoteStage))
        case Inconclusive => Ok(step)
  }

  /** Everything that must hold before a live stage is allowed to touch traffic. */
  predicate Admitted(stage: Stage, pass: Pass) {
    && pass.sourcesFound
    && stage.traffic.Some? && stage.traffic.value.router != UnknownRouter
    && (stage.mode == Live ==> stage.primary.test == SequentialTest && pass.sticky)
  }

  function AdvanceLive(spec: Spec, m: Machine, st: Status, index: nat, pass: Pass): (Machine, Conclusion)
    requires index < |spec.stages|
  {
    var stage := spec.stages[index];
    if !Admitted(stage, pass) then Hold(m, st)
    else
      var p := stage.traffic.value;
      var entry := StageStatusOf(st.stages, stage.name);
      if entry.startedAt.None? then
        var (m1, ack) := Enter(m, stage, p);
        if ack == Crashed then (m1, Died)
        else if ack != Okay then Hold(m1, st)
        else
          var begun := StageStatus(stage.name, Running, Some(pass.now), None, 0, false, None);
          Save(m1, st.(stages := RecordStage(st.stages, begun)), Running, After(POLL_INTERVAL))
      else
        var advanced := Advance(spec, stage, m.routes, p, pass, entry.startedAt.value);
        if advanced.Err? then Hold(m, st)
        else
          var step := advanced.value;
          var seen := entry.(weight := step.weight);
          match step.outcome
          case RollBack(trigger) =>
            var (m1, ack) := Withdraw(m, p);
            if ack == Crashed then (m1, Died)
            else if ack != Okay then Hold(m1, st)
            else
              var gone := seen.(phase := WavedOff, rolledBack := true, trigger := Some(trigger), finishedAt := Some(pass.now));
              Save(m1, st.(stages := RecordStage(st.stages, gone)), WavedOff, Never)
          case PromoteStage =>
            var passed := seen.(phase := Promoted, finishedAt := Some(pass.now));
            var st' := st.(stages := RecordStage(st.stages, passed));
            if index == |spec.stages| - 1 then Save(m, st', Promoted, Never) else Save(m, st', Running, Immediately)
          case Continue =>
            Save(m, st.(stages := RecordStage(st.stages, seen)), Running, step.requeue)
  }

  // ---- A whole reconcile ----

  function PhaseOf(o: Outcome): Phase {
    match o
    case Promote => Promoted
    case WaveOff => WavedOff
    case Inconclusive => Held
  }

  function RunOffline(spec: Spec, m: Machine, st: Status, index: nat, pass: Pass): (Machine, Conclusion)
    requires index < |spec.stages|
  {
    var (m1, c) := Save(m, st, Running, Never);
    if !c.Finished? then (m1, c)
    else if pass.offline.Err? then Hold(m1, st)
    else
      var phase := PhaseOf(pass.offline.value);
      var entry := StageStatus(spec.stages[index].name, phase, Some(pass.now), Some(pass.now), 0, false, None);
      var st' := st.(stages := RecordStage(st.stages, entry));
      if phase == Promoted && index != |spec.stages| - 1 then Save(m1, st', Running, Immediately)
      else Save(m1, st', phase, Never)
  }

  function Reconcile(spec: Spec, m: Machine, pass: Pass): (Machine, Conclusion) {
    if Terminal(m.status.phase) && m.status.observedGeneration == spec.generation then (m, Finished(Never))
    else
      var st := Current(spec, m.status);
      if !pass.manifestsFound then Hold(m, st)
      else
        var next := NextStage(spec, st.stages);
        if next.None? then Save(m, st, Promoted, Never)
        else if spec.stages[next.value].mode != OfflineReplay then AdvanceLive(spec, m, st, next.value, pass)
        else RunOffline(spec, m, st, next.value, pass)
  }

  // ---- Runs ----

  datatype World = World(routes: map<Place, Route>, status: Status)

  /** One attempt to reconcile: what it reads, and the replies its writes get before the process dies, if it does. */
  datatype Attempt = Attempt(pass: Pass, replies: seq<Reply>)

  function Leaves(spec: Spec, w: World, a: Attempt): World {
    var m := Reconcile(spec, Machine(w.routes, w.status, a.replies), a.pass).0;
    World(m.routes, m.status)
  }

  predicate Completes(spec: Spec, w: World, a: Attempt) {
    Reconcile(spec, Machine(w.routes, w.status, a.replies), a.pass).1.Finished?
  }

  function AfterAll(spec: Spec, w: World, attempts: seq<Attempt>): World {
    if attempts == [] then w else Leaves(spec, AfterAll(spec, w, attempts[..|attempts| - 1]), attempts[|attempts| - 1])
  }
}
