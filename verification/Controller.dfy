/** The controller as it runs: an in-memory rollout that is edited in place, and a cluster that answers each write. */
module Controller {
  import opened Basics
  import opened Analysis
  import opened Traffic
  import Routing
  import R = Rollout

  /** The rollout a reconcile holds in memory. */
  class RolloutObject {
    var phase: R.Phase
    var stages: seq<R.StageStatus>
    var observedGeneration: int

    constructor (st: R.Status)
      ensures Status() == st
    {
      phase, stages, observedGeneration := st.phase, st.stages, st.observedGeneration;
    }

    function Status(): R.Status
      reads this
    {
      R.Status(phase, stages, observedGeneration)
    }

    /** Replace the entry of that name, or append one. */
    method RecordStage(s: R.StageStatus)
      modifies this`stages
      ensures stages == R.RecordStage(old(stages), s)
    {
      var i := 0;
      while i < |stages|
        invariant 0 <= i <= |stages| && stages == old(stages)
        invariant R.RecordStage(old(stages), s) == stages[..i] + R.RecordStage(stages[i..], s)
      {
        if stages[i].name == s.name {
          assert stages[i..][1..] == stages[i + 1..];
          stages := stages[i := s];
          return;
        }
        assert stages[i..][1..] == stages[i + 1..] && stages[..i + 1] == stages[..i] + [stages[i]];
        i := i + 1;
      }
      assert stages[i..] == [] && stages[..i] == stages;
      stages := stages + [s];
    }

    method StageStatus(name: string) returns (s: R.StageStatus, started: bool)
      ensures s == R.StageStatusOf(stages, name) && started == s.startedAt.Some?
    {
      var i := 0;
      while i < |stages|
        invariant 0 <= i <= |stages|
        invariant R.StageStatusOf(stages, name) == R.StageStatusOf(stages[i..], name)
      {
        if stages[i].name == name {
          return stages[i], stages[i].startedAt.Some?;
        }
        assert stages[i..][1..] == stages[i + 1..];
        i := i + 1;
      }
      assert stages[i..] == [];
      return R.StageStatus(name, R.Unset, None, None, 0, false, None), false;
    }

    method NextStage(spec: R.Spec) returns (next: int)
      ensures next == match R.NextStage(spec, stages) case Some(i) => i case None => -1
    {
      var done: set<string> := {};
      for i := 0 to |stages|
        invariant forall name :: name in done <==> R.PromotedName(stages[..i], name)
      {
        var before := done;
        if stages[i].phase == R.Promoted {
          done := done + {stages[i].name};
        }
        forall name
          ensures name in done <==> R.PromotedName(stages[..i + 1], name)
        {
          assert R.PromotedName(stages[..i + 1], name) <==>
                 R.PromotedName(stages[..i], name) || (stages[i].phase == R.Promoted && stages[i].name == name) by {
            if R.PromotedName(stages[..i], name) {
              var k :| 0 <= k < i && stages[..i][k].phase == R.Promoted && stages[..i][k].name == name;
              assert stages[..i + 1][k] == stages[..i][k];
            }
            assert stages[..i + 1][i] == stages[i];
            if R.PromotedName(stages[..i + 1], name) {
              var k :| 0 <= k < i + 1 && stages[..i + 1][k].phase == R.Promoted && stages[..i + 1][k].name == name;
              assert k < i ==> stages[..i][k] == stages[..i + 1][k];
            }
          }
        }
      }
      assert stages[..|stages|] == stages;
      for i := 0 to |spec.stages|
        invariant R.NextStage(spec, stages) == R.NextStageFrom(spec, stages, i)
      {
        if spec.stages[i].name !in done {
          return i;
        }
      }
      return -1;
    }
  }

  /** The durable state, the routes, and the answers the API server has yet to give. */
  class Cluster {
    var routes: map<R.Place, Routing.Route>
    var status: R.Status
    var replies: seq<R.Reply>

    function State(): R.Machine
      reads this
    {
      R.Machine(routes, status, replies)
    }

    method SetSplit(p: R.Place, s: Split) returns (ack: R.Ack)
      modifies this
      ensures (State(), ack) == R.PutSplit(old(State()), p, s)
    {
      if |replies| == 0 {
        return R.Crashed;
      }
      var reply := replies[0];
      replies := replies[1..];
      if p !in routes || reply == R.Refused {
        return R.Failure;
      }
      var edited := Routing.SetSplit(routes[p], p.target, s);
      if edited.Err? {
        return R.Failure;
      }
      routes := routes[p := edited.value];
      return if reply == R.Done then R.Okay else R.Failure;
    }

    method SetMirror(p: R.Place, percent: int) returns (ack: R.Ack)
      modifies this
      ensures (State(), ack) == R.PutMirror(old(State()), p, percent)
    {
      if |replies| == 0 {
        return R.Crashed;
      }
      var reply := replies[0];
      replies := replies[1..];
      if p !in routes || reply == R.Refused {
        return R.Failure;
      }
      match Routing.SetMirror(routes[p], p.target, percent)
      case Unsupported => return R.NotSupported;
      case Impossible => return R.Failure;
      case Changed(route) => routes := routes[p := route];
      return if reply == R.Done then R.Okay else R.Failure;
    }

    method WriteStatus(rollout: RolloutObject, phase: R.Phase, requeue: R.Requeue) returns (c: R.Conclusion)
      modifies this, rollout
      ensures rollout.Status() == old(rollout.Status()).(phase := phase)
      ensures (State(), c) == R.Save(old(State()), old(rollout.Status()), phase, requeue)
    {
      rollout.phase := phase;
      if |replies| == 0 {
        return R.Died;
      }
      var reply := replies[0];
      replies := replies[1..];
      if reply == R.Refused {
        return R.Errored;
      }
      status := rollout.Status();
      return if reply == R.Done then R.Finished(requeue) else R.Errored;
    }

    method Hold(rollout: RolloutObject) returns (c: R.Conclusion)
      modifies this, rollout
      ensures (State(), c) == R.Hold(old(State()), old(rollout.Status()))
    {
      c := WriteStatus(rollout, R.Held, R.Never);
    }

    method Enter(stage: R.Stage, p: R.Place) returns (ack: R.Ack)
      modifies this
      ensures (State(), ack) == R.Enter(old(State()), stage, p)
    {
      match stage.mode
      case Shadow =>
        ack := SetSplit(p, FULLY_INCUMBENT);
        if ack != R.Okay {
          return;
        }
        var percent := stage.mirrorPercent;
        if percent == 0 {
          percent := 100;
        }
        ack := SetMirror(p, percent);
      case Live =>
        ack := SetMirror(p, 0);
        if ack != R.Okay && ack != R.NotSupported {
          return;
        }
        ack := SetSplit(p, Split(100 - stage.weight, stage.weight));
      case OfflineReplay =>
        ack := R.Failure;
    }

    method Withdraw(p: R.Place) returns (ack: R.Ack)
      modifies this
      ensures (State(), ack) == R.Withdraw(old(State()), p)
    {
      ack := SetSplit(p, FULLY_INCUMBENT);
      if ack != R.Okay {
        return;
      }
      ack := SetMirror(p, 0);
      if ack == R.NotSupported {
        ack := R.Okay;
      }
    }

    method AdvanceLive(spec: R.Spec, rollout: RolloutObject, index: nat, pass: R.Pass) returns (c: R.Conclusion)
      requires index < |spec.stages|
      modifies this, rollout
      ensures (State(), c) == R.AdvanceLive(spec, old(State()), old(rollout.Status()), index, pass)
    {
      hide R.Enter, R.Withdraw, R.Advance, R.Save, R.RecordStage, R.StageStatusOf;
      var stage := spec.stages[index];
      if !R.Admitted(stage, pass) {
        c := Hold(rollout);
        return;
      }
      var p := stage.traffic.value;
      var entry, started := rollout.StageStatus(stage.name);
      if !started {
        var ack := Enter(stage, p);
        if ack == R.Crashed {
          return R.Died;
        }
        if ack != R.Okay {
          c := Hold(rollout);
          return;
        }
        rollout.RecordStage(R.StageStatus(stage.name, R.Running, Some(pass.now), None, 0, false, None));
        c := WriteStatus(rollout, R.Running, R.After(R.POLL_INTERVAL));
        return;
      }
      var advanced := R.Advance(spec, stage, routes, p, pass, entry.startedAt.value);
      if advanced.Err? {
        c := Hold(rollout);
        return;
      }
      var step := advanced.value;
      entry := entry.(weight := step.weight);
      match step.outcome
      case RollBack(trigger) =>
        var ack := Withdraw(p);
        if ack == R.Crashed {
          return R.Died;
        }
        if ack != R.Okay {
          c := Hold(rollout);
          return;
        }
        entry := entry.(phase := R.WavedOff, rolledBack := true, trigger := Some(trigger), finishedAt := Some(pass.now));
        rollout.RecordStage(entry);
        c := WriteStatus(rollout, R.WavedOff, R.Never);
      case PromoteStage =>
        entry := entry.(phase := R.Promoted, finishedAt := Some(pass.now));
        rollout.RecordStage(entry);
        if index == |spec.stages| - 1 {
          c := WriteStatus(rollout, R.Promoted, R.Never);
        } else {
          c := WriteStatus(rollout, R.Running, R.Immediately);
        }
      case Continue =>
        rollout.RecordStage(entry);
        c := WriteStatus(rollout, R.Running, step.requeue);
    }

    method RunOffline(spec: R.Spec, rollout: RolloutObject, index: nat, pass: R.Pass) returns (c: R.Conclusion)
      requires index < |spec.stages|
      modifies this, rollout
      ensures (State(), c) == R.RunOffline(spec, old(State()), old(rollout.Status()), index, pass)
    {
      c := WriteStatus(rollout, R.Running, R.Never);
      if !c.Finished? {
        return;
      }
      if pass.offline.Err? {
        c := Hold(rollout);
        return;
      }
      var phase := R.PhaseOf(pass.offline.value);
      rollout.RecordStage(R.StageStatus(spec.stages[index].name, phase, Some(pass.now), Some(pass.now), 0, false, None));
      if phase == R.Promoted && index != |spec.stages| - 1 {
        c := WriteStatus(rollout, R.Running, R.Immediately);
      } else {
        c := WriteStatus(rollout, phase, R.Never);
      }
    }

    method Reconcile(spec: R.Spec, pass: R.Pass) returns (c: R.Conclusion)
      modifies this
      ensures (State(), c) == R.Reconcile(spec, old(State()), pass)
    {
      hide R.AdvanceLive, R.RunOffline, R.NextStage, R.Save;
      if R.Terminal(status.phase) && status.observedGeneration == spec.generation {
        return R.Finished(R.Never);
      }
      var fetched := status;
      if fetched.observedGeneration != spec.generation {
        fetched := R.Status(R.Unset, [], spec.generation);
      }
      var rollout := new RolloutObject(fetched);
      if !pass.manifestsFound {
        c := Hold(rollout);
        return;
      }
      var next := rollout.NextStage(spec);
      if next < 0 {
        c := WriteStatus(rollout, R.Promoted, R.Never);
        return;
      }
      if spec.stages[next].mode != R.OfflineReplay {
        c := AdvanceLive(spec, rollout, next, pass);
      } else {
        c := RunOffline(spec, rollout, next, pass);
      }
    }
  }
}
