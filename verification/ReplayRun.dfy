/** What a replay does with each request (`internal/replay/mode.go`). */
module ReplayPolicy {
  import opened Basics
  import opened ReplayIndex

  datatype Mode = Fail | ModelLiveToolsReplayed | Hybrid

  datatype Effect = Unasserted | Read | IdempotentWrite | Write

  datatype Action = Serve | Forward | NoOp | Refuse

  datatype Policy = Policy(mode: Mode, effects: map<string, Effect>, liveTools: set<string>)

  /** The effect the tool's last entry asserts. */
  function LastEffect(tools: seq<(string, Effect)>, name: string): Option<Effect> {
    if tools == [] then None
    else
      var last := tools[|tools| - 1];
      if last.0 == name then Some(last.1) else LastEffect(tools[..|tools| - 1], name)
  }

  lemma {:induction false} LastEffectMeaning(tools: seq<(string, Effect)>, name: string)
    ensures LastEffect(tools, name) == None <==> forall i :: 0 <= i < |tools| ==> tools[i].0 != name
    ensures forall i :: 0 <= i < |tools| && tools[i].0 == name && (forall j :: i < j < |tools| ==> tools[j].0 != name) ==>
              LastEffect(tools, name) == Some(tools[i].1)
  {
    if tools != [] {
      LastEffectMeaning(tools[..|tools| - 1], name);
    }
  }

  method FillEffects(tools: seq<(string, Effect)>) returns (effects: map<string, Effect>)
    ensures forall name :: name in effects <==> LastEffect(tools, name).Some?
    ensures forall name :: name in effects ==> LastEffect(tools, name) == Some(effects[name])
  {
    effects := map[];
    for i := 0 to |tools|
      invariant forall name :: name in effects <==> LastEffect(tools[..i], name).Some?
      invariant forall name :: name in effects ==> LastEffect(tools[..i], name) == Some(effects[name])
    {
      assert tools[..i + 1][..i] == tools[..i];
      effects := effects[tools[i].0 := tools[i].1];
    }
    assert tools[..|tools|] == tools;
  }

  method FillLive(liveTools: seq<string>) returns (live: set<string>)
    ensures live == set t | t in liveTools
  {
    live := {};
    for i := 0 to |liveTools|
      invariant live == set t | t in liveTools[..i]
    {
      live := live + {liveTools[i]};
      assert liveTools[..i + 1] == liveTools[..i] + [liveTools[i]];
    }
    assert liveTools[..|liveTools|] == liveTools;
  }

  /** A tool has an effect exactly when an entry names it, and its last entry decides. */
  method NewPolicy(mode: Mode, tools: seq<(string, Effect)>, liveTools: seq<string>) returns (p: Policy)
    ensures p.mode == mode && p.liveTools == set t | t in liveTools
    ensures forall name :: name in p.effects <==> exists i :: 0 <= i < |tools| && tools[i].0 == name
    ensures forall i :: 0 <= i < |tools| && (forall j :: i < j < |tools| ==> tools[j].0 != tools[i].0) ==>
              tools[i].0 in p.effects && p.effects[tools[i].0] == tools[i].1
  {
    hide LastEffect;
    var effects := FillEffects(tools);
    var live := FillLive(liveTools);
    forall name
      ensures name in effects <==> exists i :: 0 <= i < |tools| && tools[i].0 == name
    {
      LastEffectMeaning(tools, name);
    }
    forall i | 0 <= i < |tools| && forall j :: i < j < |tools| ==> tools[j].0 != tools[i].0
      ensures tools[i].0 in effects && effects[tools[i].0] == tools[i].1
    {
      LastEffectMeaning(tools, tools[i].0);
    }
    p := Policy(mode, effects, live);
  }

  function DecideModel(p: Policy, found: bool): Action {
    match p.mode
    case ModelLiveToolsReplayed => Forward
    case Hybrid => if found then Serve else Forward
    case Fail => if found then Serve else Refuse
  }

  function DecideTool(p: Policy, req: Request, found: bool): Action {
    if req.tool !in p.effects || p.effects[req.tool] == Unasserted then Refuse
    else if p.mode == Hybrid && req.tool in p.liveTools then
      if p.effects[req.tool] == Read then Forward else Refuse
    else if p.effects[req.tool] != Read then NoOp
    else if found then Serve
    else Refuse
  }

  function Decide(p: Policy, req: Request, m: Match): Action {
    if req.kind == Model then DecideModel(p, m.kind != NoMatch) else DecideTool(p, req, m.kind != NoMatch)
  }

  /** The effect asserted for a tool, if any. */
  function Asserted(p: Policy, tool: string): Effect { if tool in p.effects then p.effects[tool] else Unasserted }

  /** Only a read named live in hybrid mode, or a model request the mode runs live, ever leaves a replay; only something
      found is served; a write is answered without running unless it was named live, and then it is refused. */
  lemma WhatEachActionMeans(p: Policy, req: Request, m: Match)
    ensures Decide(p, req, m) == Forward <==>
            if req.kind == Model
            then p.mode == ModelLiveToolsReplayed || (p.mode == Hybrid && m.kind == NoMatch)
            else p.mode == Hybrid && req.tool in p.liveTools && Asserted(p, req.tool) == Read
    ensures Decide(p, req, m) == Serve <==>
            && m.kind != NoMatch
            && if req.kind == Model then p.mode != ModelLiveToolsReplayed
               else Asserted(p, req.tool) == Read && !(p.mode == Hybrid && req.tool in p.liveTools)
    ensures req.kind != Model ==>
              (Decide(p, req, m) == NoOp <==>
               (Asserted(p, req.tool) == Write || Asserted(p, req.tool) == IdempotentWrite)
               && !(p.mode == Hybrid && req.tool in p.liveTools))
    ensures req.kind != Model && Asserted(p, req.tool) == Unasserted ==> Decide(p, req, m) == Refuse
  {
  }
}

/** Where a replay left its recording (`internal/replay/divergence.go`), and the handler that drives both
    (`internal/replay/server.go`). */
module ReplayTracker {
  import opened Basics
  import opened Sorting
  import opened ReplayIndex
  import opened ReplayPolicy

  datatype DivergenceKind = DifferentTool | DifferentArguments | DifferentModelInput | ExtraStep | MissingStep

  datatype Divergence = Divergence(step: nat, kind: DivergenceKind)

  datatype Step = Step(index: nat, req: Request, matched: MatchKind, action: Action)

  datatype Report = Report(mode: Mode, steps: seq<Step>, divergences: seq<Divergence>, refused: nat, noOps: nat)

  // ---- One step ----

  /** The comparisons in the order they are tried. */
  function Compared(mode: Mode, recorded: Span, req: Request): Option<DivergenceKind> {
    if req.kind == Tool && recorded.kind == Tool && req.tool != recorded.tool then Some(DifferentTool)
    else if req.kind != recorded.kind then Some(DifferentTool)
    else if req.kind == Tool && req.argsHash != "" && recorded.argsHash != "" && req.argsHash != recorded.argsHash
    then Some(DifferentArguments)
    else if req.kind == Model && mode == Fail && req.hash != "" && recorded.hash != "" && req.hash != recorded.hash
    then Some(DifferentModelInput)
    else None
  }

  function DivergencesAt(mode: Mode, recorded: seq<Span>, n: nat, req: Request): seq<Divergence> {
    if n >= |recorded| then [Divergence(n, ExtraStep)]
    else match Compared(mode, recorded[n], req)
      case Some(kind) => [Divergence(n, kind)]
      case None => []
  }

  /** The divergences of the first n requests. */
  function Observed(mode: Mode, recorded: seq<Span>, reqs: seq<Request>): seq<Divergence> {
    if reqs == [] then []
    else
      var n := |reqs| - 1;
      Observed(mode, recorded, reqs[..n]) + DivergencesAt(mode, recorded, n, reqs[n])
  }

  /** One missing step for each recorded position in [from, end). */
  function Missing(from: nat, end: nat): seq<Divergence>
    decreases end
  {
    if end <= from then [] else Missing(from, end - 1) + [Divergence(end - 1, MissingStep)]
  }

  /** How many steps were handled in a given way. */
  function Tally(steps: seq<Step>, action: Action): nat {
    if steps == [] then 0
    else Tally(steps[..|steps| - 1], action) + (if steps[|steps| - 1].action == action then 1 else 0)
  }

  lemma TallyAppend(steps: seq<Step>, s: Step)
    ensures forall action :: Tally(steps + [s], action) == Tally(steps, action) + (if s.action == action then 1 else 0)
  {
    assert (steps + [s])[..|steps|] == steps;
  }

  lemma ObservedAppend(mode: Mode, recorded: seq<Span>, reqs: seq<Request>, req: Request)
    ensures Observed(mode, recorded, reqs + [req]) ==
            Observed(mode, recorded, reqs) + DivergencesAt(mode, recorded, |reqs|, req)
  {
    assert (reqs + [req])[..|reqs|] == reqs;
  }

  class Tracker {
    const recorded: seq<Span>
    const mode: Mode
    ghost var seen: seq<Request>
    var next: nat
    var steps: seq<Step>
    var divergences: seq<Divergence>
    var refused: nat
    var noOps: nat

    ghost predicate Valid()
      reads this
    {
      && next == |seen| == |steps|
      && (forall i :: 0 <= i < next ==> steps[i].index == i && steps[i].req == seen[i])
      && divergences == Observed(mode, recorded, seen)
      && refused == Tally(steps, Refuse) && noOps == Tally(steps, NoOp)
    }

    constructor (spans: seq<Span>, mode: Mode)
      ensures Valid() && seen == [] && recorded == Recorded(spans) && this.mode == mode
    {
      recorded, this.mode, seen, next, steps, divergences := Recorded(spans), mode, [], 0, [], [];
      refused, noOps := 0, 0;
    }

    method Observe(req: Request, m: Match, action: Action)
      requires Valid()
      modifies this
      ensures Valid() && seen == old(seen) + [req] && steps == old(steps) + [Step(old(next), req, m.kind, action)]
    {
      hide Tally, Observed, DivergencesAt;
      TallyAppend(steps, Step(next, req, m.kind, action));
      ObservedAppend(mode, recorded, seen, req);
      steps := steps + [Step(next, req, m.kind, action)];
      match action {
        case Refuse => refused := refused + 1;
        case NoOp => noOps := noOps + 1;
        case _ =>
      }
      Compare(req);
      seen := seen + [req];
      next := next + 1;
    }

    method Compare(req: Request)
      modifies this`divergences
      ensures divergences == old(divergences) + DivergencesAt(mode, recorded, next, req)
    {
      if next >= |recorded| {
        divergences := divergences + [Divergence(next, ExtraStep)];
        return;
      }
      var span := recorded[next];
      if req.kind == Tool && span.kind == Tool && req.tool != span.tool {
        divergences := divergences + [Divergence(next, DifferentTool)];
      } else if req.kind != span.kind {
        divergences := divergences + [Divergence(next, DifferentTool)];
      } else if req.kind == Tool && req.argsHash != "" && span.argsHash != "" && req.argsHash != span.argsHash {
        divergences := divergences + [Divergence(next, DifferentArguments)];
      } else if req.kind == Model && mode == Fail && req.hash != "" && span.hash != "" && req.hash != span.hash {
        divergences := divergences + [Divergence(next, DifferentModelInput)];
      }
    }

    method Finish() returns (r: Report)
      requires Valid()
      modifies this`divergences
      ensures r == Report(mode, steps, Finished(mode, recorded, seen), refused, noOps)
      ensures divergences == r.divergences
    {
      var i := next;
      while i < |recorded|
        invariant next <= i
        invariant i <= |recorded| || i == next
        invariant divergences == old(divergences) + Missing(next, i)
      {
        divergences := divergences + [Divergence(i, MissingStep)];
        i := i + 1;
      }
      if next >= |recorded| {
        assert Missing(next, |recorded|) == Missing(next, next) == [];
      }
      r := Report(mode, steps, divergences, refused, noOps);
    }
  }

  // ---- What a finished report says ----

  function Finished(mode: Mode, recorded: seq<Span>, reqs: seq<Request>): seq<Divergence> {
    Observed(mode, recorded, reqs) + Missing(|reqs|, |recorded|)
  }

  /** The replayed step is the recorded one in every respect the mode compares. */
  ghost predicate Agrees(mode: Mode, recorded: Span, req: Request) {
    && req.kind == recorded.kind
    && (req.kind == Tool ==> req.tool == recorded.tool)
    && (req.kind == Tool && req.argsHash != "" && recorded.argsHash != "" ==> req.argsHash == recorded.argsHash)
    && (req.kind == Model && mode == Fail && req.hash != "" && recorded.hash != "" ==> req.hash == recorded.hash)
  }

  lemma SilentStep(mode: Mode, recorded: seq<Span>, n: nat, req: Request)
    ensures DivergencesAt(mode, recorded, n, req) == [] <==> n < |recorded| && Agrees(mode, recorded[n], req)
  {
  }

  lemma {:induction false} ObservedNothing(mode: Mode, recorded: seq<Span>, reqs: seq<Request>)
    ensures Observed(mode, recorded, reqs) == [] <==>
            |reqs| <= |recorded| && forall i :: 0 <= i < |reqs| ==> Agrees(mode, recorded[i], reqs[i])
  {
    hide DivergencesAt, Agrees;
    if reqs != [] {
      SilentStep(mode, recorded, |reqs| - 1, reqs[|reqs| - 1]);
      ObservedNothing(mode, recorded, reqs[..|reqs| - 1]);
    }
  }

  /** A finished report is clean exactly when the replay took as many steps as the recording and agrees at each. */
  lemma CleanExactlyWhenFaithful(mode: Mode, recorded: seq<Span>, reqs: seq<Request>)
    ensures Finished(mode, recorded, reqs) == [] <==>
            |reqs| == |recorded| && forall i :: 0 <= i < |reqs| ==> Agrees(mode, recorded[i], reqs[i])
  {
    ObservedNothing(mode, recorded, reqs);
  }

  ghost predicate Increasing(ds: seq<Divergence>, lo: nat, hi: nat) {
    && (forall i :: 0 <= i < |ds| ==> lo <= ds[i].step < hi)
    && (forall i, j :: 0 <= i < j < |ds| ==> ds[i].step < ds[j].step)
  }

  lemma {:induction false} ObservedIncreasing(mode: Mode, recorded: seq<Span>, reqs: seq<Request>)
    ensures Increasing(Observed(mode, recorded, reqs), 0, |reqs|)
  {
    if reqs != [] {
      ObservedIncreasing(mode, recorded, reqs[..|reqs| - 1]);
    }
  }

  lemma {:induction false} MissingIncreasing(from: nat, end: nat)
    ensures Increasing(Missing(from, end), from, end)
    decreases end
  {
    if end > from {
      MissingIncreasing(from, end - 1);
    }
  }

  /** Divergences are listed at most one a step, in strictly increasing step order. */
  lemma FinishedIncreasing(mode: Mode, recorded: seq<Span>, reqs: seq<Request>)
    ensures Increasing(Finished(mode, recorded, reqs), 0, if |reqs| > |recorded| then |reqs| else |recorded|)
  {
    ObservedIncreasing(mode, recorded, reqs);
    MissingIncreasing(|reqs|, |recorded|);
  }

  // ---- The handler ----

  class Server {
    const index: Index
    const tracker: Tracker
    const policy: Policy
    ghost var asked: seq<Request>

    ghost predicate Valid()
      reads this, index, tracker
    {
      && index.Valid() && tracker.Valid()
      && tracker.recorded == Recorded(index.spans) && tracker.mode == policy.mode
      && asked == tracker.seen
      && (forall i :: 0 <= i < |asked| ==> asked[i].step == i)
      && index.consumed == ConsumedBy(index.spans, asked)
    }

    constructor (spans: seq<Span>, policy: Policy)
      ensures Valid() && asked == [] && index.spans == spans && this.policy == policy
      ensures fresh(index) && fresh(tracker)
    {
      index := new Index(spans);
      tracker := new Tracker(spans, policy.mode);
      this.policy := policy;
      asked := [];
    }

    /** One request: its position is where the tracker stands, whatever the client says. */
    method Handle(request: Request) returns (m: Match, action: Action)
      requires Valid()
      modifies this, index, tracker
      ensures Valid()
      ensures asked == old(asked) + [request.(step := |old(asked)|)]
      ensures m == AnswerTo(index.spans, asked, |old(asked)|)
      ensures action == Decide(policy, request, m)
    {
      hide Scan, Recorded, Observed, Tally;
      var req := request.(step := tracker.next);
      m := index.Lookup(req);
      action := Decide(policy, req, m);
      tracker.Observe(req, m, action);
      asked := asked + [req];
      assert asked[..|asked| - 1] == old(asked);
    }
  }

  // ---- A faithful replay ----

  /** The recorded steps are numbered from zero, and each can be found by its bytes. */
  ghost predicate Numbered(spans: seq<Span>) {
    forall i :: 0 <= i < |Recorded(spans)| ==> Recorded(spans)[i].step == Some(i) && Recorded(spans)[i].hash != ""
  }

  /** The requests repeat the first steps of the recording, byte for byte. */
  ghost predicate Repeats(spans: seq<Span>, reqs: seq<Request>) {
    && |reqs| <= |Recorded(spans)|
    && forall i :: 0 <= i < |reqs| ==>
         var s := Recorded(spans)[i];
         reqs[i].step == i && reqs[i].hash == s.hash && reqs[i].kind == s.kind && reqs[i].tool == s.tool
         && reqs[i].argsHash == s.argsHash
  }

  lemma RecordedIsHere(spans: seq<Span>, i: nat)
    requires Numbered(spans) && i < |Recorded(spans)|
    ensures LastAt(Steps(spans), i) == Some(Recorded(spans)[i])
  {
    var steps, s := Steps(spans), Recorded(spans)[i];
    SortMembers(steps, StepLeq, s);
    LastAtMeaning(steps, i);
    var last := LastAt(steps, i).value;
    SortMembers(steps, StepLeq, last);
    var k :| 0 <= k < |Recorded(spans)| && Recorded(spans)[k] == last;
  }

  function Keys(recorded: seq<Span>, n: nat): set<(string, int)>
    requires n <= |recorded|
  {
    if n == 0 then {} else Keys(recorded, n - 1) + {recorded[n - 1].Key()}
  }

  lemma {:induction false} LaterKeyIsNew(recorded: seq<Span>, n: nat, i: nat)
    requires n <= i < |recorded|
    requires forall k :: 0 <= k < |recorded| ==> recorded[k].step == Some(k)
    ensures recorded[i].Key() !in Keys(recorded, n)
  {
    if n > 0 {
      LaterKeyIsNew(recorded, n - 1, i);
    }
  }

  lemma ExactHere(spans: seq<Span>, consumed: set<(string, int)>, req: Request, s: Span)
    requires LastAt(Steps(spans), req.step) == Some(s) && req.hash == s.hash != "" && s.Key() !in consumed
    ensures Scan(spans, consumed, req) == Match(Some(s), Exact, req.step)
  {
  }

  lemma {:induction false} FaithfulConsumes(spans: seq<Span>, reqs: seq<Request>)
    requires Numbered(spans) && Repeats(spans, reqs)
    ensures ConsumedBy(spans, reqs) == Keys(Recorded(spans), |reqs|)
    ensures reqs != [] ==>
              AnswerTo(spans, reqs, |reqs| - 1) == Match(Some(Recorded(spans)[|reqs| - 1]), Exact, |reqs| - 1)
  {
    hide Scan, Recorded;
    if reqs != [] {
      var n := |reqs| - 1;
      FaithfulConsumes(spans, reqs[..n]);
      RecordedIsHere(spans, n);
      LaterKeyIsNew(Recorded(spans), n, n);
      ExactHere(spans, ConsumedBy(spans, reqs[..n]), reqs[n], Recorded(spans)[n]);
    }
  }

  /** A replay that repeats the whole recording matches exactly at every step, in every mode, and its report is clean. */
  lemma FaithfulReplayIsClean(mode: Mode, spans: seq<Span>, reqs: seq<Request>)
    requires Numbered(spans) && Repeats(spans, reqs) && |reqs| == |Recorded(spans)|
    ensures forall i :: 0 <= i < |reqs| ==> AnswerTo(spans, reqs, i) == Match(Some(Recorded(spans)[i]), Exact, i)
    ensures Finished(mode, Recorded(spans), reqs) == []
  {
    hide Scan, Recorded;
    forall i | 0 <= i < |reqs|
      ensures AnswerTo(spans, reqs, i) == Match(Some(Recorded(spans)[i]), Exact, i)
    {
      FaithfulConsumes(spans, reqs[..i + 1]);
      assert reqs[..i + 1][..i] == reqs[..i];
    }
    CleanExactlyWhenFaithful(mode, Recorded(spans), reqs);
  }

  // ---- What runs live in a replay ----

  /** What the i-th request of a run is answered by. */
  function ActionAt(p: Policy, spans: seq<Span>, reqs: seq<Request>, i: nat): Action
    requires i < |reqs|
  {
    Decide(p, reqs[i], AnswerTo(spans, reqs, i))
  }

  /** In any run, no tool is run live but a read that hybrid mode names live; no tool is answered from the recording but a
      read; and whatever is answered from it is a recorded step that nothing before was answered from. */
  lemma RunsAreContained(p: Policy, spans: seq<Span>, reqs: seq<Request>, i: nat)
    requires i < |reqs|
    ensures ActionAt(p, spans, reqs, i) == Forward && reqs[i].kind != Model ==>
              p.mode == Hybrid && reqs[i].tool in p.liveTools && Asserted(p, reqs[i].tool) == Read
    ensures ActionAt(p, spans, reqs, i) == Serve ==>
              var span := AnswerTo(spans, reqs, i).span;
              && span.Some? && span.value in spans && (reqs[i].kind != Model ==> Asserted(p, reqs[i].tool) == Read)
              && forall j :: 0 <= j < i && AnswerTo(spans, reqs, j).span.Some? ==>
                   AnswerTo(spans, reqs, j).span.value.Key() != span.value.Key()
  {
    hide Scan, ConsumedBy;
    WhatEachActionMeans(p, reqs[i], AnswerTo(spans, reqs, i));
    ScanMeaning(spans, ConsumedBy(spans, reqs[..i]), reqs[i]);
    if ActionAt(p, spans, reqs, i) == Serve {
      forall j | 0 <= j < i && AnswerTo(spans, reqs, j).span.Some?
        ensures AnswerTo(spans, reqs, j).span.value.Key() != AnswerTo(spans, reqs, i).span.value.Key()
      {
        NothingServedTwice(spans, reqs, j, i);
      }
    }
  }
}
