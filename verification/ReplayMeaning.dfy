/** Which span a request is matched to, and what a report lists (`internal/replay/index.go`, `internal/replay/tracker.go`). */
module ReplayMeaning {
  import opened Basics
  import opened Sorting
  import opened ReplayIndex
  import opened ReplayPolicy
  import opened ReplayTracker

  // ---- Matching ----

  function HashIs(hash: string): Span -> bool { (s: Span) => s.hash == hash }

  function ToolIs(tool: string): Span -> bool { (s: Span) => s.tool == tool }

  function CallIs(tool: string, args: string): Span -> bool { (s: Span) => s.tool == tool && s.argsHash == args }

  /** Position i has the first step not yet served that passes. */
  ghost predicate FirstUnserved(spans: seq<Span>, consumed: set<(string, int)>, test: Span -> bool, i: int) {
    && 0 <= i < |spans| && Unserved(consumed, spans[i]) && test(spans[i])
    && forall j :: 0 <= j < i ==> !(Unserved(consumed, spans[j]) && test(spans[j]))
  }

  ghost predicate Unserved(consumed: set<(string, int)>, s: Span) {
    s.kind != Session && (s.spanID, if s.step.Some? then s.step.value else 0) !in consumed
  }

  /** Position i has the last step recorded under that number. */
  ghost predicate LastNumbered(spans: seq<Span>, step: int, i: int) {
    && 0 <= i < |spans| && spans[i].kind != Session && spans[i].step == Some(step)
    && forall j :: i < j < |spans| ==> spans[j].kind == Session || spans[j].step != Some(step)
  }

  ghost predicate ExactAt(spans: seq<Span>, consumed: set<(string, int)>, req: Request, i: int) {
    req.hash != "" && LastNumbered(spans, req.step, i) && spans[i].hash == req.hash && Unserved(consumed, spans[i])
  }

  ghost predicate SameHashAt(spans: seq<Span>, consumed: set<(string, int)>, req: Request, i: int) {
    req.hash != "" && FirstUnserved(spans, consumed, HashIs(req.hash), i)
  }

  ghost predicate SameCallAt(spans: seq<Span>, consumed: set<(string, int)>, req: Request, i: int) {
    req.kind == Tool && req.tool != "" && req.argsHash != "" && FirstUnserved(spans, consumed, CallIs(req.tool, req.argsHash), i)
  }

  ghost predicate SameToolAt(spans: seq<Span>, consumed: set<(string, int)>, req: Request, i: int) {
    req.kind == Tool && req.tool != "" && FirstUnserved(spans, consumed, ToolIs(req.tool), i)
  }

  function StepOf(s: Span): int { if s.step.Some? then s.step.value else 0 }

  ghost predicate SameTest(t: Test, test: Span -> bool) { forall s: Span :: t.Passes(s) <==> test(s) }

  lemma SelectAppend(spans: seq<Span>, s: Span, t: Test)
    ensures Select(spans + [s], t) == Select(spans, t) + if t.Passes(s) then [s] else []
  {
    assert (spans + [s])[..|spans|] == spans;
  }

  lemma {:induction false} FreeAppend(steps: seq<Span>, s: Span, consumed: set<(string, int)>, t: Test)
    ensures FirstFree(steps + [s], consumed, t)
            == if FirstFree(steps, consumed, t).Some? then FirstFree(steps, consumed, t)
               else if t.Passes(s) && s.Key() !in consumed then Some(s) else None
  {
    if steps == [] {
      assert ([s])[1..] == [];
    } else {
      FreeAppend(steps[1..], s, consumed, t);
      assert (steps + [s])[1..] == steps[1..] + [s];
    }
  }

  lemma FirstGrows(front: seq<Span>, s: Span, consumed: set<(string, int)>, test: Span -> bool, i: int)
    ensures i != |front| ==> (FirstUnserved(front + [s], consumed, test, i) <==> FirstUnserved(front, consumed, test, i))
    ensures FirstUnserved(front + [s], consumed, test, |front|) <==>
              Unserved(consumed, s) && test(s) && forall j :: !FirstUnserved(front, consumed, test, j)
  {
    var spans, n := front + [s], |front|;
    if forall j :: !FirstUnserved(front, consumed, test, j) {
      NoneFree(front, consumed, test);
    } else {
      var j :| FirstUnserved(front, consumed, test, j);
      assert spans[j] == front[j];
    }
  }

  /** The search over the steps finds the first unserved one among the spans. */
  lemma {:induction false} FirstFreeIs(spans: seq<Span>, consumed: set<(string, int)>, t: Test, test: Span -> bool)
    requires SameTest(t, test)
    ensures FirstFree(Steps(spans), consumed, t) == None <==> forall i :: !FirstUnserved(spans, consumed, test, i)
    ensures forall i :: FirstUnserved(spans, consumed, test, i) ==> FirstFree(Steps(spans), consumed, t) == Some(spans[i])
  {
    if spans == [] {
      assert Steps(spans) == [];
    } else {
      hide FirstUnserved, FirstFree, Select;
      var n, front, s := |spans| - 1, spans[..|spans| - 1], spans[|spans| - 1];
      assert spans == front + [s];
      FirstFreeIs(front, consumed, t, test);
      SelectAppend(front, s, NotSession);
      FreeAppend(Steps(front), s, consumed, t);
      assert Steps(front) + [] == Steps(front);
      forall i
        ensures i != n ==> (FirstUnserved(spans, consumed, test, i) <==> FirstUnserved(front, consumed, test, i))
        ensures FirstUnserved(spans, consumed, test, n) <==>
                  Unserved(consumed, s) && test(s) && forall j :: !FirstUnserved(front, consumed, test, j)
      {
        FirstGrows(front, s, consumed, test, i);
      }
      forall i | FirstUnserved(spans, consumed, test, i)
        ensures 0 <= i < |spans|
      {
        FirstInside(spans, consumed, test, i);
      }
    }
  }

  lemma FirstInside(spans: seq<Span>, consumed: set<(string, int)>, test: Span -> bool, i: int)
    requires FirstUnserved(spans, consumed, test, i)
    ensures 0 <= i < |spans|
  {
  }

  /** With no first one, there is none. */
  lemma NoneFree(spans: seq<Span>, consumed: set<(string, int)>, test: Span -> bool)
    requires forall i :: !FirstUnserved(spans, consumed, test, i)
    ensures forall i :: 0 <= i < |spans| ==> !(Unserved(consumed, spans[i]) && test(spans[i]))
  {
    var k := 0;
    while k < |spans|
      invariant 0 <= k <= |spans|
      invariant forall i :: 0 <= i < k ==> !(Unserved(consumed, spans[i]) && test(spans[i]))
    {
      assert !FirstUnserved(spans, consumed, test, k);
      k := k + 1;
    }
  }

  lemma {:induction false} LastAtIs(spans: seq<Span>, step: int)
    ensures var found := LastAt(Steps(spans), step);
            && (found == None <==> forall i :: !LastNumbered(spans, step, i))
            && forall i :: LastNumbered(spans, step, i) ==> found == Some(spans[i])
  {
    if spans != [] {
      var n, front, s := |spans| - 1, spans[..|spans| - 1], spans[|spans| - 1];
      assert spans == front + [s];
      LastAtIs(front, step);
      SelectAppend(front, s, NotSession);
      var steps := Steps(front);
      assert steps + [] == steps && (steps + [s])[..|steps|] == steps;
      if s.kind != Session && s.step == Some(step) {
        assert LastNumbered(spans, step, n);
      } else {
        forall i
          ensures LastNumbered(spans, step, i) <==> LastNumbered(front, step, i)
        {
        }
      }
    }
  }

  lemma LastInside(spans: seq<Span>, step: int, i: int)
    requires LastNumbered(spans, step, i)
    ensures 0 <= i < |spans| && spans[i].kind != Session
  {
  }

  /** Which span a request is matched to, exactly: the unserved one recorded last under its own number, when the inputs agree; else
      the first unserved one with the same input; else, for a named tool, the first unserved call of it with the same
      arguments; else the first unserved call of it; else none. */
  lemma MatchedExactly(spans: seq<Span>, consumed: set<(string, int)>, req: Request)
    ensures var m := Scan(spans, consumed, req);
            && (forall i :: ExactAt(spans, consumed, req, i) ==> m == Match(Some(spans[i]), Exact, req.step))
            && ((forall i :: !ExactAt(spans, consumed, req, i)) ==>
                  && (forall i :: SameHashAt(spans, consumed, req, i) ==> m == Match(Some(spans[i]), ByHash, StepOf(spans[i])))
                  && ((forall i :: !SameHashAt(spans, consumed, req, i)) ==>
                        && (forall i :: SameCallAt(spans, consumed, req, i) ==> m == Match(Some(spans[i]), ByTool, StepOf(spans[i])))
                        && ((forall i :: !SameCallAt(spans, consumed, req, i)) ==>
                              && (forall i :: SameToolAt(spans, consumed, req, i) ==>
                                    m == Match(Some(spans[i]), ByTool, StepOf(spans[i])))
                              && ((forall i :: !SameToolAt(spans, consumed, req, i)) ==> m == Match(None, NoMatch, -1)))))
  {
    hide FirstUnserved, LastNumbered;
    var steps := Steps(spans);
    LastAtIs(spans, req.step);
    FirstFreeIs(spans, consumed, HasHash(req.hash), HashIs(req.hash));
    FirstFreeIs(spans, consumed, HasCall(req.tool, req.argsHash), CallIs(req.tool, req.argsHash));
    FirstFreeIs(spans, consumed, HasTool(req.tool), ToolIs(req.tool));
    if LastAt(steps, req.step).Some? {
      var i :| LastNumbered(spans, req.step, i);
      LastInside(spans, req.step, i);
      assert ExactAt(spans, consumed, req, i) <==>
             req.hash != "" && spans[i].hash == req.hash && spans[i].Key() !in consumed;
    }
    if FirstFree(steps, consumed, HasHash(req.hash)).Some? {
      var i :| FirstUnserved(spans, consumed, HashIs(req.hash), i);
      assert SameHashAt(spans, consumed, req, i) <==> req.hash != "";
    }
    if FirstFree(steps, consumed, HasCall(req.tool, req.argsHash)).Some? {
      var i :| FirstUnserved(spans, consumed, CallIs(req.tool, req.argsHash), i);
      assert SameCallAt(spans, consumed, req, i) <==> req.kind == Tool && req.tool != "" && req.argsHash != "";
    }
    if FirstFree(steps, consumed, HasTool(req.tool)).Some? {
      var i :| FirstUnserved(spans, consumed, ToolIs(req.tool), i);
      assert SameToolAt(spans, consumed, req, i) <==> req.kind == Tool && req.tool != "";
    }
  }

  // ---- Reports ----

  /** What the two runs differ in at a position both reached. */
  ghost predicate DiffersBy(mode: Mode, recorded: Span, req: Request, kind: DivergenceKind) {
    match kind
    case DifferentTool => req.kind != recorded.kind || (req.kind == Tool && req.tool != recorded.tool)
    case DifferentArguments =>
      && req.kind == Tool && recorded.kind == Tool && req.tool == recorded.tool
      && req.argsHash != "" && recorded.argsHash != "" && req.argsHash != recorded.argsHash
    case DifferentModelInput =>
      && req.kind == Model && recorded.kind == Model && mode == Fail
      && req.hash != "" && recorded.hash != "" && req.hash != recorded.hash
    case _ => false
  }

  ghost predicate Belongs(mode: Mode, recorded: seq<Span>, reqs: seq<Request>, d: Divergence) {
    || (d.kind == ExtraStep && |recorded| <= d.step < |reqs|)
    || (d.kind == MissingStep && |reqs| <= d.step < |recorded|)
    || (d.step < |reqs| && d.step < |recorded| && DiffersBy(mode, recorded[d.step], reqs[d.step], d.kind))
  }

  lemma {:induction false} ObservedExactly(mode: Mode, recorded: seq<Span>, reqs: seq<Request>, d: Divergence)
    ensures d in Observed(mode, recorded, reqs) <==> d.kind != MissingStep && Belongs(mode, recorded, reqs, d)
  {
    if reqs != [] {
      ObservedExactly(mode, recorded, reqs[..|reqs| - 1], d);
    }
  }

  lemma {:induction false} MissingExactly(from: nat, end: nat, d: Divergence)
    ensures d in Missing(from, end) <==> d.kind == MissingStep && from <= d.step < end
    decreases end
  {
    if from < end {
      MissingExactly(from, end - 1, d);
    }
  }

  /** What a finished report lists, exactly: a tool, its arguments or a model's input that differs where both runs have a step,
      every step beyond the recording, and every recorded step not reached. */
  lemma ReportedExactly(mode: Mode, recorded: seq<Span>, reqs: seq<Request>, d: Divergence)
    ensures d in Finished(mode, recorded, reqs) <==> Belongs(mode, recorded, reqs, d)
  {
    hide Observed, Missing;
    ObservedExactly(mode, recorded, reqs, d);
    MissingExactly(|reqs|, |recorded|, d);
  }

  function Took(action: Action): ReplayTracker.Step -> bool { (s: ReplayTracker.Step) => s.action == action }

  /** The counts of a report are the numbers of its steps that were refused, or done as nothing. */
  lemma {:induction false} TallyMeaning(steps: seq<ReplayTracker.Step>, action: Action)
    ensures Tally(steps, action) == |Filter(steps, Took(action))|
  {
    if steps != [] {
      var front, s := steps[..|steps| - 1], steps[|steps| - 1];
      TallyMeaning(front, action);
      FilterAppend(front, s, Took(action));
      assert steps == front + [s];
    }
  }

  function Numbered(step: int): Span -> bool { (s: Span) => StepOf(s) == step }

  function IsStep(): Span -> bool { (s: Span) => s.kind != Session }

  lemma {:induction false} StepsAreFiltered(spans: seq<Span>)
    ensures Steps(spans) == Filter(spans, IsStep())
  {
    if spans != [] {
      var front, s := spans[..|spans| - 1], spans[|spans| - 1];
      assert spans == front + [s];
      StepsAreFiltered(front);
      SelectAppend(front, s, NotSession);
      FilterAppend(front, s, IsStep());
    }
  }

  /** The recording a report is compared with: the steps by number, an unnumbered one counting as 0, and those of one number in
      the order of the file. */
  lemma RecordedMeaning(spans: seq<Span>, step: int)
    ensures var r := Recorded(spans);
            && (forall i, j :: 0 <= i < j < |r| ==> StepOf(r[i]) <= StepOf(r[j]))
            && Filter(r, Numbered(step)) == Filter(Filter(spans, IsStep()), Numbered(step))
            && multiset(r) == multiset(Filter(spans, IsStep()))
  {
    StepsAreFiltered(spans);
    SortKeeps(Steps(spans), StepLeq);
    SortSorts(Steps(spans), StepLeq);
    SortStable(Steps(spans), StepLeq, Numbered(step));
    forall i, j | 0 <= i < j < |Recorded(spans)|
      ensures StepOf(Recorded(spans)[i]) <= StepOf(Recorded(spans)[j])
    {
      assert StepLeq(Recorded(spans)[i], Recorded(spans)[j]);
    }
  }
}
