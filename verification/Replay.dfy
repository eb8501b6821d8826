/** Answering a replay from its recording: the span index (`internal/replay/index.go`). */
module ReplayIndex {
  import opened Basics
  import opened Sorting

  datatype Kind = Session | Model | Tool | Decision

  /** What replay reads of a recorded span. Absent attributes are empty strings. */
  datatype Span = Span(spanID: string, kind: Kind, step: Option<int>, hash: string, tool: string, argsHash: string) {
    function StepOrZero(): int { if step.Some? then step.value else 0 }

    /** A span id and a step index, joined so that neither can be mistaken for the other. */
    function Key(): (string, int) { (spanID, StepOrZero()) }
  }

  datatype MatchKind = Exact | ByHash | ByTool | NoMatch

  datatype Match = Match(span: Option<Span>, kind: MatchKind, step: int)

  const MISS := Match(None, NoMatch, -1)

  datatype Request = Request(step: int, hash: string, kind: Kind, tool: string, argsHash: string)

  // ---- The recording as a list ----

  /** The ways a lookup narrows the recording. */
  datatype Test = Anything | NotSession | HasHash(hash: string) | HasTool(tool: string) | HasArgs(args: string)
                | HasCall(tool: string, args: string)
  {
    predicate Passes(s: Span) {
      match this
      case Anything => true
      case NotSession => s.kind != Session
      case HasHash(h) => s.hash == h
      case HasTool(t) => s.tool == t
      case HasArgs(a) => s.argsHash == a
      case HasCall(t, a) => s.tool == t && s.argsHash == a
    }
  }

  function Select(spans: seq<Span>, test: Test): seq<Span> {
    if spans == [] then []
    else
      var last := spans[|spans| - 1];
      Select(spans[..|spans| - 1], test) + (if test.Passes(last) then [last] else [])
  }

  function Steps(spans: seq<Span>): seq<Span> { Select(spans, NotSession) }

  predicate StepLeq(a: Span, b: Span) { a.StepOrZero() <= b.StepOrZero() }

  /** Every step span, in recorded order. */
  function Recorded(spans: seq<Span>): seq<Span> { Sort(Steps(spans), StepLeq) }

  /** The first span of the list that passes a test and has not been served. */
  function FirstFree(spans: seq<Span>, consumed: set<(string, int)>, test: Test): Option<Span> {
    if spans == [] then None
    else if test.Passes(spans[0]) && spans[0].Key() !in consumed then Some(spans[0])
    else FirstFree(spans[1..], consumed, test)
  }

  function LastAt(spans: seq<Span>, step: int): Option<Span> {
    if spans == [] then None
    else if spans[|spans| - 1].step == Some(step) then Some(spans[|spans| - 1])
    else LastAt(spans[..|spans| - 1], step)
  }

  function Found(s: Span, kind: MatchKind): Match { Match(Some(s), kind, s.StepOrZero()) }

  /** The lookup as scans of the list: position and bytes, then bytes, then tool and arguments, then tool. */
  function Scan(spans: seq<Span>, consumed: set<(string, int)>, req: Request): Match {
    var steps := Steps(spans);
    var here := LastAt(steps, req.step);
    if here.Some? && req.hash != "" && here.value.hash == req.hash && here.value.Key() !in consumed
    then Match(here, Exact, req.step)
    else
      var same := if req.hash == "" then None else FirstFree(steps, consumed, HasHash(req.hash));
      if same.Some? then Found(same.value, ByHash)
      else if req.kind != Tool || req.tool == "" then MISS
      else ScanTool(spans, consumed, req)
  }

  function ScanTool(spans: seq<Span>, consumed: set<(string, int)>, req: Request): Match {
    var steps := Steps(spans);
    var call := if req.argsHash == "" then None else FirstFree(steps, consumed, HasCall(req.tool, req.argsHash));
    if call.Some? then Found(call.value, ByTool)
    else
      var tool := FirstFree(steps, consumed, HasTool(req.tool));
      if tool.Some? then Found(tool.value, ByTool) else MISS
  }

  function Served(consumed: set<(string, int)>, m: Match): set<(string, int)> {
    if m.span.Some? then consumed + {m.span.value.Key()} else consumed
  }

  // ---- The three maps ----

  lemma {:induction false} FirstFreeAppend(spans: seq<Span>, s: Span, consumed: set<(string, int)>, test: Test)
    ensures FirstFree(spans + [s], consumed, test) ==
            if FirstFree(spans, consumed, test).Some? then FirstFree(spans, consumed, test)
            else if test.Passes(s) && s.Key() !in consumed then Some(s)
            else None
  {
    if spans == [] {
      assert spans + [s] == [s];
    } else {
      FirstFreeAppend(spans[1..], s, consumed, test);
      assert (spans + [s])[1..] == spans[1..] + [s];
    }
  }

  /** Scanning the spans grouped under a key is scanning all of them with the key's test added. */
  lemma {:induction false} ScanGroup(spans: seq<Span>, consumed: set<(string, int)>, key: Test, test: Test, both: Test)
    requires forall s :: key.Passes(s) && test.Passes(s) <==> both.Passes(s)
    ensures FirstFree(Select(spans, key), consumed, test) == FirstFree(spans, consumed, both)
  {
    if spans != [] {
      var front, last := spans[..|spans| - 1], spans[|spans| - 1];
      ScanGroup(front, consumed, key, test, both);
      assert spans == front + [last];
      FirstFreeAppend(front, last, consumed, both);
      if key.Passes(last) {
        FirstFreeAppend(Select(front, key), last, consumed, test);
      } else {
        assert Select(front, key) + [] == Select(front, key);
      }
    }
  }

  ghost predicate LatestByStep(m: map<int, Span>, steps: seq<Span>) {
    forall k :: if k in m then LastAt(steps, k) == Some(m[k]) else LastAt(steps, k) == None
  }

  /** The list kept under a key, empty when there is none. */
  function Group(m: map<string, seq<Span>>, key: string): seq<Span> { if key in m then m[key] else [] }

  ghost predicate GroupedByHash(m: map<string, seq<Span>>, steps: seq<Span>) {
    forall h :: h != "" ==> Group(m, h) == Select(steps, HasHash(h))
  }

  ghost predicate GroupedByTool(m: map<string, seq<Span>>, steps: seq<Span>) {
    forall t :: t != "" ==> Group(m, t) == Select(steps, HasTool(t))
  }

  lemma AddsToMaps(steps: seq<Span>, s: Span, byStep: map<int, Span>, byHash: map<string, seq<Span>>,
                   byTool: map<string, seq<Span>>)
    requires LatestByStep(byStep, steps) && GroupedByHash(byHash, steps) && GroupedByTool(byTool, steps)
    ensures LatestByStep(if s.step.Some? then byStep[s.step.value := s] else byStep, steps + [s])
    ensures GroupedByHash(if s.hash != "" then byHash[s.hash := Group(byHash, s.hash) + [s]] else byHash, steps + [s])
    ensures GroupedByTool(if s.tool != "" then byTool[s.tool := Group(byTool, s.tool) + [s]] else byTool, steps + [s])
  {
    assert (steps + [s])[..|steps|] == steps;
  }

  class Index {
    const spans: seq<Span>
    var byStep: map<int, Span>
    var byHash: map<string, seq<Span>>
    var byTool: map<string, seq<Span>>
    var consumed: set<(string, int)>

    /** The maps hold, for each key, what a pass over the first n spans finds for it. */
    ghost predicate Indexes(n: nat)
      requires n <= |spans|
      reads this
    {
      var steps := Steps(spans[..n]);
      LatestByStep(byStep, steps) && GroupedByHash(byHash, steps) && GroupedByTool(byTool, steps)
    }

    ghost predicate Valid()
      reads this
    {
      Indexes(|spans|)
    }

    constructor (recording: seq<Span>)
      ensures Valid() && spans == recording && consumed == {}
    {
      spans := recording;
      byStep, byHash, byTool, consumed := map[], map[], map[], {};
      new;
      for i := 0 to |spans|
        invariant Indexes(i) && consumed == {}
      {
        Add(i);
      }
    }

    method Add(i: nat)
      requires i < |spans| && Indexes(i)
      modifies this`byStep, this`byHash, this`byTool
      ensures Indexes(i + 1)
    {
      var s := spans[i];
      assert spans[..i + 1][..i] == spans[..i];
      if s.kind == Session {
        assert Steps(spans[..i + 1]) == Steps(spans[..i]);
        return;
      }
      hide LatestByStep, GroupedByHash, GroupedByTool;
      assert Steps(spans[..i + 1]) == Steps(spans[..i]) + [s];
      AddsToMaps(Steps(spans[..i]), s, byStep, byHash, byTool);
      if s.step.Some? {
        byStep := byStep[s.step.value := s];
      }
      if s.hash != "" {
        byHash := byHash[s.hash := Group(byHash, s.hash) + [s]];
      }
      if s.tool != "" {
        byTool := byTool[s.tool := Group(byTool, s.tool) + [s]];
      }
    }

    method FirstUnconsumed(list: seq<Span>) returns (r: Option<Span>)
      ensures r == FirstFree(list, consumed, Anything)
    {
      for i := 0 to |list|
        invariant FirstFree(list, consumed, Anything) == FirstFree(list[i..], consumed, Anything)
      {
        assert list[i..][1..] == list[i + 1..];
        if list[i].Key() !in consumed {
          return Some(list[i]);
        }
      }
      return None;
    }

    method FirstWithArgs(list: seq<Span>, argsHash: string) returns (r: Option<Span>)
      ensures r == FirstFree(list, consumed, HasArgs(argsHash))
    {
      for i := 0 to |list|
        invariant FirstFree(list, consumed, HasArgs(argsHash)) == FirstFree(list[i..], consumed, HasArgs(argsHash))
      {
        assert list[i..][1..] == list[i + 1..];
        if list[i].argsHash == argsHash && list[i].Key() !in consumed {
          return Some(list[i]);
        }
      }
      return None;
    }

    method Lookup(req: Request) returns (m: Match)
      requires Valid()
      modifies this`consumed
      ensures Valid()
      ensures m == Scan(spans, old(consumed), req)
      ensures consumed == Served(old(consumed), m)
    {
      ghost var steps := Steps(spans);
      assert spans[..|spans|] == spans;
      hide Select, Steps, LastAt, FirstFree;
      if req.step in byStep && req.hash != "" && byStep[req.step].hash == req.hash {
        var s := byStep[req.step];
        if s.Key() !in consumed {
          consumed := consumed + {s.Key()};
          return Match(Some(s), Exact, req.step);
        }
      }
      if req.hash != "" {
        ScanGroup(steps, consumed, HasHash(req.hash), Anything, HasHash(req.hash));
        var s := FirstUnconsumed(Group(byHash, req.hash));
        if s.Some? {
          consumed := consumed + {s.value.Key()};
          return Found(s.value, ByHash);
        }
      }
      if req.kind == Tool && req.tool != "" {
        m := LookupTool(req);
        return;
      }
      return MISS;
    }

    /** The same tool: with the same arguments if possible, with any otherwise. */
    method LookupTool(req: Request) returns (m: Match)
      requires Valid() && req.tool != ""
      modifies this`consumed
      ensures Valid()
      ensures m == ScanTool(spans, old(consumed), req)
      ensures consumed == Served(old(consumed), m)
    {
      ghost var steps := Steps(spans);
      assert spans[..|spans|] == spans;
      hide Select, Steps, LastAt, FirstFree;
      var candidates := Group(byTool, req.tool);
      if req.argsHash != "" {
        ScanGroup(steps, consumed, HasTool(req.tool), HasArgs(req.argsHash), HasCall(req.tool, req.argsHash));
        var s := FirstWithArgs(candidates, req.argsHash);
        if s.Some? {
          consumed := consumed + {s.value.Key()};
          return Found(s.value, ByTool);
        }
      }
      ScanGroup(steps, consumed, HasTool(req.tool), Anything, HasTool(req.tool));
      var s := FirstUnconsumed(candidates);
      if s.Some? {
        consumed := consumed + {s.value.Key()};
        return Found(s.value, ByTool);
      }
      return MISS;
    }
  }

  // ---- What a match is worth ----

  ghost predicate Free(spans: seq<Span>, consumed: set<(string, int)>, s: Span) {
    s in spans && s.kind != Session && s.Key() !in consumed
  }

  lemma {:induction false} SelectMember(spans: seq<Span>, test: Test, s: Span)
    ensures s in Select(spans, test) <==> s in spans && test.Passes(s)
  {
    if spans != [] {
      SelectMember(spans[..|spans| - 1], test, s);
      assert spans == spans[..|spans| - 1] + [spans[|spans| - 1]];
    }
  }

  lemma {:induction false} FirstFreeMeaning(spans: seq<Span>, consumed: set<(string, int)>, test: Test)
    ensures match FirstFree(spans, consumed, test)
            case Some(s) => s in spans && test.Passes(s) && s.Key() !in consumed
            case None => forall s :: s in spans && test.Passes(s) ==> s.Key() in consumed
  {
    if spans != [] {
      FirstFreeMeaning(spans[1..], consumed, test);
    }
  }

  lemma {:induction false} LastAtMeaning(spans: seq<Span>, step: int)
    ensures match LastAt(spans, step)
            case Some(s) => s in spans && s.step == Some(step)
            case None => forall s :: s in spans ==> s.step != Some(step)
  {
    if spans != [] {
      LastAtMeaning(spans[..|spans| - 1], step);
      assert spans == spans[..|spans| - 1] + [spans[|spans| - 1]];
    }
  }

  /** A match is a recorded step not served before that shares what its kind promises; a miss means that no unserved
      step has the request's bytes or, for a tool call, its tool. */
  lemma ScanMeaning(spans: seq<Span>, consumed: set<(string, int)>, req: Request)
    ensures var m := Scan(spans, consumed, req);
            match m.kind
            case Exact => m.span.Some? && Free(spans, consumed, m.span.value) && m.step == req.step
                          && m.span.value.step == Some(req.step) && m.span.value.hash == req.hash != ""
            case ByHash => m.span.Some? && Free(spans, consumed, m.span.value) && m.span.value.hash == req.hash != ""
            case ByTool => m.span.Some? && Free(spans, consumed, m.span.value) && req.kind == Tool
                           && m.span.value.tool == req.tool != ""
                           && (m.span.value.argsHash == req.argsHash
                               || forall s :: Free(spans, consumed, s) && s.tool == req.tool && req.argsHash != "" ==>
                                    s.argsHash != req.argsHash)
            case NoMatch => m == MISS
                            && forall s :: Free(spans, consumed, s) ==>
                                 !(req.hash != "" && s.hash == req.hash)
                                 && !(req.kind == Tool && req.tool != "" && s.tool == req.tool)
  {
    var steps := Steps(spans);
    forall s
      ensures s in steps <==> s in spans && s.kind != Session
    {
      SelectMember(spans, NotSession, s);
    }
    LastAtMeaning(steps, req.step);
    FirstFreeMeaning(steps, consumed, HasHash(req.hash));
    FirstFreeMeaning(steps, consumed, HasCall(req.tool, req.argsHash));
    FirstFreeMeaning(steps, consumed, HasTool(req.tool));
    if req.kind == Tool && req.argsHash != "" {
      assert forall s :: HasCall(req.tool, req.argsHash).Passes(s) <==> s.tool == req.tool && s.argsHash == req.argsHash;
    }
    assert forall s :: HasHash(req.hash).Passes(s) <==> s.hash == req.hash;
    assert forall s :: HasTool(req.tool).Passes(s) <==> s.tool == req.tool;
  }

  // ---- Runs of lookups ----

  function ConsumedBy(spans: seq<Span>, reqs: seq<Request>): set<(string, int)> {
    if reqs == [] then {}
    else
      var before := ConsumedBy(spans, reqs[..|reqs| - 1]);
      Served(before, Scan(spans, before, reqs[|reqs| - 1]))
  }

  function AnswerTo(spans: seq<Span>, reqs: seq<Request>, i: nat): Match
    requires i < |reqs|
  {
    Scan(spans, ConsumedBy(spans, reqs[..i]), reqs[i])
  }

  lemma {:induction false} StaysConsumed(spans: seq<Span>, reqs: seq<Request>, i: nat, j: nat)
    requires i < j <= |reqs| && AnswerTo(spans, reqs, i).span.Some?
    ensures AnswerTo(spans, reqs, i).span.value.Key() in ConsumedBy(spans, reqs[..j])
    decreases j
  {
    assert reqs[..j][..j - 1] == reqs[..j - 1];
    if i < j - 1 {
      StaysConsumed(spans, reqs, i, j - 1);
    }
  }

  /** In any run of requests no recorded step is served twice. */
  lemma NothingServedTwice(spans: seq<Span>, reqs: seq<Request>, i: nat, j: nat)
    requires i < j < |reqs|
    requires AnswerTo(spans, reqs, i).span.Some? && AnswerTo(spans, reqs, j).span.Some?
    ensures AnswerTo(spans, reqs, i).span.value.Key() != AnswerTo(spans, reqs, j).span.value.Key()
  {
    StaysConsumed(spans, reqs, i, j);
    ScanMeaning(spans, ConsumedBy(spans, reqs[..j]), reqs[j]);
  }
}
