/** The recorder's queue and its one worker, over every interleaving of producers, worker and close
    (`internal/recorder/sink.go`, `internal/corpus/corpus.go`). */
module Sink {
  import opened Basics

  datatype Record = Record(session: string, body: string)

  datatype Outcome = Outcome(record: Record, ok: bool)

  datatype Worker = Serving | Draining | Exited

  /** `files` is the corpus; `open` gives each open cassette's session and when it was last written. */
  datatype State = State(
    capacity: nat, idle: int, queue: seq<Record>, inHand: Option<Record>, worker: Worker, closing: bool,
    open: map<string, int>, files: map<string, seq<Record>>, closeErrors: nat,
    offered: seq<Record>, dropped: seq<Record>, accepted: seq<Record>, processed: seq<Outcome>)

  /** One step of a producer, the worker, or the caller of Close. */
  datatype Step =
    | Offer(record: Record)
    | Take
    | Finish(create: bool, span: bool, now: int)
    | Sweep(at: int, failing: set<string>)
    | CloseCall
    | Drain
    | Exit(failing: set<string>)

  function Start(capacity: nat, idle: int, disk: map<string, seq<Record>>): State {
    State(capacity, idle, [], None, Serving, false, map[], disk, 0, [], [], [], [])
  }

  // ---- The steps ----

  /** A full queue drops rather than blocks. */
  function AfterOffer(s: State, r: Record): State {
    var t := s.(offered := s.offered + [r]);
    if |s.queue| < s.capacity then t.(queue := s.queue + [r], accepted := s.accepted + [r])
    else t.(dropped := s.dropped + [r])
  }

  function Done(s: State, ok: bool): State
    requires s.inHand.Some?
  {
    s.(inHand := None, processed := s.processed + [Outcome(s.inHand.value, ok)])
  }

  /** Open the record's cassette if it has none; a session already in the corpus is refused. */
  function Opened(s: State, session: string, create: bool, now: int): Option<State> {
    if session in s.open then Some(s)
    else if !create || session in s.files then None
    else Some(s.(open := s.open[session := now], files := s.files[session := []]))
  }

  function AppendTo(s: State, r: Record, now: int): State
    requires r.session in s.files
  {
    s.(open := s.open[r.session := now], files := s.files[r.session := s.files[r.session] + [r]])
  }

  /** Every open cassette is in the corpus. */
  ghost predicate OpenFiled(s: State) {
    forall session :: session in s.open ==> session in s.files
  }

  ghost function AfterWrite(s: State, create: bool, span: bool, now: int): State
    requires s.inHand.Some? && OpenFiled(s)
  {
    var r := s.inHand.value;
    match Opened(s, r.session, create, now)
    case None => Done(s, false)
    case Some(t) => if span then Done(AppendTo(t, r, now), true) else Done(t, false)
  }

  /** The sessions closed: all of them, or those quiet since the cutoff. */
  function Closed(s: State, all: bool, cutoff: int): set<string> {
    set session | session in s.open && (all || s.open[session] < cutoff)
  }

  function CloseIdle(s: State, all: bool, cutoff: int, failing: set<string>): State {
    var closed := Closed(s, all, cutoff);
    s.(open := s.open - closed, closeErrors := s.closeErrors + |closed * failing|)
  }

  predicate Enabled(s: State, step: Step) {
    match step
    case Offer(_) => true
    case Take => s.worker != Exited && s.inHand == None && s.queue != []
    case Finish(_, _, _) => s.inHand.Some?
    case Sweep(_, _) => s.worker == Serving && s.inHand == None
    case CloseCall => true
    case Drain => s.worker == Serving && s.closing && s.inHand == None
    case Exit(_) => s.worker == Draining && s.inHand == None && s.queue == []
  }

  /** A step that is not possible now leaves the state as it is. */
  ghost function Next(s: State, step: Step): State
    requires OpenFiled(s)
  {
    if !Enabled(s, step) then s else
      match step
      case Offer(r) => AfterOffer(s, r)
      case Take => s.(queue := s.queue[1..], inHand := Some(s.queue[0]))
      case Finish(create, span, now) => AfterWrite(s, create, span, now)
      case Sweep(at, failing) => CloseIdle(s, false, at - s.idle, failing)
      case CloseCall => s.(closing := true)
      case Drain => s.(worker := Draining)
      case Exit(failing) => CloseIdle(s, true, 0, failing).(worker := Exited)
  }

  lemma NextKeepsFiles(s: State, step: Step)
    requires OpenFiled(s)
    ensures OpenFiled(Next(s, step))
  {
  }

  ghost function After(s: State, steps: seq<Step>): (t: State)
    requires OpenFiled(s)
    ensures OpenFiled(t)
    decreases |steps|
  {
    NextKeepsFiles(s, if steps == [] then Take else steps[0]);
    if steps == [] then s else After(Next(s, steps[0]), steps[1..])
  }

  // ---- Every record is in one place ----

  function Records(processed: seq<Outcome>): seq<Record> {
    seq(|processed|, i requires 0 <= i < |processed| => processed[i].record)
  }

  function Held(r: Option<Record>): seq<Record> { if r.Some? then [r.value] else [] }

  /** The written records of a session, in order. */
  function WrittenTo(processed: seq<Outcome>, session: string): seq<Record> {
    if processed == [] then []
    else
      var last := processed[|processed| - 1];
      WrittenTo(processed[..|processed| - 1], session)
      + if last.ok && last.record.session == session then [last.record] else []
  }

  /** Nothing offered is lost or duplicated, and what was accepted is handled in order. */
  ghost predicate Conserved(s: State) {
    && multiset(s.offered) == multiset(s.accepted) + multiset(s.dropped)
    && s.accepted == Records(s.processed) + Held(s.inHand) + s.queue
    && |s.queue| <= s.capacity
  }

  /** A session recorded before is never touched; a session recorded now holds exactly its written records. */
  ghost predicate Filed(s: State, disk: map<string, seq<Record>>) {
    forall session :: FiledAt(s, disk, session)
  }

  ghost predicate FiledAt(s: State, disk: map<string, seq<Record>>, session: string) {
    && (session in disk ==> session in s.files && s.files[session] == disk[session] && session !in s.open
                            && WrittenTo(s.processed, session) == [])
    && (session in s.files && session !in disk ==> s.files[session] == WrittenTo(s.processed, session))
    && (session !in s.files ==> WrittenTo(s.processed, session) == [] && session !in s.open)
  }

  ghost predicate Stopped(s: State) {
    s.worker == Exited ==> s.open == map[] && s.inHand == None
  }

  ghost predicate Inv(s: State, disk: map<string, seq<Record>>) {
    OpenFiled(s) && Conserved(s) && Filed(s, disk) && Stopped(s)
  }

  lemma OfferConserves(s: State, r: Record)
    requires Conserved(s)
    ensures Conserved(AfterOffer(s, r))
  {
    var t := AfterOffer(s, r);
    if |s.queue| < s.capacity {
      assert t.accepted == Records(s.processed) + Held(s.inHand) + t.queue;
    }
  }

  lemma TakeConserves(s: State)
    requires Conserved(s) && s.inHand == None && s.queue != []
    ensures Conserved(s.(queue := s.queue[1..], inHand := Some(s.queue[0])))
  {
    hide Records;
    HandOver(Records(s.processed), s.queue);
  }

  /** Taking the head in hand changes no order. */
  lemma HandOver(done: seq<Record>, queue: seq<Record>)
    requires queue != []
    ensures done + Held(None) + queue == done + Held(Some(queue[0])) + queue[1..]
  {
  }

  lemma FinishConserves(s: State, create: bool, span: bool, now: int)
    requires Conserved(s) && OpenFiled(s) && s.inHand.Some?
    ensures Conserved(AfterWrite(s, create, span, now))
  {
    hide AfterWrite;
    var t := AfterWrite(s, create, span, now);
    FinishMoves(s, create, span, now);
    assert Records(t.processed) == Records(s.processed) + [s.inHand.value];
    assert s.accepted == Records(t.processed) + s.queue;
  }

  lemma NextConserves(s: State, step: Step)
    requires Conserved(s) && OpenFiled(s)
    ensures Conserved(Next(s, step))
  {
    hide AfterWrite, Closed, Conserved, AfterOffer;
    match step {
      case Offer(r) => OfferConserves(s, r);
      case Take => if Enabled(s, step) { TakeConserves(s); }
      case Finish(create, span, now) => if Enabled(s, step) { FinishConserves(s, create, span, now); }
      case _ => SameLists(s, Next(s, step));
    }
  }

  lemma SameLists(s: State, t: State)
    requires Conserved(s) && t.queue == s.queue && t.inHand == s.inHand && t.capacity == s.capacity
    requires t.offered == s.offered && t.accepted == s.accepted && t.dropped == s.dropped && t.processed == s.processed
    ensures Conserved(t)
  {
  }

  lemma FinishMoves(s: State, create: bool, span: bool, now: int)
    requires s.inHand.Some? && OpenFiled(s)
    ensures var t := AfterWrite(s, create, span, now);
            && t.queue == s.queue && t.inHand == None && t.accepted == s.accepted && t.offered == s.offered
            && t.dropped == s.dropped && t.capacity == s.capacity && t.worker == s.worker
            && (exists ok :: t.processed == s.processed + [Outcome(s.inHand.value, ok)])
  {
    var t := AfterWrite(s, create, span, now);
    assert t.processed == s.processed + [Outcome(s.inHand.value, true)]
           || t.processed == s.processed + [Outcome(s.inHand.value, false)];
  }

  lemma WrittenToNext(processed: seq<Outcome>, o: Outcome, session: string)
    ensures WrittenTo(processed + [o], session)
            == WrittenTo(processed, session) + if o.ok && o.record.session == session then [o.record] else []
  {
    assert (processed + [o])[..|processed|] == processed;
  }

  lemma FinishFiles(s: State, create: bool, span: bool, now: int, disk: map<string, seq<Record>>, session: string)
    requires s.inHand.Some? && FiledAt(s, disk, session) && FiledAt(s, disk, s.inHand.value.session)
    requires OpenFiled(s)
    ensures FiledAt(AfterWrite(s, create, span, now), disk, session)
  {
    hide WrittenTo;
    var t, r := AfterWrite(s, create, span, now), s.inHand.value;
    WrittenToNext(s.processed, Outcome(r, true), session);
    WrittenToNext(s.processed, Outcome(r, false), session);
  }

  lemma OtherFiles(s: State, step: Step, disk: map<string, seq<Record>>, session: string)
    requires FiledAt(s, disk, session) && OpenFiled(s)
    requires !(step.Finish? && Enabled(s, step))
    ensures FiledAt(Next(s, step), disk, session)
  {
    hide AfterWrite, WrittenTo;
  }

  lemma NextFiles(s: State, step: Step, disk: map<string, seq<Record>>)
    requires Filed(s, disk)
    ensures OpenFiled(s) && Filed(Next(s, step), disk)
  {
    hide AfterWrite, WrittenTo, FiledAt;
    OpenIsFiled(s, disk);
    forall session
      ensures FiledAt(Next(s, step), disk, session)
    {
      assert FiledAt(s, disk, session);
      if step.Finish? && Enabled(s, step) {
        assert FiledAt(s, disk, s.inHand.value.session);
        FinishFiles(s, step.create, step.span, step.now, disk, session);
      } else {
        OtherFiles(s, step, disk, session);
      }
    }
  }

  lemma NextStops(s: State, step: Step)
    requires Stopped(s) && OpenFiled(s)
    ensures Stopped(Next(s, step))
  {
    hide AfterWrite;
    if step.Exit? && Enabled(s, step) {
      assert Next(s, step).open == map[];
    }
    if step.Finish? && Enabled(s, step) {
      FinishMoves(s, step.create, step.span, step.now);
    }
  }

  /** What holds after any steps whatever, from a corpus that may already hold recordings. */
  lemma {:induction false} RunsAreSafe(s: State, steps: seq<Step>, disk: map<string, seq<Record>>)
    requires Inv(s, disk)
    ensures Inv(After(s, steps), disk)
    decreases |steps|
  {
    hide Next, Conserved, Filed, Stopped;
    if steps != [] {
      NextConserves(s, steps[0]);
      NextFiles(s, steps[0], disk);
      NextStops(s, steps[0]);
      NextKeepsFiles(s, steps[0]);
      RunsAreSafe(Next(s, steps[0]), steps[1..], disk);
    }
  }

  lemma OpenIsFiled(s: State, disk: map<string, seq<Record>>)
    requires Filed(s, disk)
    ensures OpenFiled(s)
  {
    hide WrittenTo;
    forall session | session in s.open
      ensures session in s.files
    {
      assert FiledAt(s, disk, session);
    }
  }

  lemma StartIsSafe(capacity: nat, idle: int, disk: map<string, seq<Record>>)
    ensures Inv(Start(capacity, idle, disk), disk)
  {
  }

  /** From the start, each offered record is dropped, queued, in hand, written or failed, and in only one of those. */
  lemma EveryRecordIsSomewhere(capacity: nat, idle: int, disk: map<string, seq<Record>>, steps: seq<Step>)
    ensures var s := After(Start(capacity, idle, disk), steps);
            multiset(s.offered) == multiset(s.dropped) + multiset(s.queue) + multiset(Held(s.inHand))
                                   + multiset(ByOutcome(s.processed, true)) + multiset(ByOutcome(s.processed, false))
  {
    StartIsSafe(capacity, idle, disk);
    RunsAreSafe(Start(capacity, idle, disk), steps, disk);
    var s := After(Start(capacity, idle, disk), steps);
    OutcomesSplit(s.processed);
  }

  function ByOutcome(processed: seq<Outcome>, ok: bool): seq<Record> {
    if processed == [] then []
    else
      var last := processed[|processed| - 1];
      ByOutcome(processed[..|processed| - 1], ok) + if last.ok == ok then [last.record] else []
  }

  lemma {:induction false} OutcomesSplit(processed: seq<Outcome>)
    ensures multiset(Records(processed)) == multiset(ByOutcome(processed, true)) + multiset(ByOutcome(processed, false))
  {
    if processed != [] {
      OutcomesSplit(processed[..|processed| - 1]);
      assert Records(processed) == Records(processed[..|processed| - 1]) + [processed[|processed| - 1].record];
    }
  }

  // ---- Cassettes ----

  lemma ClosedStays(s: State, step: Step, session: string)
    requires session in s.files && session !in s.open && OpenFiled(s)
    ensures var t := Next(s, step); session in t.files && session !in t.open && t.files[session] == s.files[session]
  {
  }

  /** A cassette that is closed stays closed, and keeps what it holds. */
  lemma {:induction false} ClosedForGood(s: State, steps: seq<Step>, session: string)
    requires session in s.files && session !in s.open && OpenFiled(s)
    ensures var t := After(s, steps); session in t.files && session !in t.open && t.files[session] == s.files[session]
    decreases |steps|
  {
    hide Next;
    if steps != [] {
      ClosedStays(s, steps[0], session);
      NextKeepsFiles(s, steps[0]);
      ClosedForGood(Next(s, steps[0]), steps[1..], session);
    }
  }

  lemma OneStep(s: State, step: Step)
    requires OpenFiled(s)
    ensures After(s, [step]) == Next(s, step)
  {
    hide Next;
    NextKeepsFiles(s, step);
    assert [step][1..] == [];
  }

  /** Within one session, a cassette's records are the session's accepted records that were written, in order. */
  lemma {:induction false} WrittenInOrder(processed: seq<Outcome>, session: string)
    ensures SubsequenceOf(WrittenTo(processed, session), Records(processed))
  {
    if processed != [] {
      var front, last := processed[..|processed| - 1], processed[|processed| - 1];
      WrittenInOrder(front, session);
      assert Records(processed) == Records(front) + [last.record];
      SubsequenceGrows(WrittenTo(front, session), Records(front), last.record);
      assert WrittenTo(front, session) + [] == WrittenTo(front, session);
    }
  }

  predicate SubsequenceOf(s: seq<Record>, t: seq<Record>) {
    s == [] || (t != [] && ((s[|s| - 1] == t[|t| - 1] && SubsequenceOf(s[..|s| - 1], t[..|t| - 1]))
                            || SubsequenceOf(s, t[..|t| - 1])))
  }

  lemma SubsequenceGrows(s: seq<Record>, t: seq<Record>, r: Record)
    requires SubsequenceOf(s, t)
    ensures SubsequenceOf(s, t + [r]) && SubsequenceOf(s + [r], t + [r])
  {
    assert (t + [r])[..|t|] == t && (s + [r])[..|s|] == s;
  }

  /** The last accepted records of a session never overtake the earlier ones on their way to its file. */
  lemma FilesKeepAcceptanceOrder(capacity: nat, idle: int, disk: map<string, seq<Record>>, steps: seq<Step>, session: string)
    ensures var s := After(Start(capacity, idle, disk), steps);
            session in s.files && session !in disk ==> SubsequenceOf(s.files[session], s.accepted)
  {
    hide After, WrittenTo, SubsequenceOf;
    StartIsSafe(capacity, idle, disk);
    RunsAreSafe(Start(capacity, idle, disk), steps, disk);
    var s := After(Start(capacity, idle, disk), steps);
    WrittenInOrder(s.processed, session);
    assert FiledAt(s, disk, session);
    PrefixHolds(WrittenTo(s.processed, session), Records(s.processed), Held(s.inHand) + s.queue);
    assert s.accepted == Records(s.processed) + (Held(s.inHand) + s.queue);
  }

  lemma {:induction false} PrefixHolds(s: seq<Record>, t: seq<Record>, more: seq<Record>)
    requires SubsequenceOf(s, t)
    ensures SubsequenceOf(s, t + more)
    decreases |more|
  {
    if more == [] {
      assert t + more == t;
    } else {
      PrefixHolds(s, t, more[..|more| - 1]);
      assert (t + more)[..|t + more| - 1] == t + more[..|more| - 1];
    }
  }

  // ---- Shutting down ----

  /** When the worker exits, everything accepted so far has been handled and no cassette is left open. */
  lemma ExitFlushes(s: State, failing: set<string>, disk: map<string, seq<Record>>)
    requires Inv(s, disk) && Enabled(s, Exit(failing))
    ensures var t := Next(s, Exit(failing));
            && t.worker == Exited && t.open == map[]
            && t.accepted == Records(t.processed) && t.files == s.files
  {
    assert Next(s, Exit(failing)).open == map[];
    assert s.accepted == Records(s.processed);
  }

  /** A record accepted after the worker has exited is never written: nothing is, any more. */
  lemma {:induction false} NothingAfterExit(s: State, steps: seq<Step>, disk: map<string, seq<Record>>)
    requires Inv(s, disk) && s.worker == Exited
    ensures var t := After(s, steps);
            t.worker == Exited && t.processed == s.processed && t.files == s.files && s.queue <= t.queue
    decreases |steps|
  {
    hide Conserved, Filed, WrittenTo;
    OpenIsFiled(s, disk);
    if steps != [] {
      RunsAreSafe(s, [steps[0]], disk);
      OneStep(s, steps[0]);
      NothingAfterExit(Next(s, steps[0]), steps[1..], disk);
    }
  }

  /** There is such a record: the queue still takes what is offered after the exit, and keeps it for good. */
  lemma AcceptedAfterExit(capacity: nat, idle: int, disk: map<string, seq<Record>>, r: Record, steps: seq<Step>)
    requires capacity > 0
    ensures var s := After(Start(capacity, idle, disk), [CloseCall, Drain, Exit({}), Offer(r)]);
            && s.worker == Exited && s.accepted == [r]
            && After(s, steps).processed == [] && [r] <= After(s, steps).queue && After(s, steps).files == disk
  {
    hide After, Next, Filed, Conserved, Stopped;
    var stop := [CloseCall, Drain, Exit({}), Offer(r)];
    var s0 := Start(capacity, idle, disk);
    StartIsSafe(capacity, idle, disk);
    StopThenOffer(s0, r);
    RunsAreSafe(s0, stop, disk);
    NothingAfterExit(After(s0, stop), steps, disk);
  }

  lemma StopThenOffer(s: State, r: Record)
    requires s.worker == Serving && s.inHand == None && s.queue == [] && s.capacity > 0 && s.open == map[]
    ensures After(s, [CloseCall, Drain, Exit({}), Offer(r)])
            == AfterOffer(s.(closing := true, worker := Exited), r)
  {
    hide After, Next, AfterOffer;
    NothingToClose(s);
    assert [CloseCall, Drain, Exit({}), Offer(r)] == [CloseCall] + [Drain, Exit({}), Offer(r)];
    assert [Drain, Exit({}), Offer(r)] == [Drain] + [Exit({}), Offer(r)] && [Exit({}), Offer(r)] == [Exit({})] + [Offer(r)];
    FirstStep(s, CloseCall, [Drain, Exit({}), Offer(r)]);
    FirstStep(s.(closing := true), Drain, [Exit({}), Offer(r)]);
    FirstStep(s.(closing := true, worker := Draining), Exit({}), [Offer(r)]);
    OneStep(s.(closing := true, worker := Exited), Offer(r));
    OfferStep(s.(closing := true, worker := Exited), r);
  }

  lemma NothingToClose(s: State)
    requires s.worker == Serving && s.inHand == None && s.queue == [] && s.open == map[]
    ensures OpenFiled(s) && Next(s, CloseCall) == s.(closing := true)
    ensures Next(s.(closing := true), Drain) == s.(closing := true, worker := Draining)
    ensures Next(s.(closing := true, worker := Draining), Exit({})) == s.(closing := true, worker := Exited)
  {
    var t := s.(closing := true, worker := Draining);
    assert Closed(t, true, 0) == {} && t.open - {} == t.open;
  }

  lemma OfferStep(s: State, r: Record)
    requires OpenFiled(s)
    ensures Next(s, Offer(r)) == AfterOffer(s, r)
  {
  }

  lemma FirstStep(s: State, step: Step, rest: seq<Step>)
    requires OpenFiled(s) && OpenFiled(Next(s, step))
    ensures After(s, [step] + rest) == After(Next(s, step), rest)
  {
    hide Next;
    assert ([step] + rest)[1..] == rest;
  }

  /** Work left for a worker that has begun to drain. */
  function DrainWork(s: State): nat {
    2 * |s.queue| + |Held(s.inHand)| + if s.worker == Exited then 0 else 1
  }

  predicate WorkerStep(step: Step) { step.Take? || step.Finish? || step.Exit? }

  /** A draining worker is never stuck, and without new records each of its steps brings it nearer to exiting. */
  lemma DrainProgresses(s: State, step: Step)
    requires s.worker == Draining && OpenFiled(s)
    ensures Enabled(s, Take) || Enabled(s, Finish(true, true, 0)) || Enabled(s, Exit({}))
    ensures WorkerStep(step) && Enabled(s, step) ==> DrainWork(Next(s, step)) < DrainWork(s)
  {
    if step.Finish? && Enabled(s, step) {
      FinishMoves(s, step.create, step.span, step.now);
    }
  }
}

/** The sink's own methods, each of which is one step of the machine above. */
module SinkRun {
  import opened Basics
  import opened Sink

  /** The cassettes to close, among some of those open. */
  function ToClose(open: map<string, int>, all: bool, cutoff: int, among: set<string>): set<string> {
    set k | k in among && k in open && (all || open[k] < cutoff)
  }

  lemma ToCloseNext(open: map<string, int>, all: bool, cutoff: int, among: set<string>, k: string)
    requires k in open && k !in among
    ensures k !in ToClose(open, all, cutoff, among)
    ensures ToClose(open, all, cutoff, among + {k})
            == if all || open[k] < cutoff then ToClose(open, all, cutoff, among) + {k} else ToClose(open, all, cutoff, among)
  {
  }

  lemma OneMore(s: set<string>, k: string, failing: set<string>)
    requires k !in s
    ensures |(s + {k}) * failing| == |s * failing| + if k in failing then 1 else 0
  {
    if k in failing {
      assert (s + {k}) * failing == s * failing + {k};
    } else {
      assert (s + {k}) * failing == s * failing;
    }
  }

  lemma CloseAll(open: map<string, int>, all: bool, cutoff: int)
    ensures ToClose(open, all, cutoff, {}) == {} && open - {} == open
    ensures ToClose(open, all, cutoff, open.Keys) == set k | k in open && (all || open[k] < cutoff)
  {
  }

  /** Close the cassettes that are to be closed, counting those that fail to close. */
  method CloseQuiet(open: map<string, int>, all: bool, cutoff: int, failing: set<string>)
    returns (kept: map<string, int>, errors: nat)
    ensures var closed := set k | k in open && (all || open[k] < cutoff);
            kept == open - closed && errors == |closed * failing|
  {
    kept, errors := open, 0;
    var keys := open.Keys;
    ghost var closed: set<string> := {};
    CloseAll(open, all, cutoff);
    hide ToClose;
    while keys != {}
      invariant keys <= open.Keys && closed == ToClose(open, all, cutoff, open.Keys - keys)
      invariant kept == open - closed && errors == |closed * failing|
      decreases |keys|
    {
      var k :| k in keys;
      ToCloseNext(open, all, cutoff, open.Keys - keys, k);
      assert open.Keys - keys + {k} == open.Keys - (keys - {k});
      if all || open[k] < cutoff {
        OneMore(closed, k, failing);
        if k in failing {
          errors := errors + 1;
        }
        assert kept - {k} == open - (closed + {k});
        kept, closed := kept - {k}, closed + {k};
      }
      keys := keys - {k};
    }
    assert open.Keys - keys == open.Keys;
  }

  /** What the worker finds ready; a record's cassette may fail to open or its spans to be written. */
  datatype Ready = Queued(create: bool, span: bool, at: int) | Tick(at: int, failing: set<string>) | Closing

  class CassetteSink {
    const capacity: nat
    const idle: int
    var queue: seq<Record>
    var inHand: Option<Record>
    var worker: Worker
    var closing: bool
    var open: map<string, int>
    /** The corpus the cassettes are created in. */
    var files: map<string, seq<Record>>
    var written: nat
    var dropped: nat
    var errored: nat
    ghost var offered: seq<Record>
    ghost var lost: seq<Record>
    ghost var accepted: seq<Record>
    ghost var processed: seq<Outcome>
    ghost var closeErrors: nat

    ghost function View(): State
      reads this
    {
      State(capacity, idle, queue, inHand, worker, closing, open, files, closeErrors, offered, lost, accepted, processed)
    }

    /** The counters are those of the log; a cassette that fails to close counts as an error too. */
    ghost predicate Valid()
      reads this
    {
      && OpenFiled(View())
      && written == |ByOutcome(processed, true)|
      && errored == |ByOutcome(processed, false)| + closeErrors
      && dropped == |lost|
    }

    constructor (depth: int, idle: int, disk: map<string, seq<Record>>)
      ensures Valid()
      ensures View() == Start(if depth <= 0 then 1024 else depth, if idle <= 0 then 120_000_000_000 else idle, disk)
    {
      capacity := if depth <= 0 then 1024 else depth;
      this.idle := if idle <= 0 then 120_000_000_000 else idle;
      queue, inHand, worker, closing, open, files := [], None, Serving, false, map[], disk;
      written, dropped, errored := 0, 0, 0;
      offered, lost, accepted, processed, closeErrors := [], [], [], [], 0;
    }

    method Record(r: Record)
      requires Valid()
      modifies this
      ensures Valid() && View() == Next(old(View()), Offer(r))
    {
      offered := offered + [r];
      if |queue| < capacity {
        queue, accepted := queue + [r], accepted + [r];
      } else {
        dropped, lost := dropped + 1, lost + [r];
      }
    }

    method Receive()
      requires Valid() && Enabled(View(), Take)
      modifies this
      ensures Valid() && View() == Next(old(View()), Take)
      ensures queue == old(queue)[1..] && inHand.Some? && worker == old(worker) && closing == old(closing)
    {
      queue, inHand := queue[1..], Some(queue[0]);
    }

    /** Find or create the cassette of the record's session. */
    method CassetteFor(r: Record, create: bool, now: int) returns (ok: bool)
      requires Valid()
      modifies this`open, this`files
      ensures ok <==> Opened(old(View()), r.session, create, now).Some?
      ensures View() == if ok then Opened(old(View()), r.session, create, now).value else old(View())
      ensures ok ==> r.session in files
      ensures Valid()
    {
      if r.session in open {
        return true;
      }
      if !create || r.session in files {
        return false;
      }
      files := files[r.session := []];
      open := open[r.session := now];
      return true;
    }

    /** Count and log what became of the record in hand. */
    method Settle(r: Record, ok: bool)
      requires Valid() && inHand == Some(r)
      modifies this`inHand, this`written, this`errored, this`processed
      ensures Valid() && View() == Done(old(View()), ok)
    {
      hide ByOutcome;
      OutcomeCounts(processed, Outcome(r, ok));
      inHand := None;
      processed := processed + [Outcome(r, ok)];
      if ok {
        written := written + 1;
      } else {
        errored := errored + 1;
      }
    }

    method Write(create: bool, span: bool, now: int)
      requires Valid() && inHand.Some?
      modifies this
      ensures Valid() && View() == Next(old(View()), Finish(create, span, now))
      ensures queue == old(queue) && inHand == None && worker == old(worker) && closing == old(closing)
    {
      hide ByOutcome, Opened;
      var r := inHand.value;
      var found := CassetteFor(r, create, now);
      if found && span {
        files := files[r.session := files[r.session] + [r]];
        open := open[r.session := now];
      }
      Settle(r, found && span);
    }

    method CloseIdle(all: bool, cutoff: int, failing: set<string>)
      requires Valid()
      modifies this`open, this`errored, this`closeErrors
      ensures Valid() && View() == Sink.CloseIdle(old(View()), all, cutoff, failing)
    {
      hide ByOutcome;
      ghost var closed := Closed(View(), all, cutoff);
      var errors: nat;
      open, errors := CloseQuiet(open, all, cutoff, failing);
      errored, closeErrors := errored + errors, closeErrors + errors;
      assert open == old(open) - closed;
    }

    method SweepIdle(at: int, failing: set<string>)
      requires Valid() && Enabled(View(), Sweep(at, failing))
      modifies this
      ensures Valid() && View() == Next(old(View()), Sweep(at, failing))
      ensures queue == old(queue) && inHand == None && worker == old(worker) && closing == old(closing)
    {
      CloseIdle(false, at - idle, failing);
    }

    method StartDraining()
      requires Valid() && Enabled(View(), Drain)
      modifies this
      ensures Valid() && View() == Next(old(View()), Drain)
      ensures worker == Draining && queue == old(queue) && inHand == None && closing == old(closing)
    {
      worker := Draining;
    }

    method Stop(failing: set<string>)
      requires Valid() && Enabled(View(), Exit(failing))
      modifies this
      ensures Valid() && View() == Next(old(View()), Exit(failing))
      ensures worker == Exited && queue == [] && closing == old(closing)
    {
      CloseIdle(true, 0, failing);
      worker := Exited;
    }

    /** The rest of `run` once closing: write what is queued, then close everything. */
    method DrainAndStop(create: seq<bool>, span: seq<bool>, now: int, failing: set<string>) returns (ghost steps: seq<Step>)
      requires Valid() && worker == Draining && inHand == None
      requires |create| >= |queue| && |span| >= |queue|
      modifies this
      ensures Valid() && View() == After(old(View()), steps) && worker == Exited && queue == []
      ensures closing == old(closing)
    {
      hide Next, After, ByOutcome, OpenFiled, Done;
      steps := [];
      var i := 0;
      NoSteps(View());
      while queue != []
        invariant Valid() && worker == Draining && inHand == None && closing == old(closing) && OpenFiled(old(View()))
        invariant View() == After(old(View()), steps)
        invariant i + |queue| == |old(queue)|
        decreases |queue|
      {
        Receive();
        Write(create[i], span[i], now);
        AfterAppend(old(View()), steps, Take);
        AfterAppend(old(View()), steps + [Take], Finish(create[i], span[i], now));
        steps := steps + [Take] + [Finish(create[i], span[i], now)];
        i := i + 1;
      }
      Stop(failing);
      AfterAppend(old(View()), steps, Exit(failing));
      steps := steps + [Exit(failing)];
    }

    /** The worker's loop, over the order in which it finds its channels ready: a record queued, the ticker, or the close.
        It returns when the script runs out, or once it has drained. */
    method Run(ready: seq<Ready>, create: seq<bool>, span: seq<bool>, now: int, failing: set<string>)
      returns (ghost steps: seq<Step>)
      requires Valid() && worker == Serving && inHand == None
      requires |create| >= |queue| && |span| >= |queue|
      modifies this
      ensures Valid() && View() == After(old(View()), steps)
      ensures worker == (if old(closing) && Closing in ready then Exited else Serving)
      ensures worker == Exited ==> queue == []
    {
      hide Next, After, ByOutcome, OpenFiled;
      steps := [];
      NoSteps(View());
      for i := 0 to |ready|
        invariant Valid() && worker == Serving && inHand == None && OpenFiled(old(View()))
        invariant closing == old(closing) && !(closing && Closing in ready[..i])
        invariant |queue| <= |old(queue)| && View() == After(old(View()), steps)
      {
        assert ready[..i + 1] == ready[..i] + [ready[i]];
        match ready[i] {
          case Queued(made, ok, at) =>
            if queue != [] {
              Receive();
              Write(made, ok, at);
              AfterAppend(old(View()), steps, Take);
              AfterAppend(old(View()), steps + [Take], Finish(made, ok, at));
              steps := steps + [Take] + [Finish(made, ok, at)];
            }
          case Tick(at, broken) =>
            SweepIdle(at, broken);
            AfterAppend(old(View()), steps, Sweep(at, broken));
            steps := steps + [Sweep(at, broken)];
          case Closing =>
            if closing {
              StartDraining();
              AfterAppend(old(View()), steps, Drain);
              steps := steps + [Drain];
              ghost var rest := DrainAndStop(create, span, now, failing);
              AfterConcat(old(View()), steps, rest);
              steps := steps + rest;
              return;
            }
        }
      }
      assert ready[..|ready|] == ready;
    }

    /** Asking twice is asking once. */
    method Close()
      requires Valid()
      modifies this
      ensures Valid() && View() == Next(old(View()), CloseCall)
      ensures old(closing) ==> View() == old(View())
    {
      if !closing {
        closing := true;
      }
    }
  }

  lemma {:induction false} AfterConcat(s: State, steps: seq<Step>, more: seq<Step>)
    requires OpenFiled(s)
    ensures After(s, steps + more) == After(After(s, steps), more)
    decreases |steps|
  {
    hide Next;
    if steps == [] {
      assert [] + more == more;
    } else {
      NextKeepsFiles(s, steps[0]);
      AfterConcat(Next(s, steps[0]), steps[1..], more);
      assert (steps + more)[1..] == steps[1..] + more;
    }
  }

  lemma NoSteps(s: State)
    requires OpenFiled(s)
    ensures After(s, []) == s
  {
  }

  lemma OutcomeCounts(processed: seq<Outcome>, o: Outcome)
    ensures |ByOutcome(processed + [o], true)| == |ByOutcome(processed, true)| + if o.ok then 1 else 0
    ensures |ByOutcome(processed + [o], false)| == |ByOutcome(processed, false)| + if o.ok then 0 else 1
  {
    assert (processed + [o])[..|processed|] == processed;
  }

  lemma {:induction false} AfterAppend(s: State, steps: seq<Step>, step: Step)
    requires OpenFiled(s)
    ensures After(s, steps + [step]) == Next(After(s, steps), step)
    decreases |steps|
  {
    hide Next;
    if steps == [] {
      OneStep(s, step);
      assert [] + [step] == [step];
    } else {
      NextKeepsFiles(s, steps[0]);
      AfterAppend(Next(s, steps[0]), steps[1..], step);
      assert (steps + [step])[1..] == steps[1..] + [step];
    }
  }
}
