/** When a record is dropped, when one is written, and when a cassette is closed (`internal/recorder/sink.go`,
    lines 110-260). */
module SinkMeaning {
  import opened Basics
  import opened Sink

  /** A record offered is dropped exactly when the queue is full already, and nothing but the queue and the tallies change. */
  lemma DroppedExactly(s: State, r: Record)
    requires OpenFiled(s)
    ensures var t := Next(s, Offer(r));
            && (t.dropped == s.dropped + [r] <==> |s.queue| >= s.capacity)
            && (t.queue == s.queue + [r] && t.accepted == s.accepted + [r] <==> |s.queue| < s.capacity)
            && t.offered == s.offered + [r]
            && t == s.(queue := t.queue, offered := t.offered, dropped := t.dropped, accepted := t.accepted)
  {
    var t := Next(s, Offer(r));
    assert |s.dropped + [r]| == |s.dropped| + 1 && |s.queue + [r]| == |s.queue| + 1;
  }

  /** A record in hand is written exactly when it can be encoded and its session's cassette is open, or is in no corpus yet and
      can be created. Written or not, it leaves the hand once, and only its own session's cassette is touched; a cassette that
      was opened, or written to, was so at that time. */
  lemma WrittenExactly(s: State, create: bool, span: bool, now: int)
    requires OpenFiled(s) && s.inHand.Some?
    ensures var t, r := Next(s, Finish(create, span, now)), s.inHand.value;
            var usable := r.session in s.open || (create && r.session !in s.files);
            && t.inHand == None && t.processed == s.processed + [Outcome(r, span && usable)]
            && (r.session in t.open <==> usable)
            && (r.session in t.open ==> t.open[r.session] == if span || r.session !in s.open then now else s.open[r.session])
            && (r.session in t.files <==> r.session in s.files || usable)
            && (r.session in t.files ==>
                  t.files[r.session] == (if r.session in s.files then s.files[r.session] else [])
                                        + if span && usable then [r] else [])
            && (forall other :: other != r.session ==>
                  && (other in t.open <==> other in s.open) && (other in t.open ==> t.open[other] == s.open[other])
                  && (other in t.files <==> other in s.files) && (other in t.files ==> t.files[other] == s.files[other]))
            && t == s.(inHand := None, processed := t.processed, open := t.open, files := t.files)
  {
    var r := s.inHand.value;
    if r.session in s.files {
      assert s.files[r.session] + [] == s.files[r.session];
    }
    assert [] + [r] == [r];
  }

  /** A sweep closes exactly the cassettes last written longer ago than the idle time, and counts those that fail to close. */
  lemma ClosedExactly(s: State, at: int, failing: set<string>)
    requires OpenFiled(s) && s.worker == Serving && s.inHand == None
    ensures var t := Next(s, Sweep(at, failing));
            && (forall session :: session in t.open <==> session in s.open && at - s.open[session] <= s.idle)
            && (forall session :: session in t.open ==> t.open[session] == s.open[session])
            && t.closeErrors == s.closeErrors
                                + |set session | session in s.open && at - s.open[session] > s.idle && session in failing|
            && t == s.(open := t.open, closeErrors := t.closeErrors)
  {
    assert Closed(s, false, at - s.idle) * failing
           == set session | session in s.open && at - s.open[session] > s.idle && session in failing;
  }

  /** The end of the worker closes every cassette. */
  lemma ExitClosesAll(s: State, failing: set<string>)
    requires OpenFiled(s) && s.worker == Draining && s.inHand == None && s.queue == []
    ensures var t := Next(s, Exit(failing));
            && t.open == map[] && t.worker == Exited
            && t.closeErrors == s.closeErrors + |set session | session in s.open && session in failing|
            && t == s.(open := map[], closeErrors := t.closeErrors, worker := Exited)
  {
    assert Closed(s, true, 0) * failing == set session | session in s.open && session in failing;
    assert s.open - Closed(s, true, 0) == map[];
  }

  /** Steps on a clock that has reached the time, none of them a sweep later than the limit, and none the end of the worker. */
  ghost predicate Within(steps: seq<Step>, since: int, limit: int) {
    forall i :: 0 <= i < |steps| ==>
      && !steps[i].Exit?
      && (steps[i].Finish? ==> steps[i].now >= since)
      && (steps[i].Sweep? ==> steps[i].at <= limit)
  }

  /** A cassette last written at some time, or later, stays open through every step until the idle time has passed since then. */
  lemma {:induction false} StaysOpen(s: State, steps: seq<Step>, session: string, since: int)
    requires OpenFiled(s) && session in s.open && since <= s.open[session] && Within(steps, since, since + s.idle)
    ensures var t := After(s, steps); session in t.open && t.open[session] >= since
    decreases |steps|
  {
    hide Next;
    if steps != [] {
      OneStepOpen(s, steps[0], session, since);
      NextKeepsFiles(s, steps[0]);
      assert forall i :: 0 <= i < |steps[1..]| ==> steps[1..][i] == steps[i + 1];
      StaysOpen(Next(s, steps[0]), steps[1..], session, since);
    }
  }

  lemma OneStepOpen(s: State, step: Step, session: string, since: int)
    requires OpenFiled(s) && session in s.open && since <= s.open[session] && !step.Exit?
    requires step.Finish? ==> step.now >= since
    requires step.Sweep? ==> step.at <= since + s.idle
    ensures var t := Next(s, step); session in t.open && t.open[session] >= since && t.idle == s.idle
  {
  }
}
