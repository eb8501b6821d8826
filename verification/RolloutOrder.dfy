/** What the order of the route writes is for, and when they succeed: wherever a pass is cut short, the candidate is not sent a
    request twice, and a withdrawal has taken its live share before anything else (`internal/rollout/live.go`, lines 242-288). */
module RolloutOrder {
  import opened Basics
  import opened Analysis
  import opened Traffic
  import opened Routing
  import opened Rollout
  import opened RolloutSafety
  import opened RolloutRoutes

  /** The candidate does not both serve requests and receive copies of them. */
  predicate NotBoth(v: View) { v.split.candidate == 0 || v.mirror == 0 }

  ghost predicate NotBothAt(routes: map<Place, Route>, p: Place) {
    p in routes && Readable(routes[p]) && NotBoth(ViewOf(routes[p], p.target))
  }

  lemma EnterKeepsNotBoth(spec: Spec, m: Machine, k: nat, p: Place)
    requires k < |spec.stages| && spec.stages[k].mode != OfflineReplay && spec.stages[k].traffic == Some(p)
    requires AllAuthorised(spec, k, m.routes) && NotBothAt(m.routes, p)
    ensures NotBothAt(Enter(m, spec.stages[k], p).0.routes, p)
  {
    hide PutSplit, PutMirror, ViewOf, Readable;
    var stage := spec.stages[k];
    EnterKeeps(spec, m, k, p);
    StillReadable(spec, k, p, Enter(m, stage, p).0.routes);
    if stage.mode == Shadow {
      PutSplitKeeps(spec, m, k, p, FULLY_INCUMBENT);
      PutMirrorKeeps(spec, PutSplit(m, p, FULLY_INCUMBENT).0, k, p, MirrorShare(stage));
    } else {
      PutMirrorKeeps(spec, m, k, p, 0);
      PutSplitKeeps(spec, PutMirror(m, p, 0).0, k, p, Split(100 - stage.weight, stage.weight));
    }
  }

  lemma StillReadable(spec: Spec, k: nat, p: Place, routes: map<Place, Route>)
    requires AllAuthorised(spec, k, routes)
    ensures p in routes ==> Readable(routes[p])
  {
    assert p in routes ==> Authorised(spec, k, p, routes[p]);
  }

  /** However far a withdrawal gets, it has changed the route only if the candidate serves nothing any more. */
  lemma WithdrawTakesShareFirst(spec: Spec, m: Machine, k: nat, p: Place)
    requires k < |spec.stages| && spec.stages[k].mode != OfflineReplay && spec.stages[k].traffic == Some(p)
    requires AllAuthorised(spec, k, m.routes) && p in m.routes
    ensures var after := Withdraw(m, p).0.routes;
            p in after && Readable(after[p])
            && (ViewOf(after[p], p.target) == ViewOf(m.routes[p], p.target) || ViewOf(after[p], p.target).split == Split(100, 0))
  {
    hide PutSplit, PutMirror, ViewOf, Readable;
    WithdrawKeeps(spec, m, k, p);
    StillReadable(spec, k, p, Withdraw(m, p).0.routes);
    PutSplitKeeps(spec, m, k, p, FULLY_INCUMBENT);
    PutMirrorKeeps(spec, PutSplit(m, p, FULLY_INCUMBENT).0, k, p, 0);
  }

  lemma AttemptKeepsNotBoth(spec: Spec, w: World, a: Attempt, p: Place)
    requires DistinctNames(spec) && Safe(spec, Current(spec, w.status), w.routes) && NotBothAt(w.routes, p)
    ensures NotBothAt(Leaves(spec, w, a).routes, p)
  {
    hide Leaves, Enter, Withdraw, ViewOf, Readable, StageStatusOf, RoutesMatch;
    var m, st := Machine(w.routes, w.status, a.replies), Current(spec, w.status);
    WhatMoves(spec, w, a);
    NextIsAfterPassed(spec, st.stages);
    var k := PassedStages(st.stages);
    if Leaves(spec, w, a).routes != w.routes {
      var q := spec.stages[k].traffic.value;
      EnterMoves(spec, m, k, q);
      WithdrawMoves(spec, m, k, q);
      if p == q {
        EnterKeepsNotBoth(spec, m, k, p);
        WithdrawTakesShareFirst(spec, m, k, p);
      }
    }
  }

  /** In every run, wherever its passes are cut short, no candidate both serves requests and receives copies of them. */
  lemma {:induction false} NeverServedTwice(spec: Spec, w: World, attempts: seq<Attempt>, p: Place)
    requires DistinctNames(spec) && Fresh(spec, w) && p in w.routes
    ensures NotBothAt(AfterAll(spec, w, attempts).routes, p)
  {
    hide Leaves, Safe, ViewOf;
    if attempts != [] {
      NeverServedTwice(spec, w, attempts[..|attempts| - 1], p);
      RunsAreSafe(spec, w, attempts[..|attempts| - 1]);
      AttemptKeepsNotBoth(spec, AfterAll(spec, w, attempts[..|attempts| - 1]), attempts[|attempts| - 1], p);
    }
  }

  /** The route at p reads as it did, or leaves the candidate no share. */
  ghost predicate SameOrShareGone(before: map<Place, Route>, after: map<Place, Route>, p: Place) {
    p in before && p in after && Readable(before[p]) && Readable(after[p]) ==>
      || ViewOf(after[p], p.target) == ViewOf(before[p], p.target)
      || ViewOf(after[p], p.target).split == Split(100, 0)
  }

  /** In every run, an attempt on a stage that has begun either leaves its route as it was or leaves the candidate no share
      of it, however soon it is cut short. */
  lemma ShareGoesFirst(spec: Spec, w: World, attempts: seq<Attempt>, a: Attempt, k: nat)
    requires DistinctNames(spec) && Fresh(spec, w)
    requires var before := AfterAll(spec, w, attempts); WorksOn(spec, before, a, k) && Started(spec, before, k)
    ensures spec.stages[k].traffic.Some?
    ensures SameOrShareGone(AfterAll(spec, w, attempts).routes, Leaves(spec, AfterAll(spec, w, attempts), a).routes,
                            spec.stages[k].traffic.value)
  {
    hide AfterAll, Leaves, Withdraw, Enter, ViewOf, StageStatusOf, RoutesMatch;
    var before, p := AfterAll(spec, w, attempts), spec.stages[k].traffic.value;
    RunsAreSafe(spec, w, attempts);
    WhatMoves(spec, before, a);
    WorksAfterPassed(spec, before, a, k);
    if p in before.routes {
      WithdrawTakesShareFirst(spec, Machine(before.routes, before.status, a.replies), k, p);
    }
  }

  // ---- When the router obliges ----

  /** The next two writes are acknowledged. */
  predicate Obliges(m: Machine) { |m.replies| >= 2 && m.replies[0] == Done && m.replies[1] == Done }

  /** With both writes acknowledged a withdrawal succeeds exactly when the route takes the split, even where it cannot mirror. */
  lemma WithdrawSucceeds(m: Machine, p: Place)
    requires Obliges(m)
    ensures Withdraw(m, p).1 == Okay <==> p in m.routes && SetSplit(m.routes[p], p.target, Split(100, 0)).Ok?
  {
    hide Gateway.Reweighted, Istio.Reweighted;
    if p in m.routes && SetSplit(m.routes[p], p.target, Split(100, 0)).Ok? {
      var m1 := PutSplit(m, p, FULLY_INCUMBENT).0;
      assert m1.routes[p] == SetSplit(m.routes[p], p.target, Split(100, 0)).value && m1.replies[0] == Done;
      NoMirrorIsNeverImpossible(m1.routes[p], p.target);
    }
  }

  lemma NoMirrorIsNeverImpossible(r: Route, t: Target)
    ensures SetMirror(r, t, 0).Impossible? <==> (r.HttpRoute? && r.rules == []) || (r.VirtualService? && r.http == [])
  {
  }

  /** With both writes acknowledged, entering a live stage succeeds exactly when the route takes its split, mirror or no mirror, and
      entering a shadow stage exactly when the route goes to the incumbent and then takes the mirror. */
  lemma EnterSucceeds(m: Machine, stage: Stage, p: Place)
    requires Obliges(m) && p in m.routes && stage.mode != OfflineReplay
    ensures var share := if stage.mirrorPercent == 0 then 100 else stage.mirrorPercent;
            Enter(m, stage, p).1 == Okay <==>
              if stage.mode == Live then
                var cleared := SetMirror(m.routes[p], p.target, 0);
                && !cleared.Impossible?
                && SetSplit(if cleared.Changed? then cleared.route else m.routes[p], p.target,
                            Split(100 - stage.weight, stage.weight)).Ok?
              else
                && SetSplit(m.routes[p], p.target, Split(100, 0)).Ok?
                && SetMirror(SetSplit(m.routes[p], p.target, Split(100, 0)).value, p.target, share).Changed?
  {
    hide SetSplit, SetMirror;
  }

  ghost predicate AllDone(m: Machine, n: nat) { |m.replies| >= n && forall i :: 0 <= i < n ==> m.replies[i] == Done }

  lemma PutsUseOne(m: Machine, p: Place, s: Split, percent: int, n: nat)
    requires AllDone(m, n + 1)
    ensures AllDone(PutSplit(m, p, s).0, n) && PutSplit(m, p, s).1 != Crashed
    ensures AllDone(PutMirror(m, p, percent).0, n) && PutMirror(m, p, percent).1 != Crashed
  {
    hide SetSplit, SetMirror;
  }

  lemma MovesUseTwo(m: Machine, stage: Stage, p: Place)
    requires AllDone(m, 3)
    ensures AllDone(Enter(m, stage, p).0, 1) && Enter(m, stage, p).1 != Crashed
    ensures AllDone(Withdraw(m, p).0, 1) && Withdraw(m, p).1 != Crashed
  {
    hide PutSplit, PutMirror, AllDone;
    var split, mirror := Split(100 - stage.weight, stage.weight), MirrorShare(stage);
    PutsUseOne(m, p, FULLY_INCUMBENT, 0, 2);
    PutsUseOne(PutSplit(m, p, FULLY_INCUMBENT).0, p, FULLY_INCUMBENT, mirror, 1);
    PutsUseOne(PutSplit(m, p, FULLY_INCUMBENT).0, p, FULLY_INCUMBENT, 0, 1);
    PutsUseOne(PutMirror(m, p, 0).0, p, split, 0, 1);
    Fewer(m, 3, 1);
    Fewer(PutSplit(m, p, FULLY_INCUMBENT).0, 2, 1);
    Fewer(PutMirror(m, p, 0).0, 2, 1);
    Fewer(PutSplit(PutMirror(m, p, 0).0, p, split).0, 1, 1);
    assert AllDone(PutSplit(m, p, FULLY_INCUMBENT).0, 1);
  }

  lemma Fewer(m: Machine, n: nat, k: nat)
    requires AllDone(m, n) && k <= n
    ensures AllDone(m, k)
  {
  }

  lemma LivePassFinishes(spec: Spec, m: Machine, st: Status, index: nat, pass: Pass)
    requires AllDone(m, 3) && index < |spec.stages|
    ensures AdvanceLive(spec, m, st, index, pass).1.Finished?
  {
    hide Enter, Withdraw, Advance, RecordStage, StageStatusOf;
    var stage := spec.stages[index];
    if stage.traffic.Some? {
      MovesUseTwo(m, stage, stage.traffic.value);
    }
  }

  /** A pass whose writes are all acknowledged always finishes, whatever it decides; it makes three at most. */
  lemma AcknowledgedPassesFinish(spec: Spec, m: Machine, pass: Pass)
    requires AllDone(m, 3)
    ensures Reconcile(spec, m, pass).1.Finished?
  {
    hide AdvanceLive, NextStage, RecordStage, PhaseOf;
    var st := Current(spec, m.status);
    var next := NextStage(spec, st.stages);
    if next.Some? {
      LivePassFinishes(spec, m, st, next.value, pass);
    }
  }
}
