/** Which replays are sent to the scorer (`internal/rollout/stage.go`, lines 117-166 and 324-332). */
module ReplayStage {
  import opened Basics

  datatype Ref = Ref(item: string, arm: string)

  datatype Reply = Fails | Unusable | Usable

  /** One selected session and how its replay would go under each arm. */
  datatype Attempt = Attempt(session: string, incumbent: Reply, candidate: Reply)

  datatype Batch = NoSessions | ReplayFailed | NothingMeasured(excluded: nat) | Batch(refs: seq<Ref>, excluded: nat)

  predicate Good(a: Attempt) { a.incumbent == Usable && a.candidate == Usable }

  /** The replay stops the stage: an arm that is reached fails. */
  predicate Broken(a: Attempt) { a.incumbent == Fails || (a.incumbent == Usable && a.candidate == Fails) }

  function Both(session: string): seq<Ref> { [Ref(session, "incumbent"), Ref(session, "candidate")] }

  /** The refs of every other item. */
  function Without(refs: seq<Ref>, item: string): seq<Ref> {
    if refs == [] then []
    else
      var last := refs[|refs| - 1];
      Without(refs[..|refs| - 1], item) + if last.item != item then [last] else []
  }

  /** The refs queued after some attempts: a bad attempt drops whatever its session has queued. */
  function Refs(attempts: seq<Attempt>): seq<Ref> {
    if attempts == [] then []
    else
      var last := attempts[|attempts| - 1];
      var before := Refs(attempts[..|attempts| - 1]);
      if Good(last) then before + Both(last.session) else Without(before, last.session)
  }

  function Excluded(attempts: seq<Attempt>): nat {
    if attempts == [] then 0
    else Excluded(attempts[..|attempts| - 1]) + if Good(attempts[|attempts| - 1]) then 0 else 1
  }

  ghost predicate AnyBroken(attempts: seq<Attempt>) { exists i :: 0 <= i < |attempts| && Broken(attempts[i]) }

  ghost function BatchOf(attempts: seq<Attempt>): Batch {
    if attempts == [] then NoSessions
    else if AnyBroken(attempts) then ReplayFailed
    else if Refs(attempts) == [] then NothingMeasured(Excluded(attempts))
    else Batch(Refs(attempts), Excluded(attempts))
  }

  // ---- The loop ----

  /** Keep, in place, the refs of every other item. */
  method DropItem(refs: array<Ref>, n: nat, item: string) returns (k: nat)
    requires n <= refs.Length
    modifies refs
    ensures k <= n && refs[..k] == Without(old(refs[..n]), item)
  {
    hide Without;
    ghost var was := refs[..n];
    k := 0;
    assert Without(was[..0], item) == [] by { WithoutNothing(item); }
    for i := 0 to n
      invariant k <= i && refs[..k] == Without(was[..i], item)
      invariant forall j :: i <= j < n ==> refs[j] == was[j]
    {
      WithoutNext(was, i, item);
      if refs[i].item != item {
        ghost var kept := refs[..k];
        refs[k] := refs[i];
        k := k + 1;
        assert refs[..k] == kept + [was[i]];
      } else {
        assert refs[..k] == refs[..k] + [];
      }
    }
    assert was[..n] == was;
  }

  lemma WithoutNothing(item: string)
    ensures Without([], item) == []
  {
  }

  lemma WithoutNext(refs: seq<Ref>, i: nat, item: string)
    requires i < |refs|
    ensures Without(refs[..i + 1], item) == Without(refs[..i], item) + if refs[i].item != item then [refs[i]] else []
  {
    assert refs[..i + 1][..i] == refs[..i];
  }

  lemma WithoutOwn(refs: seq<Ref>, r: Ref)
    ensures Without(refs + [r], r.item) == Without(refs, r.item)
  {
    assert (refs + [r])[..|refs|] == refs;
    assert Without(refs, r.item) + [] == Without(refs, r.item);
  }

  /** Replay one session as the incumbent and then as the candidate, queueing a ref for each. */
  method ReplaySession(refs: array<Ref>, n: nat, a: Attempt) returns (failed: bool, usable: bool, k: nat)
    requires n + 2 <= refs.Length
    modifies refs
    ensures failed == Broken(a) && k <= n + 2
    ensures !failed ==> usable == Good(a)
    ensures !failed ==> refs[..k] == if Good(a) then old(refs[..n]) + Both(a.session) else Without(old(refs[..n]), a.session)
  {
    failed, usable, k := false, true, n;
    ghost var before := refs[..n];
    WithoutOwn(before, Ref(a.session, "incumbent"));
    if a.incumbent == Fails {
      return true, false, n;
    }
    if a.incumbent == Unusable {
      usable := false;
    } else {
      refs[k] := Ref(a.session, "incumbent");
      k := k + 1;
      assert refs[..k] == before + [Ref(a.session, "incumbent")];
      if a.candidate == Fails {
        return true, false, k;
      }
      if a.candidate == Unusable {
        usable := false;
      } else {
        refs[k] := Ref(a.session, "candidate");
        k := k + 1;
        assert refs[..k] == before + Both(a.session);
      }
    }
    if !usable {
      k := DropItem(refs, k, a.session);
    }
  }

  method RunOfflineReplay(attempts: seq<Attempt>) returns (b: Batch)
    ensures b == BatchOf(attempts)
  {
    hide Broken, Good, Without, Both;
    if |attempts| == 0 {
      return NoSessions;
    }
    var refs := new Ref[2 * |attempts|];
    var n, excluded := 0, 0;
    for i := 0 to |attempts|
      invariant 0 <= n <= 2 * i && refs[..n] == Refs(attempts[..i]) && excluded == Excluded(attempts[..i])
      invariant forall j :: 0 <= j < i ==> !Broken(attempts[j])
    {
      assert attempts[..i + 1][..i] == attempts[..i];
      var failed, usable, k := ReplaySession(refs, n, attempts[i]);
      if failed {
        return ReplayFailed;
      }
      n := k;
      if !usable {
        excluded := excluded + 1;
      }
    }
    assert attempts[..|attempts|] == attempts;
    if n == 0 {
      return NothingMeasured(excluded);
    }
    return Batch(refs[..n], excluded);
  }

  // ---- Which sessions survive ----

  predicate SpoiledIn(session: string, later: seq<Attempt>) {
    exists i :: 0 <= i < |later| && later[i].session == session && !Good(later[i])
  }

  /** The good attempts, in order, whose session is not attempted badly afterwards. */
  function Kept(attempts: seq<Attempt>): seq<string> {
    if attempts == [] then []
    else
      (if Good(attempts[0]) && !SpoiledIn(attempts[0].session, attempts[1..]) then [attempts[0].session] else [])
      + Kept(attempts[1..])
  }

  function Flat(sessions: seq<string>): seq<Ref> {
    if sessions == [] then [] else Flat(sessions[..|sessions| - 1]) + Both(sessions[|sessions| - 1])
  }

  function WithoutName(sessions: seq<string>, session: string): seq<string> {
    if sessions == [] then []
    else
      var last := sessions[|sessions| - 1];
      WithoutName(sessions[..|sessions| - 1], session) + if last != session then [last] else []
  }

  lemma {:induction false} WithoutNameConcat(s: seq<string>, t: seq<string>, session: string)
    ensures WithoutName(s + t, session) == WithoutName(s, session) + WithoutName(t, session)
    decreases |t|
  {
    if t == [] {
      assert s + t == s;
    } else {
      WithoutNameConcat(s, t[..|t| - 1], session);
      assert (s + t)[..|s + t| - 1] == s + t[..|t| - 1];
    }
  }

  lemma SpoiledAppend(session: string, later: seq<Attempt>, a: Attempt)
    ensures SpoiledIn(session, later + [a]) <==> SpoiledIn(session, later) || (a.session == session && !Good(a))
  {
    if SpoiledIn(session, later) {
      var i :| 0 <= i < |later| && later[i].session == session && !Good(later[i]);
      assert (later + [a])[i] == later[i];
    }
    assert (later + [a])[|later|] == a;
  }

  /** A good attempt adds its session; a bad one takes every earlier survivor of its session away. */
  lemma {:induction false} KeptAppend(attempts: seq<Attempt>, a: Attempt)
    ensures Kept(attempts + [a]) == if Good(a) then Kept(attempts) + [a.session] else WithoutName(Kept(attempts), a.session)
  {
    if attempts == [] {
      assert [a][1..] == [] && attempts + [a] == [a];
    } else {
      hide WithoutName, SpoiledIn;
      KeptAppend(attempts[1..], a);
      assert (attempts + [a])[1..] == attempts[1..] + [a];
      SpoiledAppend(attempts[0].session, attempts[1..], a);
      HeadKept(attempts, a);
    }
  }

  lemma HeadKept(attempts: seq<Attempt>, a: Attempt)
    requires attempts != []
    ensures var head := if Good(attempts[0]) && !SpoiledIn(attempts[0].session, attempts[1..]) then [attempts[0].session] else [];
            && Kept(attempts) == head + Kept(attempts[1..])
            && WithoutName(Kept(attempts), a.session)
               == (if attempts[0].session == a.session then [] else head) + WithoutName(Kept(attempts[1..]), a.session)
  {
    hide SpoiledIn;
    var head := if Good(attempts[0]) && !SpoiledIn(attempts[0].session, attempts[1..]) then [attempts[0].session] else [];
    WithoutNameConcat(head, Kept(attempts[1..]), a.session);
    HeadWithout(attempts[0].session, a.session);
  }

  lemma HeadWithout(s: string, session: string)
    ensures WithoutName([s], session) == if s == session then [] else [s]
  {
    assert [s][..0] == [];
  }

  lemma {:induction false} FlatWithout(sessions: seq<string>, session: string)
    ensures Without(Flat(sessions), session) == Flat(WithoutName(sessions, session))
  {
    if sessions != [] {
      var front, last := sessions[..|sessions| - 1], sessions[|sessions| - 1];
      FlatWithout(front, session);
      WithoutTwo(Flat(front), last, session);
      if last != session {
        FlatAppend(WithoutName(front, session), last);
      } else {
        assert WithoutName(front, session) + [] == WithoutName(front, session);
        assert Without(Flat(front), session) + [] == Without(Flat(front), session);
      }
    }
  }

  lemma WithoutTwo(refs: seq<Ref>, s: string, session: string)
    ensures Without(refs + Both(s), session) == Without(refs, session) + if s == session then [] else Both(s)
  {
    var one := refs + [Ref(s, "incumbent")];
    assert refs + Both(s) == one + [Ref(s, "candidate")];
    assert (one + [Ref(s, "candidate")])[..|one|] == one && one[..|refs|] == refs;
  }

  lemma FlatAppend(sessions: seq<string>, s: string)
    ensures Flat(sessions + [s]) == Flat(sessions) + Both(s)
  {
    assert (sessions + [s])[..|sessions|] == sessions;
  }

  /** The refs are one incumbent and one candidate per surviving session, in order: never half a pair. */
  lemma {:induction false} RefsArePairs(attempts: seq<Attempt>)
    ensures Refs(attempts) == Flat(Kept(attempts))
    ensures |Refs(attempts)| == 2 * |Kept(attempts)|
  {
    if attempts != [] {
      var front, last := attempts[..|attempts| - 1], attempts[|attempts| - 1];
      assert attempts == front + [last];
      RefsArePairs(front);
      KeptAppend(front, last);
      if Good(last) {
        FlatAppend(Kept(front), last.session);
      } else {
        FlatWithout(Kept(front), last.session);
      }
    }
    FlatLength(Kept(attempts));
  }

  lemma {:induction false} FlatLength(sessions: seq<string>)
    ensures |Flat(sessions)| == 2 * |sessions|
  {
    if sessions != [] {
      FlatLength(sessions[..|sessions| - 1]);
    }
  }

  // ---- How many there are ----

  /** A session measured once and then excluded when it came up again. */
  ghost predicate Spoils(attempts: seq<Attempt>, i: int, j: int) {
    0 <= i < j < |attempts| && attempts[i].session == attempts[j].session && Good(attempts[i]) && !Good(attempts[j])
  }

  function GoodCount(attempts: seq<Attempt>): nat {
    if attempts == [] then 0 else (if Good(attempts[0]) then 1 else 0) + GoodCount(attempts[1..])
  }

  lemma {:induction false} ExcludedRest(attempts: seq<Attempt>)
    ensures GoodCount(attempts) + Excluded(attempts) == |attempts|
  {
    if attempts != [] {
      var front, last := attempts[..|attempts| - 1], attempts[|attempts| - 1];
      ExcludedRest(front);
      GoodCountAppend(front, last);
      assert attempts == front + [last];
    }
  }

  lemma {:induction false} GoodCountAppend(attempts: seq<Attempt>, a: Attempt)
    ensures GoodCount(attempts + [a]) == GoodCount(attempts) + if Good(a) then 1 else 0
  {
    if attempts == [] {
      assert attempts + [a] == [a] && [a][1..] == [];
    } else {
      GoodCountAppend(attempts[1..], a);
      assert (attempts + [a])[1..] == attempts[1..] + [a];
    }
  }

  lemma {:induction false} KeptCount(attempts: seq<Attempt>)
    ensures |Kept(attempts)| <= GoodCount(attempts)
    ensures |Kept(attempts)| == GoodCount(attempts) <==> !exists i, j :: Spoils(attempts, i, j)
  {
    if attempts != [] {
      var rest := attempts[1..];
      KeptCount(rest);
      if i, j :| Spoils(rest, i, j) {
        assert Spoils(attempts, i + 1, j + 1);
      }
      if Good(attempts[0]) && SpoiledIn(attempts[0].session, rest) {
        var k :| 0 <= k < |rest| && rest[k].session == attempts[0].session && !Good(rest[k]);
        assert Spoils(attempts, 0, k + 1);
      }
      if i, j :| Spoils(attempts, i, j) {
        if i == 0 {
          assert rest[j - 1] == attempts[j];
        } else {
          assert Spoils(rest, i - 1, j - 1);
        }
      }
    }
  }

  /** Two refs for each session not excluded, exactly when no session is measured and later excluded. */
  lemma TwoRefsPerSession(attempts: seq<Attempt>)
    ensures |Refs(attempts)| == 2 * (|attempts| - Excluded(attempts)) <==> !exists i, j :: Spoils(attempts, i, j)
  {
    RefsArePairs(attempts);
    ExcludedRest(attempts);
    KeptCount(attempts);
  }

  /** A session measured and then excluded when it comes up again leaves fewer than two refs for each session kept: here
      none at all, and the stage reports that nothing could be measured. */
  lemma RepeatedSessionLosesRefs()
    ensures var attempts := [Attempt("a", Usable, Usable), Attempt("a", Unusable, Usable)];
            && BatchOf(attempts) == NothingMeasured(1)
            && |Refs(attempts)| == 0 && 2 * (|attempts| - Excluded(attempts)) == 2
  {
    var one, two := Attempt("a", Usable, Usable), Attempt("a", Unusable, Usable);
    assert [one, two][..1] == [one] && [one][..0] == [];
    assert Excluded([one]) == 0 && Excluded([one, two]) == 1;
    assert Refs([one]) == Both("a") by { assert [] + Both("a") == Both("a"); }
    WithoutTwo([], "a", "a");
    assert [] + Both("a") == Both("a");
    assert Refs([one, two]) == Without(Both("a"), "a") == [];
    assert !AnyBroken([one, two]);
  }

  ghost predicate DistinctSessions(attempts: seq<Attempt>) {
    forall i, j :: 0 <= i < j < |attempts| ==> attempts[i].session != attempts[j].session
  }

  /** The usable sessions, in order. */
  function UsableSessions(attempts: seq<Attempt>): seq<string> {
    if attempts == [] then []
    else (if Good(attempts[0]) then [attempts[0].session] else []) + UsableSessions(attempts[1..])
  }

  lemma {:induction false} NothingSpoiled(attempts: seq<Attempt>)
    requires DistinctSessions(attempts)
    ensures Kept(attempts) == UsableSessions(attempts)
  {
    if attempts != [] {
      NothingSpoiled(attempts[1..]);
      assert forall i :: 0 <= i < |attempts[1..]| ==> attempts[1..][i] == attempts[i + 1];
    }
  }

  /** With distinct sessions the scorer gets a pair for every usable session, in order, and nothing else. */
  lemma DistinctSessionsPairUp(attempts: seq<Attempt>)
    requires DistinctSessions(attempts)
    ensures Refs(attempts) == Flat(UsableSessions(attempts))
    ensures |Refs(attempts)| == 2 * (|attempts| - Excluded(attempts))
  {
    NothingSpoiled(attempts);
    RefsArePairs(attempts);
    TwoRefsPerSession(attempts);
  }

  // ---- The batch, said attempt by attempt ----

  lemma {:induction false} FlatAt(sessions: seq<string>, k: nat)
    requires k < |sessions|
    ensures |Flat(sessions)| == 2 * |sessions|
    ensures Flat(sessions)[2 * k] == Ref(sessions[k], "incumbent") && Flat(sessions)[2 * k + 1] == Ref(sessions[k], "candidate")
  {
    FlatLength(sessions);
    FlatLength(sessions[..|sessions| - 1]);
    if k < |sessions| - 1 {
      FlatAt(sessions[..|sessions| - 1], k);
    }
  }

  /** The refs come in pairs, each the incumbent's and then the candidate's of one surviving session. */
  lemma RefsInOrder(attempts: seq<Attempt>, k: nat)
    requires k < |Kept(attempts)|
    ensures |Refs(attempts)| == 2 * |Kept(attempts)|
    ensures Refs(attempts)[2 * k] == Ref(Kept(attempts)[k], "incumbent")
    ensures Refs(attempts)[2 * k + 1] == Ref(Kept(attempts)[k], "candidate")
  {
    RefsArePairs(attempts);
    FlatAt(Kept(attempts), k);
  }

  /** Both replays of the attempt gave something that can be scored. */
  predicate BothUsable(a: Attempt) { a.incumbent == Usable && a.candidate == Usable }

  /** The attempt's session is not spoiled by a later attempt at it. */
  ghost predicate Survives(attempts: seq<Attempt>, i: int) {
    && 0 <= i < |attempts| && BothUsable(attempts[i])
    && forall j :: i < j < |attempts| && attempts[j].session == attempts[i].session ==> BothUsable(attempts[j])
  }

  /** A session has refs exactly when some attempt at it, and every later one, was usable on both arms. */
  lemma {:induction false} KeptMeaning(attempts: seq<Attempt>, session: string)
    ensures session in Kept(attempts) <==> exists i :: Survives(attempts, i) && attempts[i].session == session
  {
    if attempts != [] {
      var rest := attempts[1..];
      KeptMeaning(rest, session);
      forall i | 0 <= i < |rest|
        ensures Survives(attempts, i + 1) <==> Survives(rest, i)
      {
        assert forall j :: 0 <= j < |rest| ==> rest[j] == attempts[j + 1];
        assert forall j :: 0 < j < |attempts| ==> attempts[j] == rest[j - 1];
      }
      assert Survives(attempts, 0) <==> Good(attempts[0]) && !SpoiledIn(attempts[0].session, rest) by {
        assert forall j :: 0 <= j < |rest| ==> rest[j] == attempts[j + 1];
        assert forall j :: 0 < j < |attempts| ==> attempts[j] == rest[j - 1];
      }
      if i :| Survives(attempts, i) && attempts[i].session == session {
        assert i > 0 ==> Survives(rest, i - 1) && rest[i - 1].session == session;
      }
      if i :| Survives(rest, i) && rest[i].session == session {
        assert Survives(attempts, i + 1) && attempts[i + 1].session == session;
      }
    }
  }

  /** The stage fails exactly when some incumbent replay fails, or some candidate replay does after a usable incumbent one; it has
      nothing to score when no session was selected or none survived; and it counts as excluded the attempts that were not
      usable on both arms. */
  lemma BatchExactly(attempts: seq<Attempt>)
    ensures var b := BatchOf(attempts);
            && (b == NoSessions <==> |attempts| == 0)
            && (b == ReplayFailed <==>
                exists i :: 0 <= i < |attempts|
                            && (attempts[i].incumbent == Fails || (attempts[i].incumbent == Usable && attempts[i].candidate == Fails)))
            && (b.NothingMeasured? ==> Kept(attempts) == [] && b.excluded + GoodCount(attempts) == |attempts|)
            && (b.Batch? ==> Kept(attempts) != [] && b.refs == Refs(attempts) && b.excluded + GoodCount(attempts) == |attempts|)
  {
    ExcludedRest(attempts);
    RefsArePairs(attempts);
    if i :| 0 <= i < |attempts|
            && (attempts[i].incumbent == Fails || (attempts[i].incumbent == Usable && attempts[i].candidate == Fails)) {
      assert Broken(attempts[i]);
    }
  }
}
