/** Counting the scores that are missing, for the missingness check
    (`internal/rollout/stage.go`, lines 228-271; `internal/rollout/observations.go`, lines 224-292). */
module Accounting {
  import opened Basics
  import opened Names
  import opened Pairing
  import opened Missingness
  import A = Analysis

  function Total(m: Counts): nat { m.bothScored + m.candidateOnlyFailed + m.incumbentOnlyFailed + m.bothFailed }

  // ---- Offline ----

  /** The arm's last result for the item is a usable score. */
  predicate ScoredBy(results: seq<Score>, item: string, arm: string) {
    var last := Last(results, item, Exactly(arm));
    last.Some? && Scored(last.value)
  }

  function ScoredExactly(results: seq<Score>, incumbent: bool, candidate: bool): set<string> {
    set item | item in ItemsOf(results) && ScoredBy(results, item, INCUMBENT) == incumbent
               && ScoredBy(results, item, CANDIDATE) == candidate
  }

  function Unreached(attempted: nat, seen: nat): nat { if attempted > seen then attempted - seen else 0 }

  function MissingOf(results: seq<Score>, pairs: nat, attempted: nat): Counts {
    Counts(attempted, pairs, |ScoredExactly(results, true, false)|, |ScoredExactly(results, false, true)|,
           |ScoredExactly(results, false, false)| + Unreached(attempted, |ItemsOf(results)|))
  }

  datatype Arms = Arms(incumbent: bool, candidate: bool)

  predicate IsScoredAs(results: seq<Score>, item: string, arms: Arms) {
    arms.incumbent == ScoredBy(results, item, INCUMBENT) && arms.candidate == ScoredBy(results, item, CANDIDATE)
  }

  method FillArms(results: seq<Score>) returns (byItem: map<string, Arms>)
    ensures byItem.Keys == ItemsOf(results)
    ensures forall item :: item in byItem ==> IsScoredAs(results, item, byItem[item])
  {
    hide Last;
    byItem := map[];
    for i := 0 to |results|
      invariant byItem.Keys == ItemsOf(results[..i])
      invariant forall item :: item in byItem ==> IsScoredAs(results[..i], item, byItem[item])
    {
      var r := results[i];
      assert results[..i + 1] == results[..i] + [r];
      forall item
        ensures Last(results[..i + 1], item, Exactly(INCUMBENT))
                == if r.item == item && r.arm == INCUMBENT then Some(r) else Last(results[..i], item, Exactly(INCUMBENT))
        ensures Last(results[..i + 1], item, Exactly(CANDIDATE))
                == if r.item == item && r.arm == CANDIDATE then Some(r) else Last(results[..i], item, Exactly(CANDIDATE))
      {
        LastAppend(results[..i], r, item, Exactly(INCUMBENT));
        LastAppend(results[..i], r, item, Exactly(CANDIDATE));
      }
      LastMeaning(results[..i], r.item, Exactly(INCUMBENT));
      LastMeaning(results[..i], r.item, Exactly(CANDIDATE));
      var a := if r.item in byItem then byItem[r.item] else Arms(false, false);
      if r.arm == INCUMBENT {
        a := a.(incumbent := Scored(r));
      } else if r.arm == CANDIDATE {
        a := a.(candidate := Scored(r));
      }
      byItem := byItem[r.item := a];
    }
    assert results[..|results|] == results;
  }

  function WithArms(byItem: map<string, Arms>, done: set<string>, arms: Arms): set<string> {
    set item | item in done && item in byItem && byItem[item] == arms
  }

  lemma WithArmsNext(byItem: map<string, Arms>, done: set<string>, item: string, arms: Arms)
    requires item !in done && item in byItem
    ensures |WithArms(byItem, done + {item}, arms)| == |WithArms(byItem, done, arms)| + if byItem[item] == arms then 1 else 0
  {
    assert WithArms(byItem, done + {item}, arms) == WithArms(byItem, done, arms) + if byItem[item] == arms then {item} else {};
  }

  lemma ArmsAreScores(results: seq<Score>, byItem: map<string, Arms>, arms: Arms)
    requires byItem.Keys == ItemsOf(results) && forall item :: item in byItem ==> IsScoredAs(results, item, byItem[item])
    ensures WithArms(byItem, byItem.Keys, arms) == ScoredExactly(results, arms.incumbent, arms.candidate)
  {
    hide ScoredBy;
  }

  /** The three failure counts, over some of the items. */
  ghost predicate Sorted(byItem: map<string, Arms>, done: set<string>, m: Counts) {
    && m.candidateOnlyFailed == |WithArms(byItem, done, Arms(true, false))|
    && m.incumbentOnlyFailed == |WithArms(byItem, done, Arms(false, true))|
    && m.bothFailed == |WithArms(byItem, done, Arms(false, false))|
  }

  lemma NoneSorted(byItem: map<string, Arms>, m: Counts)
    requires m.candidateOnlyFailed == m.incumbentOnlyFailed == m.bothFailed == 0
    ensures Sorted(byItem, {}, m)
  {
    assert forall arms :: WithArms(byItem, {}, arms) == {};
  }

  lemma SortedNext(byItem: map<string, Arms>, done: set<string>, item: string, m: Counts, n: Counts)
    requires Sorted(byItem, done, m) && item !in done && item in byItem
    requires n.candidateOnlyFailed == m.candidateOnlyFailed + if byItem[item] == Arms(true, false) then 1 else 0
    requires n.incumbentOnlyFailed == m.incumbentOnlyFailed + if byItem[item] == Arms(false, true) then 1 else 0
    requires n.bothFailed == m.bothFailed + if byItem[item] == Arms(false, false) then 1 else 0
    ensures Sorted(byItem, done + {item}, n)
  {
    hide WithArms;
    WithArmsNext(byItem, done, item, Arms(true, false));
    WithArmsNext(byItem, done, item, Arms(false, true));
    WithArmsNext(byItem, done, item, Arms(false, false));
  }

  method CountOne(m0: Counts, gotInc: bool, gotCand: bool) returns (m: Counts)
    ensures m.attempted == m0.attempted && m.bothScored == m0.bothScored
    ensures m.candidateOnlyFailed == m0.candidateOnlyFailed + if gotInc && !gotCand then 1 else 0
    ensures m.incumbentOnlyFailed == m0.incumbentOnlyFailed + if !gotInc && gotCand then 1 else 0
    ensures m.bothFailed == m0.bothFailed + if !gotInc && !gotCand then 1 else 0
  {
    m := m0;
    if gotInc && gotCand {
    } else if gotInc {
      m := m.(candidateOnlyFailed := m.candidateOnlyFailed + 1);
    } else if gotCand {
      m := m.(incumbentOnlyFailed := m.incumbentOnlyFailed + 1);
    } else {
      m := m.(bothFailed := m.bothFailed + 1);
    }
  }

  method CountArms(byItem: map<string, Arms>, attempted: nat, pairs: nat) returns (m: Counts)
    ensures m.attempted == attempted && m.bothScored == pairs && Sorted(byItem, byItem.Keys, m)
  {
    hide Sorted;
    m := Counts(attempted, pairs, 0, 0, 0);
    var keys := byItem.Keys;
    ghost var done: set<string> := {};
    NoneSorted(byItem, m);
    while keys != {}
      invariant keys <= byItem.Keys && done == byItem.Keys - keys
      invariant m.attempted == attempted && m.bothScored == pairs && Sorted(byItem, done, m)
      decreases |keys|
    {
      var k :| k in keys;
      ghost var before := m;
      m := CountOne(m, byItem[k].incumbent, byItem[k].candidate);
      SortedNext(byItem, done, k, before, m);
      keys, done := keys - {k}, done + {k};
    }
    assert done == byItem.Keys;
  }

  method MissingnessOf(results: seq<Score>, pairs: nat, attempted: nat) returns (m: Counts)
    ensures m == MissingOf(results, pairs, attempted)
  {
    hide IsScoredAs, WithArms, ScoredExactly;
    var byItem := FillArms(results);
    m := CountArms(byItem, attempted, pairs);
    ArmsAreScores(results, byItem, Arms(true, false));
    ArmsAreScores(results, byItem, Arms(false, true));
    ArmsAreScores(results, byItem, Arms(false, false));
    assert |byItem| == |ItemsOf(results)|;
    if attempted > |byItem| {
      m := m.(bothFailed := m.bothFailed + attempted - |byItem|);
    }
  }

  lemma FourWays(results: seq<Score>)
    ensures |ItemsOf(results)| == |ScoredExactly(results, true, true)| + |ScoredExactly(results, true, false)|
                                  + |ScoredExactly(results, false, true)| + |ScoredExactly(results, false, false)|
  {
    hide ScoredBy;
    var a, b := ScoredExactly(results, true, true), ScoredExactly(results, true, false);
    var c, d := ScoredExactly(results, false, true), ScoredExactly(results, false, false);
    assert ItemsOf(results) == a + b + c + d;
    assert a !! b && a + b !! c && a + b + c !! d;
  }

  /** The four counts add up to the items attempted, less those scored in both arms, plus the pairs: whatever the scorer
      returned. */
  lemma OfflineTotal(fold: string -> string, results: seq<Score>, metric: string, attempted: nat)
    ensures Total(MissingOf(results, |PairsOf(fold, results, metric)|, attempted)) + |ScoredExactly(results, true, true)|
            == |ItemsOf(results)| + Unreached(attempted, |ItemsOf(results)|) + |CompleteItems(fold, results, metric)|
  {
    PairsAreComplete(fold, results, metric);
    FourWays(results);
  }

  predicate LowercaseArms(results: seq<Score>) { forall r :: r in results ==> r.arm == INCUMBENT || r.arm == CANDIDATE }

  /** Items scored under both arms, but not for the primary metric in both. */
  function LackingMetric(fold: string -> string, results: seq<Score>, metric: string): set<string> {
    ScoredExactly(results, true, true) - CompleteItems(fold, results, metric)
  }

  /** Folding leaves the two arm names alone. */
  predicate KeepsArms(fold: string -> string) { fold(INCUMBENT) == INCUMBENT && fold(CANDIDATE) == CANDIDATE }

  lemma CompleteIsScored(fold: string -> string, results: seq<Score>, metric: string)
    requires KeepsArms(fold) && LowercaseArms(results)
    ensures CompleteItems(fold, results, metric) <= ScoredExactly(results, true, true)
  {
    forall item | item in CompleteItems(fold, results, metric)
      ensures item in ScoredExactly(results, true, true)
    {
      SameSideSameLast(results, item, Folded(fold, INCUMBENT), Exactly(INCUMBENT));
      SameSideSameLast(results, item, Folded(fold, CANDIDATE), Exactly(CANDIDATE));
    }
  }

  /** With results only for attempted items, the counts account for every item attempted except those scored in both arms
      without the primary metric, which are counted nowhere: exactly when no pair was completed by an arm in another case,
      and so always with lowercase arms. */
  lemma OfflineConserves(fold: string -> string, results: seq<Score>, metric: string, attempted: nat)
    requires KeepsArms(fold) && |ItemsOf(results)| <= attempted
    ensures Total(MissingOf(results, |PairsOf(fold, results, metric)|, attempted))
            == attempted - |LackingMetric(fold, results, metric)| <==>
            CompleteItems(fold, results, metric) <= ScoredExactly(results, true, true)
    ensures LowercaseArms(results) ==> CompleteItems(fold, results, metric) <= ScoredExactly(results, true, true)
  {
    hide ScoredExactly, CompleteItems, MissingOf, PairsOf, Total;
    OfflineTotal(fold, results, metric, attempted);
    if LowercaseArms(results) {
      CompleteIsScored(fold, results, metric);
    }
    var both, complete := ScoredExactly(results, true, true), CompleteItems(fold, results, metric);
    assert both == both * complete + LackingMetric(fold, results, metric);
    assert complete == both * complete + (complete - both);
    if |complete - both| == 0 {
      assert complete - both == {};
    }
  }

  /** Results for selected sessions are results for no more items than sessions. */
  lemma ItemsFromSessions(results: seq<Score>, sessions: seq<string>)
    requires ItemsOf(results) <= set s | s in sessions
    ensures |ItemsOf(results)| <= |sessions|
  {
    Names.DedupKeeps(sessions);
    DistinctSize(Dedup(sessions));
    assert (set s | s in sessions) == set s | s in Dedup(sessions);
    SubsetSize(ItemsOf(results), set s | s in sessions);
    DedupShorter(sessions);
  }

  lemma {:induction false} DedupShorter(s: seq<string>)
    ensures |Dedup(s)| <= |s|
  {
    if s != [] {
      DedupShorter(s[..|s| - 1]);
    }
  }

  lemma SubsetSize(a: set<string>, b: set<string>)
    requires a <= b
    ensures |a| <= |b|
  {
    assert b == a + (b - a);
  }

  /** An arm in another case is paired but not seen as an arm: its item is counted twice, as a pair and as a failure of
      both arms. */
  lemma UppercaseCountsTwice(fold: string -> string, metric: string)
    requires fold("Candidate") == CANDIDATE && KeepsArms(fold)
    ensures var scores := map[metric := 1.0];
            var results := [Score("a", INCUMBENT, scores, ""), Score("a", "Candidate", scores, "")];
            Total(MissingOf(results, |PairsOf(fold, results, metric)|, 1)) == 2
  {
    var scores := map[metric := 1.0];
    var one := Score("a", INCUMBENT, scores, "");
    var two := Score("a", "Candidate", scores, "");
    var results := [one, two];
    assert metric in scores && scores != map[];
    assert results == [one] + [two] && [one] == [] + [one];
    forall side: Side
      ensures Last(results, "a", side) == if side.Takes(two) then Some(two) else if side.Takes(one) then Some(one) else None
    {
      LastAppend([one], two, "a", side);
      LastAppend([], one, "a", side);
    }
    ItemsOfTwo(one, two);
    assert "Candidate" != CANDIDATE;
    assert ScoredExactly(results, true, true) == {};
    assert CompleteItems(fold, results, metric) == {"a"};
    OfflineTotal(fold, results, metric, 1);
  }

  lemma ItemsOfTwo(one: Score, two: Score)
    requires one.item == two.item
    ensures ItemsOf([one, two]) == {one.item}
  {
    assert one in [one, two];
  }

  // ---- Live ----

  /** The last usable measurement for an item, as a side of an observation. */
  function Metrics(results: seq<Score>, item: string, candidate: bool): map<string, real> {
    var last := Last(results, item, Got(candidate));
    if last.Some? then last.value.metrics else map[]
  }

  function ObservationOf(results: seq<Score>, item: string): A.Observation {
    A.Observation(item, Metrics(results, item, false), Metrics(results, item, true))
  }

  function ScoredItems(results: seq<Score>): seq<string> {
    if results == [] then []
    else
      var last := results[|results| - 1];
      ScoredItems(results[..|results| - 1]) + if Scored(last) then [last.item] else []
  }

  /** One observation an item, in the order items were first scored. */
  function ObservationsOf(results: seq<Score>): seq<A.Observation> {
    var order := Dedup(ScoredItems(results));
    seq(|order|, i requires 0 <= i < |order| => ObservationOf(results, order[i]))
  }

  predicate GotBy(results: seq<Score>, item: string, candidate: bool) { Metrics(results, item, candidate) != map[] }

  /** The item has a result, usable or not, under exactly that arm. */
  predicate AttemptedBy(results: seq<Score>, item: string, arm: string) {
    exists r :: r in results && r.item == item && r.arm == arm
  }

  function GotBoth(results: seq<Score>): set<string> {
    set item | item in ItemsOf(results) && GotBy(results, item, false) && GotBy(results, item, true)
  }

  function AttemptedBoth(results: seq<Score>): set<string> {
    set item | item in ItemsOf(results) && AttemptedBy(results, item, INCUMBENT) && AttemptedBy(results, item, CANDIDATE)
  }

  function AttemptedGot(results: seq<Score>, incumbent: bool, candidate: bool): set<string> {
    set item | item in AttemptedBoth(results) && GotBy(results, item, false) == incumbent && GotBy(results, item, true) == candidate
  }

  function LiveCounts(results: seq<Score>, attempted: nat): Counts {
    Counts(attempted, |GotBoth(results)|, |AttemptedGot(results, true, false)|, |AttemptedGot(results, false, true)|,
           |AttemptedGot(results, false, false)|)
  }

  // ---- The loops over live results ----

  lemma ObservationAppend(results: seq<Score>, r: Score, item: string)
    ensures ObservationOf(results + [r], item) ==
            var o := ObservationOf(results, item);
            if r.item != item || !Scored(r) then o
            else if r.arm == CANDIDATE then o.(candidate := r.metrics) else o.(incumbent := r.metrics)
  {
    LastAppend(results, r, item, Got(false));
    LastAppend(results, r, item, Got(true));
  }

  lemma {:induction false} NotScoredNothing(results: seq<Score>, item: string)
    requires item !in ScoredItems(results)
    ensures ObservationOf(results, item) == A.Observation(item, map[], map[])
  {
    if results != [] {
      var front, r := results[..|results| - 1], results[|results| - 1];
      assert results == front + [r];
      NotScoredNothing(front, item);
      ObservationAppend(front, r, item);
    }
  }

  lemma ScoredAppend(results: seq<Score>, r: Score)
    ensures ScoredItems(results + [r]) == ScoredItems(results) + if Scored(r) then [r.item] else []
    ensures Dedup(ScoredItems(results + [r])) ==
            Dedup(ScoredItems(results)) + if Scored(r) && r.item !in ScoredItems(results) then [r.item] else []
  {
    assert (results + [r])[..|results|] == results;
    var s := ScoredItems(results);
    assert (s + [r.item])[..|s|] == s;
    assert s + [] == s;
    DedupKeeps(s);
    assert Dedup(s) + [] == Dedup(s);
  }

  method FillObservations(results: seq<Score>) returns (byItem: map<string, A.Observation>, order: seq<string>)
    ensures order == Dedup(ScoredItems(results)) && forall item :: item in byItem <==> item in order
    ensures forall item :: item in byItem ==> byItem[item] == ObservationOf(results, item)
  {
    hide ObservationOf, Dedup, ScoredItems;
    byItem, order := map[], [];
    NothingScored();
    for i := 0 to |results|
      invariant order == Dedup(ScoredItems(results[..i])) && forall item :: item in byItem <==> item in order
      invariant forall item :: item in byItem ==> byItem[item] == ObservationOf(results[..i], item)
    {
      var r := results[i];
      assert results[..i + 1] == results[..i] + [r];
      ScoredAppend(results[..i], r);
      DedupKeeps(ScoredItems(results[..i]));
      forall item
        ensures ObservationOf(results[..i + 1], item) ==
                var o := ObservationOf(results[..i], item);
                if r.item != item || !Scored(r) then o
                else if r.arm == CANDIDATE then o.(candidate := r.metrics) else o.(incumbent := r.metrics)
      {
        ObservationAppend(results[..i], r, item);
      }
      if Scored(r) {
        if r.item !in byItem {
          NotScoredNothing(results[..i], r.item);
          byItem := byItem[r.item := A.Observation(r.item, map[], map[])];
          order := order + [r.item];
        }
        var o := byItem[r.item];
        byItem := byItem[r.item := if r.arm == CANDIDATE then o.(candidate := r.metrics) else o.(incumbent := r.metrics)];
      }
    }
    assert results[..|results|] == results;
  }

  lemma NothingScored()
    ensures Dedup(ScoredItems([])) == []
  {
  }

  /** The items with usable measurements on both sides, among those listed. */
  function GotBothIn(results: seq<Score>, items: seq<string>): set<string> {
    set item | item in items && GotBy(results, item, false) && GotBy(results, item, true)
  }

  lemma GotBothNext(results: seq<Score>, front: seq<string>, last: string)
    requires last !in front
    ensures |GotBothIn(results, front + [last])|
            == |GotBothIn(results, front)| + if GotBy(results, last, false) && GotBy(results, last, true) then 1 else 0
  {
    hide GotBy;
    assert GotBothIn(results, front + [last]) == GotBothIn(results, front)
             + if GotBy(results, last, false) && GotBy(results, last, true) then {last} else {};
  }

  lemma GotBothAll(results: seq<Score>)
    ensures GotBothIn(results, Dedup(ScoredItems(results))) == GotBoth(results)
  {
    hide GotBy;
    DedupKeeps(ScoredItems(results));
    forall item
      ensures item in ScoredItems(results) ==> item in ItemsOf(results)
      ensures GotBy(results, item, true) ==> item in ScoredItems(results)
    {
      ScoredIsItem(results, item);
      if item !in ScoredItems(results) {
        NotScoredNothing(results, item);
        NothingIsNotGot(results, item);
      }
    }
  }

  lemma NothingIsNotGot(results: seq<Score>, item: string)
    requires ObservationOf(results, item) == A.Observation(item, map[], map[])
    ensures !GotBy(results, item, false) && !GotBy(results, item, true)
  {
  }

  lemma {:induction false} ScoredIsItem(results: seq<Score>, item: string)
    ensures item in ScoredItems(results) ==> item in ItemsOf(results)
  {
    if results != [] {
      var front, r := results[..|results| - 1], results[|results| - 1];
      assert results == front + [r];
      ScoredIsItem(front, item);
      assert r in results;
    }
  }

  method ArmsAttempted(results: seq<Score>) returns (attemptedBy: map<string, set<string>>)
    ensures attemptedBy.Keys == ItemsOf(results)
    ensures forall item, arm :: item in attemptedBy ==> (arm in attemptedBy[item] <==> AttemptedBy(results, item, arm))
  {
    attemptedBy := map[];
    for i := 0 to |results|
      invariant attemptedBy.Keys == ItemsOf(results[..i])
      invariant forall item, arm :: item in attemptedBy ==> (arm in attemptedBy[item] <==> AttemptedBy(results[..i], item, arm))
    {
      var r := results[i];
      assert results[..i + 1] == results[..i] + [r];
      forall item, arm
        ensures AttemptedBy(results[..i + 1], item, arm) <==> AttemptedBy(results[..i], item, arm) || (item == r.item && arm == r.arm)
      {
        AttemptedAppend(results[..i], r, item, arm);
      }
      forall arm | r.item !in attemptedBy
        ensures !AttemptedBy(results[..i], r.item, arm)
      {
      }
      ghost var was := attemptedBy;
      attemptedBy := attemptedBy[r.item := (if r.item in attemptedBy then attemptedBy[r.item] else {}) + {r.arm}];
    }
    assert results[..|results|] == results;
  }

  lemma AttemptedAppend(results: seq<Score>, r: Score, item: string, arm: string)
    ensures AttemptedBy(results + [r], item, arm) <==> AttemptedBy(results, item, arm) || (item == r.item && arm == r.arm)
  {
    if AttemptedBy(results, item, arm) {
      var q :| q in results && q.item == item && q.arm == arm;
      assert q in results + [r];
    }
    assert r in results + [r];
  }

  function AttemptedGotIn(results: seq<Score>, done: set<string>, incumbent: bool, candidate: bool): set<string> {
    set item | item in done && item in AttemptedGot(results, incumbent, candidate)
  }

  lemma AttemptedGotNext(results: seq<Score>, done: set<string>, item: string, incumbent: bool, candidate: bool)
    requires item !in done
    ensures |AttemptedGotIn(results, done + {item}, incumbent, candidate)|
            == |AttemptedGotIn(results, done, incumbent, candidate)|
               + if item in AttemptedGot(results, incumbent, candidate) then 1 else 0
  {
    hide AttemptedGot;
    assert AttemptedGotIn(results, done + {item}, incumbent, candidate) == AttemptedGotIn(results, done, incumbent, candidate)
             + if item in AttemptedGot(results, incumbent, candidate) then {item} else {};
  }

  /** The discordant counts, over some of the items. */
  ghost predicate Tallied(results: seq<Score>, done: set<string>, m: Counts) {
    && m.candidateOnlyFailed == |AttemptedGotIn(results, done, true, false)|
    && m.incumbentOnlyFailed == |AttemptedGotIn(results, done, false, true)|
    && m.bothFailed == |AttemptedGotIn(results, done, false, false)|
  }

  lemma TalliedNext(results: seq<Score>, done: set<string>, item: string, m: Counts, n: Counts)
    requires Tallied(results, done, m) && item !in done && item in ItemsOf(results)
    requires n.candidateOnlyFailed == m.candidateOnlyFailed + if item in AttemptedGot(results, true, false) then 1 else 0
    requires n.incumbentOnlyFailed == m.incumbentOnlyFailed + if item in AttemptedGot(results, false, true) then 1 else 0
    requires n.bothFailed == m.bothFailed + if item in AttemptedGot(results, false, false) then 1 else 0
    ensures Tallied(results, done + {item}, n)
  {
    hide AttemptedGot, AttemptedGotIn;
    AttemptedGotNext(results, done, item, true, false);
    AttemptedGotNext(results, done, item, false, true);
    AttemptedGotNext(results, done, item, false, false);
  }

  /** The map of observations holds each scored item's. */
  ghost predicate Observes(results: seq<Score>, byItem: map<string, A.Observation>) {
    forall item :: (item in byItem <==> item in ScoredItems(results))
                   && (item in byItem ==> byItem[item] == ObservationOf(results, item))
  }

  /** An item counts when it was attempted under both arms. */
  method CountItem(results: seq<Score>, byItem: map<string, A.Observation>, item: string, arms: set<string>, m0: Counts,
    ghost done: set<string>) returns (m: Counts)
    requires Observes(results, byItem) && item in ItemsOf(results) && item !in done && Tallied(results, done, m0)
    requires forall arm :: arm in arms <==> AttemptedBy(results, item, arm)
    ensures m.attempted == m0.attempted && m.bothScored == m0.bothScored && Tallied(results, done + {item}, m)
  {
    hide AttemptedBy, AttemptedGot, ScoredItems, ObservationOf, GotBy, Tallied;
    var gotInc := item in byItem && byItem[item].incumbent != map[];
    var gotCand := item in byItem && byItem[item].candidate != map[];
    GotFromMap(results, byItem, item);
    AttemptedGotMeaning(results, item);
    m := m0;
    if INCUMBENT in arms && CANDIDATE in arms {
      m := CountOne(m, gotInc, gotCand);
    }
    TalliedNext(results, done, item, m0, m);
  }

  /** Discordance is counted over the items attempted under both arms. */
  method CountDiscordant(results: seq<Score>, byItem: map<string, A.Observation>, m0: Counts) returns (m: Counts)
    requires Observes(results, byItem)
    requires m0.candidateOnlyFailed == m0.incumbentOnlyFailed == m0.bothFailed == 0
    ensures m == m0.(candidateOnlyFailed := |AttemptedGot(results, true, false)|,
                     incumbentOnlyFailed := |AttemptedGot(results, false, true)|,
                     bothFailed := |AttemptedGot(results, false, false)|)
  {
    hide AttemptedBy, AttemptedGot, Observes, Tallied;
    var attemptedBy := ArmsAttempted(results);
    m := m0;
    var keys := attemptedBy.Keys;
    ghost var done: set<string> := {};
    NoneAttempted(results, m);
    while keys != {}
      invariant keys <= attemptedBy.Keys && done == attemptedBy.Keys - keys
      invariant m.attempted == m0.attempted && m.bothScored == m0.bothScored && Tallied(results, done, m)
      decreases |keys|
    {
      var item :| item in keys;
      m := CountItem(results, byItem, item, attemptedBy[item], m, done);
      keys, done := keys - {item}, done + {item};
    }
    assert done == ItemsOf(results);
    AllTallied(results, m);
  }

  lemma NoneAttempted(results: seq<Score>, m: Counts)
    requires m.candidateOnlyFailed == m.incumbentOnlyFailed == m.bothFailed == 0
    ensures Tallied(results, {}, m)
  {
    hide AttemptedGot;
  }

  lemma AllTallied(results: seq<Score>, m: Counts)
    requires Tallied(results, ItemsOf(results), m)
    ensures m.candidateOnlyFailed == |AttemptedGot(results, true, false)|
    ensures m.incumbentOnlyFailed == |AttemptedGot(results, false, true)|
    ensures m.bothFailed == |AttemptedGot(results, false, false)|
  {
    AllAttempted(results, true, false);
    AllAttempted(results, false, true);
    AllAttempted(results, false, false);
  }

  lemma AllAttempted(results: seq<Score>, incumbent: bool, candidate: bool)
    ensures AttemptedGotIn(results, ItemsOf(results), incumbent, candidate) == AttemptedGot(results, incumbent, candidate)
  {
    hide GotBy, AttemptedBy;
  }

  lemma AttemptedGotMeaning(results: seq<Score>, item: string)
    requires item in ItemsOf(results)
    ensures forall i, c :: item in AttemptedGot(results, i, c) <==>
              AttemptedBy(results, item, INCUMBENT) && AttemptedBy(results, item, CANDIDATE)
              && GotBy(results, item, false) == i && GotBy(results, item, true) == c
  {
    hide GotBy, AttemptedBy;
  }

  lemma GotFromMap(results: seq<Score>, byItem: map<string, A.Observation>, item: string)
    requires Observes(results, byItem)
    ensures GotBy(results, item, false) <==> item in byItem && byItem[item].incumbent != map[]
    ensures GotBy(results, item, true) <==> item in byItem && byItem[item].candidate != map[]
  {
    hide ScoredItems;
    if item !in byItem {
      NotScoredNothing(results, item);
    }
  }

  method ObservationsFrom(results: seq<Score>, attempted: nat) returns (obs: seq<A.Observation>, missing: Counts)
    ensures obs == ObservationsOf(results) && missing == LiveCounts(results, attempted)
  {
    hide ScoredItems, Dedup, AttemptedGot, GotBothIn;
    var byItem, order := FillObservations(results);
    obs, missing := [], Counts(attempted, 0, 0, 0, 0);
    DedupKeeps(ScoredItems(results));
    assert order[..0] == [];
    assert |GotBothIn(results, [])| == 0 by { NoneGot(results); }
    for i := 0 to |order|
      invariant |obs| == i && forall k :: 0 <= k < i ==> obs[k] == ObservationOf(results, order[k])
      invariant missing == Counts(attempted, |GotBothIn(results, order[..i])|, 0, 0, 0)
    {
      assert order[..i + 1] == order[..i] + [order[i]];
      assert order[i] in order && order[i] !in order[..i];
      GotBothNext(results, order[..i], order[i]);
      var o := byItem[order[i]];
      obs := obs + [o];
      if o.incumbent != map[] && o.candidate != map[] {
        missing := missing.(bothScored := missing.bothScored + 1);
      }
    }
    assert order[..|order|] == order;
    GotBothAll(results);
    missing := CountDiscordant(results, byItem, missing);
  }

  lemma NoneGot(results: seq<Score>)
    ensures GotBothIn(results, []) == {}
  {
  }

  lemma GotMeaning(results: seq<Score>, item: string, candidate: bool)
    ensures GotBy(results, item, candidate) <==>
            exists r :: r in results && r.item == item && Scored(r) && (r.arm == CANDIDATE) == candidate
  {
    LastMeaning(results, item, Got(candidate));
  }

  /** The counts cover the items with results under both arms, and any item scored on both sides that is not among them. */
  lemma LiveTotal(results: seq<Score>, attempted: nat)
    ensures Total(LiveCounts(results, attempted)) == |AttemptedBoth(results)| + |GotBoth(results) - AttemptedBoth(results)|
  {
    hide GotBy, AttemptedBy;
    var a, b := AttemptedGot(results, true, true), AttemptedGot(results, true, false);
    var c, d := AttemptedGot(results, false, true), AttemptedGot(results, false, false);
    assert AttemptedBoth(results) == a + b + c + d;
    assert a !! b && a + b !! c && a + b + c !! d;
    assert GotBoth(results) == a + (GotBoth(results) - AttemptedBoth(results));
  }

  /** The item is scored on both sides, yet nothing names the incumbent as its arm. */
  ghost predicate Unnamed(results: seq<Score>, item: string) {
    item in GotBoth(results) && !AttemptedBy(results, item, INCUMBENT)
  }

  /** The live counts are exactly the items with results under both arms, unless some arm that is neither was scored. */
  lemma LiveConserves(results: seq<Score>, attempted: nat)
    ensures Total(LiveCounts(results, attempted)) == |AttemptedBoth(results)| <==> forall item :: !Unnamed(results, item)
    ensures LowercaseArms(results) ==> Total(LiveCounts(results, attempted)) == |AttemptedBoth(results)|
  {
    hide Metrics;
    LiveTotal(results, attempted);
    var extra := GotBoth(results) - AttemptedBoth(results);
    forall item
      ensures item in extra <==> Unnamed(results, item)
      ensures LowercaseArms(results) ==> item !in extra
    {
      GotMeaning(results, item, false);
      GotMeaning(results, item, true);
    }
    if |extra| == 0 {
      assert extra == {};
    } else {
      var item :| item in extra;
    }
  }

  /** An incumbent in another case is scored as the incumbent but is not seen as attempted: its item is counted, though no
      item has results under both arms. */
  lemma UnnamedIsCounted(attempted: nat, metrics: map<string, real>)
    requires metrics != map[]
    ensures var results := [Score("a", "Incumbent", metrics, ""), Score("a", CANDIDATE, metrics, "")];
            && Unnamed(results, "a")
            && Total(LiveCounts(results, attempted)) == 1 && AttemptedBoth(results) == {}
  {
    var one, two := Score("a", "Incumbent", metrics, ""), Score("a", CANDIDATE, metrics, "");
    var results := [one, two];
    assert one in results && two in results;
    assert "Incumbent" != INCUMBENT;
    ItemsOfTwo(one, two);
    GotMeaning(results, "a", false);
    GotMeaning(results, "a", true);
    LiveTotal(results, attempted);
    assert AttemptedBoth(results) == {};
    assert GotBoth(results) - AttemptedBoth(results) == {"a"};
  }
}
