/** What pairing and counting read out of the scorer's results, said result by result (`internal/score/score.go`;
    `internal/rollout/stage.go`, lines 228-271; `internal/rollout/observations.go`, lines 224-292). */
module ScoreMeaning {
  import opened Basics
  import opened Sorting
  import opened Names
  import opened Pairing
  import opened Accounting
  import A = Analysis

  // ---- The last result of a kind ----

  /** Position i holds the last result for the item that passes the test. */
  ghost predicate LastIndex(results: seq<Score>, item: string, test: Score -> bool, i: int) {
    && 0 <= i < |results| && results[i].item == item && test(results[i])
    && forall j :: i < j < |results| ==> !(results[j].item == item && test(results[j]))
  }

  ghost predicate LastWhere(results: seq<Score>, item: string, test: Score -> bool, s: Score) {
    exists i :: LastIndex(results, item, test, i) && results[i] == s
  }

  function FoldsTo(fold: string -> string, arm: string): Score -> bool { (s: Score) => fold(s.arm) == arm }

  function Under(arm: string): Score -> bool { (s: Score) => s.arm == arm }

  /** A usable result on one side of a live comparison: the candidate's, or any other arm's. */
  function Measures(candidate: bool): Score -> bool {
    (s: Score) => s.error == "" && s.metrics != map[] && (s.arm == "candidate") == candidate
  }

  ghost predicate SameTest(side: Side, test: Score -> bool) { forall s: Score :: side.Takes(s) <==> test(s) }

  lemma {:induction false} LastIsLast(results: seq<Score>, item: string, side: Side, test: Score -> bool, s: Score)
    requires SameTest(side, test)
    ensures Last(results, item, side) == Some(s) <==> LastWhere(results, item, test, s)
  {
    if results != [] {
      var n, front, r := |results| - 1, results[..|results| - 1], results[|results| - 1];
      LastIsLast(front, item, side, test, s);
      if r.item == item && test(r) {
        assert LastIndex(results, item, test, n);
      } else {
        forall i
          ensures LastIndex(results, item, test, i) <==> LastIndex(front, item, test, i)
        {
        }
      }
    }
  }

  lemma LastOrNothing(results: seq<Score>, item: string, side: Side, test: Score -> bool)
    requires SameTest(side, test)
    ensures Last(results, item, side).Some? <==> exists s :: LastWhere(results, item, test, s)
    ensures Last(results, item, side).Some? ==> LastWhere(results, item, test, Last(results, item, side).value)
  {
    if Last(results, item, side).Some? {
      LastIsLast(results, item, side, test, Last(results, item, side).value);
    }
    forall s | LastWhere(results, item, test, s)
      ensures Last(results, item, side) == Some(s)
    {
      LastIsLast(results, item, side, test, s);
    }
  }

  // ---- Pairs ----

  lemma {:induction false} PairsFromMeaning(fold: string -> string, results: seq<Score>, metric: string, items: seq<string>, p: Pair)
    ensures p in PairsFrom(fold, results, metric, items) <==>
            p.item in items && p == PairOf(fold, results, p.item) && Complete(p, metric)
  {
    hide PairOf, Complete;
    if items != [] {
      var front, last := items[..|items| - 1], items[|items| - 1];
      PairsFromMeaning(fold, results, metric, front, p);
      assert items == front + [last];
      PairIsForItem(fold, results, last);
    }
  }

  lemma PairIsForItem(fold: string -> string, results: seq<Score>, item: string)
    ensures PairOf(fold, results, item).item == item
  {
  }

  /** Exactly what is paired: the last result for the item whose arm folds to "incumbent" with the last whose arm folds to
      "candidate", when both are usable and carry the metric. */
  lemma PairsMeaning(fold: string -> string, results: seq<Score>, metric: string, p: Pair)
    ensures p in PairsOf(fold, results, metric) <==>
            && LastWhere(results, p.item, FoldsTo(fold, "incumbent"), p.incumbent)
            && LastWhere(results, p.item, FoldsTo(fold, "candidate"), p.candidate)
            && p.incumbent.error == "" && metric in p.incumbent.metrics
            && p.candidate.error == "" && metric in p.candidate.metrics
  {
    hide Last, LastWhere, PairsFrom;
    PairsFromMeaning(fold, results, metric, SortedItems(results), p);
    SortedItemsMeaning(results);
    LastIsLast(results, p.item, Folded(fold, INCUMBENT), FoldsTo(fold, "incumbent"), p.incumbent);
    LastIsLast(results, p.item, Folded(fold, CANDIDATE), FoldsTo(fold, "candidate"), p.candidate);
    LastHasItem(results, p.item, FoldsTo(fold, "incumbent"), p.incumbent);
    assert metric in p.incumbent.metrics ==> p.incumbent.metrics != map[];
    assert metric in p.candidate.metrics ==> p.candidate.metrics != map[];
  }

  lemma LastHasItem(results: seq<Score>, item: string, test: Score -> bool, s: Score)
    ensures LastWhere(results, item, test, s) ==> item in ItemsOf(results)
  {
    if LastWhere(results, item, test, s) {
      var i :| LastIndex(results, item, test, i) && results[i] == s;
      assert results[i] in results;
    }
  }

  lemma {:induction false} DroppedFromMeaning(fold: string -> string, results: seq<Score>, metric: string, items: seq<string>, item: string)
    ensures item in DroppedFrom(fold, results, metric, items) <==>
            item in items && !Complete(PairOf(fold, results, item), metric)
  {
    hide PairOf, Complete;
    if items != [] {
      DroppedFromMeaning(fold, results, metric, items[..|items| - 1], item);
      assert items == items[..|items| - 1] + [items[|items| - 1]];
    }
  }

  /** Exactly what is dropped: the items with a result and no pair. */
  lemma DroppedMeaning(fold: string -> string, results: seq<Score>, metric: string, item: string)
    ensures item in DroppedOf(fold, results, metric) <==>
            item in ItemsOf(results) && forall p :: p in PairsOf(fold, results, metric) ==> p.item != item
  {
    hide PairOf, Complete, PairsFrom, DroppedFrom;
    var items := SortedItems(results);
    SortedItemsMeaning(results);
    DroppedFromMeaning(fold, results, metric, items, item);
    PairIsForItem(fold, results, item);
    PairsFromMeaning(fold, results, metric, items, PairOf(fold, results, item));
    forall p | p in PairsOf(fold, results, metric)
      ensures p.item == item ==> Complete(PairOf(fold, results, item), metric)
    {
      PairsFromMeaning(fold, results, metric, items, p);
    }
  }

  ghost predicate Ascending(items: seq<string>) {
    forall i, j :: 0 <= i < j < |items| ==> StringLeq(items[i], items[j]) && items[i] != items[j]
  }

  function ItemsOfPairs(pairs: seq<Pair>): seq<string> { seq(|pairs|, i requires 0 <= i < |pairs| => pairs[i].item) }

  lemma {:induction false} BothAscend(fold: string -> string, results: seq<Score>, metric: string, items: seq<string>)
    requires Ascending(items)
    ensures Ascending(ItemsOfPairs(PairsFrom(fold, results, metric, items)))
    ensures Ascending(DroppedFrom(fold, results, metric, items))
  {
    hide PairOf, Complete;
    if items != [] {
      var front, last := items[..|items| - 1], items[|items| - 1];
      BothAscend(fold, results, metric, front);
      var ps, ds := PairsFrom(fold, results, metric, front), DroppedFrom(fold, results, metric, front);
      forall i | 0 <= i < |ps|
        ensures ps[i].item in front
      {
        PairsFromMeaning(fold, results, metric, front, ps[i]);
      }
      forall i | 0 <= i < |ds|
        ensures ds[i] in front
      {
        DroppedFromMeaning(fold, results, metric, front, ds[i]);
      }
      PairIsForItem(fold, results, last);
      forall x | x in front
        ensures StringLeq(x, last) && x != last
      {
        var i :| 0 <= i < |front| && front[i] == x;
        assert items[i] == x && items[|items| - 1] == last;
      }
      var added := PairsFrom(fold, results, metric, items);
      assert ItemsOfPairs(added) == ItemsOfPairs(ps) + ItemsOfPairs(added[|ps|..]);
    }
  }

  /** Pairs and dropped items are listed in the order of their names, each once. */
  lemma ListedByName(fold: string -> string, results: seq<Score>, metric: string)
    ensures Ascending(ItemsOfPairs(PairsOf(fold, results, metric))) && Ascending(DroppedOf(fold, results, metric))
  {
    hide PairsFrom, DroppedFrom;
    SortedItemsMeaning(results);
    BothAscend(fold, results, metric, SortedItems(results));
  }

  // ---- Which arm a failure is charged to ----

  /** The item's last result under exactly that arm is usable. */
  ghost predicate EndsUsable(results: seq<Score>, item: string, arm: string) {
    exists s :: LastWhere(results, item, Under(arm), s) && s.error == "" && s.metrics != map[]
  }

  lemma ScoredByMeaning(results: seq<Score>, item: string, arm: string)
    ensures ScoredBy(results, item, arm) <==> EndsUsable(results, item, arm)
  {
    hide Last, LastWhere;
    LastOrNothing(results, item, Exactly(arm), Under(arm));
    forall s | LastWhere(results, item, Under(arm), s)
      ensures Last(results, item, Exactly(arm)) == Some(s)
    {
      LastIsLast(results, item, Exactly(arm), Under(arm), s);
    }
  }

  /** Offline, an item is charged to the candidate when only its last incumbent result is usable, to the incumbent when only
      its last candidate result is, and to both when neither is or when nothing came back for it. */
  lemma OfflineFailures(results: seq<Score>, pairs: nat, attempted: nat)
    ensures var m := MissingOf(results, pairs, attempted);
            && m.attempted == attempted && m.bothScored == pairs
            && m.candidateOnlyFailed == |set item | item in ItemsOf(results) && EndsUsable(results, item, "incumbent")
                                                    && !EndsUsable(results, item, "candidate")|
            && m.incumbentOnlyFailed == |set item | item in ItemsOf(results) && !EndsUsable(results, item, "incumbent")
                                                    && EndsUsable(results, item, "candidate")|
            && m.bothFailed == |set item | item in ItemsOf(results) && !EndsUsable(results, item, "incumbent")
                                           && !EndsUsable(results, item, "candidate")|
                               + if attempted > |ItemsOf(results)| then attempted - |ItemsOf(results)| else 0
  {
    hide ScoredBy, EndsUsable;
    forall item, arm
      ensures ScoredBy(results, item, arm) <==> EndsUsable(results, item, arm)
    {
      ScoredByMeaning(results, item, arm);
    }
    assert ScoredExactly(results, true, false) == set item | item in ItemsOf(results) && EndsUsable(results, item, "incumbent")
                                                              && !EndsUsable(results, item, "candidate");
    assert ScoredExactly(results, false, true) == set item | item in ItemsOf(results) && !EndsUsable(results, item, "incumbent")
                                                              && EndsUsable(results, item, "candidate");
    assert ScoredExactly(results, false, false) == set item | item in ItemsOf(results) && !EndsUsable(results, item, "incumbent")
                                                               && !EndsUsable(results, item, "candidate");
  }

  // ---- Live ----

  /** Some usable result for the item is on that side. */
  ghost predicate Measured(results: seq<Score>, item: string, candidate: bool) {
    exists i :: 0 <= i < |results| && results[i].item == item && Measures(candidate)(results[i])
  }

  lemma {:induction false} SomeMeansLast(results: seq<Score>, item: string, side: Side, test: Score -> bool)
    requires SameTest(side, test)
    ensures Last(results, item, side).Some? <==> exists i :: 0 <= i < |results| && results[i].item == item && test(results[i])
  {
    if results != [] {
      SomeMeansLast(results[..|results| - 1], item, side, test);
    }
  }

  /** Each side of an observation is the last usable result for its item on that side, and empty without one. */
  lemma SidesMeaning(results: seq<Score>, item: string, candidate: bool)
    ensures var scores := if candidate then ObservationOf(results, item).candidate else ObservationOf(results, item).incumbent;
            && (scores != map[] <==> Measured(results, item, candidate))
            && (scores != map[] ==> exists s :: LastWhere(results, item, Measures(candidate), s) && s.metrics == scores)
    ensures ObservationOf(results, item).item == item
  {
    hide Last, LastWhere;
    SomeMeansLast(results, item, Got(candidate), Measures(candidate));
    LastOrNothing(results, item, Got(candidate), Measures(candidate));
    if Last(results, item, Got(candidate)).Some? {
      var s := Last(results, item, Got(candidate)).value;
      LastPasses(results, item, Measures(candidate), s);
    }
  }

  lemma LastPasses(results: seq<Score>, item: string, test: Score -> bool, s: Score)
    requires LastWhere(results, item, test, s)
    ensures s.item == item && test(s)
  {
  }

  lemma GotByMeaning(results: seq<Score>, item: string, candidate: bool)
    ensures GotBy(results, item, candidate) <==> Measured(results, item, candidate)
  {
    hide Metrics, Measured;
    SidesMeaning(results, item, candidate);
  }

  /** Live, among the items with results under exactly both arms, one is charged to the candidate when only other arms' results
      are usable, to the incumbent when only the candidate's are, and to both when none is. */
  lemma LiveFailures(results: seq<Score>, attempted: nat)
    ensures var m := LiveCounts(results, attempted);
            && m.attempted == attempted
            && m.bothScored == |set item | item in ItemsOf(results) && Measured(results, item, false) && Measured(results, item, true)|
            && m.candidateOnlyFailed == |set item | item in ItemsOf(results) && BothTried(results, item)
                                                    && Measured(results, item, false) && !Measured(results, item, true)|
            && m.incumbentOnlyFailed == |set item | item in ItemsOf(results) && BothTried(results, item)
                                                    && !Measured(results, item, false) && Measured(results, item, true)|
            && m.bothFailed == |set item | item in ItemsOf(results) && BothTried(results, item)
                                           && !Measured(results, item, false) && !Measured(results, item, true)|
  {
    hide GotBy, Measured, BothTried, AttemptedBy;
    forall item, candidate
      ensures GotBy(results, item, candidate) <==> Measured(results, item, candidate)
    {
      GotByMeaning(results, item, candidate);
    }
    forall item
      ensures BothTried(results, item) <==> AttemptedBy(results, item, INCUMBENT) && AttemptedBy(results, item, CANDIDATE)
    {
      BothTriedMeaning(results, item);
    }
    assert GotBoth(results) == set item | item in ItemsOf(results) && Measured(results, item, false) && Measured(results, item, true);
    assert AttemptedGot(results, true, false) == set item | item in ItemsOf(results) && BothTried(results, item)
                                                  && Measured(results, item, false) && !Measured(results, item, true);
    assert AttemptedGot(results, false, true) == set item | item in ItemsOf(results) && BothTried(results, item)
                                                  && !Measured(results, item, false) && Measured(results, item, true);
    assert AttemptedGot(results, false, false) == set item | item in ItemsOf(results) && BothTried(results, item)
                                                   && !Measured(results, item, false) && !Measured(results, item, true);
  }

  ghost predicate BothTried(results: seq<Score>, item: string) {
    && (exists i :: 0 <= i < |results| && results[i].item == item && results[i].arm == "incumbent")
    && (exists i :: 0 <= i < |results| && results[i].item == item && results[i].arm == "candidate")
  }

  lemma BothTriedMeaning(results: seq<Score>, item: string)
    ensures BothTried(results, item) <==> AttemptedBy(results, item, INCUMBENT) && AttemptedBy(results, item, CANDIDATE)
  {
    forall arm
      ensures AttemptedBy(results, item, arm) <==> exists i :: 0 <= i < |results| && results[i].item == item && results[i].arm == arm
    {
      if i :| 0 <= i < |results| && results[i].item == item && results[i].arm == arm {
        assert results[i] in results;
      }
      if AttemptedBy(results, item, arm) {
        var r :| r in results && r.item == item && r.arm == arm;
        var i :| 0 <= i < |results| && results[i] == r;
        assert results[i].item == item && results[i].arm == arm;
      }
    }
  }

  predicate UsableFor(r: Score, item: string) { r.item == item && r.error == "" && r.metrics != map[] }

  /** Position k has a usable result for one item, and no position up to it has one for the other. */
  ghost predicate ScoredBefore(results: seq<Score>, one: string, other: string) {
    exists k :: 0 <= k < |results| && UsableFor(results[k], one) && forall l :: 0 <= l <= k ==> !UsableFor(results[l], other)
  }

  lemma {:induction false} ScoredItemsMeaning(results: seq<Score>, item: string)
    ensures item in ScoredItems(results) <==> exists k :: 0 <= k < |results| && UsableFor(results[k], item)
  {
    if results != [] {
      var front, r := results[..|results| - 1], results[|results| - 1];
      ScoredItemsMeaning(front, item);
      assert results == front + [r];
      if k :| 0 <= k < |front| && UsableFor(front[k], item) {
        assert UsableFor(results[k], item);
      }
    }
  }

  lemma ScoredBeforeGrows(results: seq<Score>, r: Score, one: string, other: string)
    requires ScoredBefore(results, one, other)
    ensures ScoredBefore(results + [r], one, other)
  {
    var k :| 0 <= k < |results| && UsableFor(results[k], one) && forall l :: 0 <= l <= k ==> !UsableFor(results[l], other);
    assert (results + [r])[k] == results[k];
  }

  ghost predicate InScoringOrder(results: seq<Score>, items: seq<string>) {
    forall i, j :: 0 <= i < j < |items| ==> ScoredBefore(results, items[i], items[j])
  }

  function ObservedItems(obs: seq<A.Observation>): seq<string> { seq(|obs|, i requires 0 <= i < |obs| => obs[i].item) }

  ghost predicate ScoredSome(results: seq<Score>, item: string) {
    exists k :: 0 <= k < |results| && UsableFor(results[k], item)
  }

  /** There is one observation for each item with a usable result, in the order those items were first scored. */
  lemma ObservedInOrder(results: seq<Score>)
    ensures var obs := ObservationsOf(results);
            && (forall item :: item in ObservedItems(obs) <==> ScoredSome(results, item))
            && (forall i :: 0 <= i < |obs| ==> obs[i] == ObservationOf(results, obs[i].item))
            && InScoringOrder(results, ObservedItems(obs))
  {
    hide ObservationOf, ScoredBefore;
    var order, obs := Dedup(ScoredItems(results)), ObservationsOf(results);
    FirstScoredOrder(results);
    forall i | 0 <= i < |order|
      ensures obs[i].item == order[i]
    {
      SidesMeaning(results, order[i], false);
    }
    assert ObservedItems(obs) == order;
    DedupKeeps(ScoredItems(results));
    forall item
      ensures item in order <==> ScoredSome(results, item)
    {
      ScoredItemsMeaning(results, item);
    }
  }

  lemma {:induction false} FirstScoredOrder(results: seq<Score>)
    ensures InScoringOrder(results, Dedup(ScoredItems(results)))
  {
    hide ScoredItems, Dedup;
    if results == [] {
      NothingScored();
    } else {
      var front, r := results[..|results| - 1], results[|results| - 1];
      assert results == front + [r];
      FirstScoredOrder(front);
      ScoredAppend(front, r);
      var was, order := Dedup(ScoredItems(front)), Dedup(ScoredItems(results));
      DedupKeeps(ScoredItems(front));
      forall i, j | 0 <= i < j < |order|
        ensures ScoredBefore(results, order[i], order[j])
      {
        if j == |was| {
          NewIsLater(front, was[i], order[j]);
        } else {
          assert ScoredBefore(front, was[i], was[j]);
        }
        ScoredBeforeGrows(front, r, order[i], order[j]);
      }
    }
  }

  lemma NewIsLater(results: seq<Score>, one: string, other: string)
    requires one in ScoredItems(results) && other !in ScoredItems(results)
    ensures ScoredBefore(results, one, other)
  {
    ScoredItemsMeaning(results, one);
    ScoredItemsMeaning(results, other);
  }
}
