/** Pairing scores by item and accounting for those that are missing
    (`internal/score/score.go`, `internal/rollout/stage.go`, `internal/rollout/observations.go`). */
module Pairing {
  import opened Basics
  import opened Sorting
  import opened Names
  import M = Missingness
  import A = Analysis

  datatype Score = Score(item: string, arm: string, metrics: map<string, real>, error: string)

  datatype Pair = Pair(item: string, incumbent: Score, candidate: Score)

  const NO_SCORE := Score("", "", map[], "")

  const INCUMBENT := "incumbent"
  const CANDIDATE := "candidate"

  predicate Scored(r: Score) { r.error == "" && r.metrics != map[] }

  // ---- The last result for an item ----

  /** Which of an item's results count for a side. */
  datatype Side = Exactly(arm: string) | Folded(fold: string -> string, arm: string) | Got(candidate: bool)
  {
    /** `Got` is the live reading: scored results only, and any arm but the candidate's is the incumbent's. */
    predicate Takes(r: Score) {
      match this
      case Exactly(arm) => r.arm == arm
      case Folded(fold, arm) => fold(r.arm) == arm
      case Got(c) => Scored(r) && (r.arm == CANDIDATE) == c
    }
  }

  function Last(results: seq<Score>, item: string, side: Side): Option<Score> {
    if results == [] then None
    else
      var last := results[|results| - 1];
      if last.item == item && side.Takes(last) then Some(last) else Last(results[..|results| - 1], item, side)
  }

  lemma LastAppend(results: seq<Score>, r: Score, item: string, side: Side)
    ensures Last(results + [r], item, side) == if r.item == item && side.Takes(r) then Some(r) else Last(results, item, side)
  {
    assert (results + [r])[..|results|] == results;
  }

  lemma {:induction false} LastMeaning(results: seq<Score>, item: string, side: Side)
    ensures match Last(results, item, side)
            case Some(r) => r in results && r.item == item && side.Takes(r)
            case None => forall r :: r in results && r.item == item ==> !side.Takes(r)
  {
    if results != [] {
      LastMeaning(results[..|results| - 1], item, side);
      assert results == results[..|results| - 1] + [results[|results| - 1]];
    }
  }

  lemma {:induction false} SameSideSameLast(results: seq<Score>, item: string, one: Side, other: Side)
    requires forall r :: r in results ==> one.Takes(r) == other.Takes(r)
    ensures Last(results, item, one) == Last(results, item, other)
  {
    if results != [] {
      assert results[|results| - 1] in results;
      SameSideSameLast(results[..|results| - 1], item, one, other);
    }
  }

  function ItemsOf(results: seq<Score>): set<string> { set r | r in results :: r.item }

  function ItemList(results: seq<Score>): seq<string> {
    seq(|results|, i requires 0 <= i < |results| => results[i].item)
  }

  // ---- Pairs ----

  function OrNone(r: Option<Score>): Score { if r.Some? then r.value else NO_SCORE }

  /** Arms are compared without regard to case. */
  function PairOf(fold: string -> string, results: seq<Score>, item: string): Pair {
    Pair(item, OrNone(Last(results, item, Folded(fold, INCUMBENT))), OrNone(Last(results, item, Folded(fold, CANDIDATE))))
  }

  predicate Complete(p: Pair, metric: string) {
    Scored(p.incumbent) && Scored(p.candidate) && metric in p.incumbent.metrics && metric in p.candidate.metrics
  }

  function SortedItems(results: seq<Score>): seq<string> { Sort(Dedup(ItemList(results)), StringLeq) }

  function PairsFrom(fold: string -> string, results: seq<Score>, metric: string, items: seq<string>): seq<Pair> {
    if items == [] then []
    else
      var p := PairOf(fold, results, items[|items| - 1]);
      PairsFrom(fold, results, metric, items[..|items| - 1]) + if Complete(p, metric) then [p] else []
  }

  function DroppedFrom(fold: string -> string, results: seq<Score>, metric: string, items: seq<string>): seq<string> {
    if items == [] then []
    else
      var item := items[|items| - 1];
      DroppedFrom(fold, results, metric, items[..|items| - 1]) + if Complete(PairOf(fold, results, item), metric) then [] else [item]
  }

  /** The complete pairs, by item. */
  function PairsOf(fold: string -> string, results: seq<Score>, metric: string): seq<Pair> {
    PairsFrom(fold, results, metric, SortedItems(results))
  }

  function DroppedOf(fold: string -> string, results: seq<Score>, metric: string): seq<string> {
    DroppedFrom(fold, results, metric, SortedItems(results))
  }

  function CompleteItems(fold: string -> string, results: seq<Score>, metric: string): set<string> {
    set item | item in ItemsOf(results) && Complete(PairOf(fold, results, item), metric)
  }

  function CompleteAmong(fold: string -> string, results: seq<Score>, metric: string, items: seq<string>): set<string> {
    set item | item in items && Complete(PairOf(fold, results, item), metric)
  }

  lemma AmongNext(fold: string -> string, results: seq<Score>, metric: string, front: seq<string>, last: string)
    requires last !in front
    ensures |CompleteAmong(fold, results, metric, front + [last])|
            == |CompleteAmong(fold, results, metric, front)| + if Complete(PairOf(fold, results, last), metric) then 1 else 0
  {
    hide PairOf, Complete;
    assert CompleteAmong(fold, results, metric, front + [last])
           == CompleteAmong(fold, results, metric, front) + if Complete(PairOf(fold, results, last), metric) then {last} else {};
  }

  lemma {:induction false} PairCount(fold: string -> string, results: seq<Score>, metric: string, items: seq<string>)
    requires Distinct(items)
    ensures |PairsFrom(fold, results, metric, items)| == |CompleteAmong(fold, results, metric, items)|
    ensures |PairsFrom(fold, results, metric, items)| + |DroppedFrom(fold, results, metric, items)| == |items|
  {
    hide PairOf, Complete, CompleteAmong;
    if items == [] {
      NoneAmong(fold, results, metric);
    } else {
      var front, last := items[..|items| - 1], items[|items| - 1];
      PairCount(fold, results, metric, front);
      assert items == front + [last] && last !in front;
      AmongNext(fold, results, metric, front, last);
    }
  }

  lemma NoneAmong(fold: string -> string, results: seq<Score>, metric: string)
    ensures CompleteAmong(fold, results, metric, []) == {}
  {
  }

  lemma SortedItemsMeaning(results: seq<Score>)
    ensures Distinct(SortedItems(results)) && SortedBy(SortedItems(results), StringLeq)
    ensures forall item :: item in SortedItems(results) <==> item in ItemsOf(results)
  {
    var items := ItemList(results);
    StringsAreOrdered();
    DedupKeeps(items);
    SortSorts(Dedup(items), StringLeq);
    SortStaysDistinct(Dedup(items));
    forall item
      ensures item in SortedItems(results) <==> item in ItemsOf(results)
    {
      SortMembers(Dedup(items), StringLeq, item);
      if item in ItemsOf(results) {
        var r :| r in results && r.item == item;
        var i :| 0 <= i < |results| && results[i] == r;
        assert items[i] == item;
      }
    }
  }

  /** Every item is either paired or dropped, once, and it is paired exactly when both arms scored the metric. */
  lemma PairsAreComplete(fold: string -> string, results: seq<Score>, metric: string)
    ensures |PairsOf(fold, results, metric)| == |CompleteItems(fold, results, metric)|
    ensures |PairsOf(fold, results, metric)| + |DroppedOf(fold, results, metric)| == |ItemsOf(results)|
  {
    hide PairOf, Complete;
    var items := SortedItems(results);
    SortedItemsMeaning(results);
    PairCount(fold, results, metric, items);
    assert CompleteAmong(fold, results, metric, items) == CompleteItems(fold, results, metric);
    DistinctSize(items);
    assert (set item | item in items) == ItemsOf(results);
  }

  lemma {:induction false} DistinctSize(items: seq<string>)
    requires Distinct(items)
    ensures |set item | item in items| == |items|
  {
    if items != [] {
      var front, last := items[..|items| - 1], items[|items| - 1];
      DistinctSize(front);
      assert items == front + [last];
      assert (set item | item in items) == (set item | item in front) + {last};
    }
  }

  method Pairs(fold: string -> string, results: seq<Score>, metric: string) returns (paired: seq<Pair>, dropped: seq<string>)
    ensures paired == PairsOf(fold, results, metric) && dropped == DroppedOf(fold, results, metric)
  {
    hide Complete, Last;
    var byItem: map<string, Pair> := map[];
    for i := 0 to |results|
      invariant byItem.Keys == ItemsOf(results[..i])
      invariant forall item :: item in byItem ==> byItem[item] == PairOf(fold, results[..i], item)
    {
      var r := results[i];
      assert results[..i + 1] == results[..i] + [r];
      PairAppend(fold, results[..i], r);
      var p := if r.item in byItem then byItem[r.item] else Pair(r.item, NO_SCORE, NO_SCORE);
      if fold(r.arm) == INCUMBENT {
        p := p.(incumbent := r);
      } else if fold(r.arm) == CANDIDATE {
        p := p.(candidate := r);
      }
      byItem := byItem[r.item := p];
    }
    assert results[..|results|] == results;
    var items := SortedKeys(byItem.Keys, results);
    paired, dropped := [], [];
    for i := 0 to |items|
      invariant paired == PairsFrom(fold, results, metric, items[..i])
      invariant dropped == DroppedFrom(fold, results, metric, items[..i])
    {
      assert items[..i + 1][..i] == items[..i];
      SortedItemsMeaning(results);
      assert items[i] in items;
      var p := byItem[items[i]];
      if Complete(p, metric) {
        paired := paired + [p];
      } else {
        dropped := dropped + [items[i]];
      }
    }
    assert items[..|items|] == items;
  }

  lemma PairAppend(fold: string -> string, results: seq<Score>, r: Score)
    ensures forall item :: item != r.item ==> PairOf(fold, results + [r], item) == PairOf(fold, results, item)
    ensures var before := if r.item in ItemsOf(results) then PairOf(fold, results, r.item) else Pair(r.item, NO_SCORE, NO_SCORE);
            PairOf(fold, results + [r], r.item)
            == if fold(r.arm) == INCUMBENT then before.(incumbent := r)
               else if fold(r.arm) == CANDIDATE then before.(candidate := r) else before
  {
    hide Last;
    forall item, side: Side
      ensures Last(results + [r], item, side) == if r.item == item && side.Takes(r) then Some(r) else Last(results, item, side)
    {
      LastAppend(results, r, item, side);
    }
    LastMeaning(results, r.item, Folded(fold, INCUMBENT));
    LastMeaning(results, r.item, Folded(fold, CANDIDATE));
  }

  method SortedKeys(keys: set<string>, ghost results: seq<Score>) returns (items: seq<string>)
    requires keys == ItemsOf(results)
    ensures items == SortedItems(results)
  {
    hide Distinct;
    NothingIsDistinct();
    items := AddUnseen(keys, [], {});
    StringsAreOrdered();
    SortSorts(items, StringLeq);
    SortStaysDistinct(items);
    SortedItemsMeaning(results);
    forall item
      ensures item in Sort(items, StringLeq) <==> item in SortedItems(results)
    {
      SortMembers(items, StringLeq, item);
    }
    ListingIsUnique(Sort(items, StringLeq), SortedItems(results));
    items := Sort(items, StringLeq);
  }
}
