/** Lists of names, each once and in order. */
module Names {
  import opened Sorting

  /** The first occurrence of each. */
  function Dedup(s: seq<string>): seq<string> {
    if s == [] then [] else
      var r := Dedup(s[..|s| - 1]);
      if s[|s| - 1] in r then r else r + [s[|s| - 1]]
  }

  lemma {:induction false} DedupKeeps(s: seq<string>)
    ensures forall n :: n in Dedup(s) <==> n in s
    ensures forall i, j :: 0 <= i < j < |Dedup(s)| ==> Dedup(s)[i] != Dedup(s)[j]
  {
    if s != [] {
      DedupKeeps(s[..|s| - 1]);
      assert s == s[..|s| - 1] + [s[|s| - 1]];
    }
  }

  ghost predicate Distinct(s: seq<string>) {
    forall i, j :: 0 <= i < j < |s| ==> s[i] != s[j]
  }

  lemma {:induction false} DistinctCounts(s: seq<string>)
    ensures Distinct(s) <==> forall n :: multiset(s)[n] <= 1
  {
    if s != [] {
      var front, last := s[..|s| - 1], s[|s| - 1];
      DistinctCounts(front);
      assert s == front + [last];
      if Distinct(s) {
        assert last !in front;
        assert last !in multiset(front);
      } else if Distinct(front) {
        var i, j :| 0 <= i < j < |s| && s[i] == s[j];
        assert j == |s| - 1 && front[i] == last;
        assert last in multiset(front);
        assert multiset(s)[last] >= 2;
      } else {
        var n :| multiset(front)[n] > 1;
        assert multiset(s)[n] > 1;
      }
    }
  }

  lemma SortStaysDistinct(s: seq<string>)
    ensures Distinct(Sort(s, StringLeq)) <==> Distinct(s)
  {
    SortKeeps(s, StringLeq);
    DistinctCounts(s);
    DistinctCounts(Sort(s, StringLeq));
  }

  lemma StringsAreOrdered()
    ensures TotalPreorder(StringLeq)
  {
    forall a, b
      ensures StringLeq(a, b) || StringLeq(b, a)
    {
      StringLeqTotal(a, b);
    }
    forall a, b, c | StringLeq(a, b) && StringLeq(b, c)
      ensures StringLeq(a, c)
    {
      StringLeqTransitive(a, b, c);
    }
  }

  /** Only one list holds given names once each in order. */
  lemma {:induction false} ListingIsUnique(s: seq<string>, t: seq<string>)
    requires Distinct(s) && Distinct(t) && SortedBy(s, StringLeq) && SortedBy(t, StringLeq)
    requires forall n :: n in s <==> n in t
    ensures s == t
  {
    HeadIsMember(s);
    HeadIsMember(t);
    if s != [] {
      SameHead(s, t);
      forall n
        ensures n in s[1..] <==> n in t[1..]
      {
        InTail(s, n);
        InTail(t, n);
      }
      ListingIsUnique(s[1..], t[1..]);
      assert s == [s[0]] + s[1..] && t == [t[0]] + t[1..];
    }
  }

  lemma HeadIsMember(s: seq<string>)
    ensures s != [] ==> s[0] in s
  {
  }

  lemma SameHead(s: seq<string>, t: seq<string>)
    requires s != [] && t != [] && SortedBy(s, StringLeq) && SortedBy(t, StringLeq)
    requires s[0] in t && t[0] in s
    ensures s[0] == t[0]
  {
    var i :| 0 <= i < |t| && t[i] == s[0];
    var j :| 0 <= j < |s| && s[j] == t[0];
    StringLeqTotal(s[0], t[0]);
  }

  lemma InTail(s: seq<string>, n: string)
    requires s != [] && Distinct(s)
    ensures n in s[1..] <==> n in s && n != s[0]
  {
    if n in s && n != s[0] {
      var i :| 0 <= i < |s| && s[i] == n;
      assert s[1..][i - 1] == n;
    }
  }

  /** Append the keys not seen before, in whatever order the map yields them. */
  method AddUnseen(m: set<string>, before: seq<string>, ghost keys: set<string>) returns (out: seq<string>)
    requires Distinct(before) && forall n :: n in before <==> n in keys
    ensures Distinct(out) && forall n :: n in out <==> n in keys + m
  {
    out := before;
    var rest := m;
    while rest != {}
      invariant rest <= m && Distinct(out)
      invariant forall n :: n in out <==> n in keys + (m - rest)
      decreases |rest|
    {
      var k :| k in rest;
      if k !in out {
        out := out + [k];
      }
      rest := rest - {k};
    }
  }

  lemma NothingIsDistinct()
    ensures Distinct([])
  {
  }
}
