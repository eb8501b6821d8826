/** Moving requests between two arms: the abstract router (`internal/traffic/traffic.go`) and its two
    implementations (`internal/traffic/gatewayapi.go`, `internal/traffic/istio.go`). */
module Traffic {
  import opened Basics

  datatype Target = Target(route: string, incumbent: string, candidate: string)

  datatype Split = Split(incumbent: int, candidate: int) {
    predicate Valid() {
      incumbent >= 0 && candidate >= 0 && incumbent + candidate != 0
    }
  }

  const FULLY_INCUMBENT := Split(100, 0)

  /** All a rollout can know of a route: how it divides traffic, and the percentage copied to the candidate. */
  datatype View = View(split: Split, mirror: int)
}

/** The router over an HTTPRoute's first rule. */
module Gateway {
  import opened Basics
  import opened Traffic
  import Sorting

  /** `rest` stands for whatever else the operator configured on a backend. */
  datatype BackendRef = BackendRef(name: string, weight: Option<int>, port: Option<int>, rest: string)

  datatype Filter = Mirror(backend: string, port: Option<int>) | OtherFilter(rest: string)

  datatype Rule = Rule(backends: seq<BackendRef>, filters: seq<Filter>)

  // ---- Reading back ----

  /** The last backend of that name decides; an absent weight means 1; no such backend means 0. */
  function WeightOf(backends: seq<BackendRef>, name: string): int {
    if backends == [] then 0
    else
      var last := backends[|backends| - 1];
      if last.name == name then (if last.weight.Some? then last.weight.value else 1)
      else WeightOf(backends[..|backends| - 1], name)
  }

  function ReadSplit(backends: seq<BackendRef>, t: Target): Split {
    Split(WeightOf(backends, t.incumbent), if t.candidate == t.incumbent then 0 else WeightOf(backends, t.candidate))
  }

  predicate MirrorsTo(f: Filter, candidate: string) { f.Mirror? && f.backend == candidate }

  function ViewOf(rule: Rule, t: Target): View {
    View(ReadSplit(rule.backends, t), if exists f :: f in rule.filters && MirrorsTo(f, t.candidate) then 100 else 0)
  }

  // ---- Editing ----

  function LastNamed(backends: seq<BackendRef>, name: string): Option<BackendRef> {
    if backends == [] then None
    else if backends[|backends| - 1].name == name then Some(backends[|backends| - 1])
    else LastNamed(backends[..|backends| - 1], name)
  }

  /** Conversion to a 32-bit integer wraps. */
  function Int32(x: int): int { (x + 0x8000_0000) % 0x1_0000_0000 - 0x8000_0000 }

  function Reweighted(rule: Rule, t: Target, s: Split): Result<Rule> {
    var incumbent, candidate := LastNamed(rule.backends, t.incumbent), LastNamed(rule.backends, t.candidate);
    if s.Valid() && incumbent.Some? && candidate.Some?
    then Ok(rule.(backends := [incumbent.value.(weight := Some(Int32(s.incumbent))),
                               candidate.value.(weight := Some(Int32(s.candidate)))]))
    else Err
  }

  function WithoutMirror(filters: seq<Filter>, candidate: string): seq<Filter> {
    if filters == [] then []
    else
      var last := filters[|filters| - 1];
      WithoutMirror(filters[..|filters| - 1], candidate) + (if MirrorsTo(last, candidate) then [] else [last])
  }

  function FirstNamed(backends: seq<BackendRef>, name: string): Option<BackendRef> {
    if backends == [] then None
    else if backends[0].name == name then Some(backends[0])
    else FirstNamed(backends[1..], name)
  }

  /** A rule is mirrored whole or not at all, to the port its candidate backend already has. */
  function Mirrored(rule: Rule, t: Target, percent: int): Result<Rule> {
    var filters := WithoutMirror(rule.filters, t.candidate);
    var backend := FirstNamed(rule.backends, t.candidate);
    if percent == 0 then Ok(rule.(filters := filters))
    else if percent == 100 && backend.Some? && backend.value.port.Some? then
      Ok(rule.(filters := filters + [Mirror(t.candidate, backend.value.port)]))
    else Err
  }

  /** The route object in the cluster. `getOk` and `updateOk` say whether the API server answered. */
  class GatewayAPI {
    var rules: seq<Rule>

    method SetSplit(t: Target, s: Split, getOk: bool, updateOk: bool) returns (ok: bool)
      modifies this
      ensures ok <==> getOk && updateOk && old(rules) != [] && Reweighted(old(rules)[0], t, s).Ok?
      ensures rules == if ok then old(rules)[0 := Reweighted(old(rules)[0], t, s).value] else old(rules)
    {
      if !s.Valid() || !getOk {
        return false;
      }
      var route := rules;
      if |route| == 0 {
        return false;
      }
      var rule := route[0];
      var existing: map<string, BackendRef> := map[];
      for i := 0 to |rule.backends|
        invariant forall name :: name in existing <==> LastNamed(rule.backends[..i], name).Some?
        invariant forall name :: name in existing ==> existing[name] == LastNamed(rule.backends[..i], name).value
      {
        assert rule.backends[..i + 1][..i] == rule.backends[..i];
        existing := existing[rule.backends[i].name := rule.backends[i]];
      }
      assert rule.backends[..|rule.backends|] == rule.backends;
      if t.incumbent !in existing || t.candidate !in existing {
        return false;
      }
      rule := rule.(backends := [existing[t.incumbent].(weight := Some(Int32(s.incumbent))),
                                 existing[t.candidate].(weight := Some(Int32(s.candidate)))]);
      route := route[0 := rule];
      if !updateOk {
        return false;
      }
      rules := route;
      return true;
    }

    method ReadBack(t: Target, getOk: bool) returns (r: Result<Split>)
      ensures r == if getOk && rules != [] then Ok(ReadSplit(rules[0].backends, t)) else Err
    {
      if !getOk || |rules| == 0 {
        return Err;
      }
      var backends := rules[0].backends;
      var split := Split(0, 0);
      for i := 0 to |backends|
        invariant split == ReadSplit(backends[..i], t)
      {
        assert backends[..i + 1][..i] == backends[..i];
        var weight := 1;
        if backends[i].weight.Some? {
          weight := backends[i].weight.value;
        }
        if backends[i].name == t.incumbent {
          split := split.(incumbent := weight);
        } else if backends[i].name == t.candidate {
          split := split.(candidate := weight);
        }
      }
      assert backends[..|backends|] == backends;
      return Ok(split);
    }

    method SetMirror(t: Target, percent: int, getOk: bool, updateOk: bool) returns (ok: bool)
      modifies this
      ensures ok <==> getOk && updateOk && old(rules) != [] && Mirrored(old(rules)[0], t, percent).Ok?
      ensures rules == if ok then old(rules)[0 := Mirrored(old(rules)[0], t, percent).value] else old(rules)
    {
      if (percent != 0 && percent != 100) || !getOk || |rules| == 0 {
        return false;
      }
      var route := rules;
      var rule := route[0];
      var filters: seq<Filter> := [];
      for i := 0 to |rule.filters|
        invariant filters == WithoutMirror(rule.filters[..i], t.candidate)
      {
        assert rule.filters[..i + 1][..i] == rule.filters[..i];
        if !MirrorsTo(rule.filters[i], t.candidate) {
          filters := filters + [rule.filters[i]];
        }
      }
      assert rule.filters[..|rule.filters|] == rule.filters;
      if percent == 100 {
        var port := CandidatePort(rule, t);
        if port.None? {
          return false;
        }
        filters := filters + [Mirror(t.candidate, port)];
      }
      if !updateOk {
        return false;
      }
      rules := route[0 := rule.(filters := filters)];
      return true;
    }
  }

  method CandidatePort(rule: Rule, t: Target) returns (port: Option<int>)
    ensures var backend := FirstNamed(rule.backends, t.candidate);
            port == if backend.Some? then backend.value.port else None
  {
    for i := 0 to |rule.backends|
      invariant FirstNamed(rule.backends, t.candidate) == FirstNamed(rule.backends[i..], t.candidate)
    {
      assert rule.backends[i..][1..] == rule.backends[i + 1..];
      if rule.backends[i].name == t.candidate {
        return rule.backends[i].port;
      }
    }
    return None;
  }

  // ---- The two edits seen through the abstract router ----

  lemma {:induction false} LastNamedHasName(backends: seq<BackendRef>, name: string)
    ensures LastNamed(backends, name).Some? ==>
              LastNamed(backends, name).value.name == name && LastNamed(backends, name).value in backends
  {
    if backends != [] {
      LastNamedHasName(backends[..|backends| - 1], name);
    }
  }

  ghost predicate InRange(s: Split) {
    s.incumbent < 0x8000_0000 && s.candidate < 0x8000_0000
  }

  /** After a successful reweighting the mirror is untouched, and the split read back is the one written exactly
      when the two backends have different names. */
  lemma SplitReadsBack(rule: Rule, t: Target, s: Split)
    requires Reweighted(rule, t, s).Ok? && InRange(s)
    ensures var rule' := Reweighted(rule, t, s).value;
            && ViewOf(rule', t).mirror == ViewOf(rule, t).mirror
            && (ViewOf(rule', t).split == s <==> t.incumbent != t.candidate)
  {
    LastNamedHasName(rule.backends, t.incumbent);
    LastNamedHasName(rule.backends, t.candidate);
    var backends := Reweighted(rule, t, s).value.backends;
    assert backends[0].name == t.incumbent && backends[1].name == t.candidate;
    assert backends[0].weight == Some(s.incumbent) && backends[1].weight == Some(s.candidate);
    assert |backends| == 2 && backends[..1] == [backends[0]];
    assert WeightOf(backends, t.candidate) == s.candidate;
    assert t.incumbent != t.candidate ==> WeightOf(backends, t.incumbent) == WeightOf([backends[0]], t.incumbent);
  }

  /** Backend i has the name, and no later one does. */
  ghost predicate LastOf(backends: seq<BackendRef>, name: string, i: int) {
    0 <= i < |backends| && backends[i].name == name && forall j :: i < j < |backends| ==> backends[j].name != name
  }

  lemma {:induction false} LastNamedMeaning(backends: seq<BackendRef>, name: string)
    ensures LastNamed(backends, name) == None <==> forall i :: 0 <= i < |backends| ==> backends[i].name != name
    ensures LastNamed(backends, name).Some? ==> exists i :: LastOf(backends, name, i) && LastNamed(backends, name).value == backends[i]
  {
    if backends != [] {
      var n := |backends| - 1;
      LastNamedMeaning(backends[..n], name);
      if backends[n].name == name {
        assert LastOf(backends, name, n);
      } else if LastNamed(backends, name).Some? {
        var i :| LastOf(backends[..n], name, i) && LastNamed(backends, name).value == backends[..n][i];
        assert LastOf(backends, name, i);
      }
    }
  }

  lemma OneLast(backends: seq<BackendRef>, name: string, i: int)
    requires LastOf(backends, name, i)
    ensures LastNamed(backends, name) == Some(backends[i])
  {
    LastNamedMeaning(backends, name);
    var j :| LastOf(backends, name, j) && LastNamed(backends, name).value == backends[j];
  }

  /** The share an arm is read to have: the weight of its last backend, which is 1 when none is given, and 0 without one. Read
      for one name only, the candidate has none. */
  lemma ReadMeaning(backends: seq<BackendRef>, t: Target)
    ensures var split := ReadSplit(backends, t);
            && HasShare(backends, t.incumbent, split.incumbent)
            && (t.candidate != t.incumbent ==> HasShare(backends, t.candidate, split.candidate))
            && (t.candidate == t.incumbent ==> split.candidate == 0)
  {
    WeightMeaning(backends, t.incumbent);
    WeightMeaning(backends, t.candidate);
  }

  ghost predicate HasShare(backends: seq<BackendRef>, name: string, share: int) {
    || (exists i :: LastOf(backends, name, i) && share == if backends[i].weight.Some? then backends[i].weight.value else 1)
    || ((forall i :: 0 <= i < |backends| ==> backends[i].name != name) && share == 0)
  }

  lemma ShareKept(backends: seq<BackendRef>, name: string, share: int)
    requires |backends| > 0
    requires backends[|backends| - 1].name != name && HasShare(backends[..|backends| - 1], name, share)
    ensures HasShare(backends, name, share)
  {
    var front := backends[..|backends| - 1];
    assert forall i :: 0 <= i < |front| ==> front[i] == backends[i];
    if i :| LastOf(front, name, i) {
      assert LastOf(backends, name, i);
    }
  }

  lemma {:induction false} WeightMeaning(backends: seq<BackendRef>, name: string)
    ensures HasShare(backends, name, WeightOf(backends, name))
  {
    if backends != [] {
      var n := |backends| - 1;
      if backends[n].name == name {
        assert LastOf(backends, name, n);
      } else {
        hide HasShare;
        WeightMeaning(backends[..n], name);
        ShareKept(backends, name, WeightOf(backends, name));
      }
    }
  }

  /** A split is accepted exactly when it is one and both backends are there. */
  lemma SplitAccepted(rule: Rule, t: Target, s: Split)
    ensures Reweighted(rule, t, s).Ok? <==>
            && s.incumbent >= 0 && s.candidate >= 0 && s.incumbent + s.candidate > 0
            && (exists b :: b in rule.backends && b.name == t.incumbent) && (exists b :: b in rule.backends && b.name == t.candidate)
  {
    hide LastOf;
    LastNamedMeaning(rule.backends, t.incumbent);
    LastNamedMeaning(rule.backends, t.candidate);
    LastNamedHasName(rule.backends, t.incumbent);
    LastNamedHasName(rule.backends, t.candidate);
  }

  /** It keeps, of each of the two, the last backend of its name as the operator configured it but for the weight, and leaves
      the filters alone. */
  lemma SplitKeepsTheRest(rule: Rule, t: Target, s: Split, i: int, j: int)
    requires Reweighted(rule, t, s).Ok? && InRange(s)
    requires LastOf(rule.backends, t.incumbent, i) && LastOf(rule.backends, t.candidate, j)
    ensures Reweighted(rule, t, s).value
            == Rule([rule.backends[i].(weight := Some(s.incumbent)), rule.backends[j].(weight := Some(s.candidate))], rule.filters)
  {
    OneLast(rule.backends, t.incumbent, i);
    OneLast(rule.backends, t.candidate, j);
  }

  function BackendNames(rule: Rule): set<string> { set b | b in rule.backends :: b.name }

  /** A successful split leaves the same backends to route to exactly when the rule had no others. */
  lemma BackendsKeptExactly(rule: Rule, t: Target, s: Split)
    requires Reweighted(rule, t, s).Ok?
    ensures BackendNames(Reweighted(rule, t, s).value) == BackendNames(rule) <==>
            forall b :: b in rule.backends ==> b.name == t.incumbent || b.name == t.candidate
  {
    LastNamedHasName(rule.backends, t.incumbent);
    LastNamedHasName(rule.backends, t.candidate);
    var after := Reweighted(rule, t, s).value;
    assert after.backends[0].name == t.incumbent && after.backends[1].name == t.candidate;
    assert BackendNames(after) == {t.incumbent, t.candidate};
    if BackendNames(after) == BackendNames(rule) {
      forall b | b in rule.backends
        ensures b.name == t.incumbent || b.name == t.candidate
      {
        assert b.name in BackendNames(rule);
      }
    }
  }

  /** A third backend that took a quarter of the traffic is gone after the arms are reweighted. */
  lemma ThirdBackendDropped(t: Target, other: string) returns (rule: Rule)
    requires other != t.incumbent && other != t.candidate
    ensures WeightOf(rule.backends, other) == 25
    ensures Reweighted(rule, t, FULLY_INCUMBENT).Ok?
    ensures other !in BackendNames(Reweighted(rule, t, FULLY_INCUMBENT).value)
  {
    var inc, cand := BackendRef(t.incumbent, Some(50), None, ""), BackendRef(t.candidate, Some(25), None, "");
    var third := BackendRef(other, Some(25), None, "");
    rule := Rule([inc, cand, third], []);
    assert rule.backends[..2] == [inc, cand] && [inc, cand][..1] == [inc];
    assert LastNamed([inc], t.incumbent) == Some(inc);
    assert LastNamed([inc, cand], t.candidate) == Some(cand) && LastNamed([inc, cand], t.incumbent).Some?;
    assert LastNamed(rule.backends, t.candidate) == Some(cand) && LastNamed(rule.backends, t.incumbent).Some?;
    assert third in rule.backends;
    BackendsKeptExactly(rule, t, FULLY_INCUMBENT);
    LastNamedHasName(rule.backends, t.incumbent);
    LastNamedHasName(rule.backends, t.candidate);
  }

  function KeepsFilter(candidate: string): Filter -> bool { (f: Filter) => !MirrorsTo(f, candidate) }

  /** Every mirror to the candidate goes, and every other filter stays, in order. */
  lemma {:induction false} WithoutMirrorMeaning(filters: seq<Filter>, candidate: string, f: Filter)
    ensures f in WithoutMirror(filters, candidate) <==> f in filters && !MirrorsTo(f, candidate)
    ensures WithoutMirror(filters, candidate) == Sorting.Filter(filters, KeepsFilter(candidate))
  {
    if filters != [] {
      WithoutMirrorMeaning(filters[..|filters| - 1], candidate, f);
      assert filters == filters[..|filters| - 1] + [filters[|filters| - 1]];
      Sorting.FilterAppend(filters[..|filters| - 1], filters[|filters| - 1], KeepsFilter(candidate));
    }
  }

  /** Backend i has the name, and no earlier one does. */
  ghost predicate FirstOf(backends: seq<BackendRef>, name: string, i: int) {
    0 <= i < |backends| && backends[i].name == name && forall j :: 0 <= j < i ==> backends[j].name != name
  }

  lemma {:induction false} FirstNamedMeaning(backends: seq<BackendRef>, name: string)
    ensures FirstNamed(backends, name) == None <==> forall i :: 0 <= i < |backends| ==> backends[i].name != name
    ensures FirstNamed(backends, name).Some? ==> exists i :: FirstOf(backends, name, i) && FirstNamed(backends, name).value == backends[i]
  {
    if backends != [] {
      FirstNamedMeaning(backends[1..], name);
      if backends[0].name == name {
        assert FirstOf(backends, name, 0);
      } else if FirstNamed(backends, name).Some? {
        var i :| FirstOf(backends[1..], name, i) && FirstNamed(backends, name).value == backends[1..][i];
        assert FirstOf(backends, name, i + 1);
      }
    }
  }

  lemma OneFirst(backends: seq<BackendRef>, name: string, i: int)
    requires FirstOf(backends, name, i)
    ensures FirstNamed(backends, name) == Some(backends[i])
  {
    FirstNamedMeaning(backends, name);
    var j :| FirstOf(backends, name, j) && FirstNamed(backends, name).value == backends[j];
  }

  /** Copies can be stopped always, and sent only whole, to a candidate whose first backend names a port; they are then sent to
      that port, in one mirror behind the filters that were there. The backends stay as they were. */
  lemma MirrorKeepsTheRest(rule: Rule, t: Target, percent: int)
    ensures Mirrored(rule, t, percent).Ok? <==>
            percent == 0 || (percent == 100 && exists i :: FirstOf(rule.backends, t.candidate, i) && rule.backends[i].port.Some?)
    ensures Mirrored(rule, t, 0) == Ok(Rule(rule.backends, Sorting.Filter(rule.filters, KeepsFilter(t.candidate))))
    ensures forall i :: FirstOf(rule.backends, t.candidate, i) && rule.backends[i].port.Some? ==>
              Mirrored(rule, t, 100) == Ok(Rule(rule.backends, Sorting.Filter(rule.filters, KeepsFilter(t.candidate))
                                                               + [Mirror(t.candidate, rule.backends[i].port)]))
  {
    hide WithoutMirror, FirstNamed;
    FirstNamedMeaning(rule.backends, t.candidate);
    WithoutMirrorMeaning(rule.filters, t.candidate, OtherFilter(""));
    forall i | FirstOf(rule.backends, t.candidate, i)
      ensures FirstNamed(rule.backends, t.candidate) == Some(rule.backends[i])
    {
      OneFirst(rule.backends, t.candidate, i);
    }
  }

  /** After a successful mirror change the split is untouched, the candidate is mirrored exactly as asked, and
      every other filter is still there. */
  lemma MirrorReadsBack(rule: Rule, t: Target, percent: int)
    requires Mirrored(rule, t, percent).Ok?
    ensures var rule' := Mirrored(rule, t, percent).value;
            && ViewOf(rule', t) == ViewOf(rule, t).(mirror := percent)
            && rule'.backends == rule.backends
            && forall f :: !MirrorsTo(f, t.candidate) ==> (f in rule'.filters <==> f in rule.filters)
  {
    var rule' := Mirrored(rule, t, percent).value;
    forall f
      ensures f in WithoutMirror(rule.filters, t.candidate) <==> f in rule.filters && !MirrorsTo(f, t.candidate)
    {
      WithoutMirrorMeaning(rule.filters, t.candidate, f);
    }
    if percent == 100 {
      assert rule'.filters[|rule'.filters| - 1] in rule'.filters;
      assert MirrorsTo(rule'.filters[|rule'.filters| - 1], t.candidate);
    }
  }

  // ---- Asking twice ----

  lemma SplitTwice(rule: Rule, t: Target, s: Split)
    requires Reweighted(rule, t, s).Ok?
    ensures Reweighted(Reweighted(rule, t, s).value, t, s) == Reweighted(rule, t, s)
  {
    LastNamedHasName(rule.backends, t.incumbent);
    LastNamedHasName(rule.backends, t.candidate);
    var backends := Reweighted(rule, t, s).value.backends;
    assert |backends| == 2 && backends[..1] == [backends[0]] && backends[..1][..0] == [];
    assert LastNamed(backends, t.candidate) == Some(backends[1]);
    assert t.incumbent != t.candidate ==> LastNamed(backends, t.incumbent) == LastNamed([backends[0]], t.incumbent);
  }

  lemma MirrorTwice(rule: Rule, t: Target, percent: int)
    requires Mirrored(rule, t, percent).Ok?
    ensures Mirrored(Mirrored(rule, t, percent).value, t, percent) == Mirrored(rule, t, percent)
  {
    var kept := WithoutMirror(rule.filters, t.candidate);
    NothingLeftToDrop(rule.filters, t.candidate);
    if percent == 100 {
      var f := Mirror(t.candidate, FirstNamed(rule.backends, t.candidate).value.port);
      assert (kept + [f])[..|kept|] == kept && kept + [] == kept;
    }
  }

  lemma {:induction false} NothingLeftToDrop(filters: seq<Filter>, candidate: string)
    ensures WithoutMirror(WithoutMirror(filters, candidate), candidate) == WithoutMirror(filters, candidate)
  {
    if filters != [] {
      var front, last := filters[..|filters| - 1], filters[|filters| - 1];
      NothingLeftToDrop(front, candidate);
      var kept := WithoutMirror(front, candidate);
      assert (kept + [last])[..|kept|] == kept;
      assert kept + [] == kept;
    }
  }

  /** The weight is the one a 32-bit field holds of x. */
  predicate Holds32(x: int, weight: int) {
    -0x8000_0000 <= weight < 0x8000_0000 && (x - weight) % 0x1_0000_0000 == 0
  }

  /** A weight that does not fit in 32 bits wraps around: the split read back is the one written exactly when both weights fit. */
  lemma WideWeightsWrap(rule: Rule, t: Target, s: Split)
    requires Reweighted(rule, t, s).Ok? && t.incumbent != t.candidate
    ensures var split := ReadSplit(Reweighted(rule, t, s).value.backends, t);
            && Holds32(s.incumbent, split.incumbent) && Holds32(s.candidate, split.candidate)
            && (split == s <==> InRange(s))
  {
    hide Int32, Holds32;
    var incumbent, candidate := LastNamed(rule.backends, t.incumbent).value, LastNamed(rule.backends, t.candidate).value;
    var a, b := incumbent.(weight := Some(Int32(s.incumbent))), candidate.(weight := Some(Int32(s.candidate)));
    LastNamedHasName(rule.backends, t.incumbent);
    LastNamedHasName(rule.backends, t.candidate);
    var backends := Reweighted(rule, t, s).value.backends;
    assert backends == [a, b] && backends[..1] == [a] && [a][..0] == [];
    assert WeightOf(backends, t.candidate) == Int32(s.candidate);
    assert WeightOf(backends, t.incumbent) == WeightOf([a], t.incumbent) == Int32(s.incumbent);
    WrapsTo(s.incumbent);
    WrapsTo(s.candidate);
  }

  lemma WrapsTo(x: int)
    ensures Holds32(x, Int32(x))
    ensures 0 <= x ==> (Int32(x) == x <==> x < 0x8000_0000)
  {
  }
}

/** The router over a VirtualService's first HTTP route. */
module Istio {
  import opened Basics
  import opened Traffic

  datatype Destination = Malformed | Unblocked | Destination(subset: string, host: string, weight: Option<int>)

  datatype HttpRoute = HttpRoute(destinations: seq<Destination>, mirror: Option<string>, mirrorPercent: Option<int>)

  function NameOf(d: Destination): string
    requires d.Destination?
  {
    if d.subset != "" then d.subset else d.host
  }

  /** Every destination of the route can be named, and there is at least one. */
  predicate Readable(r: HttpRoute) {
    r.destinations != [] && forall i :: 0 <= i < |r.destinations| ==> r.destinations[i].Destination?
  }

  function WeightOf(ds: seq<Destination>, name: string): int
    requires forall i :: 0 <= i < |ds| ==> ds[i].Destination?
  {
    if ds == [] then 0
    else
      var last := ds[|ds| - 1];
      if NameOf(last) == name then (if last.weight.Some? then last.weight.value else 0)
      else WeightOf(ds[..|ds| - 1], name)
  }

  function ReadSplit(ds: seq<Destination>, t: Target): Split
    requires forall i :: 0 <= i < |ds| ==> ds[i].Destination?
  {
    Split(WeightOf(ds, t.incumbent), if t.candidate == t.incumbent then 0 else WeightOf(ds, t.candidate))
  }

  function ViewOf(r: HttpRoute, t: Target): View
    requires Readable(r)
  {
    View(ReadSplit(r.destinations, t),
         if r.mirror != Some(t.candidate) then 0 else if r.mirrorPercent.Some? then r.mirrorPercent.value else 100)
  }

  function ReweightOne(d: Destination, t: Target, s: Split): Destination
    requires d.Destination?
  {
    if NameOf(d) == t.incumbent then d.(weight := Some(s.incumbent))
    else if NameOf(d) == t.candidate then d.(weight := Some(s.candidate))
    else d
  }

  function Reweight(ds: seq<Destination>, t: Target, s: Split): seq<Destination>
    requires forall i :: 0 <= i < |ds| ==> ds[i].Destination?
  {
    seq(|ds|, i requires 0 <= i < |ds| => ReweightOne(ds[i], t, s))
  }

  predicate Named(ds: seq<Destination>, name: string)
    requires forall i :: 0 <= i < |ds| ==> ds[i].Destination?
  {
    exists i :: 0 <= i < |ds| && NameOf(ds[i]) == name
  }

  function Reweighted(r: HttpRoute, t: Target, s: Split): Result<HttpRoute> {
    if s.Valid() && Readable(r) && Named(r.destinations, t.incumbent) && Named(r.destinations, t.candidate)
    then Ok(r.(destinations := Reweight(r.destinations, t, s)))
    else Err
  }

  function Mirrored(r: HttpRoute, t: Target, percent: int): Result<HttpRoute> {
    if percent < 0 || percent > 100 then Err
    else if percent == 0 then Ok(r.(mirror := None, mirrorPercent := None))
    else Ok(r.(mirror := Some(t.candidate), mirrorPercent := Some(percent)))
  }

  class VirtualService {
    var http: seq<HttpRoute>

    /** Set the weights of the destinations that carry the split, in place, noting the names seen. */
    static method EditWeights(ds: array<Destination>, t: Target, s: Split) returns (ok: bool, seen: set<string>)
      modifies ds
      ensures ok <==> forall k :: 0 <= k < ds.Length ==> old(ds[..])[k].Destination?
      ensures ok ==> ds[..] == Reweight(old(ds[..]), t, s)
      ensures ok ==> (t.incumbent in seen <==> Named(old(ds[..]), t.incumbent))
                     && (t.candidate in seen <==> Named(old(ds[..]), t.candidate))
    {
      ghost var was := ds[..];
      seen := {};
      for i := 0 to ds.Length
        invariant forall k :: 0 <= k < i ==> was[k].Destination? && ds[k] == ReweightOne(was[k], t, s)
        invariant forall k :: i <= k < ds.Length ==> ds[k] == was[k]
        invariant t.incumbent in seen <==> exists k :: 0 <= k < i && NameOf(was[k]) == t.incumbent
        invariant t.candidate in seen <==> exists k :: 0 <= k < i && NameOf(was[k]) == t.candidate
      {
        assert ds[i] == was[i];
        if !ds[i].Destination? {
          return false, seen;
        }
        var name := NameOf(ds[i]);
        if name == t.incumbent {
          ds[i] := ds[i].(weight := Some(s.incumbent));
          seen := seen + {name};
        } else if name == t.candidate {
          ds[i] := ds[i].(weight := Some(s.candidate));
          seen := seen + {name};
        }
      }
      assert ds[..] == Reweight(was, t, s);
      return true, seen;
    }

    /** The weights are edited on a fetched copy, which is written back only if both names were seen. */
    method SetSplit(t: Target, s: Split, getOk: bool, updateOk: bool) returns (ok: bool)
      modifies this
      ensures ok <==> getOk && updateOk && old(http) != [] && Reweighted(old(http)[0], t, s).Ok?
      ensures http == if ok then old(http)[0 := Reweighted(old(http)[0], t, s).value] else old(http)
    {
      if !s.Valid() || !getOk || |http| == 0 || |http[0].destinations| == 0 {
        return false;
      }
      var fetched := http[0].destinations;
      var ds := new Destination[|fetched|](i requires 0 <= i < |fetched| => fetched[i]);
      assert ds[..] == fetched;
      var readable, seen := EditWeights(ds, t, s);
      if !readable || t.incumbent !in seen || t.candidate !in seen || !updateOk {
        return false;
      }
      http := http[0 := http[0].(destinations := ds[..])];
      return true;
    }

    method ReadBack(t: Target, getOk: bool) returns (r: Result<Split>)
      ensures r == if getOk && http != [] && Readable(http[0]) then Ok(ReadSplit(http[0].destinations, t)) else Err
    {
      if !getOk || |http| == 0 || |http[0].destinations| == 0 {
        return Err;
      }
      var ds := http[0].destinations;
      var split := Split(0, 0);
      for i := 0 to |ds|
        invariant forall k :: 0 <= k < i ==> ds[k].Destination?
        invariant split == ReadSplit(ds[..i], t)
      {
        if !ds[i].Destination? {
          return Err;
        }
        assert ds[..i + 1][..i] == ds[..i];
        var weight := 0;
        if ds[i].weight.Some? {
          weight := ds[i].weight.value;
        }
        if NameOf(ds[i]) == t.incumbent {
          split := split.(incumbent := weight);
        } else if NameOf(ds[i]) == t.candidate {
          split := split.(candidate := weight);
        }
      }
      assert ds[..|ds|] == ds;
      return Ok(split);
    }

    method SetMirror(t: Target, percent: int, getOk: bool, updateOk: bool) returns (ok: bool)
      modifies this
      ensures ok <==> getOk && updateOk && old(http) != [] && Mirrored(old(http)[0], t, percent).Ok?
      ensures http == if ok then old(http)[0 := Mirrored(old(http)[0], t, percent).value] else old(http)
    {
      if percent < 0 || percent > 100 || !getOk || |http| == 0 {
        return false;
      }
      var route := http[0];
      if percent == 0 {
        route := route.(mirror := None, mirrorPercent := None);
      } else {
        route := route.(mirror := Some(t.candidate), mirrorPercent := Some(percent));
      }
      if !updateOk {
        return false;
      }
      http := http[0 := route];
      return true;
    }
  }

  // ---- The two edits seen through the abstract router ----

  lemma ReweightKeepsName(d: Destination, t: Target, s: Split)
    requires d.Destination?
    ensures NameOf(ReweightOne(d, t, s)) == NameOf(d)
  {
  }

  lemma NamedLast(ds: seq<Destination>, name: string)
    requires ds != [] && forall i :: 0 <= i < |ds| ==> ds[i].Destination?
    ensures Named(ds, name) <==> Named(ds[..|ds| - 1], name) || NameOf(ds[|ds| - 1]) == name
  {
    hide NameOf;
    var front := ds[..|ds| - 1];
    assert forall i :: 0 <= i < |front| ==> front[i] == ds[i];
    if i :| 0 <= i < |ds| && NameOf(ds[i]) == name && i < |front| {
      assert NameOf(front[i]) == name;
    }
  }

  lemma {:induction false} WeightAfter(ds: seq<Destination>, t: Target, s: Split, name: string)
    requires forall i :: 0 <= i < |ds| ==> ds[i].Destination?
    ensures WeightOf(Reweight(ds, t, s), name) ==
            if !Named(ds, name) then 0
            else if name == t.incumbent then s.incumbent
            else if name == t.candidate then s.candidate
            else WeightOf(ds, name)
  {
    hide NameOf;
    if ds != [] {
      var front, last, after := ds[..|ds| - 1], ds[|ds| - 1], Reweight(ds, t, s);
      WeightAfter(front, t, s, name);
      assert after[..|ds| - 1] == Reweight(front, t, s) && after[|ds| - 1] == ReweightOne(last, t, s);
      ReweightKeepsName(last, t, s);
      NamedLast(ds, name);
    }
  }

  /** Position i has the last destination of that name. */
  ghost predicate LastOf(ds: seq<Destination>, name: string, i: int)
    requires forall i :: 0 <= i < |ds| ==> ds[i].Destination?
  {
    0 <= i < |ds| && NameOf(ds[i]) == name && forall j :: i < j < |ds| ==> NameOf(ds[j]) != name
  }

  ghost predicate HasShare(ds: seq<Destination>, name: string, share: int)
    requires forall i :: 0 <= i < |ds| ==> ds[i].Destination?
  {
    || (exists i :: LastOf(ds, name, i) && share == if ds[i].weight.Some? then ds[i].weight.value else 0)
    || ((forall i :: 0 <= i < |ds| ==> NameOf(ds[i]) != name) && share == 0)
  }

  lemma ShareKept(ds: seq<Destination>, name: string, share: int)
    requires |ds| > 0 && forall i :: 0 <= i < |ds| ==> ds[i].Destination?
    requires NameOf(ds[|ds| - 1]) != name && HasShare(ds[..|ds| - 1], name, share)
    ensures HasShare(ds, name, share)
  {
    var front := ds[..|ds| - 1];
    assert forall i :: 0 <= i < |front| ==> front[i] == ds[i];
    if i :| LastOf(front, name, i) {
      assert LastOf(ds, name, i);
    }
  }

  lemma {:induction false} WeightMeaning(ds: seq<Destination>, name: string)
    requires forall i :: 0 <= i < |ds| ==> ds[i].Destination?
    ensures HasShare(ds, name, WeightOf(ds, name))
  {
    if ds != [] {
      var n := |ds| - 1;
      if NameOf(ds[n]) == name {
        assert LastOf(ds, name, n);
      } else {
        hide HasShare;
        WeightMeaning(ds[..n], name);
        ShareKept(ds, name, WeightOf(ds, name));
      }
    }
  }

  /** What a route is read to carry: for each arm the weight of its last destination, which is 0 when none is given; and a mirror
      only when it goes to the candidate, then of its percentage, which is 100 when none is given. */
  lemma ReadMeaning(r: HttpRoute, t: Target)
    requires Readable(r)
    ensures var view := ViewOf(r, t);
            && HasShare(r.destinations, t.incumbent, view.split.incumbent)
            && (t.candidate != t.incumbent ==> HasShare(r.destinations, t.candidate, view.split.candidate))
            && (t.candidate == t.incumbent ==> view.split.candidate == 0)
            && (r.mirror != Some(t.candidate) ==> view.mirror == 0)
            && (r.mirror == Some(t.candidate) ==> view.mirror == (if r.mirrorPercent.Some? then r.mirrorPercent.value else 100))
  {
    hide HasShare;
    WeightMeaning(r.destinations, t.incumbent);
    WeightMeaning(r.destinations, t.candidate);
  }

  /** A split is accepted exactly when it is a split and every destination can be named, the two arms' among them. It changes the
      weights of the destinations so named, and nothing else of any. */
  lemma SplitKeepsTheRest(r: HttpRoute, t: Target, s: Split)
    ensures Reweighted(r, t, s).Ok? <==>
            && s.incumbent >= 0 && s.candidate >= 0 && s.incumbent + s.candidate > 0
            && (forall d :: d in r.destinations ==> d.Destination?)
            && (exists d :: d in r.destinations && d.Destination? && NameOf(d) == t.incumbent)
            && (exists d :: d in r.destinations && d.Destination? && NameOf(d) == t.candidate)
    ensures Reweighted(r, t, s).Ok? ==>
              var r' := Reweighted(r, t, s).value;
              && r'.mirror == r.mirror && r'.mirrorPercent == r.mirrorPercent && |r'.destinations| == |r.destinations|
              && forall i :: 0 <= i < |r.destinations| ==>
                   var name := if r.destinations[i].subset != "" then r.destinations[i].subset else r.destinations[i].host;
                   r'.destinations[i]
                   == if name == t.incumbent then r.destinations[i].(weight := Some(s.incumbent))
                      else if name == t.candidate then r.destinations[i].(weight := Some(s.candidate)) else r.destinations[i]
  {
    if Readable(r) {
      NamedIsThere(r.destinations, t.incumbent);
      NamedIsThere(r.destinations, t.candidate);
    }
  }

  lemma NamedIsThere(ds: seq<Destination>, name: string)
    requires forall i :: 0 <= i < |ds| ==> ds[i].Destination?
    ensures Named(ds, name) <==> exists d :: d in ds && d.Destination? && NameOf(d) == name
  {
  }

  /** Any share of copies can be sent, and they go to the candidate; none leaves no mirror behind. The destinations stay as they
      were. */
  lemma MirrorKeepsTheRest(r: HttpRoute, t: Target, percent: int)
    ensures Mirrored(r, t, percent).Ok? <==> 0 <= percent <= 100
    ensures Mirrored(r, t, percent).Ok? ==>
              Mirrored(r, t, percent).value
              == HttpRoute(r.destinations, if percent == 0 then None else Some(t.candidate),
                           if percent == 0 then None else Some(percent))
  {
  }

  lemma {:induction false} UnnamedWeighsNothing(ds: seq<Destination>, name: string)
    requires forall i :: 0 <= i < |ds| ==> ds[i].Destination?
    requires !Named(ds, name)
    ensures WeightOf(ds, name) == 0
  {
    if ds != [] {
      UnnamedWeighsNothing(ds[..|ds| - 1], name);
    }
  }

  /** After a successful reweighting the mirror and every other destination's weight are untouched, and the split
      read back is the one written exactly when the two names differ or the candidate's share is zero. */
  lemma SplitReadsBack(r: HttpRoute, t: Target, s: Split)
    requires Reweighted(r, t, s).Ok?
    ensures var r' := Reweighted(r, t, s).value;
            && Readable(r')
            && ViewOf(r', t).mirror == ViewOf(r, t).mirror
            && (ViewOf(r', t).split == s <==> t.incumbent != t.candidate || s.candidate == 0)
            && forall name :: name != t.incumbent && name != t.candidate ==>
                 WeightOf(r'.destinations, name) == WeightOf(r.destinations, name)
  {
    var r' := Reweighted(r, t, s).value;
    WeightAfter(r.destinations, t, s, t.incumbent);
    WeightAfter(r.destinations, t, s, t.candidate);
    forall name | name != t.incumbent && name != t.candidate
      ensures WeightOf(r'.destinations, name) == WeightOf(r.destinations, name)
    {
      WeightAfter(r.destinations, t, s, name);
      if !Named(r.destinations, name) {
        UnnamedWeighsNothing(r.destinations, name);
      }
    }
  }

  /** After a successful mirror change the split is untouched and the candidate is mirrored exactly as asked. */
  lemma MirrorReadsBack(r: HttpRoute, t: Target, percent: int)
    requires Readable(r) && Mirrored(r, t, percent).Ok?
    ensures ViewOf(Mirrored(r, t, percent).value, t) == ViewOf(r, t).(mirror := percent)
  {
  }

  lemma SplitTwice(r: HttpRoute, t: Target, s: Split)
    requires Reweighted(r, t, s).Ok?
    ensures Reweighted(Reweighted(r, t, s).value, t, s) == Reweighted(r, t, s)
  {
    var after := Reweighted(r, t, s).value;
    SplitKeepsTheRest(r, t, s);
    forall name
      ensures Named(after.destinations, name) == Named(r.destinations, name)
    {
      StillNamed(r.destinations, t, s, name);
    }
    assert Reweight(after.destinations, t, s) == after.destinations;
  }

  lemma StillNamed(ds: seq<Destination>, t: Target, s: Split, name: string)
    requires forall i :: 0 <= i < |ds| ==> ds[i].Destination?
    ensures Named(Reweight(ds, t, s), name) == Named(ds, name)
  {
    forall i | 0 <= i < |ds|
      ensures NameOf(Reweight(ds, t, s)[i]) == NameOf(ds[i])
    {
      ReweightKeepsName(ds[i], t, s);
    }
  }
}
