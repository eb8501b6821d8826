/** The comparison as it is carried out (`internal/diff/compare.go`). */
module DiffRun {
  import opened Basics
  import opened Sorting
  import opened JsonPaths
  import opened Projection
  import opened Identity
  import opened Classification
  import opened Diff
  import opened Names

  lemma {:induction false} NamedAppend<T>(xs: seq<T>, x: T, name: T -> string, n: string)
    ensures Named(xs + [x], name, n) == if name(x) == n then Some(x) else Named(xs, name, n)
  {
    if xs == [] {
      assert Named([], name, n) == None;
      assert [x][1..] == [];
    } else {
      NamedAppend(xs[1..], x, name, n);
      assert (xs + [x])[1..] == xs[1..] + [x];
    }
  }

  function At<T>(m: map<string, T>, n: string): Option<T> { if n in m then Some(m[n]) else None }

  method Index<T>(xs: seq<T>, key: T -> string) returns (m: map<string, T>)
    ensures forall n :: At(m, n) == Named(xs, key, n)
  {
    m := map[];
    for i := 0 to |xs|
      invariant forall n :: At(m, n) == Named(xs[..i], key, n)
    {
      assert xs[..i + 1] == xs[..i] + [xs[i]];
      forall n
        ensures Named(xs[..i + 1], key, n) == if key(xs[i]) == n then Some(xs[i]) else Named(xs[..i], key, n)
      {
        NamedAppend(xs[..i], xs[i], key, n);
      }
      ghost var was := m;
      m := m[key(xs[i]) := xs[i]];
      forall n
        ensures At(m, n) == Named(xs[..i + 1], key, n)
      {
        assert At(was, n) == Named(xs[..i], key, n);
      }
    }
    assert xs[..|xs|] == xs;
  }

  method Union<T>(am: map<string, T>, bm: map<string, T>, ghost xs: seq<T>, ghost ys: seq<T>, ghost name: T -> string)
    returns (out: seq<string>)
    requires forall n :: At(am, n) == Named(xs, name, n)
    requires forall n :: At(bm, n) == Named(ys, name, n)
    ensures out == UnionNames(xs, ys, name)
  {
    hide Named, UnionNames, Sort, Distinct;
    assert Distinct([]) by { NothingIsDistinct(); }
    out := AddUnseen(am.Keys, [], {});
    out := AddUnseen(bm.Keys, out, am.Keys);
    forall n
      ensures n in am.Keys + bm.Keys <==> Named(xs, name, n).Some? || Named(ys, name, n).Some?
    {
      assert At(am, n) == Named(xs, name, n) && At(bm, n) == Named(ys, name, n);
    }
    UnionIsListed(out, am.Keys + bm.Keys, xs, ys, name);
    out := Sort(out, StringLeq);
  }

  lemma UnionIsListed<T>(out: seq<string>, keys: set<string>, xs: seq<T>, ys: seq<T>, name: T -> string)
    requires Distinct(out) && forall n :: n in out <==> n in keys
    requires forall n :: n in keys <==> Named(xs, name, n).Some? || Named(ys, name, n).Some?
    ensures Sort(out, StringLeq) == UnionNames(xs, ys, name)
  {
    var s, t := Sort(out, StringLeq), UnionNames(xs, ys, name);
    StringsAreOrdered();
    SortSorts(out, StringLeq);
    SortSorts(Dedup(Keys(xs, name) + Keys(ys, name)), StringLeq);
    SortStaysDistinct(out);
    DedupKeeps(Keys(xs, name) + Keys(ys, name));
    SortStaysDistinct(Dedup(Keys(xs, name) + Keys(ys, name)));
    forall n
      ensures n in s <==> n in t
    {
      SortMembers(out, StringLeq, n);
      UnionMembers(xs, ys, name, n);
    }
    ListingIsUnique(s, t);
  }

  lemma GatherNext(names: seq<string>, i: nat, each: string -> seq<Change>)
    requires i < |names|
    ensures Gather(names[..i + 1], each) == Gather(names[..i], each) + each(names[i])
  {
    assert names[..i + 1][..i] == names[..i];
  }

  // ---- The planes ----

  method CompareCode(a: Manifest, b: Manifest) returns (out: seq<Change>)
    ensures out == CodeChanges(a, b)
  {
    hide ImageContentID, AbbrevImage;
    var c := Scalar(Code, "image", AbbrevImage(a.image), AbbrevImage(b.image), [ExecTag]);
    out := [];
    if c != [] {
      var change := c[0];
      if ImageContentID(a.image) == ImageContentID(b.image) {
        change := change.(tags := []);
      }
      out := out + [change];
    }
  }

  method ComparePrompt(name: string, x: Option<Prompt>, y: Option<Prompt>) returns (out: seq<Change>)
    requires x.Some? || y.Some?
    ensures out == PromptChange(name, x, y)
  {
    hide Abbrev, OrNone;
    out := [];
    if x.None? {
      out := out + [Change(Prompts, name, "", Added, "", Abbrev(y.value.digest), [InputTag], false)];
    } else if y.None? {
      out := out + [Change(Prompts, name, "", Removed, Abbrev(x.value.digest), "", [InputTag], false)];
    } else {
      var pa, pb := x.value, y.value;
      if pa.digest != pb.digest {
        out := out + [Change(Prompts, name, "", Changed, Abbrev(pa.digest), Abbrev(pb.digest), [InputTag], false)];
      }
      if pa.source != pb.source {
        out := out + [Change(Prompts, name, "source", Changed, OrNone(pa.source), OrNone(pb.source), [], false)];
      }
    }
  }

  method ComparePrompts(a: Manifest, b: Manifest) returns (out: seq<Change>)
    ensures out == PromptChanges(a, b)
  {
    hide UnionNames, Named, Gather, PromptChange;
    var am := Index(a.prompts, PromptKey());
    var bm := Index(b.prompts, PromptKey());
    var names := Union(am, bm, a.prompts, b.prompts, PromptKey());
    out := [];
    GatherNothing(names, PromptAt(a, b));
    for i := 0 to |names|
      invariant out == Gather(names[..i], PromptAt(a, b))
    {
      GatherNext(names, i, PromptAt(a, b));
      UnionMembers(a.prompts, b.prompts, PromptKey(), names[i]);
      var more := ComparePrompt(names[i], At(am, names[i]), At(bm, names[i]));
      out := out + more;
    }
    assert names[..|names|] == names;
  }

  lemma GatherNothing(names: seq<string>, each: string -> seq<Change>)
    ensures Gather(names[..0], each) == []
  {
  }

  method CompareTool(name: string, x: Option<ToolRef>, y: Option<ToolRef>) returns (out: seq<Change>)
    requires x.Some? || y.Some?
    ensures out == ToolChange(name, x, y)
  {
    hide Abbrev, OrNone, EffectRank;
    out := [];
    if x.None? {
      var c := Change(Tools, name, "", Added, "", "", [InputTag], false);
      if EffectRank(y.value.effect) > 0 {
        c := c.(tags := c.tags + [SecurityTag]);
        assert c.tags == [InputTag, SecurityTag];
      }
      out := out + [c.(severity := Severe(c.tags))];
    } else if y.None? {
      out := out + [Change(Tools, name, "", Removed, "", "", [InputTag], false)];
    } else {
      var ta, tb := x.value, y.value;
      if ta.contractDigest != tb.contractDigest {
        out := out + [Change(Tools, name, "contract", Changed, Abbrev(ta.contractDigest), Abbrev(tb.contractDigest),
                             [InputTag, SecurityTag], true)];
      }
      if ta.effect != tb.effect {
        var c := Change(Tools, name, "effect", Changed, OrNone(ta.effect), OrNone(tb.effect), [ExecTag], false);
        if EffectRank(tb.effect) > EffectRank(ta.effect) {
          c := c.(tags := c.tags + [SecurityTag], severity := true);
          assert c.tags == [ExecTag, SecurityTag];
        }
        assert c == EffectChange(name, ta, tb);
        out := out + [c];
      }
      if ta.server != tb.server {
        out := out + [Change(Tools, name, "server", Changed, OrNone(ta.server), OrNone(tb.server), [ExecTag, SecurityTag], true)];
      }
      if ta.replayPolicy != tb.replayPolicy {
        out := out + [Change(Tools, name, "replayPolicy", Changed, OrNone(ta.replayPolicy), OrNone(tb.replayPolicy), [ExecTag], false)];
      }
    }
  }

  method CompareTools(a: Manifest, b: Manifest) returns (out: seq<Change>)
    ensures out == ToolChanges(a, b)
  {
    hide UnionNames, Named, Gather, ToolChange;
    var am := Index(a.tools, ToolKey());
    var bm := Index(b.tools, ToolKey());
    var names := Union(am, bm, a.tools, b.tools, ToolKey());
    out := [];
    GatherNothing(names, ToolAt(a, b));
    for i := 0 to |names|
      invariant out == Gather(names[..i], ToolAt(a, b))
    {
      GatherNext(names, i, ToolAt(a, b));
      UnionMembers(a.tools, b.tools, ToolKey(), names[i]);
      var more := CompareTool(names[i], At(am, names[i]), At(bm, names[i]));
      out := out + more;
    }
    assert names[..|names|] == names;
  }

  method CompareJudge(show: Show, name: string, x: Option<Judge>, y: Option<Judge>) returns (out: seq<Change>)
    requires x.Some? || y.Some?
    ensures out == JudgeChange(show, name, x, y)
  {
    hide Abbrev, KappaText, StaleCalibration;
    out := [];
    if x.None? {
      out := out + [Change(Judges, name, "", Added, "", "", [GateTag], true)];
    } else if y.None? {
      out := out + [Change(Judges, name, "", Removed, "", "", [GateTag], true)];
    } else {
      var ja, jb := x.value, y.value;
      var judgeMoved := ja.model != jb.model || ja.rubricDigest != jb.rubricDigest;
      if ja.model != jb.model {
        out := out + [Change(Judges, name, "model", Changed, ja.model, jb.model, [GateTag], true)];
      }
      if ja.rubricDigest != jb.rubricDigest {
        out := out + [Change(Judges, name, "rubric", Changed, Abbrev(ja.rubricDigest), Abbrev(jb.rubricDigest), [GateTag], true)];
      }
      if judgeMoved {
        if StaleCalibration(ja, jb) {
          out := out + [Change(Judges, name, "calibration", Changed, "", "", [GateTag], true)];
        }
      } else if KappaText(show, ja) != KappaText(show, jb) {
        out := out + [Change(Judges, jb.name, "kappa", Changed, KappaText(show, ja), KappaText(show, jb), [], false)];
      }
    }
  }

  method CompareJudges(show: Show, a: Manifest, b: Manifest) returns (out: seq<Change>)
    ensures out == JudgeChanges(show, a, b)
  {
    hide UnionNames, Named, Gather, JudgeChange;
    var am := Index(a.judges, JudgeKey());
    var bm := Index(b.judges, JudgeKey());
    var names := Union(am, bm, a.judges, b.judges, JudgeKey());
    out := [];
    GatherNothing(names, JudgeAt(show, a, b));
    for i := 0 to |names|
      invariant out == Gather(names[..i], JudgeAt(show, a, b))
    {
      GatherNext(names, i, JudgeAt(show, a, b));
      UnionMembers(a.judges, b.judges, JudgeKey(), names[i]);
      var more := CompareJudge(show, names[i], At(am, names[i]), At(bm, names[i]));
      out := out + more;
    }
    assert names[..|names|] == names;
  }

  method Compare(show: Show, digest: map<Key, Json> -> string, a: Manifest, b: Manifest, crossAgent: bool)
    returns (r: Comparison)
    ensures r == ComparisonOf(show, digest, a, b, crossAgent)
  {
    hide ProjectionOf, ModelChanges, RetrievalChanges, PolicyChanges, CodeChanges, PromptChanges, ToolChanges, JudgeChanges, Sort;
    var pa := Project(a, Behavior);
    var ca := Project(a, Content);
    var pb := Project(b, Behavior);
    var cb := Project(b, Content);
    if a.agent != b.agent && !crossAgent {
      return Comparison(CrossAgent, []);
    }
    var code := CompareCode(a, b);
    var prompts := ComparePrompts(a, b);
    var tools := CompareTools(a, b);
    var judges := CompareJudges(show, a, b);
    var ch := code + ModelChanges(show, a, b) + prompts + tools + RetrievalChanges(a, b) + PolicyChanges(a, b) + judges;
    var verdict := Behavioural;
    if digest(pa) == digest(pb) {
      verdict := if digest(ca) == digest(cb) then Identical else ProvenanceOnly;
    }
    return Comparison(verdict, Sort(ch, RendersBefore));
  }

  method ReachModel(changes: seq<Change>) returns (n: nat)
    ensures n == |Filter(changes, ReachesModel)|
  {
    n := 0;
    for i := 0 to |changes|
      invariant n == |Filter(changes[..i], ReachesModel)|
    {
      assert changes[..i + 1] == changes[..i] + [changes[i]];
      FilterAppend(changes[..i], changes[i], ReachesModel);
      if ReachesModel(changes[i]) {
        n := n + 1;
      }
    }
    assert changes[..|changes|] == changes;
  }

  method ChangeGate(changes: seq<Change>) returns (n: nat)
    ensures n == |Filter(changes, MovesGate)|
  {
    n := 0;
    for i := 0 to |changes|
      invariant n == |Filter(changes[..i], MovesGate)|
    {
      assert changes[..i + 1] == changes[..i] + [changes[i]];
      FilterAppend(changes[..i], changes[i], MovesGate);
      if MovesGate(changes[i]) {
        n := n + 1;
      }
    }
    assert changes[..|changes|] == changes;
  }

  /** Comparing two manifests that behave the same reports nothing that reaches the model or moves the gate. */
  method CountReach(show: Show, digest: map<Key, Json> -> string, a: Manifest, b: Manifest, crossAgent: bool)
    returns (r: Comparison, model: nat, gate: nat)
    requires TellsApart(digest, a, b)
    ensures r == ComparisonOf(show, digest, a, b, crossAgent)
    ensures r.verdict.Identical? || r.verdict.ProvenanceOnly? ==> model == 0 && gate == 0
  {
    hide ProjectionOf, AllChanges, Sort;
    r := Compare(show, digest, a, b, crossAgent);
    model := ReachModel(r.changes);
    gate := ChangeGate(r.changes);
    ProvenanceIsQuiet(show, digest, a, b, crossAgent);
  }
}
