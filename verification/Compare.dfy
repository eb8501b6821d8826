/** Explaining what moved between two manifests (`internal/diff/compare.go`, `internal/diff/model.go`). */
module Diff {
  import opened Basics
  import opened Sorting
  import opened Classification
  import opened JsonPaths
  import opened Projection
  import opened Identity
  import opened Names

  /** In rendering order. */
  datatype Plane = Code | Model | Prompts | Tools | RetrievalPlane | Policy | Judges

  datatype Op = Changed | Added | Removed

  datatype Tag = ModelTag | InputTag | ExecTag | GateTag | SecurityTag

  datatype Change = Change(plane: Plane, element: string, field: string, op: Op, before: string, after: string,
                           tags: seq<Tag>, severity: bool)

  datatype Verdict = Identical | ProvenanceOnly | Behavioural | CrossAgent

  datatype Comparison = Comparison(verdict: Verdict, changes: seq<Change>)

  /** How numbers and string lists print; `float` is the shortest form of a number, before it is trimmed. */
  datatype Show = Show(float: real -> string, integer: int -> string, list: seq<string> -> string)

  // ---- Display ----

  function OrNone(s: string): string { if s == "" then "(none)" else s }

  function WithoutZeros(s: string): string {
    if s != "" && s[|s| - 1] == '0' then WithoutZeros(s[..|s| - 1]) else s
  }

  /** Trailing zeros are dropped, and then a trailing point. The zeros need not follow a point. */
  function Trimmed(s: string): string {
    var t := WithoutZeros(s);
    if t != "" && t[|t| - 1] == '.' then t[..|t| - 1] else t
  }

  function FloatText(show: Show, v: Option<real>): string { if v.Some? then Trimmed(show.float(v.value)) else "(unset)" }

  function IntText(show: Show, v: Option<int>): string { if v.Some? then show.integer(v.value) else "(unset)" }

  /** The first four hex digits of a long digest. */
  function Abbrev(s: string): string {
    if "sha256:" <= s && |s| > 15 then s[7..11] + "\U{2026}" else s
  }

  function AbbrevImage(ref: string): string {
    if '@' in ref then BeforeAt(ref) + "@" + Abbrev(ImageContentID(ref)) else ref
  }

  function BeforeAt(ref: string): string {
    if ref == "" || ref[0] == '@' then "" else [ref[0]] + BeforeAt(ref[1..])
  }

  function PolicyText(m: Manifest): string { if m.policy.Some? then m.policy.value else "" }

  // ---- Changes by field ----

  function Severe(tags: seq<Tag>): bool { SecurityTag in tags || GateTag in tags }

  function Scalar(plane: Plane, field: string, before: string, after: string, tags: seq<Tag>): seq<Change> {
    if before == after then []
    else [Change(plane, "", field, Changed, OrNone(before), OrNone(after), tags, Severe(tags))]
  }

  /** A moved reference to the same bytes loses its tags. */
  function CodeChanges(a: Manifest, b: Manifest): seq<Change> {
    var c := Scalar(Code, "image", AbbrevImage(a.image), AbbrevImage(b.image), [ExecTag]);
    if c != [] && ImageContentID(a.image) == ImageContentID(b.image) then [c[0].(tags := [])] else c
  }

  function ModelChanges(show: Show, a: Manifest, b: Manifest): seq<Change> {
    Scalar(Model, "provider", a.provider, b.provider, [ModelTag])
    + Scalar(Model, "id", a.modelId, b.modelId, [ModelTag])
    + Scalar(Model, "pin", a.pin, b.pin, [ModelTag])
    + Scalar(Model, "temperature", FloatText(show, a.temperature), FloatText(show, b.temperature), [ModelTag])
    + Scalar(Model, "topP", FloatText(show, a.topP), FloatText(show, b.topP), [ModelTag])
    + Scalar(Model, "topK", IntText(show, a.topK), IntText(show, b.topK), [ModelTag])
    + Scalar(Model, "maxTokens", IntText(show, a.maxTokens), IntText(show, b.maxTokens), [ModelTag])
    + Scalar(Model, "stopSequences", show.list(a.stopSequences), show.list(b.stopSequences), [ModelTag])
  }

  function RetrievalChanges(a: Manifest, b: Manifest): seq<Change> {
    Scalar(RetrievalPlane, "indexSnapshot", RetrievalOf(a).indexSnapshot, RetrievalOf(b).indexSnapshot, [InputTag])
    + Scalar(RetrievalPlane, "embeddingModel", RetrievalOf(a).embeddingModel, RetrievalOf(b).embeddingModel, [InputTag])
  }

  function PolicyChanges(a: Manifest, b: Manifest): seq<Change> {
    Scalar(Policy, "bundleDigest", Abbrev(PolicyText(a)), Abbrev(PolicyText(b)), [ExecTag, SecurityTag])
  }

  // ---- Changes by name ----

  function PromptChange(n: string, x: Option<Prompt>, y: Option<Prompt>): seq<Change> {
    match (x, y)
    case (None, None) => []
    case (None, Some(q)) => [Change(Prompts, n, "", Added, "", Abbrev(q.digest), [InputTag], false)]
    case (Some(p), None) => [Change(Prompts, n, "", Removed, Abbrev(p.digest), "", [InputTag], false)]
    case (Some(p), Some(q)) =>
      (if p.digest != q.digest
       then [Change(Prompts, n, "", Changed, Abbrev(p.digest), Abbrev(q.digest), [InputTag], false)] else [])
      + (if p.source != q.source
         then [Change(Prompts, n, "source", Changed, OrNone(p.source), OrNone(q.source), [], false)] else [])
  }

  /** Effects by blast radius; an unknown one ranks lowest. */
  function EffectRank(effect: string): nat {
    if effect == "idempotent-write" then 1 else if effect == "write" then 2 else 0
  }

  function ToolChange(n: string, x: Option<ToolRef>, y: Option<ToolRef>): seq<Change> {
    match (x, y)
    case (None, None) => []
    case (None, Some(u)) =>
      var tags := if EffectRank(u.effect) > 0 then [InputTag, SecurityTag] else [InputTag];
      [Change(Tools, n, "", Added, "", "", tags, Severe(tags))]
    case (Some(t), None) => [Change(Tools, n, "", Removed, "", "", [InputTag], false)]
    case (Some(t), Some(u)) =>
      (if t.contractDigest != u.contractDigest
       then [Change(Tools, n, "contract", Changed, Abbrev(t.contractDigest), Abbrev(u.contractDigest), [InputTag, SecurityTag], true)]
       else [])
      + (if t.effect != u.effect then [EffectChange(n, t, u)] else [])
      + (if t.server != u.server
         then [Change(Tools, n, "server", Changed, OrNone(t.server), OrNone(u.server), [ExecTag, SecurityTag], true)] else [])
      + (if t.replayPolicy != u.replayPolicy
         then [Change(Tools, n, "replayPolicy", Changed, OrNone(t.replayPolicy), OrNone(u.replayPolicy), [ExecTag], false)] else [])
  }

  function EffectChange(n: string, t: ToolRef, u: ToolRef): Change {
    var widened := EffectRank(u.effect) > EffectRank(t.effect);
    Change(Tools, n, "effect", Changed, OrNone(t.effect), OrNone(u.effect),
           if widened then [ExecTag, SecurityTag] else [ExecTag], widened)
  }

  /** The judge moved and its agreement with people was not measured since. */
  predicate StaleCalibration(j: Judge, k: Judge) {
    var before, after := CalibrationOf(j).measuredAt, CalibrationOf(k).measuredAt;
    after.None? || (before.Some? && after.value.nanoseconds <= before.value.nanoseconds)
  }

  function KappaText(show: Show, j: Judge): string {
    if j.calibration.Some? then FloatText(show, j.calibration.value.kappa) else "(none)"
  }

  function JudgeChange(show: Show, n: string, x: Option<Judge>, y: Option<Judge>): seq<Change> {
    match (x, y)
    case (None, None) => []
    case (None, Some(k)) => [Change(Judges, n, "", Added, "", "", [GateTag], true)]
    case (Some(j), None) => [Change(Judges, n, "", Removed, "", "", [GateTag], true)]
    case (Some(j), Some(k)) =>
      (if j.model != k.model then [Change(Judges, n, "model", Changed, j.model, k.model, [GateTag], true)] else [])
      + (if j.rubricDigest != k.rubricDigest
         then [Change(Judges, n, "rubric", Changed, Abbrev(j.rubricDigest), Abbrev(k.rubricDigest), [GateTag], true)] else [])
      + (if j.model != k.model || j.rubricDigest != k.rubricDigest
         then if StaleCalibration(j, k) then [Change(Judges, n, "calibration", Changed, "", "", [GateTag], true)] else []
         else if KappaText(show, j) != KappaText(show, k)
         then [Change(Judges, k.name, "kappa", Changed, KappaText(show, j), KappaText(show, k), [], false)] else [])
  }

  // ---- The names both sides use ----

  function Keys<T>(xs: seq<T>, name: T -> string): seq<string> { seq(|xs|, i requires 0 <= i < |xs| => name(xs[i])) }

  /** Every name on either side, once, in order. */
  function UnionNames<T>(xs: seq<T>, ys: seq<T>, name: T -> string): seq<string> {
    Sort(Dedup(Keys(xs, name) + Keys(ys, name)), StringLeq)
  }

  function Gather(names: seq<string>, each: string -> seq<Change>): seq<Change> {
    if names == [] then [] else Gather(names[..|names| - 1], each) + each(names[|names| - 1])
  }

  function PromptAt(a: Manifest, b: Manifest): string -> seq<Change> {
    (n: string) => PromptChange(n, Named(a.prompts, PromptKey(), n), Named(b.prompts, PromptKey(), n))
  }

  function ToolAt(a: Manifest, b: Manifest): string -> seq<Change> {
    (n: string) => ToolChange(n, Named(a.tools, ToolKey(), n), Named(b.tools, ToolKey(), n))
  }

  function JudgeAt(show: Show, a: Manifest, b: Manifest): string -> seq<Change> {
    (n: string) => JudgeChange(show, n, Named(a.judges, JudgeKey(), n), Named(b.judges, JudgeKey(), n))
  }

  function PromptChanges(a: Manifest, b: Manifest): seq<Change> {
    Gather(UnionNames(a.prompts, b.prompts, PromptKey()), PromptAt(a, b))
  }

  function ToolChanges(a: Manifest, b: Manifest): seq<Change> {
    Gather(UnionNames(a.tools, b.tools, ToolKey()), ToolAt(a, b))
  }

  function JudgeChanges(show: Show, a: Manifest, b: Manifest): seq<Change> {
    Gather(UnionNames(a.judges, b.judges, JudgeKey()), JudgeAt(show, a, b))
  }

  // ---- The whole comparison ----

  function PlaneOrder(p: Plane): nat {
    match p
    case Code => 0 case Model => 1 case Prompts => 2 case Tools => 3 case RetrievalPlane => 4 case Policy => 5 case Judges => 6
  }

  predicate RendersBefore(c: Change, d: Change) {
    PlaneOrder(c.plane) < PlaneOrder(d.plane) || (c.plane == d.plane && StringLeq(c.element, d.element))
  }

  function AllChanges(show: Show, a: Manifest, b: Manifest): seq<Change> {
    CodeChanges(a, b) + ModelChanges(show, a, b) + PromptChanges(a, b) + ToolChanges(a, b)
    + RetrievalChanges(a, b) + PolicyChanges(a, b) + JudgeChanges(show, a, b)
  }

  function ComparisonOf(show: Show, digest: map<Key, Json> -> string, a: Manifest, b: Manifest, crossAgent: bool): Comparison {
    if a.agent != b.agent && !crossAgent then Comparison(CrossAgent, [])
    else
      var behavior := digest(ProjectionOf(a, Behavior)) == digest(ProjectionOf(b, Behavior));
      var content := digest(ProjectionOf(a, Content)) == digest(ProjectionOf(b, Content));
      Comparison(if behavior && content then Identical else if behavior then ProvenanceOnly else Behavioural,
                 Sort(AllChanges(show, a, b), RendersBefore))
  }

  predicate ReachesModel(c: Change) { InputTag in c.tags || ModelTag in c.tags }

  predicate MovesGate(c: Change) { GateTag in c.tags }

  lemma RenderingIsOrder()
    ensures TotalPreorder(RendersBefore)
  {
    forall a, b
      ensures RendersBefore(a, b) || RendersBefore(b, a)
    {
      StringLeqTotal(a.element, b.element);
    }
    forall a, b, c | RendersBefore(a, b) && RendersBefore(b, c)
      ensures RendersBefore(a, c)
    {
      if a.plane == b.plane == c.plane {
        StringLeqTransitive(a.element, b.element, c.element);
      }
    }
  }

  function OfElement(plane: Plane, element: string): Change -> bool {
    (c: Change) => c.plane == plane && c.element == element
  }

  /** Changes are listed by plane and then element, and the fields of one element keep the order they were found in. */
  lemma ListedInOrder(show: Show, digest: map<Key, Json> -> string, a: Manifest, b: Manifest, plane: Plane, element: string)
    ensures var r := ComparisonOf(show, digest, a, b, true);
            && SortedBy(r.changes, RendersBefore)
            && Filter(r.changes, OfElement(plane, element)) == Filter(AllChanges(show, a, b), OfElement(plane, element))
  {
    RenderingIsOrder();
    SortSorts(AllChanges(show, a, b), RendersBefore);
    StringLeqTotal(element, element);
    SortStable(AllChanges(show, a, b), RendersBefore, OfElement(plane, element));
  }

  // ---- What gets a tag ----

  /** Nothing about the change says the agent may behave, or be scored, differently. */
  predicate Quiet(c: Change) { c.tags == [] && !c.severity }

  ghost predicate AllQuiet(s: seq<Change>) { forall c :: c in s ==> Quiet(c) }

  lemma QuietAppend(s: seq<Change>, t: seq<Change>)
    ensures AllQuiet(s + t) <==> AllQuiet(s) && AllQuiet(t)
  {
    forall c
      ensures c in s + t <==> c in s || c in t
    {
    }
  }

  lemma ScalarQuiet(plane: Plane, field: string, before: string, after: string, tags: seq<Tag>)
    requires tags != []
    ensures AllQuiet(Scalar(plane, field, before, after, tags)) <==> before == after
  {
    if before != after {
      assert Scalar(plane, field, before, after, tags)[0] in Scalar(plane, field, before, after, tags);
    }
  }

  lemma CodeQuiet(a: Manifest, b: Manifest)
    ensures AllQuiet(CodeChanges(a, b)) <==>
            AbbrevImage(a.image) == AbbrevImage(b.image) || ImageContentID(a.image) == ImageContentID(b.image)
  {
    hide ImageContentID, AbbrevImage;
    if CodeChanges(a, b) != [] {
      assert CodeChanges(a, b)[0] in CodeChanges(a, b);
    }
  }

  /** The model fields whose displays agree. */
  ghost predicate ModelLooksSame(show: Show, a: Manifest, b: Manifest) {
    && a.provider == b.provider && a.modelId == b.modelId && a.pin == b.pin
    && FloatText(show, a.temperature) == FloatText(show, b.temperature)
    && FloatText(show, a.topP) == FloatText(show, b.topP)
    && IntText(show, a.topK) == IntText(show, b.topK)
    && IntText(show, a.maxTokens) == IntText(show, b.maxTokens)
    && show.list(a.stopSequences) == show.list(b.stopSequences)
  }

  lemma ModelQuiet(show: Show, a: Manifest, b: Manifest)
    ensures AllQuiet(ModelChanges(show, a, b)) <==> ModelLooksSame(show, a, b)
  {
    hide AllQuiet, Scalar, FloatText, IntText;
    var c1 := Scalar(Model, "provider", a.provider, b.provider, [ModelTag]);
    var c2 := Scalar(Model, "id", a.modelId, b.modelId, [ModelTag]);
    var c3 := Scalar(Model, "pin", a.pin, b.pin, [ModelTag]);
    var c4 := Scalar(Model, "temperature", FloatText(show, a.temperature), FloatText(show, b.temperature), [ModelTag]);
    var c5 := Scalar(Model, "topP", FloatText(show, a.topP), FloatText(show, b.topP), [ModelTag]);
    var c6 := Scalar(Model, "topK", IntText(show, a.topK), IntText(show, b.topK), [ModelTag]);
    var c7 := Scalar(Model, "maxTokens", IntText(show, a.maxTokens), IntText(show, b.maxTokens), [ModelTag]);
    var c8 := Scalar(Model, "stopSequences", show.list(a.stopSequences), show.list(b.stopSequences), [ModelTag]);
    QuietAppend(c1, c2);
    QuietAppend(c1 + c2, c3);
    QuietAppend(c1 + c2 + c3, c4);
    QuietAppend(c1 + c2 + c3 + c4, c5);
    QuietAppend(c1 + c2 + c3 + c4 + c5, c6);
    QuietAppend(c1 + c2 + c3 + c4 + c5 + c6, c7);
    QuietAppend(c1 + c2 + c3 + c4 + c5 + c6 + c7, c8);
    ScalarQuiet(Model, "provider", a.provider, b.provider, [ModelTag]);
    ScalarQuiet(Model, "id", a.modelId, b.modelId, [ModelTag]);
    ScalarQuiet(Model, "pin", a.pin, b.pin, [ModelTag]);
    ScalarQuiet(Model, "temperature", FloatText(show, a.temperature), FloatText(show, b.temperature), [ModelTag]);
    ScalarQuiet(Model, "topP", FloatText(show, a.topP), FloatText(show, b.topP), [ModelTag]);
    ScalarQuiet(Model, "topK", IntText(show, a.topK), IntText(show, b.topK), [ModelTag]);
    ScalarQuiet(Model, "maxTokens", IntText(show, a.maxTokens), IntText(show, b.maxTokens), [ModelTag]);
    ScalarQuiet(Model, "stopSequences", show.list(a.stopSequences), show.list(b.stopSequences), [ModelTag]);
  }

  lemma ContextQuiet(a: Manifest, b: Manifest)
    ensures AllQuiet(RetrievalChanges(a, b)) <==> RetrievalOf(a) == RetrievalOf(b)
    ensures AllQuiet(PolicyChanges(a, b)) <==> Abbrev(PolicyText(a)) == Abbrev(PolicyText(b))
  {
    hide AllQuiet, Scalar, Abbrev, PolicyText, RetrievalOf;
    var r, s := RetrievalOf(a), RetrievalOf(b);
    QuietAppend(Scalar(RetrievalPlane, "indexSnapshot", r.indexSnapshot, s.indexSnapshot, [InputTag]),
                Scalar(RetrievalPlane, "embeddingModel", r.embeddingModel, s.embeddingModel, [InputTag]));
    ScalarQuiet(RetrievalPlane, "indexSnapshot", r.indexSnapshot, s.indexSnapshot, [InputTag]);
    ScalarQuiet(RetrievalPlane, "embeddingModel", r.embeddingModel, s.embeddingModel, [InputTag]);
    ScalarQuiet(Policy, "bundleDigest", Abbrev(PolicyText(a)), Abbrev(PolicyText(b)), [ExecTag, SecurityTag]);
  }

  lemma {:induction false} GatherQuiet(names: seq<string>, each: string -> seq<Change>)
    ensures AllQuiet(Gather(names, each)) <==> forall n :: n in names ==> AllQuiet(each(n))
  {
    if names != [] {
      var front, last := names[..|names| - 1], names[|names| - 1];
      GatherQuiet(front, each);
      QuietAppend(Gather(front, each), each(last));
      assert names == front + [last];
    }
  }

  lemma {:induction false} NamedIffKey<T>(xs: seq<T>, name: T -> string, n: string)
    ensures Named(xs, name, n).Some? <==> n in Keys(xs, name)
  {
    if xs != [] {
      NamedIffKey(xs[1..], name, n);
      assert Keys(xs, name) == [name(xs[0])] + Keys(xs[1..], name);
    }
  }

  lemma UnionMembers<T>(xs: seq<T>, ys: seq<T>, name: T -> string, n: string)
    ensures n in UnionNames(xs, ys, name) <==> Named(xs, name, n).Some? || Named(ys, name, n).Some?
  {
    NamedIffKey(xs, name, n);
    NamedIffKey(ys, name, n);
    DedupKeeps(Keys(xs, name) + Keys(ys, name));
    SortMembers(Dedup(Keys(xs, name) + Keys(ys, name)), StringLeq, n);
  }

  lemma PromptQuiet(n: string, x: Option<Prompt>, y: Option<Prompt>)
    ensures AllQuiet(PromptChange(n, x, y)) <==> PromptsAgree(Behavior, x, y)
  {
    hide Abbrev, OrNone;
    if PromptChange(n, x, y) != [] {
      assert PromptChange(n, x, y)[0] in PromptChange(n, x, y);
    }
  }

  lemma PromptsQuiet(a: Manifest, b: Manifest)
    ensures AllQuiet(PromptChanges(a, b)) <==> SamePrompts(Behavior, a, b)
  {
    hide PromptChange, PromptsAgree, AllQuiet, UnionNames;
    var names := UnionNames(a.prompts, b.prompts, PromptKey());
    GatherQuiet(names, PromptAt(a, b));
    forall n
      ensures (n in names ==> AllQuiet(PromptAt(a, b)(n))) <==>
              PromptsAgree(Behavior, Named(a.prompts, PromptKey(), n), Named(b.prompts, PromptKey(), n))
    {
      var x, y := Named(a.prompts, PromptKey(), n), Named(b.prompts, PromptKey(), n);
      UnionMembers(a.prompts, b.prompts, PromptKey(), n);
      PromptQuiet(n, x, y);
      PromptAbsent();
    }
  }

  lemma PromptAbsent()
    ensures PromptsAgree(Behavior, None, None)
  {
  }

  lemma ToolPieces(n: string, t: ToolRef, u: ToolRef)
    requires t.name == u.name
    ensures AllQuiet(ToolChange(n, Some(t), Some(u))) <==> t == u
  {
    hide Abbrev, OrNone, EffectRank;
    if ToolChange(n, Some(t), Some(u)) != [] {
      assert ToolChange(n, Some(t), Some(u))[0] in ToolChange(n, Some(t), Some(u));
      assert !Quiet(ToolChange(n, Some(t), Some(u))[0]);
    }
  }

  lemma ToolQuiet(n: string, x: Option<ToolRef>, y: Option<ToolRef>)
    requires (x.Some? ==> x.value.name == n) && (y.Some? ==> y.value.name == n)
    ensures AllQuiet(ToolChange(n, x, y)) <==> x == y
  {
    hide Abbrev, OrNone, EffectRank;
    if x.Some? && y.Some? {
      ToolPieces(n, x.value, y.value);
    } else if x != y {
      assert ToolChange(n, x, y)[0] in ToolChange(n, x, y);
    }
  }

  lemma ToolsQuiet(a: Manifest, b: Manifest)
    ensures AllQuiet(ToolChanges(a, b)) <==> SameTools(a, b)
  {
    hide ToolChange, AllQuiet, UnionNames;
    var names := UnionNames(a.tools, b.tools, ToolKey());
    GatherQuiet(names, ToolAt(a, b));
    forall n
      ensures (n in names ==> AllQuiet(ToolAt(a, b)(n))) <==> Named(a.tools, ToolKey(), n) == Named(b.tools, ToolKey(), n)
    {
      UnionMembers(a.tools, b.tools, ToolKey(), n);
      NamedMeaning(a.tools, ToolKey(), n);
      NamedMeaning(b.tools, ToolKey(), n);
      ToolQuiet(n, Named(a.tools, ToolKey(), n), Named(b.tools, ToolKey(), n));
    }
  }

  lemma JudgeQuiet(show: Show, n: string, x: Option<Judge>, y: Option<Judge>)
    ensures AllQuiet(JudgeChange(show, n, x, y)) <==> JudgesAgree(Behavior, x, y)
  {
    hide Abbrev, OrNone, KappaText, StaleCalibration, SameCalibration;
    if JudgeChange(show, n, x, y) != [] {
      assert JudgeChange(show, n, x, y)[0] in JudgeChange(show, n, x, y);
    }
  }

  lemma JudgesQuiet(show: Show, a: Manifest, b: Manifest)
    ensures AllQuiet(JudgeChanges(show, a, b)) <==> SameJudges(Behavior, a, b)
  {
    hide JudgeChange, JudgesAgree, AllQuiet, UnionNames;
    var names := UnionNames(a.judges, b.judges, JudgeKey());
    GatherQuiet(names, JudgeAt(show, a, b));
    forall n
      ensures (n in names ==> AllQuiet(JudgeAt(show, a, b)(n))) <==>
              JudgesAgree(Behavior, Named(a.judges, JudgeKey(), n), Named(b.judges, JudgeKey(), n))
    {
      UnionMembers(a.judges, b.judges, JudgeKey(), n);
      JudgeQuiet(show, n, Named(a.judges, JudgeKey(), n), Named(b.judges, JudgeKey(), n));
      JudgeAbsent();
    }
  }

  lemma JudgeAbsent()
    ensures JudgesAgree(Behavior, None, None)
  {
  }

  // ---- What the list of changes can be trusted for ----

  /** The manifests look the same in every behavioural field that is displayed. The agent is not displayed. */
  ghost predicate LooksSame(show: Show, a: Manifest, b: Manifest) {
    && (AbbrevImage(a.image) == AbbrevImage(b.image) || ImageContentID(a.image) == ImageContentID(b.image))
    && ModelLooksSame(show, a, b)
    && RetrievalOf(a) == RetrievalOf(b) && Abbrev(PolicyText(a)) == Abbrev(PolicyText(b))
    && SamePrompts(Behavior, a, b) && SameTools(a, b) && SameJudges(Behavior, a, b)
  }

  /** A tagged or severe change is listed exactly when some displayed behavioural field differs. */
  lemma TaggedExactly(show: Show, a: Manifest, b: Manifest)
    ensures AllQuiet(AllChanges(show, a, b)) <==> LooksSame(show, a, b)
  {
    hide AllQuiet, CodeChanges, ModelChanges, PromptChanges, ToolChanges, RetrievalChanges, PolicyChanges, JudgeChanges;
    hide SamePrompts, SameTools, SameJudges, ModelLooksSame, RetrievalOf, PolicyText, Abbrev, AbbrevImage, ImageContentID;
    var c, m, p, t := CodeChanges(a, b), ModelChanges(show, a, b), PromptChanges(a, b), ToolChanges(a, b);
    var r, q, j := RetrievalChanges(a, b), PolicyChanges(a, b), JudgeChanges(show, a, b);
    QuietAppend(c, m);
    QuietAppend(c + m, p);
    QuietAppend(c + m + p, t);
    QuietAppend(c + m + p + t, r);
    QuietAppend(c + m + p + t + r, q);
    QuietAppend(c + m + p + t + r + q, j);
    CodeQuiet(a, b);
    ModelQuiet(show, a, b);
    PromptsQuiet(a, b);
    ToolsQuiet(a, b);
    ContextQuiet(a, b);
    JudgesQuiet(show, a, b);
  }

  /** The digest does not collide on the projections of these two manifests. */
  ghost predicate TellsApart(digest: map<Key, Json> -> string, a: Manifest, b: Manifest) {
    forall scope :: digest(ProjectionOf(a, scope)) == digest(ProjectionOf(b, scope)) ==>
                      ProjectionOf(a, scope) == ProjectionOf(b, scope)
  }

  /** Equal behaviour projections look the same, whether or not names repeat. */
  lemma EqualBehaviorLooksSame(show: Show, a: Manifest, b: Manifest)
    requires ProjectionOf(a, Behavior) == ProjectionOf(b, Behavior)
    ensures LooksSame(show, a, b)
  {
    hide ProjectionOf, ModelEntries, ContextEntries, PromptItems, ToolItems, JudgeItems, Sort, RetrievalOf, Abbrev, AbbrevImage;
    hide ImageContentID, PromptsAgree, JudgesAgree;
    ProjectionByGroup(Behavior, a, b);
    ModelEntriesMeaning(Behavior, a, b);
    ContextEntriesMeaning(Behavior, a, b);
    forall n
      ensures PromptsAgree(Behavior, Named(a.prompts, PromptKey(), n), Named(b.prompts, PromptKey(), n))
      ensures Named(a.tools, ToolKey(), n) == Named(b.tools, ToolKey(), n)
      ensures JudgesAgree(Behavior, Named(a.judges, JudgeKey(), n), Named(b.judges, JudgeKey(), n))
    {
      EqualPromptItems(a, b, n);
      EqualToolItems(a, b, n);
      EqualJudgeItems(a, b, n);
    }
  }

  lemma EqualPromptItems(a: Manifest, b: Manifest, n: string)
    requires PromptItems(Behavior, Sort(a.prompts, ByName(PromptKey()))) == PromptItems(Behavior, Sort(b.prompts, ByName(PromptKey())))
    ensures PromptsAgree(Behavior, Named(a.prompts, PromptKey(), n), Named(b.prompts, PromptKey(), n))
  {
    hide PromptItem, Sort;
    forall p, q | PromptJson(Behavior)(p) == PromptJson(Behavior)(q)
      ensures p.name == q.name && p.digest == q.digest
    {
      PromptMeaning(Behavior, p, q);
    }
    forall s: seq<Prompt>
      ensures PromptItems(Behavior, s) == Items(s, PromptJson(Behavior))
    {
    }
    SortedItemsByName(a.prompts, b.prompts, PromptKey(), PromptJson(Behavior), n);
  }

  lemma EqualToolItems(a: Manifest, b: Manifest, n: string)
    requires ToolItems(Behavior, Sort(a.tools, ByName(ToolKey()))) == ToolItems(Behavior, Sort(b.tools, ByName(ToolKey())))
    ensures Named(a.tools, ToolKey(), n) == Named(b.tools, ToolKey(), n)
  {
    hide ToolItem, Sort;
    forall t, u | ToolJson(Behavior)(t) == ToolJson(Behavior)(u)
      ensures t == u
    {
      ToolMeaning(Behavior, t, u);
    }
    forall s: seq<ToolRef>
      ensures ToolItems(Behavior, s) == Items(s, ToolJson(Behavior))
    {
    }
    SortedItemsByName(a.tools, b.tools, ToolKey(), ToolJson(Behavior), n);
  }

  lemma EqualJudgeItems(a: Manifest, b: Manifest, n: string)
    requires JudgeItems(Behavior, Sort(a.judges, ByName(JudgeKey()))) == JudgeItems(Behavior, Sort(b.judges, ByName(JudgeKey())))
    ensures JudgesAgree(Behavior, Named(a.judges, JudgeKey(), n), Named(b.judges, JudgeKey(), n))
  {
    hide JudgeItem, Sort, JudgesAgree;
    JudgeNameRevealed(Behavior);
    forall s: seq<Judge>
      ensures JudgeItems(Behavior, s) == Items(s, JudgeJson(Behavior))
    {
    }
    SortedItemsByName(a.judges, b.judges, JudgeKey(), JudgeJson(Behavior), n);
    JudgeItemNamed(Behavior, a, b, n);
  }

  lemma {:induction false} QuietCounts(s: seq<Change>)
    requires AllQuiet(s)
    ensures Filter(s, ReachesModel) == [] && Filter(s, MovesGate) == []
  {
    if s != [] {
      assert s[0] in s;
      QuietCounts(s[1..]);
    }
  }

  /** An identical or provenance-only verdict comes with no change that is tagged or severe: both counts are zero. */
  lemma ProvenanceIsQuiet(show: Show, digest: map<Key, Json> -> string, a: Manifest, b: Manifest, crossAgent: bool)
    requires TellsApart(digest, a, b)
    ensures var r := ComparisonOf(show, digest, a, b, crossAgent);
            r.verdict.Identical? || r.verdict.ProvenanceOnly? ==>
              AllQuiet(r.changes) && Filter(r.changes, ReachesModel) == [] && Filter(r.changes, MovesGate) == []
  {
    hide ProjectionOf, AllChanges, Sort, LooksSame, RendersBefore;
    var r := ComparisonOf(show, digest, a, b, crossAgent);
    if r.verdict.Identical? || r.verdict.ProvenanceOnly? {
      EqualBehaviorLooksSame(show, a, b);
      TaggedExactly(show, a, b);
      forall c | c in r.changes
        ensures Quiet(c)
      {
        SortMembers(AllChanges(show, a, b), RendersBefore, c);
      }
      QuietCounts(r.changes);
    }
  }

  /** The verdict is about the manifests themselves, lists taken as sets keyed by name. */
  lemma VerdictMeaning(show: Show, digest: map<Key, Json> -> string, a: Manifest, b: Manifest, crossAgent: bool)
    requires TellsApart(digest, a, b) && UniqueNames(a) && UniqueNames(b)
    ensures match ComparisonOf(show, digest, a, b, crossAgent).verdict
            case Identical => Same(Content, a, b)
            case ProvenanceOnly => Same(Behavior, a, b) && !Same(Content, a, b)
            case Behavioural => !Same(Behavior, a, b) && (a.agent == b.agent || crossAgent)
            case CrossAgent => a.agent != b.agent && !crossAgent
  {
    hide ProjectionOf, AllChanges, Sort, Same;
    ProjectionMeaning(Behavior, a, b);
    ProjectionMeaning(Content, a, b);
    SameContentSameBehavior(a, b);
  }

  lemma SameContentSameBehavior(a: Manifest, b: Manifest)
    requires UniqueNames(a) && UniqueNames(b)
    ensures Same(Content, a, b) ==> Same(Behavior, a, b)
  {
    hide ProjectionOf, Same;
    ProjectionMeaning(Behavior, a, b);
    ProjectionMeaning(Content, a, b);
    if Same(Content, a, b) {
      ContentDeterminesBehavior(a, b);
    }
  }

  /** Two fields that display alike but are not the same. */
  ghost predicate HiddenDifference(a: Manifest, b: Manifest) {
    || a.agent != b.agent || ImageContentID(a.image) != ImageContentID(b.image) || a.policy != b.policy
    || a.temperature != b.temperature || a.topP != b.topP || a.topK != b.topK || a.maxTokens != b.maxTokens
    || a.stopSequences != b.stopSequences
  }

  /** A behavioural verdict comes with no tagged change exactly when the manifests look the same and differ in a field
      whose display hides it. */
  lemma SilentExactlyWhen(show: Show, digest: map<Key, Json> -> string, a: Manifest, b: Manifest, crossAgent: bool)
    requires TellsApart(digest, a, b) && UniqueNames(a) && UniqueNames(b)
    requires a.agent == b.agent || crossAgent
    ensures var r := ComparisonOf(show, digest, a, b, crossAgent);
            r.verdict.Behavioural? && AllQuiet(r.changes) <==> LooksSame(show, a, b) && HiddenDifference(a, b)
  {
    hide ProjectionOf, AllChanges, Sort, LooksSame, RendersBefore, Same, HiddenDifference;
    var r := ComparisonOf(show, digest, a, b, crossAgent);
    VerdictMeaning(show, digest, a, b, crossAgent);
    SameContentSameBehavior(a, b);
    TaggedExactly(show, a, b);
    forall c
      ensures c in r.changes <==> c in AllChanges(show, a, b)
    {
      SortMembers(AllChanges(show, a, b), RendersBefore, c);
    }
    if LooksSame(show, a, b) {
      LookingSameLeaves(show, a, b);
    }
  }

  lemma LookingSameLeaves(show: Show, a: Manifest, b: Manifest)
    requires LooksSame(show, a, b)
    ensures !Same(Behavior, a, b) <==> HiddenDifference(a, b)
  {
    hide Abbrev, AbbrevImage, ImageContentID, RetrievalOf, SamePrompts, SameTools, SameJudges;
  }

  /** A policy whose digest is empty is not the same as no policy, but the change list cannot show it. */
  lemma EmptyPolicyIsSilent(show: Show, digest: map<Key, Json> -> string, m: Manifest)
    requires TellsApart(digest, m.(policy := None), m.(policy := Some(""))) && UniqueNames(m)
    ensures var a, b := m.(policy := None), m.(policy := Some(""));
            ComparisonOf(show, digest, a, b, false).verdict.Behavioural? && AllQuiet(ComparisonOf(show, digest, a, b, false).changes)
  {
    hide ProjectionOf, AllChanges, Sort, RendersBefore, AbbrevImage, ImageContentID;
    var a, b := m.(policy := None), m.(policy := Some(""));
    forall n
      ensures PromptsAgree(Behavior, Named(a.prompts, PromptKey(), n), Named(b.prompts, PromptKey(), n))
      ensures JudgesAgree(Behavior, Named(a.judges, JudgeKey(), n), Named(b.judges, JudgeKey(), n))
    {
    }
    assert RetrievalOf(a) == RetrievalOf(b);
    SilentExactlyWhen(show, digest, a, b, false);
  }

  /** A temperature of 10 and one of 1 are displayed alike, so moving it from one to the other is behavioural with nothing
      tagged. */
  lemma TenIsSilent(show: Show, digest: map<Key, Json> -> string, m: Manifest)
    requires show.float(1.0) == "1" && show.float(10.0) == "10" && UniqueNames(m)
    requires TellsApart(digest, m.(temperature := Some(1.0)), m.(temperature := Some(10.0)))
    ensures var a, b := m.(temperature := Some(1.0)), m.(temperature := Some(10.0));
            ComparisonOf(show, digest, a, b, false).verdict.Behavioural? && AllQuiet(ComparisonOf(show, digest, a, b, false).changes)
  {
    hide ProjectionOf, AllChanges, Sort, RendersBefore, AbbrevImage, ImageContentID;
    var a, b := m.(temperature := Some(1.0)), m.(temperature := Some(10.0));
    assert "10"[..1] == "1";
    assert FloatText(show, a.temperature) == FloatText(show, b.temperature) == "1";
    forall n
      ensures PromptsAgree(Behavior, Named(a.prompts, PromptKey(), n), Named(b.prompts, PromptKey(), n))
      ensures JudgesAgree(Behavior, Named(a.judges, JudgeKey(), n), Named(b.judges, JudgeKey(), n))
    {
    }
    assert RetrievalOf(a) == RetrievalOf(b);
    SilentExactlyWhen(show, digest, a, b, false);
  }
}
