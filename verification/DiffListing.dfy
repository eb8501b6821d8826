/** Exactly which fields of which elements a comparison lists (`internal/diff/compare.go`). */
module DiffListing {
  import opened Basics
  import opened Sorting
  import opened JsonPaths
  import opened Projection
  import opened Identity
  import opened Names
  import opened Diff

  ghost predicate Lists(s: seq<Change>, plane: Plane, element: string, field: string) {
    exists c :: c in s && c.plane == plane && c.element == element && c.field == field
  }

  // ---- What differs ----

  predicate PromptDiffers(x: Option<Prompt>, y: Option<Prompt>, field: string) {
    if x.None? && y.None? then false
    else if x.None? || y.None? then field == ""
    else (field == "" && x.value.digest != y.value.digest) || (field == "source" && x.value.source != y.value.source)
  }

  predicate ToolDiffers(x: Option<ToolRef>, y: Option<ToolRef>, field: string) {
    if x.None? && y.None? then false
    else if x.None? || y.None? then field == ""
    else
      || (field == "contract" && x.value.contractDigest != y.value.contractDigest)
      || (field == "effect" && x.value.effect != y.value.effect)
      || (field == "server" && x.value.server != y.value.server)
      || (field == "replayPolicy" && x.value.replayPolicy != y.value.replayPolicy)
  }

  predicate Timed(j: Judge) { j.calibration.Some? && j.calibration.value.measuredAt.Some? }

  /** The later judge's agreement was measured, and after the earlier one's if that was measured too. */
  predicate MeasuredAgain(j: Judge, k: Judge) {
    Timed(k) && (Timed(j) ==> k.calibration.value.measuredAt.value.nanoseconds > j.calibration.value.measuredAt.value.nanoseconds)
  }

  predicate JudgeDiffers(show: Show, x: Option<Judge>, y: Option<Judge>, field: string) {
    if x.None? && y.None? then false
    else if x.None? || y.None? then field == ""
    else
      var j, k := x.value, y.value;
      var moved := j.model != k.model || j.rubricDigest != k.rubricDigest;
      || (field == "model" && j.model != k.model)
      || (field == "rubric" && j.rubricDigest != k.rubricDigest)
      || (field == "calibration" && moved && !MeasuredAgain(j, k))
      || (field == "kappa" && !moved && KappaText(show, j) != KappaText(show, k))
  }

  predicate ModelDiffers(show: Show, a: Manifest, b: Manifest, field: string) {
    || (field == "provider" && a.provider != b.provider)
    || (field == "id" && a.modelId != b.modelId)
    || (field == "pin" && a.pin != b.pin)
    || (field == "temperature" && FloatText(show, a.temperature) != FloatText(show, b.temperature))
    || (field == "topP" && FloatText(show, a.topP) != FloatText(show, b.topP))
    || (field == "topK" && IntText(show, a.topK) != IntText(show, b.topK))
    || (field == "maxTokens" && IntText(show, a.maxTokens) != IntText(show, b.maxTokens))
    || (field == "stopSequences" && show.list(a.stopSequences) != show.list(b.stopSequences))
  }

  predicate RetrievalDiffers(a: Manifest, b: Manifest, field: string) {
    || (field == "indexSnapshot" && RetrievalOf(a).indexSnapshot != RetrievalOf(b).indexSnapshot)
    || (field == "embeddingModel" && RetrievalOf(a).embeddingModel != RetrievalOf(b).embeddingModel)
  }

  /** The field of the element differs between the manifests, as far as a reader is shown it. */
  ghost predicate Differs(show: Show, a: Manifest, b: Manifest, plane: Plane, element: string, field: string) {
    match plane
    case Code => element == "" && field == "image" && AbbrevImage(a.image) != AbbrevImage(b.image)
    case Model => element == "" && ModelDiffers(show, a, b, field)
    case RetrievalPlane => element == "" && RetrievalDiffers(a, b, field)
    case Policy => element == "" && field == "bundleDigest" && Abbrev(PolicyText(a)) != Abbrev(PolicyText(b))
    case Prompts => PromptDiffers(Named(a.prompts, PromptKey(), element), Named(b.prompts, PromptKey(), element), field)
    case Tools => ToolDiffers(Named(a.tools, ToolKey(), element), Named(b.tools, ToolKey(), element), field)
    case Judges => JudgeDiffers(show, Named(a.judges, JudgeKey(), element), Named(b.judges, JudgeKey(), element), field)
  }

  // ---- Lists of changes ----

  lemma ListsAppend(s: seq<Change>, t: seq<Change>, plane: Plane, element: string, field: string)
    ensures Lists(s + t, plane, element, field) <==> Lists(s, plane, element, field) || Lists(t, plane, element, field)
  {
    if c :| c in s && c.plane == plane && c.element == element && c.field == field {
      assert c in s + t;
    }
    if c :| c in t && c.plane == plane && c.element == element && c.field == field {
      assert c in s + t;
    }
  }

  lemma ListsOne(c: Change, plane: Plane, element: string, field: string)
    ensures Lists([c], plane, element, field) <==> c.plane == plane && c.element == element && c.field == field
    ensures !Lists([], plane, element, field)
  {
    assert c in [c];
  }

  lemma ScalarLists(own: Plane, name: string, before: string, after: string, tags: seq<Tag>, plane: Plane, element: string, field: string)
    ensures Lists(Scalar(own, name, before, after, tags), plane, element, field) <==>
            before != after && plane == own && element == "" && field == name
  {
    hide Lists;
    ListsOne(Change(own, "", name, Changed, OrNone(before), OrNone(after), tags, Severe(tags)), plane, element, field);
  }

  lemma CodeLists(a: Manifest, b: Manifest, plane: Plane, element: string, field: string)
    ensures Lists(CodeChanges(a, b), plane, element, field) <==>
            plane == Code && element == "" && field == "image" && AbbrevImage(a.image) != AbbrevImage(b.image)
  {
    hide Lists, AbbrevImage, ImageContentID;
    var c := Scalar(Code, "image", AbbrevImage(a.image), AbbrevImage(b.image), [ExecTag]);
    ScalarLists(Code, "image", AbbrevImage(a.image), AbbrevImage(b.image), [ExecTag], plane, element, field);
    if c != [] {
      ListsOne(c[0].(tags := []), plane, element, field);
    }
  }

  lemma ModelLists(show: Show, a: Manifest, b: Manifest, plane: Plane, element: string, field: string)
    ensures Lists(ModelChanges(show, a, b), plane, element, field) <==> plane == Model && element == "" && ModelDiffers(show, a, b, field)
  {
    hide Lists, Scalar, FloatText, IntText;
    forall s, t
      ensures Lists(s + t, plane, element, field) <==> Lists(s, plane, element, field) || Lists(t, plane, element, field)
    {
      ListsAppend(s, t, plane, element, field);
    }
    forall name, before, after
      ensures Lists(Scalar(Model, name, before, after, [ModelTag]), plane, element, field) <==>
              before != after && plane == Model && element == "" && field == name
    {
      ScalarLists(Model, name, before, after, [ModelTag], plane, element, field);
    }
  }

  lemma ContextLists(a: Manifest, b: Manifest, plane: Plane, element: string, field: string)
    ensures Lists(RetrievalChanges(a, b), plane, element, field) <==>
            plane == RetrievalPlane && element == "" && RetrievalDiffers(a, b, field)
    ensures Lists(PolicyChanges(a, b), plane, element, field) <==>
            plane == Policy && element == "" && field == "bundleDigest" && Abbrev(PolicyText(a)) != Abbrev(PolicyText(b))
  {
    hide Lists, Scalar, Abbrev, PolicyText, RetrievalOf;
    var x, y := RetrievalOf(a), RetrievalOf(b);
    ScalarLists(RetrievalPlane, "indexSnapshot", x.indexSnapshot, y.indexSnapshot, [InputTag], plane, element, field);
    ScalarLists(RetrievalPlane, "embeddingModel", x.embeddingModel, y.embeddingModel, [InputTag], plane, element, field);
    ListsAppend(Scalar(RetrievalPlane, "indexSnapshot", x.indexSnapshot, y.indexSnapshot, [InputTag]),
                Scalar(RetrievalPlane, "embeddingModel", x.embeddingModel, y.embeddingModel, [InputTag]), plane, element, field);
    ScalarLists(Policy, "bundleDigest", Abbrev(PolicyText(a)), Abbrev(PolicyText(b)), [ExecTag, SecurityTag], plane, element, field);
  }

  lemma ListsIf(listed: bool, c: Change, plane: Plane, element: string, field: string)
    ensures Lists(if listed then [c] else [], plane, element, field) <==>
            listed && c.plane == plane && c.element == element && c.field == field
  {
    hide Lists;
    ListsOne(c, plane, element, field);
  }

  lemma PromptLists(n: string, x: Option<Prompt>, y: Option<Prompt>, plane: Plane, element: string, field: string)
    ensures Lists(PromptChange(n, x, y), plane, element, field) <==> plane == Prompts && element == n && PromptDiffers(x, y, field)
  {
    hide Lists, Abbrev, OrNone;
    if x.Some? && y.Some? {
      var p, q := x.value, y.value;
      var c1 := Change(Prompts, n, "", Changed, Abbrev(p.digest), Abbrev(q.digest), [InputTag], false);
      var c2 := Change(Prompts, n, "source", Changed, OrNone(p.source), OrNone(q.source), [], false);
      ListsIf(p.digest != q.digest, c1, plane, element, field);
      ListsIf(p.source != q.source, c2, plane, element, field);
      ListsAppend(if p.digest != q.digest then [c1] else [], if p.source != q.source then [c2] else [], plane, element, field);
    } else if x.None? && y.None? {
      ListsOne(Change(Prompts, n, "", Changed, "", "", [], false), plane, element, field);
    } else {
      ListsOne(PromptChange(n, x, y)[0], plane, element, field);
    }
  }

  lemma ToolLists(n: string, x: Option<ToolRef>, y: Option<ToolRef>, plane: Plane, element: string, field: string)
    ensures Lists(ToolChange(n, x, y), plane, element, field) <==> plane == Tools && element == n && ToolDiffers(x, y, field)
  {
    hide Lists, Abbrev, OrNone, EffectRank, Severe;
    if x.Some? && y.Some? {
      ToolPiecesListed(n, x.value, y.value, plane, element, field);
    } else if x.None? && y.None? {
      ListsOne(Change(Tools, n, "", Changed, "", "", [], false), plane, element, field);
    } else {
      ListsOne(ToolChange(n, x, y)[0], plane, element, field);
    }
  }

  lemma ToolPiecesListed(n: string, t: ToolRef, u: ToolRef, plane: Plane, element: string, field: string)
    ensures Lists(ToolChange(n, Some(t), Some(u)), plane, element, field) <==>
            plane == Tools && element == n && ToolDiffers(Some(t), Some(u), field)
  {
    hide Lists, Abbrev, OrNone, EffectRank;
    var c1 := Change(Tools, n, "contract", Changed, Abbrev(t.contractDigest), Abbrev(u.contractDigest), [InputTag, SecurityTag], true);
    var c2 := EffectChange(n, t, u);
    var c3 := Change(Tools, n, "server", Changed, OrNone(t.server), OrNone(u.server), [ExecTag, SecurityTag], true);
    var c4 := Change(Tools, n, "replayPolicy", Changed, OrNone(t.replayPolicy), OrNone(u.replayPolicy), [ExecTag], false);
    var s1 := if t.contractDigest != u.contractDigest then [c1] else [];
    var s2 := if t.effect != u.effect then [c2] else [];
    var s3 := if t.server != u.server then [c3] else [];
    var s4 := if t.replayPolicy != u.replayPolicy then [c4] else [];
    ListsIf(t.contractDigest != u.contractDigest, c1, plane, element, field);
    ListsIf(t.effect != u.effect, c2, plane, element, field);
    ListsIf(t.server != u.server, c3, plane, element, field);
    ListsIf(t.replayPolicy != u.replayPolicy, c4, plane, element, field);
    ListsAppend(s1, s2, plane, element, field);
    ListsAppend(s1 + s2, s3, plane, element, field);
    ListsAppend(s1 + s2 + s3, s4, plane, element, field);
  }

  lemma JudgeLists(show: Show, n: string, x: Option<Judge>, y: Option<Judge>, plane: Plane, element: string, field: string)
    requires y.Some? ==> y.value.name == n
    ensures Lists(JudgeChange(show, n, x, y), plane, element, field) <==> plane == Judges && element == n && JudgeDiffers(show, x, y, field)
  {
    hide Lists, Abbrev, KappaText;
    if x.Some? && y.Some? {
      JudgePiecesListed(show, n, x.value, y.value, plane, element, field);
    } else if x.None? && y.None? {
      ListsOne(Change(Judges, n, "", Changed, "", "", [], false), plane, element, field);
    } else {
      ListsOne(JudgeChange(show, n, x, y)[0], plane, element, field);
    }
  }

  lemma JudgePiecesListed(show: Show, n: string, j: Judge, k: Judge, plane: Plane, element: string, field: string)
    requires k.name == n
    ensures Lists(JudgeChange(show, n, Some(j), Some(k)), plane, element, field) <==>
            plane == Judges && element == n && JudgeDiffers(show, Some(j), Some(k), field)
  {
    hide Lists, Abbrev, KappaText;
    var moved := j.model != k.model || j.rubricDigest != k.rubricDigest;
    var c1 := Change(Judges, n, "model", Changed, j.model, k.model, [GateTag], true);
    var c2 := Change(Judges, n, "rubric", Changed, Abbrev(j.rubricDigest), Abbrev(k.rubricDigest), [GateTag], true);
    var c3 := Change(Judges, n, "calibration", Changed, "", "", [GateTag], true);
    var c4 := Change(Judges, k.name, "kappa", Changed, KappaText(show, j), KappaText(show, k), [], false);
    var s1 := if j.model != k.model then [c1] else [];
    var s2 := if j.rubricDigest != k.rubricDigest then [c2] else [];
    var s3 := if moved then (if StaleCalibration(j, k) then [c3] else [])
              else if KappaText(show, j) != KappaText(show, k) then [c4] else [];
    ListsIf(j.model != k.model, c1, plane, element, field);
    ListsIf(j.rubricDigest != k.rubricDigest, c2, plane, element, field);
    ListsIf(StaleCalibration(j, k), c3, plane, element, field);
    ListsIf(KappaText(show, j) != KappaText(show, k), c4, plane, element, field);
    ListsAppend(s1, s2, plane, element, field);
    ListsAppend(s1 + s2, s3, plane, element, field);
  }

  // ---- Elements ----

  /** Each name's changes are of that element of the plane. */
  ghost predicate OwnElement(each: string -> seq<Change>, plane: Plane) {
    forall n, c :: c in each(n) ==> c.plane == plane && c.element == n
  }

  lemma {:induction false} GatherLists(names: seq<string>, each: string -> seq<Change>, own: Plane, plane: Plane, element: string,
                                        field: string)
    requires OwnElement(each, own)
    ensures Lists(Gather(names, each), plane, element, field) <==> element in names && Lists(each(element), plane, element, field)
  {
    if names != [] {
      var front, last := names[..|names| - 1], names[|names| - 1];
      GatherLists(front, each, own, plane, element, field);
      ListsAppend(Gather(front, each), each(last), plane, element, field);
      assert names == front + [last];
    }
  }

  lemma PromptsList(a: Manifest, b: Manifest, plane: Plane, element: string, field: string)
    ensures Lists(PromptChanges(a, b), plane, element, field) <==>
            plane == Prompts
            && PromptDiffers(Named(a.prompts, PromptKey(), element), Named(b.prompts, PromptKey(), element), field)
  {
    hide Gather, UnionNames, PromptChange, Lists, Named, PromptDiffers;
    forall n, c | c in PromptAt(a, b)(n)
      ensures c.plane == Prompts && c.element == n
    {
      ListedBelongs(PromptAt(a, b)(n), c);
      PromptLists(n, Named(a.prompts, PromptKey(), n), Named(b.prompts, PromptKey(), n), c.plane, c.element, c.field);
    }
    GatherLists(UnionNames(a.prompts, b.prompts, PromptKey()), PromptAt(a, b), Prompts, plane, element, field);
    UnionMembers(a.prompts, b.prompts, PromptKey(), element);
    PromptLists(element, Named(a.prompts, PromptKey(), element), Named(b.prompts, PromptKey(), element), plane, element, field);
    NothingDiffers(field);
  }

  lemma ToolsList(a: Manifest, b: Manifest, plane: Plane, element: string, field: string)
    ensures Lists(ToolChanges(a, b), plane, element, field) <==>
            plane == Tools && ToolDiffers(Named(a.tools, ToolKey(), element), Named(b.tools, ToolKey(), element), field)
  {
    hide Gather, UnionNames, ToolChange, Lists, Named, ToolDiffers;
    forall n, c | c in ToolAt(a, b)(n)
      ensures c.plane == Tools && c.element == n
    {
      ListedBelongs(ToolAt(a, b)(n), c);
      ToolLists(n, Named(a.tools, ToolKey(), n), Named(b.tools, ToolKey(), n), c.plane, c.element, c.field);
    }
    GatherLists(UnionNames(a.tools, b.tools, ToolKey()), ToolAt(a, b), Tools, plane, element, field);
    UnionMembers(a.tools, b.tools, ToolKey(), element);
    ToolLists(element, Named(a.tools, ToolKey(), element), Named(b.tools, ToolKey(), element), plane, element, field);
    NothingDiffers(field);
  }

  lemma JudgesList(show: Show, a: Manifest, b: Manifest, plane: Plane, element: string, field: string)
    ensures Lists(JudgeChanges(show, a, b), plane, element, field) <==>
            plane == Judges
            && JudgeDiffers(show, Named(a.judges, JudgeKey(), element), Named(b.judges, JudgeKey(), element), field)
  {
    hide Gather, UnionNames, JudgeChange, Lists, Named, JudgeDiffers;
    forall n, c | c in JudgeAt(show, a, b)(n)
      ensures c.plane == Judges && c.element == n
    {
      ListedBelongs(JudgeAt(show, a, b)(n), c);
      NamedMeaning(b.judges, JudgeKey(), n);
      JudgeLists(show, n, Named(a.judges, JudgeKey(), n), Named(b.judges, JudgeKey(), n), c.plane, c.element, c.field);
    }
    GatherLists(UnionNames(a.judges, b.judges, JudgeKey()), JudgeAt(show, a, b), Judges, plane, element, field);
    UnionMembers(a.judges, b.judges, JudgeKey(), element);
    NamedMeaning(b.judges, JudgeKey(), element);
    JudgeLists(show, element, Named(a.judges, JudgeKey(), element), Named(b.judges, JudgeKey(), element), plane, element, field);
    NoJudgeDiffers(show, field);
  }

  lemma ListedBelongs(s: seq<Change>, c: Change)
    requires c in s
    ensures Lists(s, c.plane, c.element, c.field)
  {
  }

  lemma NothingDiffers(field: string)
    ensures !PromptDiffers(None, None, field) && !ToolDiffers(None, None, field)
  {
  }

  lemma NoJudgeDiffers(show: Show, field: string)
    ensures !JudgeDiffers(show, None, None, field)
  {
  }

  /** A comparison lists a field of an element exactly when it differs. A judge that moved is listed for its calibration unless it was
      measured again since; one that did not, for its agreement when that shows differently. */
  lemma ListedExactly(show: Show, digest: map<Key, Json> -> string, a: Manifest, b: Manifest, crossAgent: bool, plane: Plane,
                      element: string, field: string)
    requires a.agent == b.agent || crossAgent
    ensures Lists(ComparisonOf(show, digest, a, b, crossAgent).changes, plane, element, field) <==>
            Differs(show, a, b, plane, element, field)
  {
    hide Sort, ProjectionOf, RendersBefore, Lists, CodeChanges, ModelChanges, PromptChanges, ToolChanges, RetrievalChanges;
    hide PolicyChanges, JudgeChanges, ModelDiffers, RetrievalDiffers, PromptDiffers, ToolDiffers, JudgeDiffers, Named;
    var all := AllChanges(show, a, b);
    SortedLists(all, plane, element, field);
    CodeLists(a, b, plane, element, field);
    ModelLists(show, a, b, plane, element, field);
    ContextLists(a, b, plane, element, field);
    PromptsList(a, b, plane, element, field);
    ToolsList(a, b, plane, element, field);
    JudgesList(show, a, b, plane, element, field);
    AllLists(show, a, b, plane, element, field);
  }

  lemma SortedLists(s: seq<Change>, plane: Plane, element: string, field: string)
    ensures Lists(Sort(s, RendersBefore), plane, element, field) <==> Lists(s, plane, element, field)
  {
    hide RendersBefore;
    forall c
      ensures c in Sort(s, RendersBefore) <==> c in s
    {
      SortMembers(s, RendersBefore, c);
    }
  }

  lemma AllLists(show: Show, a: Manifest, b: Manifest, plane: Plane, element: string, field: string)
    ensures Lists(AllChanges(show, a, b), plane, element, field) <==>
            || Lists(CodeChanges(a, b), plane, element, field) || Lists(ModelChanges(show, a, b), plane, element, field)
            || Lists(PromptChanges(a, b), plane, element, field) || Lists(ToolChanges(a, b), plane, element, field)
            || Lists(RetrievalChanges(a, b), plane, element, field) || Lists(PolicyChanges(a, b), plane, element, field)
            || Lists(JudgeChanges(show, a, b), plane, element, field)
  {
    hide Lists, CodeChanges, ModelChanges, PromptChanges, ToolChanges, RetrievalChanges, PolicyChanges, JudgeChanges;
    forall s, t
      ensures Lists(s + t, plane, element, field) <==> Lists(s, plane, element, field) || Lists(t, plane, element, field)
    {
      ListsAppend(s, t, plane, element, field);
    }
  }
}
