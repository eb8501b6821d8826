/** What each tag of a comparison says about the two manifests, and what each listed change shows
    (`internal/diff/compare.go`, `internal/diff/model.go`). */
module DiffReach {
  import opened Basics
  import opened Sorting
  import opened Classification
  import opened JsonPaths
  import opened Projection
  import opened Identity
  import opened ProjectionFields
  import opened Names
  import opened Diff

  ghost predicate Tagged(s: seq<Change>, tag: Tag) { exists c :: c in s && tag in c.tags }

  lemma TaggedAppend(s: seq<Change>, t: seq<Change>, tag: Tag)
    ensures Tagged(s + t, tag) <==> Tagged(s, tag) || Tagged(t, tag)
  {
    if c :| c in s && tag in c.tags {
      assert c in s + t;
    }
    if c :| c in t && tag in c.tags {
      assert c in s + t;
    }
  }

  lemma ScalarTagged(plane: Plane, field: string, before: string, after: string, tags: seq<Tag>, tag: Tag)
    ensures Tagged(Scalar(plane, field, before, after, tags), tag) <==> before != after && tag in tags
  {
    if before != after {
      assert Scalar(plane, field, before, after, tags)[0] in Scalar(plane, field, before, after, tags);
    }
  }

  lemma {:induction false} GatherTagged(names: seq<string>, each: string -> seq<Change>, tag: Tag)
    ensures Tagged(Gather(names, each), tag) <==> exists n :: n in names && Tagged(each(n), tag)
  {
    hide Tagged;
    if names == [] {
      assert !Tagged([], tag) by { NothingTagged(tag); }
    } else {
      var front, last := names[..|names| - 1], names[|names| - 1];
      GatherTagged(front, each, tag);
      TaggedAppend(Gather(front, each), each(last), tag);
      assert names == front + [last];
    }
  }

  lemma NothingTagged(tag: Tag)
    ensures !Tagged([], tag)
  {
  }

  // ---- Code, model, retrieval and policy ----

  lemma CodeTagged(a: Manifest, b: Manifest, tag: Tag)
    ensures Tagged(CodeChanges(a, b), tag) <==>
            tag == ExecTag && AbbrevImage(a.image) != AbbrevImage(b.image) && ImageContentID(a.image) != ImageContentID(b.image)
  {
    hide AbbrevImage, ImageContentID;
    if CodeChanges(a, b) != [] {
      assert CodeChanges(a, b)[0] in CodeChanges(a, b);
    }
  }

  lemma ModelTagged(show: Show, a: Manifest, b: Manifest, tag: Tag)
    ensures Tagged(ModelChanges(show, a, b), tag) <==> tag == ModelTag && !ModelLooksSame(show, a, b)
  {
    hide Tagged, Scalar, FloatText, IntText;
    var c1 := Scalar(Model, "provider", a.provider, b.provider, [ModelTag]);
    var c2 := Scalar(Model, "id", a.modelId, b.modelId, [ModelTag]);
    var c3 := Scalar(Model, "pin", a.pin, b.pin, [ModelTag]);
    var c4 := Scalar(Model, "temperature", FloatText(show, a.temperature), FloatText(show, b.temperature), [ModelTag]);
    var c5 := Scalar(Model, "topP", FloatText(show, a.topP), FloatText(show, b.topP), [ModelTag]);
    var c6 := Scalar(Model, "topK", IntText(show, a.topK), IntText(show, b.topK), [ModelTag]);
    var c7 := Scalar(Model, "maxTokens", IntText(show, a.maxTokens), IntText(show, b.maxTokens), [ModelTag]);
    var c8 := Scalar(Model, "stopSequences", show.list(a.stopSequences), show.list(b.stopSequences), [ModelTag]);
    TaggedAppend(c1, c2, tag);
    TaggedAppend(c1 + c2, c3, tag);
    TaggedAppend(c1 + c2 + c3, c4, tag);
    TaggedAppend(c1 + c2 + c3 + c4, c5, tag);
    TaggedAppend(c1 + c2 + c3 + c4 + c5, c6, tag);
    TaggedAppend(c1 + c2 + c3 + c4 + c5 + c6, c7, tag);
    TaggedAppend(c1 + c2 + c3 + c4 + c5 + c6 + c7, c8, tag);
    ScalarTagged(Model, "provider", a.provider, b.provider, [ModelTag], tag);
    ScalarTagged(Model, "id", a.modelId, b.modelId, [ModelTag], tag);
    ScalarTagged(Model, "pin", a.pin, b.pin, [ModelTag], tag);
    ScalarTagged(Model, "temperature", FloatText(show, a.temperature), FloatText(show, b.temperature), [ModelTag], tag);
    ScalarTagged(Model, "topP", FloatText(show, a.topP), FloatText(show, b.topP), [ModelTag], tag);
    ScalarTagged(Model, "topK", IntText(show, a.topK), IntText(show, b.topK), [ModelTag], tag);
    ScalarTagged(Model, "maxTokens", IntText(show, a.maxTokens), IntText(show, b.maxTokens), [ModelTag], tag);
    ScalarTagged(Model, "stopSequences", show.list(a.stopSequences), show.list(b.stopSequences), [ModelTag], tag);
  }

  lemma ContextTagged(a: Manifest, b: Manifest, tag: Tag)
    ensures Tagged(RetrievalChanges(a, b), tag) <==> tag == InputTag && RetrievalOf(a) != RetrievalOf(b)
    ensures Tagged(PolicyChanges(a, b), tag) <==>
            (tag == ExecTag || tag == SecurityTag) && Abbrev(PolicyText(a)) != Abbrev(PolicyText(b))
  {
    hide Tagged, Scalar, Abbrev, PolicyText, RetrievalOf;
    var r, s := RetrievalOf(a), RetrievalOf(b);
    TaggedAppend(Scalar(RetrievalPlane, "indexSnapshot", r.indexSnapshot, s.indexSnapshot, [InputTag]),
                 Scalar(RetrievalPlane, "embeddingModel", r.embeddingModel, s.embeddingModel, [InputTag]), tag);
    ScalarTagged(RetrievalPlane, "indexSnapshot", r.indexSnapshot, s.indexSnapshot, [InputTag], tag);
    ScalarTagged(RetrievalPlane, "embeddingModel", r.embeddingModel, s.embeddingModel, [InputTag], tag);
    ScalarTagged(Policy, "bundleDigest", Abbrev(PolicyText(a)), Abbrev(PolicyText(b)), [ExecTag, SecurityTag], tag);
  }

  // ---- Prompts, tools and judges ----

  lemma PromptTagged(n: string, x: Option<Prompt>, y: Option<Prompt>, tag: Tag)
    ensures Tagged(PromptChange(n, x, y), tag) <==> tag == InputTag && !PromptsAgree(Behavior, x, y)
  {
    hide Abbrev, OrNone;
    if PromptChange(n, x, y) != [] {
      assert PromptChange(n, x, y)[0] in PromptChange(n, x, y);
    }
  }

  predicate CanWrite(effect: string) { effect == "write" || effect == "idempotent-write" }

  /** The tool may do more than it might before. */
  predicate Widened(before: string, after: string) {
    (CanWrite(after) && !CanWrite(before)) || (after == "write" && before == "idempotent-write")
  }

  /** What the tool's name stands for on each side, seen by what the model is told, what runs, and what it may do. */
  ghost predicate ToolMoved(x: Option<ToolRef>, y: Option<ToolRef>, tag: Tag) {
    match tag
    case InputTag => x.Some? != y.Some? || (x.Some? && y.Some? && x.value.contractDigest != y.value.contractDigest)
    case ExecTag => x.Some? && y.Some? && (x.value.effect != y.value.effect || x.value.server != y.value.server
                                           || x.value.replayPolicy != y.value.replayPolicy)
    case SecurityTag =>
      || (x.None? && y.Some? && CanWrite(y.value.effect))
      || (x.Some? && y.Some? && (x.value.contractDigest != y.value.contractDigest || x.value.server != y.value.server
                                 || Widened(x.value.effect, y.value.effect)))
    case _ => false
  }

  lemma RankMeaning(before: string, after: string)
    ensures EffectRank(after) > EffectRank(before) <==> Widened(before, after)
    ensures EffectRank(after) > 0 <==> CanWrite(after)
  {
  }

  lemma ToolTagged(n: string, x: Option<ToolRef>, y: Option<ToolRef>, tag: Tag)
    ensures Tagged(ToolChange(n, x, y), tag) <==> ToolMoved(x, y, tag)
  {
    hide Tagged, Abbrev, OrNone, EffectRank, CanWrite, Widened;
    if x.Some? && y.Some? {
      ToolPiecesTagged(n, x.value, y.value, tag);
    } else if x.Some? || y.Some? {
      if y.Some? {
        RankMeaning("", y.value.effect);
      }
      OneTagged(ToolChange(n, x, y)[0], tag);
    } else {
      NothingTagged(tag);
    }
  }

  lemma OneTagged(c: Change, tag: Tag)
    ensures Tagged([c], tag) <==> tag in c.tags
  {
    assert c in [c];
  }

  lemma ToolPiecesTagged(n: string, t: ToolRef, u: ToolRef, tag: Tag)
    ensures Tagged(ToolChange(n, Some(t), Some(u)), tag) <==> ToolMoved(Some(t), Some(u), tag)
  {
    hide Tagged, Abbrev, OrNone, EffectRank, CanWrite, Widened;
    RankMeaning(t.effect, u.effect);
    var c1 := Change(Tools, n, "contract", Changed, Abbrev(t.contractDigest), Abbrev(u.contractDigest), [InputTag, SecurityTag], true);
    var c2 := EffectChange(n, t, u);
    var c3 := Change(Tools, n, "server", Changed, OrNone(t.server), OrNone(u.server), [ExecTag, SecurityTag], true);
    var c4 := Change(Tools, n, "replayPolicy", Changed, OrNone(t.replayPolicy), OrNone(u.replayPolicy), [ExecTag], false);
    var s1 := if t.contractDigest != u.contractDigest then [c1] else [];
    var s2 := if t.effect != u.effect then [c2] else [];
    var s3 := if t.server != u.server then [c3] else [];
    var s4 := if t.replayPolicy != u.replayPolicy then [c4] else [];
    OneTagged(c1, tag);
    OneTagged(c2, tag);
    OneTagged(c3, tag);
    OneTagged(c4, tag);
    NothingTagged(tag);
    TaggedAppend(s1, s2, tag);
    TaggedAppend(s1 + s2, s3, tag);
    TaggedAppend(s1 + s2 + s3, s4, tag);
  }

  lemma JudgeTagged(show: Show, n: string, x: Option<Judge>, y: Option<Judge>, tag: Tag)
    ensures Tagged(JudgeChange(show, n, x, y), tag) <==> tag == GateTag && !JudgesAgree(Behavior, x, y)
  {
    hide Abbrev, OrNone, KappaText, StaleCalibration, SameCalibration;
    if JudgeChange(show, n, x, y) != [] {
      assert JudgeChange(show, n, x, y)[0] in JudgeChange(show, n, x, y);
    }
  }

  // ---- The whole comparison ----

  ghost predicate SomeToolMoved(a: Manifest, b: Manifest, tag: Tag) {
    exists n :: ToolMoved(Named(a.tools, ToolKey(), n), Named(b.tools, ToolKey(), n), tag)
  }

  lemma PromptsTagged(a: Manifest, b: Manifest, tag: Tag)
    ensures Tagged(PromptChanges(a, b), tag) <==> tag == InputTag && !SamePrompts(Behavior, a, b)
  {
    hide PromptChange, PromptsAgree, Tagged, UnionNames;
    var names := UnionNames(a.prompts, b.prompts, PromptKey());
    GatherTagged(names, PromptAt(a, b), tag);
    PromptAbsent();
    forall n
      ensures (n in names && Tagged(PromptAt(a, b)(n), tag)) <==>
              tag == InputTag && !PromptsAgree(Behavior, Named(a.prompts, PromptKey(), n), Named(b.prompts, PromptKey(), n))
    {
      UnionMembers(a.prompts, b.prompts, PromptKey(), n);
      PromptTagged(n, Named(a.prompts, PromptKey(), n), Named(b.prompts, PromptKey(), n), tag);
    }
  }

  lemma ToolsTagged(a: Manifest, b: Manifest, tag: Tag)
    ensures Tagged(ToolChanges(a, b), tag) <==> SomeToolMoved(a, b, tag)
  {
    hide ToolChange, Tagged, UnionNames;
    var names := UnionNames(a.tools, b.tools, ToolKey());
    GatherTagged(names, ToolAt(a, b), tag);
    forall n
      ensures (n in names && Tagged(ToolAt(a, b)(n), tag)) <==>
              ToolMoved(Named(a.tools, ToolKey(), n), Named(b.tools, ToolKey(), n), tag)
    {
      UnionMembers(a.tools, b.tools, ToolKey(), n);
      ToolTagged(n, Named(a.tools, ToolKey(), n), Named(b.tools, ToolKey(), n), tag);
    }
  }

  lemma JudgesTagged(show: Show, a: Manifest, b: Manifest, tag: Tag)
    ensures Tagged(JudgeChanges(show, a, b), tag) <==> tag == GateTag && !SameJudges(Behavior, a, b)
  {
    hide JudgeChange, JudgesAgree, Tagged, UnionNames;
    var names := UnionNames(a.judges, b.judges, JudgeKey());
    GatherTagged(names, JudgeAt(show, a, b), tag);
    JudgeAbsent();
    forall n
      ensures (n in names && Tagged(JudgeAt(show, a, b)(n), tag)) <==>
              tag == GateTag && !JudgesAgree(Behavior, Named(a.judges, JudgeKey(), n), Named(b.judges, JudgeKey(), n))
    {
      UnionMembers(a.judges, b.judges, JudgeKey(), n);
      JudgeTagged(show, n, Named(a.judges, JudgeKey(), n), Named(b.judges, JudgeKey(), n), tag);
    }
  }

  /** What has moved between the manifests, by what a tag says it touches. */
  ghost predicate Moved(show: Show, a: Manifest, b: Manifest, tag: Tag) {
    match tag
    case ModelTag => !ModelLooksSame(show, a, b)
    case InputTag => !SamePrompts(Behavior, a, b) || SomeToolMoved(a, b, InputTag) || RetrievalOf(a) != RetrievalOf(b)
    case ExecTag =>
      || (AbbrevImage(a.image) != AbbrevImage(b.image) && ImageContentID(a.image) != ImageContentID(b.image))
      || SomeToolMoved(a, b, ExecTag) || Abbrev(PolicyText(a)) != Abbrev(PolicyText(b))
    case SecurityTag => SomeToolMoved(a, b, SecurityTag) || Abbrev(PolicyText(a)) != Abbrev(PolicyText(b))
    case GateTag => !SameJudges(Behavior, a, b)
  }

  /** Some change carries the tag exactly when what the tag stands for has moved. */
  lemma TagMeaning(show: Show, a: Manifest, b: Manifest, tag: Tag)
    ensures Tagged(AllChanges(show, a, b), tag) <==> Moved(show, a, b, tag)
  {
    hide Tagged, CodeChanges, ModelChanges, PromptChanges, ToolChanges, RetrievalChanges, PolicyChanges, JudgeChanges;
    hide SamePrompts, SameJudges, ModelLooksSame, RetrievalOf, PolicyText, Abbrev, AbbrevImage, ImageContentID, SomeToolMoved;
    var c, m, p, t := CodeChanges(a, b), ModelChanges(show, a, b), PromptChanges(a, b), ToolChanges(a, b);
    var r, q, j := RetrievalChanges(a, b), PolicyChanges(a, b), JudgeChanges(show, a, b);
    TaggedAppend(c, m, tag);
    TaggedAppend(c + m, p, tag);
    TaggedAppend(c + m + p, t, tag);
    TaggedAppend(c + m + p + t, r, tag);
    TaggedAppend(c + m + p + t + r, q, tag);
    TaggedAppend(c + m + p + t + r + q, j, tag);
    CodeTagged(a, b, tag);
    ModelTagged(show, a, b, tag);
    PromptsTagged(a, b, tag);
    ToolsTagged(a, b, tag);
    ContextTagged(a, b, tag);
    JudgesTagged(show, a, b, tag);
    NoOtherTools(a, b);
  }

  lemma NoOtherTools(a: Manifest, b: Manifest)
    ensures !SomeToolMoved(a, b, ModelTag) && !SomeToolMoved(a, b, GateTag)
  {
  }

  /** A comparison that is made lists something that reaches the model exactly when the model, its prompts, what it is told of
      its tools, or its retrieval has moved; and something that moves the gate exactly when a judge has. */
  lemma ReachMeaning(show: Show, digest: map<Key, Json> -> string, a: Manifest, b: Manifest, crossAgent: bool)
    requires a.agent == b.agent || crossAgent
    ensures var changes := ComparisonOf(show, digest, a, b, crossAgent).changes;
            && ((exists c :: c in changes && ReachesModel(c)) <==> Moved(show, a, b, ModelTag) || Moved(show, a, b, InputTag))
            && ((exists c :: c in changes && MovesGate(c)) <==> Moved(show, a, b, GateTag))
  {
    hide AllChanges, Sort, Moved, ProjectionOf, RendersBefore;
    TagMeaning(show, a, b, ModelTag);
    TagMeaning(show, a, b, InputTag);
    TagMeaning(show, a, b, GateTag);
    forall c
      ensures c in ComparisonOf(show, digest, a, b, crossAgent).changes <==> c in AllChanges(show, a, b)
    {
      SortMembers(AllChanges(show, a, b), RendersBefore, c);
    }
  }

  // ---- What a change shows ----

  /** What a manifest shows of one field of one element; the empty field of a tool or a judge is the whole of it. */
  function Shown(show: Show, m: Manifest, plane: Plane, element: string, field: string): string {
    match plane
    case Code => OrNone(AbbrevImage(m.image))
    case Model =>
      OrNone(if field == "provider" then m.provider else if field == "id" then m.modelId else if field == "pin" then m.pin
             else if field == "temperature" then FloatText(show, m.temperature) else if field == "topP" then FloatText(show, m.topP)
             else if field == "topK" then IntText(show, m.topK) else if field == "maxTokens" then IntText(show, m.maxTokens)
             else show.list(m.stopSequences))
    case RetrievalPlane => OrNone(if field == "indexSnapshot" then RetrievalOf(m).indexSnapshot else RetrievalOf(m).embeddingModel)
    case Policy => OrNone(Abbrev(PolicyText(m)))
    case Prompts => ShownPrompt(Named(m.prompts, PromptKey(), element), field)
    case Tools => ShownTool(Named(m.tools, ToolKey(), element), field)
    case Judges => ShownJudge(show, Named(m.judges, JudgeKey(), element), field)
  }

  function ShownPrompt(p: Option<Prompt>, field: string): string {
    if p.None? then "" else if field == "source" then OrNone(p.value.source) else Abbrev(p.value.digest)
  }

  function ShownTool(t: Option<ToolRef>, field: string): string {
    if t.None? || field == "" then "" else if field == "contract" then Abbrev(t.value.contractDigest)
    else if field == "effect" then OrNone(t.value.effect) else if field == "server" then OrNone(t.value.server)
    else OrNone(t.value.replayPolicy)
  }

  function ShownJudge(show: Show, j: Option<Judge>, field: string): string {
    if j.None? || field == "" || field == "calibration" then "" else if field == "model" then j.value.model
    else if field == "rubric" then Abbrev(j.value.rubricDigest) else KappaText(show, j.value)
  }

  predicate Has(m: Manifest, plane: Plane, element: string) {
    match plane
    case Prompts => Named(m.prompts, PromptKey(), element).Some?
    case Tools => Named(m.tools, ToolKey(), element).Some?
    case Judges => Named(m.judges, JudgeKey(), element).Some?
    case _ => true
  }

  /** The change shows the one manifest's field and then the other's, and says on which side the element is missing. */
  ghost predicate Faithful(show: Show, a: Manifest, b: Manifest, c: Change) {
    && c.before == Shown(show, a, c.plane, c.element, c.field) && c.after == Shown(show, b, c.plane, c.element, c.field)
    && (c.op == Added <==> !Has(a, c.plane, c.element)) && (c.op == Removed <==> !Has(b, c.plane, c.element))
    && (c.severity <==> SecurityTag in c.tags || GateTag in c.tags)
  }

  lemma {:induction false} GatherMembers(names: seq<string>, each: string -> seq<Change>, c: Change)
    ensures c in Gather(names, each) ==> exists n :: n in names && c in each(n)
  {
    if names != [] {
      GatherMembers(names[..|names| - 1], each, c);
      assert names == names[..|names| - 1] + [names[|names| - 1]];
    }
  }

  lemma PromptShows(n: string, x: Option<Prompt>, y: Option<Prompt>, c: Change)
    requires c in PromptChange(n, x, y)
    ensures c.plane == Prompts && c.element == n && !c.severity && SecurityTag !in c.tags && GateTag !in c.tags
    ensures c.before == ShownPrompt(x, c.field) && c.after == ShownPrompt(y, c.field)
    ensures (c.op == Added <==> x.None?) && (c.op == Removed <==> y.None?)
  {
    hide Abbrev, OrNone;
  }

  lemma PromptFaithful(show: Show, a: Manifest, b: Manifest, n: string, c: Change)
    requires c in PromptAt(a, b)(n)
    ensures Faithful(show, a, b, c)
  {
    hide ShownPrompt, PromptChange, Named;
    PromptShows(n, Named(a.prompts, PromptKey(), n), Named(b.prompts, PromptKey(), n), c);
  }

  lemma ToolShows(n: string, x: Option<ToolRef>, y: Option<ToolRef>, c: Change)
    requires c in ToolChange(n, x, y)
    ensures c.plane == Tools && c.element == n && (c.severity <==> SecurityTag in c.tags || GateTag in c.tags)
    ensures c.before == ShownTool(x, c.field) && c.after == ShownTool(y, c.field)
    ensures (c.op == Added <==> x.None?) && (c.op == Removed <==> y.None?)
  {
    hide Abbrev, OrNone, EffectRank;
    if x.Some? && y.Some? {
      ToolPieceShows(n, x.value, y.value, c);
    }
  }

  lemma ToolPieceShows(n: string, t: ToolRef, u: ToolRef, c: Change)
    requires c in ToolChange(n, Some(t), Some(u))
    ensures c.plane == Tools && c.element == n && c.op == Changed && (c.severity <==> SecurityTag in c.tags || GateTag in c.tags)
    ensures c.before == ShownTool(Some(t), c.field) && c.after == ShownTool(Some(u), c.field)
  {
    hide Abbrev, OrNone, EffectRank, ShownTool;
    ToolFields(Some(t));
    ToolFields(Some(u));
  }

  lemma ToolFields(t: Option<ToolRef>)
    requires t.Some?
    ensures ShownTool(t, "contract") == Abbrev(t.value.contractDigest) && ShownTool(t, "effect") == OrNone(t.value.effect)
    ensures ShownTool(t, "server") == OrNone(t.value.server) && ShownTool(t, "replayPolicy") == OrNone(t.value.replayPolicy)
  {
    hide Abbrev, OrNone;
    assert |"contract"| == 8 && |"effect"| == 6 && |"server"| == 6 && |"replayPolicy"| == 12 && "effect"[0] != "server"[0];
  }

  lemma ToolFaithful(show: Show, a: Manifest, b: Manifest, n: string, c: Change)
    requires c in ToolAt(a, b)(n)
    ensures Faithful(show, a, b, c)
  {
    hide ShownTool, ToolChange, Named;
    ToolShows(n, Named(a.tools, ToolKey(), n), Named(b.tools, ToolKey(), n), c);
  }

  lemma JudgeShows(show: Show, n: string, x: Option<Judge>, y: Option<Judge>, c: Change)
    requires c in JudgeChange(show, n, x, y) && (y.Some? ==> y.value.name == n)
    ensures c.plane == Judges && c.element == n && (c.severity <==> SecurityTag in c.tags || GateTag in c.tags)
    ensures c.before == ShownJudge(show, x, c.field) && c.after == ShownJudge(show, y, c.field)
    ensures (c.op == Added <==> x.None?) && (c.op == Removed <==> y.None?)
  {
    hide Abbrev, KappaText, StaleCalibration, ShownJudge;
    JudgeFieldsShown(show, x);
    JudgeFieldsShown(show, y);
  }

  lemma JudgeFieldsShown(show: Show, j: Option<Judge>)
    ensures ShownJudge(show, j, "") == ShownJudge(show, j, "calibration") == ShownJudge(show, None, "") == ""
    ensures j.Some? ==>
              && ShownJudge(show, j, "model") == j.value.model && ShownJudge(show, j, "rubric") == Abbrev(j.value.rubricDigest)
              && ShownJudge(show, j, "kappa") == KappaText(show, j.value)
  {
    hide Abbrev, KappaText;
    assert |"calibration"| == 11 && |"model"| == 5 && |"rubric"| == 6 && |"kappa"| == 5 && "kappa"[0] != "model"[0];
  }

  lemma JudgeFaithful(show: Show, a: Manifest, b: Manifest, n: string, c: Change)
    requires c in JudgeAt(show, a, b)(n)
    ensures Faithful(show, a, b, c)
  {
    hide ShownJudge, JudgeChange, Named;
    NamedMeaning(b.judges, JudgeKey(), n);
    JudgeShows(show, n, Named(a.judges, JudgeKey(), n), Named(b.judges, JudgeKey(), n), c);
  }

  lemma ScalarShows(plane: Plane, field: string, before: string, after: string, tags: seq<Tag>, c: Change)
    requires c in Scalar(plane, field, before, after, tags)
    ensures c == Change(plane, "", field, Changed, OrNone(before), OrNone(after), tags, Severe(tags))
  {
  }

  lemma ModelFields(show: Show, m: Manifest)
    ensures Shown(show, m, Model, "", "provider") == OrNone(m.provider) && Shown(show, m, Model, "", "id") == OrNone(m.modelId)
    ensures Shown(show, m, Model, "", "pin") == OrNone(m.pin)
    ensures Shown(show, m, Model, "", "temperature") == OrNone(FloatText(show, m.temperature))
    ensures Shown(show, m, Model, "", "topP") == OrNone(FloatText(show, m.topP))
    ensures Shown(show, m, Model, "", "topK") == OrNone(IntText(show, m.topK))
    ensures Shown(show, m, Model, "", "maxTokens") == OrNone(IntText(show, m.maxTokens))
    ensures Shown(show, m, Model, "", "stopSequences") == OrNone(show.list(m.stopSequences))
  {
    hide OrNone, FloatText, IntText;
    assert |"provider"| == 8 && |"id"| == 2 && |"pin"| == 3 && |"temperature"| == 11 && |"maxTokens"| == 9;
    assert |"stopSequences"| == 13 && |"topP"| == |"topK"| == 4 && "topP"[3] != "topK"[3];
  }

  lemma ModelFaithful(show: Show, a: Manifest, b: Manifest, c: Change)
    requires c in ModelChanges(show, a, b)
    ensures Faithful(show, a, b, c)
  {
    hide Scalar, OrNone, FloatText, IntText, Shown;
    ModelFields(show, a);
    ModelFields(show, b);
    forall field, before, after | c in Scalar(Model, field, before, after, [ModelTag])
      ensures c == Change(Model, "", field, Changed, OrNone(before), OrNone(after), [ModelTag], Severe([ModelTag]))
    {
      ScalarShows(Model, field, before, after, [ModelTag], c);
    }
  }

  lemma CodeFaithful(show: Show, a: Manifest, b: Manifest, c: Change)
    requires c in CodeChanges(a, b)
    ensures Faithful(show, a, b, c)
  {
    hide OrNone, AbbrevImage, ImageContentID;
  }

  lemma ContextFaithful(show: Show, a: Manifest, b: Manifest, c: Change)
    requires c in RetrievalChanges(a, b) || c in PolicyChanges(a, b)
    ensures Faithful(show, a, b, c)
  {
    hide Scalar, OrNone, Abbrev, PolicyText, RetrievalOf;
    assert |"indexSnapshot"| == 13 && |"embeddingModel"| == 14;
    forall plane, field, before, after, tags | c in Scalar(plane, field, before, after, tags)
      ensures c == Change(plane, "", field, Changed, OrNone(before), OrNone(after), tags, Severe(tags))
    {
      ScalarShows(plane, field, before, after, tags, c);
    }
  }

  /** Every change listed shows what it says it shows. */
  lemma ChangesAreFaithful(show: Show, digest: map<Key, Json> -> string, a: Manifest, b: Manifest, crossAgent: bool, c: Change)
    requires c in ComparisonOf(show, digest, a, b, crossAgent).changes
    ensures Faithful(show, a, b, c)
  {
    hide Sort, Faithful, ProjectionOf, RendersBefore, Gather, UnionNames, CodeChanges, ModelChanges, RetrievalChanges, PolicyChanges;
    SortMembers(AllChanges(show, a, b), RendersBefore, c);
    GatherMembers(UnionNames(a.prompts, b.prompts, PromptKey()), PromptAt(a, b), c);
    GatherMembers(UnionNames(a.tools, b.tools, ToolKey()), ToolAt(a, b), c);
    GatherMembers(UnionNames(a.judges, b.judges, JudgeKey()), JudgeAt(show, a, b), c);
    if n :| c in PromptAt(a, b)(n) {
      PromptFaithful(show, a, b, n, c);
    } else if n :| c in ToolAt(a, b)(n) {
      ToolFaithful(show, a, b, n, c);
    } else if n :| c in JudgeAt(show, a, b)(n) {
      JudgeFaithful(show, a, b, n, c);
    } else if c in CodeChanges(a, b) {
      CodeFaithful(show, a, b, c);
    } else if c in ModelChanges(show, a, b) {
      ModelFaithful(show, a, b, c);
    } else {
      ContextFaithful(show, a, b, c);
    }
  }

  // ---- How values are shown ----

  lemma {:induction false} ZerosTrimmed(t: string, zeros: string)
    requires forall i :: 0 <= i < |zeros| ==> zeros[i] == '0'
    requires t == "" || t[|t| - 1] != '0'
    ensures WithoutZeros(t + zeros) == t
    decreases |zeros|
  {
    if zeros == "" {
      assert t + zeros == t;
    } else {
      var n := |zeros| - 1;
      ZerosTrimmed(t, zeros[..n]);
      assert (t + zeros)[..|t + zeros| - 1] == t + zeros[..n];
    }
  }

  /** A number is shown without the zeros it ends in, and then without the point it ends in; without a value, as unset. */
  lemma NumberShown(show: Show, v: real, t: string, zeros: string)
    requires forall i :: 0 <= i < |zeros| ==> zeros[i] == '0'
    requires t == "" || t[|t| - 1] != '0'
    requires show.float(v) == t + zeros
    ensures FloatText(show, Some(v)) == if t != "" && t[|t| - 1] == '.' then t[..|t| - 1] else t
    ensures FloatText(show, None) == "(unset)" && IntText(show, None) == "(unset)"
  {
    ZerosTrimmed(t, zeros);
  }

  /** A long digest is shown by its first four hex digits, */
  lemma DigestShown(hex: string)
    requires |hex| > 8
    ensures Abbrev("sha256:" + hex) == hex[..4] + "\U{2026}"
  {
    var s := "sha256:" + hex;
    assert s[7..11] == hex[..4];
  }

  /** and everything else in full; an empty value that has to show something shows as none. */
  lemma OthersShownInFull(s: string)
    ensures |s| <= 15 || s[..7] != "sha256:" ==> Abbrev(s) == s
    ensures OrNone(s) == if |s| == 0 then "(none)" else s
  {
  }

  /** An image reference is shown with its digest shortened. */
  lemma {:induction false} ImageShown(before: string, after: string)
    requires '@' !in before
    ensures AbbrevImage(before + "@" + after) == before + "@" + Abbrev(after)
    ensures AbbrevImage(before) == before
  {
    var ref := before + "@" + after;
    assert ref[|before|] == '@';
    BeforeFirstAt(before, after);
    AtFirst(before, after);
  }

  lemma {:induction false} BeforeFirstAt(before: string, after: string)
    requires '@' !in before
    ensures BeforeAt(before + "@" + after) == before
  {
    if before == "" {
      assert before + "@" + after == "@" + after;
    } else {
      BeforeFirstAt(before[1..], after);
      assert (before + "@" + after)[1..] == before[1..] + "@" + after;
    }
  }

  const RENDERED := [Code, Model, Prompts, Tools, RetrievalPlane, Policy, Judges]

  /** Changes are listed plane by plane, in this order. */
  lemma PlanesInOrder(show: Show, digest: map<Key, Json> -> string, a: Manifest, b: Manifest, crossAgent: bool, i: nat, j: nat)
    requires i < j < |ComparisonOf(show, digest, a, b, crossAgent).changes|
    ensures var changes := ComparisonOf(show, digest, a, b, crossAgent).changes;
            exists p, q :: 0 <= p <= q < 7 && RENDERED[p] == changes[i].plane && RENDERED[q] == changes[j].plane
  {
    hide AllChanges, ProjectionOf, Sort;
    RenderingIsOrder();
    SortSorts(AllChanges(show, a, b), RendersBefore);
    var changes := ComparisonOf(show, digest, a, b, crossAgent).changes;
    assert RendersBefore(changes[i], changes[j]);
    OrderIsRendered(changes[i].plane);
    OrderIsRendered(changes[j].plane);
  }

  lemma OrderIsRendered(plane: Plane)
    ensures 0 <= PlaneOrder(plane) < 7 && RENDERED[PlaneOrder(plane)] == plane
  {
  }
}
