/** What the two projections tell apart: the identity an agent's digests stand for. */
module Identity {
  import opened Basics
  import opened Sorting
  import opened Classification
  import opened JsonPaths
  import opened Projection

  // ---- Elements by name ----

  /** The element of that name; the last one when a name repeats. */
  function Named<T>(xs: seq<T>, name: T -> string, n: string): Option<T> {
    if xs == [] then None
    else
      var later := Named(xs[1..], name, n);
      if later.Some? then later else if name(xs[0]) == n then Some(xs[0]) else None
  }

  /** Where a name repeats, it stands for the last element that has it. */
  lemma {:induction false} LastOfName<T>(xs: seq<T>, name: T -> string, i: nat)
    requires i < |xs| && forall j :: i < j < |xs| ==> name(xs[j]) != name(xs[i])
    ensures Named(xs, name, name(xs[i])) == Some(xs[i])
  {
    if i > 0 {
      LastOfName(xs[1..], name, i - 1);
    } else {
      NamedMeaning(xs[1..], name, name(xs[0]));
    }
  }

  function HasName<T>(name: T -> string, n: string): T -> bool { (x: T) => name(x) == n }

  ghost predicate Unique<T>(xs: seq<T>, name: T -> string) {
    forall i, j :: 0 <= i < j < |xs| ==> name(xs[i]) != name(xs[j])
  }

  lemma {:induction false} NamedByFilter<T>(xs: seq<T>, name: T -> string, n: string)
    ensures var f := Filter(xs, HasName(name, n)); Named(xs, name, n) == if f == [] then None else Some(f[|f| - 1])
  {
    if xs != [] {
      NamedByFilter(xs[1..], name, n);
    }
  }

  /** Sorting by name does not change which element a name stands for, even when names repeat. */
  lemma NamedInSorted<T>(xs: seq<T>, name: T -> string, n: string)
    ensures Named(Sort(xs, ByName(name)), name, n) == Named(xs, name, n)
  {
    StringLeqTotal(n, n);
    SortStable(xs, ByName(name), HasName(name, n));
    NamedByFilter(xs, name, n);
    NamedByFilter(Sort(xs, ByName(name)), name, n);
  }

  lemma {:induction false} NamedMeaning<T>(xs: seq<T>, name: T -> string, n: string)
    ensures match Named(xs, name, n)
            case Some(x) => x in xs && name(x) == n
            case None => forall x :: x in xs ==> name(x) != n
  {
    if xs != [] {
      NamedMeaning(xs[1..], name, n);
    }
  }

  lemma UniqueNamed<T>(xs: seq<T>, name: T -> string, x: T)
    requires Unique(xs, name) && x in xs
    ensures Named(xs, name, name(x)) == Some(x)
  {
    NamedMeaning(xs, name, name(x));
    var y := Named(xs, name, name(x)).value;
    var i :| 0 <= i < |xs| && xs[i] == x;
    var j :| 0 <= j < |xs| && xs[j] == y;
  }

  // ---- Lists of items ----

  function Items<T>(xs: seq<T>, item: T -> Json): seq<Json> { seq(|xs|, i requires 0 <= i < |xs| => item(xs[i])) }

  /** The item a name contributes, if any. */
  function ItemNamed<T>(xs: seq<T>, name: T -> string, item: T -> Json, n: string): Option<Json> {
    var x := Named(xs, name, n);
    if x.Some? then Some(item(x.value)) else None
  }

  ghost predicate RevealsName<T(!new)>(name: T -> string, item: T -> Json) {
    forall x, y :: item(x) == item(y) ==> name(x) == name(y)
  }

  lemma {:induction false} SameItemsSameNamed<T(!new)>(xs: seq<T>, ys: seq<T>, name: T -> string, item: T -> Json, n: string)
    requires RevealsName(name, item) && Items(xs, item) == Items(ys, item)
    ensures ItemNamed(xs, name, item, n) == ItemNamed(ys, name, item, n)
  {
    assert |Items(xs, item)| == |Items(ys, item)|;
    if xs != [] {
      assert Items(xs, item)[0] == Items(ys, item)[0];
      assert Items(xs[1..], item) == Items(xs, item)[1..] && Items(ys[1..], item) == Items(ys, item)[1..];
      SameItemsSameNamed(xs[1..], ys[1..], name, item, n);
    }
  }

  /** Equal lists of items name equal items; uniqueness is not needed. */
  lemma SortedItemsByName<T(!new)>(xs: seq<T>, ys: seq<T>, name: T -> string, item: T -> Json, n: string)
    requires RevealsName(name, item)
    requires Items(Sort(xs, ByName(name)), item) == Items(Sort(ys, ByName(name)), item)
    ensures ItemNamed(xs, name, item, n) == ItemNamed(ys, name, item, n)
  {
    SameItemsSameNamed(Sort(xs, ByName(name)), Sort(ys, ByName(name)), name, item, n);
    NamedInSorted(xs, name, n);
    NamedInSorted(ys, name, n);
  }

  lemma ByNameIsOrder<T(!new)>(name: T -> string)
    ensures TotalPreorder(ByName(name))
  {
    forall a, b
      ensures ByName(name)(a, b) || ByName(name)(b, a)
    {
      StringLeqTotal(name(a), name(b));
    }
    forall a, b, c | ByName(name)(a, b) && ByName(name)(b, c)
      ensures ByName(name)(a, c)
    {
      StringLeqTransitive(name(a), name(b), name(c));
    }
  }

  ghost predicate Ordered<T>(xs: seq<T>, name: T -> string) {
    Unique(xs, name) && SortedBy(xs, ByName(name))
  }

  /** The first of an ordered list is the only one of its name, and no name in the list comes before it. */
  lemma HeadOfOrdered<T>(xs: seq<T>, name: T -> string, n: string)
    requires Ordered(xs, name) && xs != []
    ensures Named(xs, name, name(xs[0])) == Some(xs[0]) && Named(xs[1..], name, name(xs[0])) == None
    ensures Named(xs, name, n).Some? ==> StringLeq(name(xs[0]), n)
    ensures n != name(xs[0]) ==> Named(xs, name, n) == Named(xs[1..], name, n)
    ensures Ordered(xs[1..], name)
  {
    UniqueNamed(xs, name, xs[0]);
    NamedMeaning(xs[1..], name, name(xs[0]));
    NamedMeaning(xs, name, n);
    StringLeqTotal(name(xs[0]), name(xs[0]));
    if Named(xs, name, n).Some? {
      var k :| 0 <= k < |xs| && xs[k] == Named(xs, name, n).value;
      assert k > 0 ==> ByName(name)(xs[0], xs[k]);
    }
  }

  lemma NotEmptyEither<T(!new)>(xs: seq<T>, ys: seq<T>, name: T -> string, item: T -> Json)
    requires Ordered(ys, name) && ys != []
    requires forall n :: ItemNamed(xs, name, item, n) == ItemNamed(ys, name, item, n)
    ensures xs != []
  {
    HeadOfOrdered(ys, name, "");
    assert ItemNamed(xs, name, item, name(ys[0])) == ItemNamed(ys, name, item, name(ys[0]));
  }

  lemma {:induction false} OrderedItemsEqual<T(!new)>(xs: seq<T>, ys: seq<T>, name: T -> string, item: T -> Json)
    requires RevealsName(name, item) && Ordered(xs, name) && Ordered(ys, name)
    requires forall n :: ItemNamed(xs, name, item, n) == ItemNamed(ys, name, item, n)
    ensures Items(xs, item) == Items(ys, item)
  {
    if ys != [] {
      NotEmptyEither(xs, ys, name, item);
    }
    if xs != [] {
      NotEmptyEither(ys, xs, name, item);
      HeadOfOrdered(xs, name, name(ys[0]));
      HeadOfOrdered(ys, name, name(xs[0]));
      assert ItemNamed(xs, name, item, name(xs[0])) == ItemNamed(ys, name, item, name(xs[0]));
      assert ItemNamed(xs, name, item, name(ys[0])) == ItemNamed(ys, name, item, name(ys[0]));
      StringLeqTotal(name(xs[0]), name(ys[0]));
      forall n
        ensures ItemNamed(xs[1..], name, item, n) == ItemNamed(ys[1..], name, item, n)
      {
        HeadOfOrdered(xs, name, n);
        HeadOfOrdered(ys, name, n);
        assert ItemNamed(xs, name, item, n) == ItemNamed(ys, name, item, n);
      }
      OrderedItemsEqual(xs[1..], ys[1..], name, item);
      assert Items(xs, item) == [item(xs[0])] + Items(xs[1..], item);
      assert Items(ys, item) == [item(ys[0])] + Items(ys[1..], item);
    }
  }

  lemma SortedIsOrdered<T(!new)>(xs: seq<T>, name: T -> string)
    requires Unique(xs, name)
    ensures Ordered(Sort(xs, ByName(name)), name)
  {
    var s := Sort(xs, ByName(name));
    ByNameIsOrder(name);
    SortSorts(xs, ByName(name));
    forall i, j | 0 <= i < j < |s|
      ensures name(s[i]) != name(s[j])
    {
      if name(s[i]) == name(s[j]) {
        UniqueAfterSort(xs, name, i, j);
      }
    }
  }

  /** Two sorted elements of one name would be two in the original. */
  lemma UniqueAfterSort<T>(xs: seq<T>, name: T -> string, i: nat, j: nat)
    requires Unique(xs, name) && i < j < |Sort(xs, ByName(name))|
    ensures name(Sort(xs, ByName(name))[i]) != name(Sort(xs, ByName(name))[j])
  {
    var s := Sort(xs, ByName(name));
    var n := name(s[i]);
    if n == name(s[j]) {
      StringLeqTotal(n, n);
      SortStable(xs, ByName(name), HasName(name, n));
      TwoInFilter(s, HasName(name, n), i, j);
      AtMostOne(xs, name, n);
      assert false;
    }
  }

  lemma {:induction false} TwoInFilter<T>(s: seq<T>, p: T -> bool, i: nat, j: nat)
    requires i < j < |s| && p(s[i]) && p(s[j])
    ensures |Filter(s, p)| >= 2
  {
    if i > 0 {
      TwoInFilter(s[1..], p, i - 1, j - 1);
    } else {
      OneInFilter(s[1..], p, j - 1);
    }
  }

  lemma {:induction false} OneInFilter<T>(s: seq<T>, p: T -> bool, j: nat)
    requires j < |s| && p(s[j])
    ensures |Filter(s, p)| >= 1
  {
    if j > 0 {
      OneInFilter(s[1..], p, j - 1);
    }
  }

  lemma {:induction false} NoneInFilter<T>(s: seq<T>, p: T -> bool)
    requires forall i :: 0 <= i < |s| ==> !p(s[i])
    ensures Filter(s, p) == []
  {
    if s != [] {
      NoneInFilter(s[1..], p);
    }
  }

  lemma {:induction false} AtMostOne<T>(xs: seq<T>, name: T -> string, n: string)
    requires Unique(xs, name)
    ensures |Filter(xs, HasName(name, n))| <= 1
  {
    if xs != [] {
      AtMostOne(xs[1..], name, n);
      if name(xs[0]) == n {
        forall i | 0 <= i < |xs[1..]|
          ensures name(xs[1..][i]) != n
        {
          assert name(xs[0]) != name(xs[i + 1]);
        }
        NoneInFilter(xs[1..], HasName(name, n));
      }
    }
  }

  /** With unique names, sorted lists of items are equal exactly when every name contributes the same item. */
  lemma ListsAreNameKeyedSets<T(!new)>(xs: seq<T>, ys: seq<T>, name: T -> string, item: T -> Json)
    requires RevealsName(name, item) && Unique(xs, name) && Unique(ys, name)
    ensures Items(Sort(xs, ByName(name)), item) == Items(Sort(ys, ByName(name)), item) <==>
            forall n :: ItemNamed(xs, name, item, n) == ItemNamed(ys, name, item, n)
  {
    var s, t := Sort(xs, ByName(name)), Sort(ys, ByName(name));
    if Items(s, item) == Items(t, item) {
      forall n
        ensures ItemNamed(xs, name, item, n) == ItemNamed(ys, name, item, n)
      {
        SortedItemsByName(xs, ys, name, item, n);
      }
    }
    if forall n :: ItemNamed(xs, name, item, n) == ItemNamed(ys, name, item, n) {
      SortedIsOrdered(xs, name);
      SortedIsOrdered(ys, name);
      forall n
        ensures ItemNamed(s, name, item, n) == ItemNamed(t, name, item, n)
      {
        NamedInSorted(xs, name, n);
        NamedInSorted(ys, name, n);
        assert ItemNamed(xs, name, item, n) == ItemNamed(ys, name, item, n);
      }
      OrderedItemsEqual(s, t, name, item);
    }
  }

  // ---- Single elements ----

  function PromptJson(scope: Scope): Prompt -> Json { (p: Prompt) => PromptItem(scope, p) }

  function ToolJson(scope: Scope): ToolRef -> Json { (t: ToolRef) => ToolItem(scope, t) }

  function JudgeJson(scope: Scope): Judge -> Json { (j: Judge) => JudgeItem(scope, j) }

  lemma StrIsInjective(scope: Scope, f: Field, v: string, w: string)
    ensures StrValue(scope, f, v) == StrValue(scope, f, w) <==> v == w || !Included(scope, f)
  {
  }

  lemma RealIsInjective(scope: Scope, f: Field, v: Option<real>, w: Option<real>)
    ensures RealValue(scope, f, v) == RealValue(scope, f, w) <==> v == w || !Included(scope, f)
  {
  }

  lemma IntIsInjective(scope: Scope, f: Field, v: Option<int>, w: Option<int>)
    ensures IntValue(scope, f, v) == IntValue(scope, f, w) <==> v == w || !Included(scope, f)
  {
  }

  lemma ItemSlots()
    ensures Slot(Last(KName)) == 20 && Slot(Last(KSource)) == 21 && Slot(Last(KDigest)) == 22
    ensures Slot(Last(KModelName)) == 27 && Slot(Last(KRubricDigest)) == 28
  {
  }

  lemma ToolOnlySlots()
    ensures Slot(Last(KServer)) == 23 && Slot(Last(KContractDigest)) == 24
    ensures Slot(Last(KEffect)) == 25 && Slot(Last(KReplayPolicy)) == 26
  {
  }

  lemma CalibrationSlots()
    ensures Slot(Dot(KCalibration, Last(KKappa))) == 29 && Slot(Dot(KCalibration, Last(KGoldSetDigest))) == 30
    ensures Slot(Dot(KCalibration, Last(KMeasuredAt))) == 31
  {
  }

  lemma ModelPathSlots()
    ensures Slot(Last(KAgent)) == 0 && Slot(Dot(KCode, Last(KImage))) == 1 && Slot(Dot(KCode, Last(KImageDigest))) == 1
    ensures Slot(Dot(KModel, Last(KProvider))) == 2 && Slot(Dot(KModel, Last(KId))) == 3 && Slot(Dot(KModel, Last(KPin))) == 4
  {
  }

  lemma ParamSlots()
    ensures Slot(Dot(KModel, Dot(KParams, Last(KTemperature)))) == 5 && Slot(Dot(KModel, Dot(KParams, Last(KTopP)))) == 6
    ensures Slot(Dot(KModel, Dot(KParams, Last(KTopK)))) == 7 && Slot(Dot(KModel, Dot(KParams, Last(KMaxTokens)))) == 8
    ensures Slot(Dot(KModel, Dot(KParams, Last(KStopSequences)))) == 9
  {
  }

  lemma OtherSlots()
    ensures Slot(Last(KPrompts)) == 10 && Slot(Last(KTools)) == 11 && Slot(Last(KJudges)) == 15
    ensures Slot(Dot(KRetrieval, Last(KIndexSnapshot))) == 12 && Slot(Dot(KRetrieval, Last(KEmbeddingModel))) == 13
    ensures Slot(Dot(KPolicy, Last(KBundleDigest))) == 14
  {
  }

  lemma PromptSlots(scope: Scope, p: Prompt)
    ensures Separate(PromptEntries(scope, p))
  {
    hide StrValue, Slot;
    ItemSlots();
  }

  lemma ToolSlots(scope: Scope, t: ToolRef)
    ensures Separate(ToolEntries(scope, t))
  {
    hide StrValue, Slot;
    ItemSlots();
    ToolOnlySlots();
  }

  lemma JudgeSlots(scope: Scope, j: Judge)
    ensures Separate(JudgeEntries(scope, j))
  {
    hide StrValue, RealValue, IntValue, Second, CalibrationOf, Slot;
    ItemSlots();
    CalibrationSlots();
  }

  lemma PromptMeaning(scope: Scope, p: Prompt, q: Prompt)
    ensures PromptItem(scope, p) == PromptItem(scope, q) <==>
            p.name == q.name && p.digest == q.digest && (scope == Content ==> p.source == q.source)
  {
    hide Build, StrValue, Slot, Separate;
    var a, b := PromptEntries(scope, p), PromptEntries(scope, q);
    PromptSlots(scope, p);
    BuildIsInjective(a, b);
    StrIsInjective(scope, PromptName, p.name, q.name);
    StrIsInjective(scope, PromptSource, p.source, q.source);
    StrIsInjective(scope, PromptDigest, p.digest, q.digest);
    assert a == b <==> a[0] == b[0] && a[1] == b[1] && a[2] == b[2];
  }

  lemma ToolMeaning(scope: Scope, t: ToolRef, u: ToolRef)
    ensures ToolItem(scope, t) == ToolItem(scope, u) <==> t == u
  {
    hide Build, StrValue, Slot, Separate;
    var a, b := ToolEntries(scope, t), ToolEntries(scope, u);
    ToolSlots(scope, t);
    BuildIsInjective(a, b);
    StrIsInjective(scope, ToolName, t.name, u.name);
    StrIsInjective(scope, ToolServer, t.server, u.server);
    StrIsInjective(scope, ToolContract, t.contractDigest, u.contractDigest);
    StrIsInjective(scope, ToolEffect, t.effect, u.effect);
    StrIsInjective(scope, ToolReplayPolicy, t.replayPolicy, u.replayPolicy);
    assert a == b <==> a[0] == b[0] && a[1] == b[1] && a[2] == b[2] && a[3] == b[3] && a[4] == b[4];
  }

  lemma JudgeFieldsIncluded(scope: Scope)
    ensures Included(scope, JudgeName) && Included(scope, JudgeModel) && Included(scope, JudgeRubric)
    ensures Included(scope, JudgeKappa) <==> scope == Content
    ensures Included(scope, JudgeGoldSet) <==> scope == Content
    ensures Included(scope, JudgeMeasuredAt) <==> scope == Content
  {
  }

  lemma JudgeMeaning(scope: Scope, j: Judge, k: Judge)
    ensures JudgeItem(scope, j) == JudgeItem(scope, k) <==>
            && j.name == k.name && j.model == k.model && j.rubricDigest == k.rubricDigest
            && (scope == Content ==> SameCalibration(j, k))
  {
    hide Build, Second, StrValue, Slot, Separate;
    var a, b := JudgeEntries(scope, j), JudgeEntries(scope, k);
    hide RealValue, IntValue, CalibrationOf, Included;
    JudgeFieldsIncluded(scope);
    var c, d := CalibrationOf(j), CalibrationOf(k);
    JudgeSlots(scope, j);
    BuildIsInjective(a, b);
    StrIsInjective(scope, JudgeName, j.name, k.name);
    StrIsInjective(scope, JudgeModel, j.model, k.model);
    StrIsInjective(scope, JudgeRubric, j.rubricDigest, k.rubricDigest);
    StrIsInjective(scope, JudgeGoldSet, c.goldSetDigest, d.goldSetDigest);
    RealIsInjective(scope, JudgeKappa, c.kappa, d.kappa);
    IntIsInjective(scope, JudgeMeasuredAt, Second(c.measuredAt), Second(d.measuredAt));
    assert a == b <==> a[0] == b[0] && a[1] == b[1] && a[2] == b[2] && a[3] == b[3] && a[4] == b[4] && a[5] == b[5];
  }

  // ---- What each projection determines ----

  ghost predicate UniqueNames(m: Manifest) {
    Unique(m.prompts, PromptKey()) && Unique(m.tools, ToolKey()) && Unique(m.judges, JudgeKey())
  }

  /** The fields of agent, model, retrieval and policy, in which absent and empty retrieval are one. */
  ghost predicate SameScalars(a: Manifest, b: Manifest) {
    SameModel(a, b) && RetrievalOf(a) == RetrievalOf(b) && a.policy == b.policy
  }

  /** For each name, both manifests have the element or neither does, and the two agree. */
  ghost predicate SamePrompts(scope: Scope, a: Manifest, b: Manifest) {
    forall n :: PromptsAgree(scope, Named(a.prompts, PromptKey(), n), Named(b.prompts, PromptKey(), n))
  }

  ghost predicate PromptsAgree(scope: Scope, x: Option<Prompt>, y: Option<Prompt>) {
    match (x, y)
    case (Some(p), Some(q)) => p.digest == q.digest && (scope == Content ==> p.source == q.source)
    case _ => x.None? && y.None?
  }

  ghost predicate SameTools(a: Manifest, b: Manifest) {
    forall n :: Named(a.tools, ToolKey(), n) == Named(b.tools, ToolKey(), n)
  }

  ghost predicate SameCalibration(j: Judge, k: Judge) {
    var c, d := CalibrationOf(j), CalibrationOf(k);
    c.kappa == d.kappa && c.goldSetDigest == d.goldSetDigest && Second(c.measuredAt) == Second(d.measuredAt)
  }

  ghost predicate JudgesAgree(scope: Scope, x: Option<Judge>, y: Option<Judge>) {
    match (x, y)
    case (Some(j), Some(k)) => j.model == k.model && j.rubricDigest == k.rubricDigest
                               && (scope == Content ==> SameCalibration(j, k))
    case _ => x.None? && y.None?
  }

  ghost predicate SameJudges(scope: Scope, a: Manifest, b: Manifest) {
    forall n :: JudgesAgree(scope, Named(a.judges, JudgeKey(), n), Named(b.judges, JudgeKey(), n))
  }

  ghost predicate SameImage(scope: Scope, a: Manifest, b: Manifest) {
    if scope == Behavior then ImageContentID(a.image) == ImageContentID(b.image) else a.image == b.image
  }

  /** The two manifests agree on every field the scope covers. */
  ghost predicate Same(scope: Scope, a: Manifest, b: Manifest) {
    SameScalars(a, b) && SameImage(scope, a, b) && SamePrompts(scope, a, b) && SameTools(a, b) && SameJudges(scope, a, b)
  }

  lemma ModelSlots(m: Manifest, scope: Scope)
    ensures var e := ModelEntries(m, scope); |e| == 10 && forall i :: 0 <= i < 10 ==> Slot(e[i].path) == i
  {
    hide StrValue, RealValue, IntValue, StrsValue, Slot, ImageContentID;
    ModelPathSlots();
    ParamSlots();
  }

  lemma EntriesAreSeparate(m: Manifest, scope: Scope)
    ensures Separate(Entries(m, scope))
    ensures |Entries(m, scope)| == 16 && forall i :: 0 <= i < 16 ==> Slot(Entries(m, scope)[i].path) == i
  {
    hide StrValue, PromptItems, ToolItems, JudgeItems, ListValue, Sort, ModelEntries, RetrievalOf, Slot;
    ModelSlots(m, scope);
    OtherSlots();
  }

  // ---- Each group of entries determines its fields ----

  lemma StrsIsInjective(scope: Scope, f: Field, v: seq<string>, w: seq<string>)
    ensures StrsValue(scope, f, v) == StrsValue(scope, f, w) <==> v == w || !Included(scope, f)
  {
    if Strings(v) == Strings(w) {
      assert |Strings(v)| == |v| && |Strings(w)| == |w|;
      forall i | 0 <= i < |v|
        ensures v[i] == w[i]
      {
        assert Strings(v)[i] == Strings(w)[i];
      }
    }
  }

  lemma ModelFieldsIncluded(scope: Scope)
    ensures Included(scope, Agent) && Included(scope, ModelProvider) && Included(scope, ModelId) && Included(scope, ModelPin)
    ensures Included(scope, Temperature) && Included(scope, TopP) && Included(scope, TopK) && Included(scope, MaxTokens)
    ensures Included(scope, StopSequences)
  {
  }

  ghost predicate SameModel(a: Manifest, b: Manifest) {
    && a.agent == b.agent && a.provider == b.provider && a.modelId == b.modelId && a.pin == b.pin
    && a.temperature == b.temperature && a.topP == b.topP && a.topK == b.topK && a.maxTokens == b.maxTokens
    && a.stopSequences == b.stopSequences
  }

  lemma ModelEntriesMeaning(scope: Scope, a: Manifest, b: Manifest)
    ensures ModelEntries(a, scope) == ModelEntries(b, scope) <==> SameModel(a, b) && SameImage(scope, a, b)
  {
    hide StrValue, RealValue, IntValue, StrsValue, Included, ImageContentID, SameModel;
    var x, y := ModelEntries(a, scope), ModelEntries(b, scope);
    ModelFieldsIncluded(scope);
    StrIsInjective(scope, Agent, a.agent, b.agent);
    StrIsInjective(scope, ModelProvider, a.provider, b.provider);
    StrIsInjective(scope, ModelId, a.modelId, b.modelId);
    StrIsInjective(scope, ModelPin, a.pin, b.pin);
    RealIsInjective(scope, Temperature, a.temperature, b.temperature);
    RealIsInjective(scope, TopP, a.topP, b.topP);
    IntIsInjective(scope, TopK, a.topK, b.topK);
    IntIsInjective(scope, MaxTokens, a.maxTokens, b.maxTokens);
    StrsIsInjective(scope, StopSequences, a.stopSequences, b.stopSequences);
    assert x[1] == y[1] <==> SameImage(scope, a, b);
    assert x == y <==> x[0] == y[0] && x[1] == y[1] && x[2] == y[2] && x[3] == y[3] && x[4] == y[4]
                       && x[5] == y[5] && x[6] == y[6] && x[7] == y[7] && x[8] == y[8] && x[9] == y[9];
    SameModelFields(a, b);
  }

  lemma SameModelFields(a: Manifest, b: Manifest)
    ensures SameModel(a, b) <==>
            (a.agent == b.agent && a.provider == b.provider && a.modelId == b.modelId && a.pin == b.pin
             && a.temperature == b.temperature && a.topP == b.topP && a.topK == b.topK && a.maxTokens == b.maxTokens
             && a.stopSequences == b.stopSequences)
  {
  }

  lemma ContextEntriesMeaning(scope: Scope, a: Manifest, b: Manifest)
    ensures ContextEntries(a, scope) == ContextEntries(b, scope) <==>
            RetrievalOf(a) == RetrievalOf(b) && a.policy == b.policy
  {
    hide RetrievalOf;
    var x, y := ContextEntries(a, scope), ContextEntries(b, scope);
    StrIsInjective(scope, IndexSnapshot, RetrievalOf(a).indexSnapshot, RetrievalOf(b).indexSnapshot);
    StrIsInjective(scope, EmbeddingModel, RetrievalOf(a).embeddingModel, RetrievalOf(b).embeddingModel);
    assert x == y <==> x[0] == y[0] && x[1] == y[1] && x[2] == y[2];
    assert x[2] == y[2] <==> a.policy == b.policy;
  }

  lemma ListIsInjective(s: seq<Json>, t: seq<Json>)
    ensures ListValue(s) == ListValue(t) <==> s == t
  {
  }

  lemma PromptListMeaning(scope: Scope, a: Manifest, b: Manifest)
    requires Unique(a.prompts, PromptKey()) && Unique(b.prompts, PromptKey())
    ensures PromptItems(scope, Sort(a.prompts, ByName(PromptKey()))) == PromptItems(scope, Sort(b.prompts, ByName(PromptKey())))
            <==> SamePrompts(scope, a, b)
  {
    hide PromptItem;
    forall p, q
      ensures PromptJson(scope)(p) == PromptJson(scope)(q) <==>
              p.name == q.name && p.digest == q.digest && (scope == Content ==> p.source == q.source)
    {
      PromptMeaning(scope, p, q);
    }
    forall s: seq<Prompt>
      ensures PromptItems(scope, s) == Items(s, PromptJson(scope))
    {
    }
    ListsAreNameKeyedSets(a.prompts, b.prompts, PromptKey(), PromptJson(scope));
    forall n
      ensures ItemNamed(a.prompts, PromptKey(), PromptJson(scope), n) == ItemNamed(b.prompts, PromptKey(), PromptJson(scope), n)
              <==> PromptsAgree(scope, Named(a.prompts, PromptKey(), n), Named(b.prompts, PromptKey(), n))
    {
      NamedMeaning(a.prompts, PromptKey(), n);
      NamedMeaning(b.prompts, PromptKey(), n);
    }
  }

  lemma ToolListMeaning(scope: Scope, a: Manifest, b: Manifest)
    requires Unique(a.tools, ToolKey()) && Unique(b.tools, ToolKey())
    ensures ToolItems(scope, Sort(a.tools, ByName(ToolKey()))) == ToolItems(scope, Sort(b.tools, ByName(ToolKey())))
            <==> SameTools(a, b)
  {
    hide ToolItem;
    forall t, u
      ensures ToolJson(scope)(t) == ToolJson(scope)(u) <==> t == u
    {
      ToolMeaning(scope, t, u);
    }
    forall s: seq<ToolRef>
      ensures ToolItems(scope, s) == Items(s, ToolJson(scope))
    {
    }
    ListsAreNameKeyedSets(a.tools, b.tools, ToolKey(), ToolJson(scope));
    forall n
      ensures ItemNamed(a.tools, ToolKey(), ToolJson(scope), n) == ItemNamed(b.tools, ToolKey(), ToolJson(scope), n)
              <==> Named(a.tools, ToolKey(), n) == Named(b.tools, ToolKey(), n)
    {
    }
  }

  lemma JudgeNameRevealed(scope: Scope)
    ensures RevealsName(JudgeKey(), JudgeJson(scope))
  {
    hide JudgeItem;
    forall j, k | JudgeJson(scope)(j) == JudgeJson(scope)(k)
      ensures j.name == k.name
    {
      JudgeMeaning(scope, j, k);
    }
  }

  lemma JudgeItemNamed(scope: Scope, a: Manifest, b: Manifest, n: string)
    ensures ItemNamed(a.judges, JudgeKey(), JudgeJson(scope), n) == ItemNamed(b.judges, JudgeKey(), JudgeJson(scope), n)
            <==> JudgesAgree(scope, Named(a.judges, JudgeKey(), n), Named(b.judges, JudgeKey(), n))
  {
    hide JudgeItem, SameCalibration;
    NamedMeaning(a.judges, JudgeKey(), n);
    NamedMeaning(b.judges, JudgeKey(), n);
    var x, y := Named(a.judges, JudgeKey(), n), Named(b.judges, JudgeKey(), n);
    if x.Some? && y.Some? {
      JudgeMeaning(scope, x.value, y.value);
    }
  }

  lemma JudgeListMeaning(scope: Scope, a: Manifest, b: Manifest)
    requires Unique(a.judges, JudgeKey()) && Unique(b.judges, JudgeKey())
    ensures JudgeItems(scope, Sort(a.judges, ByName(JudgeKey()))) == JudgeItems(scope, Sort(b.judges, ByName(JudgeKey())))
            <==> SameJudges(scope, a, b)
  {
    hide JudgeItem, JudgesAgree;
    JudgeNameRevealed(scope);
    forall s: seq<Judge>
      ensures JudgeItems(scope, s) == Items(s, JudgeJson(scope))
    {
    }
    ListsAreNameKeyedSets(a.judges, b.judges, JudgeKey(), JudgeJson(scope));
    forall n
      ensures ItemNamed(a.judges, JudgeKey(), JudgeJson(scope), n) == ItemNamed(b.judges, JudgeKey(), JudgeJson(scope), n)
              <==> JudgesAgree(scope, Named(a.judges, JudgeKey(), n), Named(b.judges, JudgeKey(), n))
    {
      JudgeItemNamed(scope, a, b, n);
    }
  }

  /** A projection is determined group by group. */
  lemma ProjectionByGroup(scope: Scope, a: Manifest, b: Manifest)
    ensures ProjectionOf(a, scope) == ProjectionOf(b, scope) <==>
            && ModelEntries(a, scope) == ModelEntries(b, scope) && ContextEntries(a, scope) == ContextEntries(b, scope)
            && PromptItems(scope, Sort(a.prompts, ByName(PromptKey()))) == PromptItems(scope, Sort(b.prompts, ByName(PromptKey())))
            && ToolItems(scope, Sort(a.tools, ByName(ToolKey()))) == ToolItems(scope, Sort(b.tools, ByName(ToolKey())))
            && JudgeItems(scope, Sort(a.judges, ByName(JudgeKey()))) == JudgeItems(scope, Sort(b.judges, ByName(JudgeKey())))
  {
    hide Build, ModelEntries, ContextEntries, PromptItems, ToolItems, JudgeItems, Sort, ListValue, Separate, Slot;
    var x, y := Entries(a, scope), Entries(b, scope);
    EntriesAreSeparate(a, scope);
    PathsAgree(scope, a, b);
    BuildIsInjective(x, y);
    ModelSlots(a, scope);
    ModelSlots(b, scope);
    ContextLength(scope, a);
    ContextLength(scope, b);
    GroupsOf(scope, a);
    GroupsOf(scope, b);
    var ps, qs := Sort(a.prompts, ByName(PromptKey())), Sort(b.prompts, ByName(PromptKey()));
    var ts, us := Sort(a.tools, ByName(ToolKey())), Sort(b.tools, ByName(ToolKey()));
    var js, ks := Sort(a.judges, ByName(JudgeKey())), Sort(b.judges, ByName(JudgeKey()));
    ListIsInjective(PromptItems(scope, ps), PromptItems(scope, qs));
    ListIsInjective(ToolItems(scope, ts), ToolItems(scope, us));
    ListIsInjective(JudgeItems(scope, js), JudgeItems(scope, ks));
    assert CatalogueEntries(a, scope) == CatalogueEntries(b, scope) <==>
           CatalogueEntries(a, scope)[0] == CatalogueEntries(b, scope)[0]
           && CatalogueEntries(a, scope)[1] == CatalogueEntries(b, scope)[1];
    assert JudgeListEntries(a, scope) == JudgeListEntries(b, scope) <==>
           JudgeListEntries(a, scope)[0] == JudgeListEntries(b, scope)[0];
  }

  lemma ContextLength(scope: Scope, m: Manifest)
    ensures |ContextEntries(m, scope)| == 3
  {
    hide StrValue, RetrievalOf;
  }

  lemma GroupsOf(scope: Scope, m: Manifest)
    ensures var e := Entries(m, scope);
            && |e| == 16 && e[..10] == ModelEntries(m, scope) && e[10..12] == CatalogueEntries(m, scope)
            && e[12..15] == ContextEntries(m, scope) && e[15..] == JudgeListEntries(m, scope)
  {
    hide ModelEntries, ContextEntries, PromptItems, ToolItems, JudgeItems, Sort, ListValue, Slot;
    ModelSlots(m, scope);
    ContextLength(scope, m);
  }

  lemma PathsAgree(scope: Scope, a: Manifest, b: Manifest)
    ensures SamePaths(Entries(a, scope), Entries(b, scope))
  {
    hide StrValue, RealValue, IntValue, StrsValue, PromptItems, ToolItems, JudgeItems, Sort, ListValue, RetrievalOf, ImageContentID;
  }

  /** For manifests whose lists have unique names, equal projections mean agreement on every field the scope covers:
      lists compare as sets keyed by name. */
  lemma ProjectionMeaning(scope: Scope, a: Manifest, b: Manifest)
    requires UniqueNames(a) && UniqueNames(b)
    ensures ProjectionOf(a, scope) == ProjectionOf(b, scope) <==> Same(scope, a, b)
  {
    hide Entries, ModelEntries, ContextEntries, PromptItems, ToolItems, JudgeItems, Sort, ProjectionOf, RetrievalOf;
    hide SamePrompts, SameTools, SameJudges, SameImage;
    ProjectionByGroup(scope, a, b);
    ModelEntriesMeaning(scope, a, b);
    ContextEntriesMeaning(scope, a, b);
    PromptListMeaning(scope, a, b);
    ToolListMeaning(scope, a, b);
    JudgeListMeaning(scope, a, b);
  }

  lemma {:induction false} ContentItemsGiveBehavior(a: Manifest, b: Manifest)
    requires JudgeItems(Content, a.judges) == JudgeItems(Content, b.judges)
    requires PromptItems(Content, a.prompts) == PromptItems(Content, b.prompts)
    requires ToolItems(Content, a.tools) == ToolItems(Content, b.tools)
    ensures JudgeItems(Behavior, a.judges) == JudgeItems(Behavior, b.judges)
    ensures PromptItems(Behavior, a.prompts) == PromptItems(Behavior, b.prompts)
    ensures ToolItems(Behavior, a.tools) == ToolItems(Behavior, b.tools)
  {
    hide JudgeItem, PromptItem, ToolItem;
    assert |JudgeItems(Content, a.judges)| == |a.judges| && |JudgeItems(Content, b.judges)| == |b.judges|;
    forall i | 0 <= i < |a.judges|
      ensures JudgeItem(Behavior, a.judges[i]) == JudgeItem(Behavior, b.judges[i])
    {
      assert JudgeItems(Content, a.judges)[i] == JudgeItems(Content, b.judges)[i];
      JudgeMeaning(Content, a.judges[i], b.judges[i]);
      JudgeMeaning(Behavior, a.judges[i], b.judges[i]);
    }
    assert |PromptItems(Content, a.prompts)| == |a.prompts| && |PromptItems(Content, b.prompts)| == |b.prompts|;
    forall i | 0 <= i < |a.prompts|
      ensures PromptItem(Behavior, a.prompts[i]) == PromptItem(Behavior, b.prompts[i])
    {
      assert PromptItems(Content, a.prompts)[i] == PromptItems(Content, b.prompts)[i];
      PromptMeaning(Content, a.prompts[i], b.prompts[i]);
      PromptMeaning(Behavior, a.prompts[i], b.prompts[i]);
    }
    assert |ToolItems(Content, a.tools)| == |a.tools| && |ToolItems(Content, b.tools)| == |b.tools|;
    forall i | 0 <= i < |a.tools|
      ensures ToolItem(Behavior, a.tools[i]) == ToolItem(Behavior, b.tools[i])
    {
      assert ToolItems(Content, a.tools)[i] == ToolItems(Content, b.tools)[i];
      ToolMeaning(Content, a.tools[i], b.tools[i]);
      ToolMeaning(Behavior, a.tools[i], b.tools[i]);
    }
  }

  /** A manifest's lists in the order they are projected. */
  function Sorted(m: Manifest): Manifest {
    m.(prompts := Sort(m.prompts, ByName(PromptKey())), tools := Sort(m.tools, ByName(ToolKey())),
       judges := Sort(m.judges, ByName(JudgeKey())))
  }

  /** Nothing the behaviour digest covers is missing from the content digest, whether or not names repeat. */
  lemma ContentDeterminesBehavior(a: Manifest, b: Manifest)
    requires ProjectionOf(a, Content) == ProjectionOf(b, Content)
    ensures ProjectionOf(a, Behavior) == ProjectionOf(b, Behavior)
  {
    hide Entries, ModelEntries, ContextEntries, PromptItems, ToolItems, JudgeItems, Sort, ProjectionOf, RetrievalOf, SameModel;
    ProjectionByGroup(Content, a, b);
    ProjectionByGroup(Behavior, a, b);
    ModelEntriesMeaning(Content, a, b);
    ModelEntriesMeaning(Behavior, a, b);
    ContextEntriesMeaning(Content, a, b);
    ContextEntriesMeaning(Behavior, a, b);
    ContentItemsGiveBehavior(Sorted(a), Sorted(b));
  }

  /** The same manifest with its lists in other orders. */
  ghost predicate Reordered(a: Manifest, b: Manifest) {
    && b == a.(prompts := b.prompts, tools := b.tools, judges := b.judges)
    && (forall p :: p in a.prompts <==> p in b.prompts)
    && (forall t :: t in a.tools <==> t in b.tools)
    && (forall j :: j in a.judges <==> j in b.judges)
  }

  lemma SameMembersSameNamed<T(!new)>(xs: seq<T>, ys: seq<T>, name: T -> string, n: string)
    requires Unique(xs, name) && Unique(ys, name) && forall x :: x in xs <==> x in ys
    ensures Named(xs, name, n) == Named(ys, name, n)
  {
    NamedMeaning(xs, name, n);
    NamedMeaning(ys, name, n);
    if Named(xs, name, n).Some? {
      UniqueNamed(ys, name, Named(xs, name, n).value);
    }
  }

  /** List order never reaches a digest. */
  lemma OrderNeverMatters(scope: Scope, a: Manifest, b: Manifest)
    requires UniqueNames(a) && UniqueNames(b) && Reordered(a, b)
    ensures ProjectionOf(a, scope) == ProjectionOf(b, scope)
  {
    hide ProjectionOf, ImageContentID, SameCalibration;
    forall n
      ensures Named(a.prompts, PromptKey(), n) == Named(b.prompts, PromptKey(), n)
      ensures Named(a.tools, ToolKey(), n) == Named(b.tools, ToolKey(), n)
      ensures Named(a.judges, JudgeKey(), n) == Named(b.judges, JudgeKey(), n)
    {
      SameMembersSameNamed(a.prompts, b.prompts, PromptKey(), n);
      SameMembersSameNamed(a.tools, b.tools, ToolKey(), n);
      SameMembersSameNamed(a.judges, b.judges, JudgeKey(), n);
    }
    forall j: Judge
      ensures SameCalibration(j, j)
    {
      CalibrationReflexive(j);
    }
    ProjectionMeaning(scope, a, b);
  }

  lemma CalibrationReflexive(j: Judge)
    ensures SameCalibration(j, j)
  {
  }
}
