/** The manifest's fields, and which of them determine behaviour (`internal/digest/classify.go`). */
module Classification {
  import opened Basics

  datatype Scope = Behavior | Content

  datatype Inclusion = InBoth | ContentOnly

  datatype Absence = Required | DistinctZero | EmptyIsAbsent

  datatype Class = Class(inclusion: Inclusion, absent: Absence)

  datatype Field =
    | Agent | CodeImage
    | ModelProvider | ModelId | ModelPin | Temperature | TopP | TopK | MaxTokens | StopSequences
    | PromptName | PromptSource | PromptDigest
    | ToolName | ToolServer | ToolContract | ToolEffect | ToolReplayPolicy
    | IndexSnapshot | EmbeddingModel
    | BundleDigest
    | JudgeName | JudgeModel | JudgeRubric | JudgeKappa | JudgeGoldSet | JudgeMeasuredAt

  /** The registry. Every field has an entry, by construction. */
  function Lookup(f: Field): Class {
    match f
    case Agent | CodeImage | ModelProvider | ModelId => Class(InBoth, Required)
    case ModelPin | StopSequences => Class(InBoth, EmptyIsAbsent)
    case Temperature | TopP | TopK | MaxTokens => Class(InBoth, DistinctZero)
    case PromptName | PromptDigest => Class(InBoth, Required)
    case PromptSource => Class(ContentOnly, EmptyIsAbsent)
    case ToolName | ToolContract | ToolEffect => Class(InBoth, Required)
    case ToolServer | ToolReplayPolicy => Class(InBoth, EmptyIsAbsent)
    case IndexSnapshot | EmbeddingModel => Class(InBoth, EmptyIsAbsent)
    case BundleDigest => Class(InBoth, Required)
    case JudgeName | JudgeModel | JudgeRubric => Class(InBoth, Required)
    case JudgeKappa => Class(ContentOnly, DistinctZero)
    case JudgeGoldSet | JudgeMeasuredAt => Class(ContentOnly, EmptyIsAbsent)
  }

  predicate Included(scope: Scope, f: Field) {
    !(scope == Behavior && Lookup(f).inclusion == ContentOnly)
  }
}

/** JSON objects built by setting dotted paths (`internal/digest/project.go`, lines 170-183). */
module JsonPaths {
  import opened Basics

  /** The segments of every path a projection uses. */
  datatype Key =
    | KAgent | KCode | KImage | KImageDigest
    | KModel | KProvider | KId | KPin | KParams | KTemperature | KTopP | KTopK | KMaxTokens | KStopSequences
    | KPrompts | KTools | KJudges | KName | KSource | KDigest | KServer | KContractDigest | KEffect | KReplayPolicy
    | KRetrieval | KIndexSnapshot | KEmbeddingModel | KPolicy | KBundleDigest
    | KModelName | KRubricDigest | KCalibration | KKappa | KGoldSetDigest | KMeasuredAt

  /** A dotted path: its last segment, or a segment and the rest. */
  datatype Path = Last(key: Key) | Dot(key: Key, rest: Path)

  datatype Json = JString(s: string) | JNumber(n: real) | JArray(items: seq<Json>) | JObject(fields: map<Key, Json>)

  /** The object already under a key, or a new one. */
  function Under(m: map<Key, Json>, k: Key): map<Key, Json> {
    if k in m && m[k].JObject? then m[k].fields else map[]
  }

  /** Write a value at a path, creating intermediate objects. */
  function SetPath(m: map<Key, Json>, path: Path, v: Json): map<Key, Json>
    decreases path
  {
    match path
    case Last(k) => m[k := v]
    case Dot(k, rest) => m[k := JObject(SetPath(Under(m, k), rest, v))]
  }

  function Read(m: map<Key, Json>, path: Path): Option<Json>
    decreases path
  {
    match path
    case Last(k) => if k in m then Some(m[k]) else None
    case Dot(k, rest) => Read(Under(m, k), rest)
  }

  /** Neither path leads through the other. */
  predicate Apart(p: Path, q: Path) {
    p.key != q.key || (p.Dot? && q.Dot? && Apart(p.rest, q.rest))
  }

  lemma {:induction false} ReadWhatWasSet(m: map<Key, Json>, p: Path, v: Json)
    ensures Read(SetPath(m, p, v), p) == Some(v)
    decreases p
  {
    if p.Dot? {
      ReadWhatWasSet(Under(m, p.key), p.rest, v);
    }
  }

  lemma {:induction false} SetElsewhere(m: map<Key, Json>, p: Path, q: Path, v: Json)
    requires Apart(p, q)
    ensures Read(SetPath(m, p, v), q) == Read(m, q)
    decreases p
  {
    if p.key == q.key {
      SetElsewhere(Under(m, p.key), p.rest, q.rest, v);
    }
  }

  lemma {:induction false} ReadNothing(path: Path)
    ensures Read(map[], path) == None
  {
    if path.Dot? {
      ReadNothing(path.rest);
    }
  }

  /** A number for each path a projection writes values at, and -1 for every other path. The two forms an image can
      take share one. */
  function Slot(p: Path): int {
    match p
    case Last(k) => if TopSlot(k) >= 0 then TopSlot(k) else ItemSlot(k)
    case Dot(o, Last(k)) =>
      if o == KCode then CodeSlot(k) else if o == KModel then ModelSlot(k) else if o == KRetrieval then RetrievalSlot(k)
      else if o == KPolicy then PolicySlot(k) else if o == KCalibration then CalibrationSlot(k) else -1
    case Dot(o, Dot(q, Last(k))) => if o == KModel && q == KParams then ParamSlot(k) else -1
    case _ => -1
  }

  function TopSlot(k: Key): int {
    if k == KAgent then 0 else if k == KPrompts then 10 else if k == KTools then 11 else if k == KJudges then 15 else -1
  }

  function CodeSlot(k: Key): int { if k == KImage || k == KImageDigest then 1 else -1 }

  function ModelSlot(k: Key): int {
    if k == KProvider then 2 else if k == KId then 3 else if k == KPin then 4 else -1
  }

  function ParamSlot(k: Key): int {
    if k == KTemperature then 5 else if k == KTopP then 6 else if k == KTopK then 7
    else if k == KMaxTokens then 8 else if k == KStopSequences then 9 else -1
  }

  function RetrievalSlot(k: Key): int { if k == KIndexSnapshot then 12 else if k == KEmbeddingModel then 13 else -1 }

  function PolicySlot(k: Key): int { if k == KBundleDigest then 14 else -1 }

  function ItemSlot(k: Key): int {
    if k == KName then 20 else if k == KSource then 21 else if k == KDigest then 22 else if k == KServer then 23
    else if k == KContractDigest then 24 else if k == KEffect then 25 else if k == KReplayPolicy then 26
    else if k == KModelName then 27 else if k == KRubricDigest then 28 else -1
  }

  function CalibrationSlot(k: Key): int {
    if k == KKappa then 29 else if k == KGoldSetDigest then 30 else if k == KMeasuredAt then 31 else -1
  }

  lemma SlotsAreApart(p: Path, q: Path)
    requires Slot(p) >= 0 && Slot(q) >= 0 && Slot(p) != Slot(q)
    ensures Apart(p, q)
  {
    if p.key == q.key {
      LongerElsewhere(p, q);
      LongerElsewhere(q, p);
    }
  }

  /** No projected path with one name less leads to another. */
  lemma LongerElsewhere(p: Path, q: Path)
    requires Slot(p) >= 0 && Slot(q) >= 0 && p.key == q.key
    ensures p.Last? ==> q.Last?
    ensures p.Dot? && p.rest.Last? && q.Dot? && q.rest.Dot? ==> p.rest.key != q.rest.key
  {
  }

  // ---- Objects as lists of optional entries ----

  datatype Entry = Entry(path: Path, value: Option<Json>)

  /** The entries' paths are among those projected, and no two are the same. */
  ghost predicate Separate(entries: seq<Entry>) {
    && (forall i :: 0 <= i < |entries| ==> Slot(entries[i].path) >= 0)
    && (forall i, j :: 0 <= i < j < |entries| ==> Slot(entries[i].path) != Slot(entries[j].path))
  }

  function Put(m: map<Key, Json>, e: Entry): map<Key, Json> {
    if e.value.Some? then SetPath(m, e.path, e.value.value) else m
  }

  /** The object left by writing the entries that have a value, in order. */
  function Build(entries: seq<Entry>): map<Key, Json> {
    if entries == [] then map[] else Put(Build(entries[..|entries| - 1]), entries[|entries| - 1])
  }

  lemma {:induction false} NothingThere(entries: seq<Entry>, q: Path)
    requires forall i :: 0 <= i < |entries| ==> Apart(entries[i].path, q)
    ensures Read(Build(entries), q) == None
  {
    if entries == [] {
      ReadNothing(q);
    } else {
      var front, last := entries[..|entries| - 1], entries[|entries| - 1];
      NothingThere(front, q);
      if last.value.Some? {
        SetElsewhere(Build(front), last.path, q, last.value.value);
      }
    }
  }

  /** Each entry can be read back from the object. */
  lemma {:induction false} ReadEntry(entries: seq<Entry>, i: nat)
    requires Separate(entries) && i < |entries|
    ensures Read(Build(entries), entries[i].path) == entries[i].value
  {
    var front, last := entries[..|entries| - 1], entries[|entries| - 1];
    if i < |entries| - 1 {
      ReadEntry(front, i);
      SlotsAreApart(last.path, entries[i].path);
      if last.value.Some? {
        SetElsewhere(Build(front), last.path, entries[i].path, last.value.value);
      }
    } else {
      forall k | 0 <= k < |front|
        ensures Apart(front[k].path, last.path)
      {
        SlotsAreApart(entries[k].path, last.path);
      }
      NothingThere(front, last.path);
      if last.value.Some? {
        ReadWhatWasSet(Build(front), last.path, last.value.value);
      }
    }
  }

  ghost predicate SamePaths(one: seq<Entry>, other: seq<Entry>) {
    |one| == |other| && forall i :: 0 <= i < |one| ==> one[i].path == other[i].path
  }

  /** Over separate paths, an object determines which entries had which values. */
  lemma BuildIsInjective(one: seq<Entry>, other: seq<Entry>)
    requires Separate(one) && SamePaths(one, other)
    ensures Build(one) == Build(other) <==> one == other
  {
    if Build(one) == Build(other) {
      forall i | 0 <= i < |one|
        ensures one[i] == other[i]
      {
        ReadEntry(one, i);
        ReadEntry(other, i);
      }
    }
  }
}

/** The values that get canonicalised and hashed (`internal/digest/project.go`). */
module Projection {
  import opened Basics
  import opened Sorting
  import opened Classification
  import opened JsonPaths

  // ---- The manifest ----

  /** Nanoseconds since the Unix epoch. */
  datatype Instant = Instant(nanoseconds: int)

  /** The first instant of year 1, which counts as no time at all. */
  const ZERO_TIME := Instant(-62_135_596_800_000_000_000)

  datatype Calibration = Calibration(kappa: Option<real>, goldSetDigest: string, measuredAt: Option<Instant>)

  datatype Prompt = Prompt(name: string, source: string, digest: string)

  datatype ToolRef = ToolRef(name: string, server: string, contractDigest: string, effect: string, replayPolicy: string)

  datatype Judge = Judge(name: string, model: string, rubricDigest: string, calibration: Option<Calibration>)

  datatype Retrieval = Retrieval(indexSnapshot: string, embeddingModel: string)

  datatype Manifest = Manifest(
    agent: string, image: string, provider: string, modelId: string, pin: string,
    temperature: Option<real>, topP: Option<real>, topK: Option<int>, maxTokens: Option<int>, stopSequences: seq<string>,
    prompts: seq<Prompt>, tools: seq<ToolRef>, retrieval: Option<Retrieval>, policy: Option<string>, judges: seq<Judge>)

  // ---- Single values ----

  /** The part after the first `@`, or the whole reference without one. */
  function ImageContentID(ref: string): string {
    if ref == "" then "" else if ref[0] == '@' then ref[1..] else
      var rest := ImageContentID(ref[1..]);
      if '@' in ref[1..] then rest else ref
  }

  function StrValue(scope: Scope, f: Field, v: string): Option<Json> {
    if !Included(scope, f) || (Lookup(f).absent == EmptyIsAbsent && v == "") then None else Some(JString(v))
  }

  function StrsValue(scope: Scope, f: Field, v: seq<string>): Option<Json> {
    if !Included(scope, f) || (Lookup(f).absent == EmptyIsAbsent && v == []) then None
    else Some(JArray(Strings(v)))
  }

  function Strings(v: seq<string>): seq<Json> { seq(|v|, i requires 0 <= i < |v| => JString(v[i])) }

  function RealValue(scope: Scope, f: Field, v: Option<real>): Option<Json> {
    if !Included(scope, f) || v.None? then None else Some(JNumber(v.value))
  }

  function IntValue(scope: Scope, f: Field, v: Option<int>): Option<Json> {
    if !Included(scope, f) || v.None? then None else Some(JNumber(v.value as real))
  }

  /** The whole second an instant falls in; the zero time counts as absent. */
  function Second(v: Option<Instant>): Option<int> {
    if v.None? || v.value == ZERO_TIME then None else Some(v.value.nanoseconds / 1_000_000_000)
  }

  // ---- List elements ----

  function ByName<T>(name: T -> string): (T, T) -> bool { (a: T, b: T) => StringLeq(name(a), name(b)) }

  function PromptKey(): Prompt -> string { (p: Prompt) => p.name }

  function ToolKey(): ToolRef -> string { (t: ToolRef) => t.name }

  function JudgeKey(): Judge -> string { (j: Judge) => j.name }

  function PromptEntries(scope: Scope, p: Prompt): seq<Entry> {
    [Entry(Last(KName), StrValue(scope, PromptName, p.name)),
     Entry(Last(KSource), StrValue(scope, PromptSource, p.source)),
     Entry(Last(KDigest), StrValue(scope, PromptDigest, p.digest))]
  }

  function ToolEntries(scope: Scope, t: ToolRef): seq<Entry> {
    [Entry(Last(KName), StrValue(scope, ToolName, t.name)),
     Entry(Last(KServer), StrValue(scope, ToolServer, t.server)),
     Entry(Last(KContractDigest), StrValue(scope, ToolContract, t.contractDigest)),
     Entry(Last(KEffect), StrValue(scope, ToolEffect, t.effect)),
     Entry(Last(KReplayPolicy), StrValue(scope, ToolReplayPolicy, t.replayPolicy))]
  }

  /** A judge without a calibration contributes no calibration entries. */
  function CalibrationOf(j: Judge): Calibration {
    if j.calibration.Some? then j.calibration.value else Calibration(None, "", None)
  }

  function JudgeEntries(scope: Scope, j: Judge): seq<Entry> {
    var c := CalibrationOf(j);
    [Entry(Last(KName), StrValue(scope, JudgeName, j.name)),
     Entry(Last(KModelName), StrValue(scope, JudgeModel, j.model)),
     Entry(Last(KRubricDigest), StrValue(scope, JudgeRubric, j.rubricDigest)),
     Entry(Dot(KCalibration, Last(KKappa)), RealValue(scope, JudgeKappa, c.kappa)),
     Entry(Dot(KCalibration, Last(KGoldSetDigest)), StrValue(scope, JudgeGoldSet, c.goldSetDigest)),
     Entry(Dot(KCalibration, Last(KMeasuredAt)), IntValue(scope, JudgeMeasuredAt, Second(c.measuredAt)))]
  }

  function PromptItem(scope: Scope, p: Prompt): Json { JObject(Build(PromptEntries(scope, p))) }

  function ToolItem(scope: Scope, t: ToolRef): Json { JObject(Build(ToolEntries(scope, t))) }

  function JudgeItem(scope: Scope, j: Judge): Json { JObject(Build(JudgeEntries(scope, j))) }

  function ListValue(items: seq<Json>): Option<Json> { if items == [] then None else Some(JArray(items)) }

  function PromptItems(scope: Scope, ps: seq<Prompt>): seq<Json> {
    seq(|ps|, i requires 0 <= i < |ps| => PromptItem(scope, ps[i]))
  }

  function ToolItems(scope: Scope, ts: seq<ToolRef>): seq<Json> {
    seq(|ts|, i requires 0 <= i < |ts| => ToolItem(scope, ts[i]))
  }

  function JudgeItems(scope: Scope, js: seq<Judge>): seq<Json> {
    seq(|js|, i requires 0 <= i < |js| => JudgeItem(scope, js[i]))
  }

  // ---- The whole projection ----

  function RetrievalOf(m: Manifest): Retrieval { if m.retrieval.Some? then m.retrieval.value else Retrieval("", "") }

  function ImageEntry(m: Manifest, scope: Scope): Entry {
    if scope == Behavior then Entry(Dot(KCode, Last(KImageDigest)), Some(JString(ImageContentID(m.image))))
    else Entry(Dot(KCode, Last(KImage)), Some(JString(m.image)))
  }

  function ModelEntries(m: Manifest, scope: Scope): seq<Entry> {
    [Entry(Last(KAgent), StrValue(scope, Agent, m.agent)),
     ImageEntry(m, scope),
     Entry(Dot(KModel, Last(KProvider)), StrValue(scope, ModelProvider, m.provider)),
     Entry(Dot(KModel, Last(KId)), StrValue(scope, ModelId, m.modelId)),
     Entry(Dot(KModel, Last(KPin)), StrValue(scope, ModelPin, m.pin)),
     Entry(Dot(KModel, Dot(KParams, Last(KTemperature))), RealValue(scope, Temperature, m.temperature)),
     Entry(Dot(KModel, Dot(KParams, Last(KTopP))), RealValue(scope, TopP, m.topP)),
     Entry(Dot(KModel, Dot(KParams, Last(KTopK))), IntValue(scope, TopK, m.topK)),
     Entry(Dot(KModel, Dot(KParams, Last(KMaxTokens))), IntValue(scope, MaxTokens, m.maxTokens)),
     Entry(Dot(KModel, Dot(KParams, Last(KStopSequences))), StrsValue(scope, StopSequences, m.stopSequences))]
  }

  function CatalogueEntries(m: Manifest, scope: Scope): seq<Entry> {
    [Entry(Last(KPrompts), ListValue(PromptItems(scope, Sort(m.prompts, ByName(PromptKey()))))),
     Entry(Last(KTools), ListValue(ToolItems(scope, Sort(m.tools, ByName(ToolKey())))))]
  }

  function ContextEntries(m: Manifest, scope: Scope): seq<Entry> {
    [Entry(Dot(KRetrieval, Last(KIndexSnapshot)), StrValue(scope, IndexSnapshot, RetrievalOf(m).indexSnapshot)),
     Entry(Dot(KRetrieval, Last(KEmbeddingModel)), StrValue(scope, EmbeddingModel, RetrievalOf(m).embeddingModel)),
     Entry(Dot(KPolicy, Last(KBundleDigest)), if m.policy.Some? then StrValue(scope, BundleDigest, m.policy.value) else None)]
  }

  function JudgeListEntries(m: Manifest, scope: Scope): seq<Entry> {
    [Entry(Last(KJudges), ListValue(JudgeItems(scope, Sort(m.judges, ByName(JudgeKey())))))]
  }

  /** Every entry of a projection, in the order it is written. */
  function Entries(m: Manifest, scope: Scope): seq<Entry> {
    ModelEntries(m, scope) + CatalogueEntries(m, scope) + ContextEntries(m, scope) + JudgeListEntries(m, scope)
  }

  function ProjectionOf(m: Manifest, scope: Scope): map<Key, Json> { Build(Entries(m, scope)) }

  // ---- The builder ----

  /** Accumulates one projected object. */
  class Proj {
    const scope: Scope
    var out: map<Key, Json>
    ghost var written: seq<Entry>

    ghost predicate Valid()
      reads this
    {
      out == Build(written)
    }

    constructor (scope: Scope)
      ensures Valid() && written == [] && this.scope == scope
    {
      this.scope := scope;
      out, written := map[], [];
    }

    ghost method Log(e: Entry)
      requires out == Put(Build(written), e)
      modifies this`written
      ensures Valid() && written == old(written) + [e]
    {
      written := written + [e];
      assert written[..|written| - 1] == old(written);
    }

    method Str(path: Path, f: Field, v: string)
      requires Valid()
      modifies this
      ensures Valid() && written == old(written) + [Entry(path, StrValue(scope, f, v))]
    {
      if Included(scope, f) && !(Lookup(f).absent == EmptyIsAbsent && v == "") {
        out := SetPath(out, path, JString(v));
      }
      Log(Entry(path, StrValue(scope, f, v)));
    }

    method Image(m: Manifest)
      requires Valid()
      modifies this
      ensures Valid() && written == old(written) + [ImageEntry(m, scope)]
    {
      if scope == Behavior {
        out := SetPath(out, Dot(KCode, Last(KImageDigest)), JString(ImageContentID(m.image)));
      } else {
        out := SetPath(out, Dot(KCode, Last(KImage)), JString(m.image));
      }
      Log(ImageEntry(m, scope));
    }

    /** An absent object is not written. */
    ghost method Skip(path: Path)
      requires Valid()
      modifies this`written
      ensures Valid() && written == old(written) + [Entry(path, None)]
    {
      Log(Entry(path, None));
    }

    method Strs(path: Path, f: Field, v: seq<string>)
      requires Valid()
      modifies this
      ensures Valid() && written == old(written) + [Entry(path, StrsValue(scope, f, v))]
    {
      if Included(scope, f) && !(Lookup(f).absent == EmptyIsAbsent && v == []) {
        var items: seq<Json> := [];
        for i := 0 to |v|
          invariant |items| == i && forall k :: 0 <= k < i ==> items[k] == JString(v[k])
          invariant out == old(out) && written == old(written)
        {
          items := items + [JString(v[i])];
        }
        assert items == Strings(v);
        out := SetPath(out, path, JArray(items));
      }
      Log(Entry(path, StrsValue(scope, f, v)));
    }

    method F64(path: Path, f: Field, v: Option<real>)
      requires Valid()
      modifies this
      ensures Valid() && written == old(written) + [Entry(path, RealValue(scope, f, v))]
    {
      if Included(scope, f) && v.Some? {
        out := SetPath(out, path, JNumber(v.value));
      }
      Log(Entry(path, RealValue(scope, f, v)));
    }

    method I64(path: Path, f: Field, v: Option<int>)
      requires Valid()
      modifies this
      ensures Valid() && written == old(written) + [Entry(path, IntValue(scope, f, v))]
    {
      if Included(scope, f) && v.Some? {
        out := SetPath(out, path, JNumber(v.value as real));
      }
      Log(Entry(path, IntValue(scope, f, v)));
    }

    method Items(path: Path, items: seq<Json>)
      requires Valid()
      modifies this
      ensures Valid() && written == old(written) + [Entry(path, ListValue(items))]
    {
      if |items| > 0 {
        out := SetPath(out, path, JArray(items));
      }
      Log(Entry(path, ListValue(items)));
    }
  }

  method ProjectPrompt(p: Prompt, scope: Scope) returns (item: Json)
    ensures item == PromptItem(scope, p)
  {
    hide StrValue, Build;
    var e := new Proj(scope);
    e.Str(Last(KName), PromptName, p.name);
    e.Str(Last(KSource), PromptSource, p.source);
    e.Str(Last(KDigest), PromptDigest, p.digest);
    assert e.written == PromptEntries(scope, p);
    return JObject(e.out);
  }

  method ProjectTool(t: ToolRef, scope: Scope) returns (item: Json)
    ensures item == ToolItem(scope, t)
  {
    hide StrValue, Build;
    var e := new Proj(scope);
    e.Str(Last(KName), ToolName, t.name);
    e.Str(Last(KServer), ToolServer, t.server);
    e.Str(Last(KContractDigest), ToolContract, t.contractDigest);
    e.Str(Last(KEffect), ToolEffect, t.effect);
    e.Str(Last(KReplayPolicy), ToolReplayPolicy, t.replayPolicy);
    assert e.written == ToolEntries(scope, t);
    return JObject(e.out);
  }

  method ProjectJudge(j: Judge, scope: Scope) returns (item: Json)
    ensures item == JudgeItem(scope, j)
  {
    hide StrValue, RealValue, IntValue, Second, Build;
    var c := CalibrationOf(j);
    var e := new Proj(scope);
    e.Str(Last(KName), JudgeName, j.name);
    e.Str(Last(KModelName), JudgeModel, j.model);
    e.Str(Last(KRubricDigest), JudgeRubric, j.rubricDigest);
    e.F64(Dot(KCalibration, Last(KKappa)), JudgeKappa, c.kappa);
    e.Str(Dot(KCalibration, Last(KGoldSetDigest)), JudgeGoldSet, c.goldSetDigest);
    e.I64(Dot(KCalibration, Last(KMeasuredAt)), JudgeMeasuredAt, Second(c.measuredAt));
    assert e.written == JudgeEntries(scope, j);
    return JObject(e.out);
  }

  method ProjectPrompts(ps: seq<Prompt>, scope: Scope) returns (items: seq<Json>)
    ensures items == PromptItems(scope, ps)
  {
    hide PromptItem;
    items := [];
    for i := 0 to |ps|
      invariant |items| == i && forall k :: 0 <= k < i ==> items[k] == PromptItem(scope, ps[k])
    {
      var item := ProjectPrompt(ps[i], scope);
      items := items + [item];
    }
  }

  method ProjectTools(ts: seq<ToolRef>, scope: Scope) returns (items: seq<Json>)
    ensures items == ToolItems(scope, ts)
  {
    hide ToolItem;
    items := [];
    for i := 0 to |ts|
      invariant |items| == i && forall k :: 0 <= k < i ==> items[k] == ToolItem(scope, ts[k])
    {
      var item := ProjectTool(ts[i], scope);
      items := items + [item];
    }
  }

  method ProjectJudges(js: seq<Judge>, scope: Scope) returns (items: seq<Json>)
    ensures items == JudgeItems(scope, js)
  {
    hide JudgeItem;
    items := [];
    for i := 0 to |js|
      invariant |items| == i && forall k :: 0 <= k < i ==> items[k] == JudgeItem(scope, js[k])
    {
      var item := ProjectJudge(js[i], scope);
      items := items + [item];
    }
  }

  /** The scalar fields of code and model. */
  method ProjectModel(p: Proj, m: Manifest)
    requires p.Valid() && p.written == []
    modifies p
    ensures p.Valid() && p.written == ModelEntries(m, p.scope)
  {
    hide StrValue, RealValue, IntValue, StrsValue, Build, ImageEntry, PromptItems, ToolItems, JudgeItems, ListValue;
    p.Str(Last(KAgent), Agent, m.agent);
    p.Image(m);
    p.Str(Dot(KModel, Last(KProvider)), ModelProvider, m.provider);
    p.Str(Dot(KModel, Last(KId)), ModelId, m.modelId);
    p.Str(Dot(KModel, Last(KPin)), ModelPin, m.pin);
    p.F64(Dot(KModel, Dot(KParams, Last(KTemperature))), Temperature, m.temperature);
    p.F64(Dot(KModel, Dot(KParams, Last(KTopP))), TopP, m.topP);
    p.I64(Dot(KModel, Dot(KParams, Last(KTopK))), TopK, m.topK);
    p.I64(Dot(KModel, Dot(KParams, Last(KMaxTokens))), MaxTokens, m.maxTokens);
    p.Strs(Dot(KModel, Dot(KParams, Last(KStopSequences))), StopSequences, m.stopSequences);
  }

  method ProjectContext(p: Proj, m: Manifest)
    requires p.Valid()
    modifies p
    ensures p.Valid() && p.written == old(p.written) + ContextEntries(m, p.scope)
  {
    hide StrValue, Build;
    p.Str(Dot(KRetrieval, Last(KIndexSnapshot)), IndexSnapshot, RetrievalOf(m).indexSnapshot);
    p.Str(Dot(KRetrieval, Last(KEmbeddingModel)), EmbeddingModel, RetrievalOf(m).embeddingModel);
    if m.policy.Some? {
      p.Str(Dot(KPolicy, Last(KBundleDigest)), BundleDigest, m.policy.value);
    } else {
      p.Skip(Dot(KPolicy, Last(KBundleDigest)));
    }
  }

  method ProjectCatalogue(p: Proj, m: Manifest)
    requires p.Valid()
    modifies p
    ensures p.Valid() && p.written == old(p.written) + CatalogueEntries(m, p.scope)
  {
    hide Build, PromptItems, ToolItems, ListValue, Sort;
    var prompts := ProjectPrompts(Sort(m.prompts, ByName(PromptKey())), p.scope);
    p.Items(Last(KPrompts), prompts);
    var tools := ProjectTools(Sort(m.tools, ByName(ToolKey())), p.scope);
    p.Items(Last(KTools), tools);
  }

  method Project(m: Manifest, scope: Scope) returns (out: map<Key, Json>)
    ensures out == ProjectionOf(m, scope)
  {
    hide Build, ModelEntries, CatalogueEntries, ContextEntries, JudgeItems, ListValue, Sort;
    var p := new Proj(scope);
    ProjectModel(p, m);
    ProjectCatalogue(p, m);
    ProjectContext(p, m);
    var judges := ProjectJudges(Sort(m.judges, ByName(JudgeKey())), scope);
    p.Items(Last(KJudges), judges);
    return p.out;
  }
}
