/** Where each field of a manifest is found in its projection (`internal/digest/project.go`, `internal/digest/classify.go`). */
module ProjectionFields {
  import opened Basics
  import opened Sorting
  import opened Classification
  import opened JsonPaths
  import opened Projection
  import opened Identity

  // ---- What a field's value becomes ----

  function Written(s: string): Option<Json> { Some(JString(s)) }

  function WrittenUnlessEmpty(s: string): Option<Json> { if s == "" then None else Some(JString(s)) }

  function NumberIfAny(v: Option<real>): Option<Json> { if v.Some? then Some(JNumber(v.value)) else None }

  function WholeIfAny(v: Option<int>): Option<Json> { if v.Some? then Some(JNumber(v.value as real)) else None }

  // ---- Images ----

  lemma {:induction false} AtFirst(before: string, after: string)
    requires '@' !in before
    ensures ImageContentID(before + "@" + after) == after
  {
    var ref := before + "@" + after;
    if before == "" {
      assert ref == "@" + after && ref[1..] == after;
    } else {
      AtFirst(before[1..], after);
      assert ref[1..] == before[1..] + "@" + after;
      assert ref[1..][|before| - 1] == '@';
    }
  }

  /** The behavioural identity of an image is what follows the first `@` of its reference, and without one the whole
      reference. */
  lemma {:induction false} ImageMeaning(ref: string)
    ensures '@' !in ref ==> ImageContentID(ref) == ref
    ensures forall before, after :: ref == before + "@" + after && '@' !in before ==> ImageContentID(ref) == after
  {
    if ref != "" && '@' !in ref {
      assert ref[0] in ref;
      assert '@' !in ref[1..];
    }
    forall before, after | ref == before + "@" + after && '@' !in before
      ensures ImageContentID(ref) == after
    {
      AtFirst(before, after);
    }
  }

  // ---- Items ----

  lemma PromptFields(scope: Scope, p: Prompt)
    ensures var item := PromptItem(scope, p);
            && item.JObject?
            && Read(item.fields, Last(KName)) == Written(p.name)
            && Read(item.fields, Last(KDigest)) == Written(p.digest)
            && Read(item.fields, Last(KSource)) == if scope == Behavior then None else WrittenUnlessEmpty(p.source)
  {
    hide Build, Read, Slot, Separate;
    var e := PromptEntries(scope, p);
    PromptSlots(scope, p);
    ReadEntry(e, 0);
    ReadEntry(e, 1);
    ReadEntry(e, 2);
  }

  lemma ToolFields(scope: Scope, t: ToolRef)
    ensures var item := ToolItem(scope, t);
            && item.JObject?
            && Read(item.fields, Last(KName)) == Written(t.name)
            && Read(item.fields, Last(KServer)) == WrittenUnlessEmpty(t.server)
            && Read(item.fields, Last(KContractDigest)) == Written(t.contractDigest)
            && Read(item.fields, Last(KEffect)) == Written(t.effect)
            && Read(item.fields, Last(KReplayPolicy)) == WrittenUnlessEmpty(t.replayPolicy)
  {
    hide Build, Read, Slot, Separate;
    var e := ToolEntries(scope, t);
    ToolSlots(scope, t);
    ReadEntry(e, 0);
    ReadEntry(e, 1);
    ReadEntry(e, 2);
    ReadEntry(e, 3);
    ReadEntry(e, 4);
  }

  /** The second written is the last one not after the instant. */
  ghost predicate MeasuredAtIs(written: Option<Json>, at: Option<Instant>) {
    if at.None? || at.value.nanoseconds == -62_135_596_800_000_000_000 then written == None
    else exists second: int :: written == Some(JNumber(second as real))
                               && second * 1_000_000_000 <= at.value.nanoseconds < (second + 1) * 1_000_000_000
  }

  lemma SecondMeaning(at: Option<Instant>)
    ensures MeasuredAtIs(WholeIfAny(Second(at)), at)
  {
    if Second(at).Some? {
      var second, ns := Second(at).value, at.value.nanoseconds;
      assert second * 1_000_000_000 <= ns < (second + 1) * 1_000_000_000;
    }
  }

  lemma JudgeEntryReads(scope: Scope, j: Judge, i: nat)
    requires i < 6
    ensures |JudgeEntries(scope, j)| == 6 && JudgeItem(scope, j).JObject?
    ensures Read(JudgeItem(scope, j).fields, JudgeEntries(scope, j)[i].path) == JudgeEntries(scope, j)[i].value
  {
    hide Build, Read, Slot, Separate, StrValue, RealValue, IntValue, CalibrationOf, Second;
    JudgeSlots(scope, j);
    ReadEntry(JudgeEntries(scope, j), i);
  }

  lemma JudgeFields(scope: Scope, j: Judge)
    ensures var item := JudgeItem(scope, j);
            && item.JObject?
            && Read(item.fields, Last(KName)) == Written(j.name)
            && Read(item.fields, Last(KModelName)) == Written(j.model)
            && Read(item.fields, Last(KRubricDigest)) == Written(j.rubricDigest)
  {
    hide JudgeItem, Read, RealValue, IntValue, CalibrationOf, Second;
    JudgeEntryReads(scope, j, 0);
    JudgeEntryReads(scope, j, 1);
    JudgeEntryReads(scope, j, 2);
  }

  lemma CalibrationReads(scope: Scope, j: Judge)
    ensures JudgeItem(scope, j).JObject?
    ensures var fields, c := JudgeItem(scope, j).fields, CalibrationOf(j);
            && Read(fields, Dot(KCalibration, Last(KKappa))) == RealValue(scope, JudgeKappa, c.kappa)
            && Read(fields, Dot(KCalibration, Last(KGoldSetDigest))) == StrValue(scope, JudgeGoldSet, c.goldSetDigest)
            && Read(fields, Dot(KCalibration, Last(KMeasuredAt))) == IntValue(scope, JudgeMeasuredAt, Second(c.measuredAt))
  {
    hide JudgeItem, Read, Second, CalibrationOf, RealValue, StrValue, IntValue;
    JudgeEntryReads(scope, j, 3);
    JudgeEntryReads(scope, j, 4);
    JudgeEntryReads(scope, j, 5);
  }

  /** A judge's calibration is recorded in content only, to the whole second it was measured in, and not at all at the zero
      time. */
  lemma CalibrationFields(scope: Scope, j: Judge)
    ensures JudgeItem(scope, j).JObject?
    ensures var fields := JudgeItem(scope, j).fields;
            if scope == Behavior || j.calibration.None? then
              && Read(fields, Dot(KCalibration, Last(KKappa))) == None
              && Read(fields, Dot(KCalibration, Last(KGoldSetDigest))) == None
              && Read(fields, Dot(KCalibration, Last(KMeasuredAt))) == None
            else
              var c := j.calibration.value;
              && Read(fields, Dot(KCalibration, Last(KKappa))) == NumberIfAny(c.kappa)
              && Read(fields, Dot(KCalibration, Last(KGoldSetDigest))) == WrittenUnlessEmpty(c.goldSetDigest)
              && MeasuredAtIs(Read(fields, Dot(KCalibration, Last(KMeasuredAt))), c.measuredAt)
  {
    hide JudgeItem, JudgeEntries, Read, MeasuredAtIs;
    SecondMeaning(CalibrationOf(j).measuredAt);
    CalibrationReads(scope, j);
  }

  // ---- The whole projection ----

  lemma EntryReads(m: Manifest, scope: Scope, i: nat)
    requires i < 16
    ensures |Entries(m, scope)| == 16
    ensures Read(ProjectionOf(m, scope), Entries(m, scope)[i].path) == Entries(m, scope)[i].value
  {
    hide Entries, Read, Build, Slot, Separate;
    EntriesAreSeparate(m, scope);
    ReadEntry(Entries(m, scope), i);
  }

  lemma ModelEntryReads(m: Manifest, scope: Scope, i: nat)
    requires i < 10
    ensures |ModelEntries(m, scope)| == 10
    ensures Read(ProjectionOf(m, scope), ModelEntries(m, scope)[i].path) == ModelEntries(m, scope)[i].value
  {
    hide Entries, Read, Build, ProjectionOf, ModelEntries, CatalogueEntries, ContextEntries, JudgeListEntries, Slot;
    ModelSlots(m, scope);
    GroupsOf(scope, m);
    EntryReads(m, scope, i);
    assert Entries(m, scope)[i] == Entries(m, scope)[..10][i];
  }

  /** Each field of the agent, its image and its model is found at its own path. */
  lemma ModelFields(m: Manifest, scope: Scope)
    ensures var p := ProjectionOf(m, scope);
            && Read(p, Last(KAgent)) == Written(m.agent)
            && (scope == Behavior ==> Read(p, Dot(KCode, Last(KImageDigest))) == Written(ImageContentID(m.image)))
            && (scope == Content ==> Read(p, Dot(KCode, Last(KImage))) == Written(m.image))
            && Read(p, Dot(KModel, Last(KProvider))) == Written(m.provider)
            && Read(p, Dot(KModel, Last(KId))) == Written(m.modelId)
            && Read(p, Dot(KModel, Last(KPin))) == WrittenUnlessEmpty(m.pin)
  {
    hide ProjectionOf, Read, ImageContentID, StrsValue, RealValue, IntValue;
    ModelEntryReads(m, scope, 0);
    ModelEntryReads(m, scope, 1);
    ModelEntryReads(m, scope, 2);
    ModelEntryReads(m, scope, 3);
    ModelEntryReads(m, scope, 4);
  }

  /** So is each parameter: a number when it is set, zero or not, and the stop sequences unless there are none. */
  lemma ParameterFields(m: Manifest, scope: Scope)
    ensures var p := ProjectionOf(m, scope);
            && Read(p, Dot(KModel, Dot(KParams, Last(KTemperature)))) == NumberIfAny(m.temperature)
            && Read(p, Dot(KModel, Dot(KParams, Last(KTopP)))) == NumberIfAny(m.topP)
            && Read(p, Dot(KModel, Dot(KParams, Last(KTopK)))) == WholeIfAny(m.topK)
            && Read(p, Dot(KModel, Dot(KParams, Last(KMaxTokens)))) == WholeIfAny(m.maxTokens)
            && Read(p, Dot(KModel, Dot(KParams, Last(KStopSequences))))
               == if m.stopSequences == [] then None
                  else Some(JArray(seq(|m.stopSequences|, i requires 0 <= i < |m.stopSequences| => JString(m.stopSequences[i]))))
  {
    hide ProjectionOf, Read, ImageContentID, StrValue;
    ModelEntryReads(m, scope, 5);
    ModelEntryReads(m, scope, 6);
    ModelEntryReads(m, scope, 7);
    ModelEntryReads(m, scope, 8);
    ModelEntryReads(m, scope, 9);
    assert Strings(m.stopSequences)
           == seq(|m.stopSequences|, i requires 0 <= i < |m.stopSequences| => JString(m.stopSequences[i]));
  }

  lemma OtherEntryReads(m: Manifest, scope: Scope, i: nat)
    requires 10 <= i < 16
    ensures |CatalogueEntries(m, scope)| == 2 && |ContextEntries(m, scope)| == 3 && |JudgeListEntries(m, scope)| == 1
    ensures var e := if i < 12 then CatalogueEntries(m, scope)[i - 10] else if i < 15 then ContextEntries(m, scope)[i - 12]
                     else JudgeListEntries(m, scope)[0];
            Read(ProjectionOf(m, scope), e.path) == e.value
  {
    hide Entries, Read, ProjectionOf, ModelEntries, CatalogueEntries, ContextEntries, JudgeListEntries;
    GroupsOf(scope, m);
    EntryReads(m, scope, i);
    var e := Entries(m, scope);
    assert |e[10..12]| == 2 && |e[12..15]| == 3 && |e[15..]| == 1;
    assert i < 12 ==> e[i] == e[10..12][i - 10];
    assert 12 <= i < 15 ==> e[i] == e[12..15][i - 12];
    assert e[15] == e[15..][0];
  }

  /** The three lists hold one item an element, sorted by name, and are left out when empty. */
  lemma ListFields(m: Manifest, scope: Scope)
    ensures var p := ProjectionOf(m, scope);
            var prompts, tools := Sort(m.prompts, ByName(PromptKey())), Sort(m.tools, ByName(ToolKey()));
            var judges := Sort(m.judges, ByName(JudgeKey()));
            && Read(p, Last(KPrompts)) == ListOf(seq(|prompts|, i requires 0 <= i < |prompts| => PromptItem(scope, prompts[i])))
            && Read(p, Last(KTools)) == ListOf(seq(|tools|, i requires 0 <= i < |tools| => ToolItem(scope, tools[i])))
            && Read(p, Last(KJudges)) == ListOf(seq(|judges|, i requires 0 <= i < |judges| => JudgeItem(scope, judges[i])))
  {
    hide ProjectionOf, Read, PromptItem, ToolItem, JudgeItem, Sort, ContextEntries;
    OtherEntryReads(m, scope, 10);
    OtherEntryReads(m, scope, 11);
    OtherEntryReads(m, scope, 15);
    var prompts, tools := Sort(m.prompts, ByName(PromptKey())), Sort(m.tools, ByName(ToolKey()));
    var judges := Sort(m.judges, ByName(JudgeKey()));
    assert PromptItems(scope, prompts) == seq(|prompts|, i requires 0 <= i < |prompts| => PromptItem(scope, prompts[i]));
    assert ToolItems(scope, tools) == seq(|tools|, i requires 0 <= i < |tools| => ToolItem(scope, tools[i]));
    assert JudgeItems(scope, judges) == seq(|judges|, i requires 0 <= i < |judges| => JudgeItem(scope, judges[i]));
  }

  /** The retrieval and policy fields are found at their own paths, and left out when the manifest has no such section. */
  lemma ContextFields(m: Manifest, scope: Scope)
    ensures var p := ProjectionOf(m, scope);
            && Read(p, Dot(KRetrieval, Last(KIndexSnapshot)))
               == (if m.retrieval.Some? then WrittenUnlessEmpty(m.retrieval.value.indexSnapshot) else None)
            && Read(p, Dot(KRetrieval, Last(KEmbeddingModel)))
               == (if m.retrieval.Some? then WrittenUnlessEmpty(m.retrieval.value.embeddingModel) else None)
            && Read(p, Dot(KPolicy, Last(KBundleDigest))) == if m.policy.Some? then Written(m.policy.value) else None
  {
    hide ProjectionOf, Read, CatalogueEntries, JudgeListEntries;
    OtherEntryReads(m, scope, 12);
    OtherEntryReads(m, scope, 13);
    OtherEntryReads(m, scope, 14);
  }

  function ListOf(items: seq<Json>): Option<Json> { if |items| == 0 then None else Some(JArray(items)) }
}
