/** What a written span's line carries, attribute by attribute (`internal/cassette/writer.go`, lines 88-245). */
module CassetteMeaning {
  import opened Basics
  import opened Cas
  import opened Names
  import opened Utf8
  import opened Cassette

  /** The text "sha256:". */
  const SHA256_PREFIX: Bytes := [115, 104, 97, 50, 53, 54, 58]

  ghost predicate TooLong(c: Config, clean: Bytes) { c.offload && c.threshold > 0 && |clean| > c.threshold }

  /** The labels noted are those there were and those that fired, each once. */
  ghost predicate LabelsAre(before: Attrs, after: Attrs, fired: seq<string>) {
    if fired == [] then SameAt(before, after, Redacted)
    else
      && Redacted in after && after[Redacted].Labels?
      && Distinct(after[Redacted].ls)
      && forall l :: l in after[Redacted].ls <==>
                     l in fired || (Redacted in before && before[Redacted].Labels? && l in before[Redacted].ls)
  }

  /** What handling a payload leaves: its size, and its redacted bytes inline or the reference to them.
      Only a body longer than the threshold goes to the store, and only the store can fail it. */
  lemma PayloadAttributes(c: Config, attrs: Attrs, blobs: map<Bytes, Bytes>, slot: Slot, disk: Disk, raw: Bytes)
    requires (slot == REQUEST || slot == RESPONSE) && PayloadBytes(attrs, slot.body) == Some(raw)
    ensures var (clean, fired) := c.redact(raw);
            var h, digest := HandlePayload(c, attrs, blobs, slot, disk), SHA256_PREFIX + c.hash(clean);
            && (h.ok <==> TooLong(c, clean) ==> disk.staged && (digest in blobs || (disk.made && disk.renamed)))
            && slot.size in h.attrs && h.attrs[slot.size] == Number(|clean|)
            && (h.ok && TooLong(c, clean) ==>
                  slot.body !in h.attrs && slot.ref in h.attrs && h.attrs[slot.ref] == Text(digest) && digest in h.blobs)
            && (!TooLong(c, clean) ==>
                  slot.body in h.attrs && h.attrs[slot.body] == Text(clean) && SameAt(attrs, h.attrs, slot.ref) && h.blobs == blobs)
  {
    hide MergeLabels;
    assert slot.body != slot.size && slot.body != Redacted && slot.size != Redacted;
    var (clean, fired) := c.redact(raw);
    assert DigestOf(c.hash, clean) == SHA256_PREFIX + c.hash(clean);
  }

  /** The labels that fired on a payload are noted beside those already there. */
  lemma PayloadLabels(c: Config, attrs: Attrs, blobs: map<Bytes, Bytes>, slot: Slot, disk: Disk, raw: Bytes)
    requires (slot == REQUEST || slot == RESPONSE) && PayloadBytes(attrs, slot.body) == Some(raw)
    ensures LabelsAre(attrs, HandlePayload(c, attrs, blobs, slot, disk).attrs, c.redact(raw).1)
  {
    hide Dedup, DigestOf, Offloads;
    var fired := c.redact(raw).1;
    DedupKeeps((if Redacted in attrs && attrs[Redacted].Labels? then attrs[Redacted].ls else []) + fired);
  }

  /** Handling a payload touches only its own three attributes and the labels. */
  lemma OthersUntouched(c: Config, attrs: Attrs, blobs: map<Bytes, Bytes>, slot: Slot, disk: Disk, key: Key)
    requires key != slot.body && key != slot.ref && key != slot.size && key != Redacted
    ensures SameAt(attrs, HandlePayload(c, attrs, blobs, slot, disk).attrs, key)
  {
    hide MergeLabels, DigestOf, Offloads;
  }

  /** What the caller put on the span is on its line, as far as it is text; the schema and the kind are the writer's. */
  lemma LineCarries(c: Config, w: Writer, call: Call, name: string)
    requires WriteSpan(c, w, call).ok
    ensures var line := LineOf(c, w, call);
            && SameAt(Line(call.attrs), line, Attribute(name))
            && SchemaVersion in line && line[SchemaVersion] == Other("waveoff.ai/cassette/v1alpha1")
            && KindKey in line && line[KindKey] == Other(match call.kind case Session => "session" case ModelKind => "model"
                                                                         case ToolKind => "tool")
            && (if call.kind == Session then SameAt(Line(call.attrs), line, StepIndex)
                else StepIndex in line && line[StepIndex] == if HasStep(call.attrs) then call.attrs[StepIndex]
                                                             else Number(w.nextStep))
  {
    hide HandlePayload, SameAt, Line;
    var stamped := Stamped(w, call);
    var one := HandlePayload(c, stamped, w.blobs, REQUEST, call.request);
    var two := HandlePayload(c, one.attrs, one.blobs, RESPONSE, call.response);
    StampCarries(w, call, name);
    CarriedThrough(c, w, call, Attribute(name));
    CarriedThrough(c, w, call, SchemaVersion);
    CarriedThrough(c, w, call, KindKey);
    CarriedThrough(c, w, call, StepIndex);
    SameOnLine(call.attrs, stamped, Attribute(name));
    SameOnLine(call.attrs, stamped, StepIndex);
    SameChain(Line(call.attrs), Line(stamped), Line(two.attrs), Attribute(name));
    SameChain(Line(call.attrs), Line(stamped), Line(two.attrs), StepIndex);
    CarriedValue(stamped, two.attrs, SchemaVersion);
    CarriedValue(stamped, two.attrs, KindKey);
    CarriedValue(stamped, two.attrs, StepIndex);
  }

  lemma StampCarries(w: Writer, call: Call, name: string)
    ensures var s := Stamped(w, call);
            && SameAt(call.attrs, s, Attribute(name))
            && SchemaVersion in s && s[SchemaVersion] == Other("waveoff.ai/cassette/v1alpha1")
            && KindKey in s && s[KindKey] == Other(match call.kind case Session => "session" case ModelKind => "model"
                                                                   case ToolKind => "tool")
            && (if call.kind == Session then SameAt(call.attrs, s, StepIndex)
                else StepIndex in s && s[StepIndex] == if HasStep(call.attrs) then call.attrs[StepIndex] else Number(w.nextStep))
  {
  }

  lemma CarriedThrough(c: Config, w: Writer, call: Call, key: Key)
    requires key.Attribute? || key == SchemaVersion || key == KindKey || key == StepIndex
    ensures var stamped := Stamped(w, call);
            var one := HandlePayload(c, stamped, w.blobs, REQUEST, call.request);
            var two := HandlePayload(c, one.attrs, one.blobs, RESPONSE, call.response);
            SameAt(stamped, two.attrs, key) && SameAt(Line(stamped), Line(two.attrs), key)
  {
    hide HandlePayload, Stamped, Line;
    var stamped := Stamped(w, call);
    var one := HandlePayload(c, stamped, w.blobs, REQUEST, call.request);
    var two := HandlePayload(c, one.attrs, one.blobs, RESPONSE, call.response);
    OthersUntouched(c, stamped, w.blobs, REQUEST, call.request, key);
    OthersUntouched(c, one.attrs, one.blobs, RESPONSE, call.response, key);
    SameLines(stamped, two.attrs, key);
  }

  lemma SameOnLine(one: Attrs, two: Attrs, key: Key)
    ensures SameAt(one, two, key) ==> SameAt(Line(one), Line(two), key)
  {
    hide Sanitized;
  }

  lemma SameChain(one: Attrs, two: Attrs, three: Attrs, key: Key)
    ensures SameAt(one, two, key) && SameAt(two, three, key) ==> SameAt(one, three, key)
  {
  }

  lemma CarriedValue(one: Attrs, two: Attrs, key: Key)
    ensures SameAt(one, two, key) && key in one && !one[key].Text? ==> key in Line(two) && Line(two)[key] == one[key]
  {
    hide Sanitized;
  }

  // ---- Reading a payload ----

  /** The attribute is a reference into a blob store. */
  predicate Refers(attrs: Attrs, slot: Slot) {
    slot.body !in attrs && slot.ref in attrs && attrs[slot.ref].Text? && |attrs[slot.ref].b| > 0
  }

  /** A payload that was offloaded and cannot be found is an error, never an empty payload; one that was neither kept inline nor
      offloaded is empty. */
  lemma ResolvedExactly(attrs: Attrs, slot: Slot, blobs: Option<map<Bytes, Bytes>>)
    ensures var r := Payload(attrs, slot, blobs);
            && (r.Err? <==> Refers(attrs, slot) && (blobs.None? || attrs[slot.ref].b !in blobs.value))
            && (r.Ok? && Refers(attrs, slot) ==> r.value == blobs.value[attrs[slot.ref].b])
            && (slot.body in attrs ==> r == Ok(match attrs[slot.body] case Text(b) => b case Raw(b) => b case _ => []))
            && (slot.body !in attrs && !Refers(attrs, slot) ==> r == Ok([]))
  {
  }

  // ---- Storing a blob ----

  /** A writer that staged its body and looked is told it is stored exactly when the blob was there already; one that found it
      missing, exactly when its directory could be made and the rename took place or another writer's had by
      then. A rename leaves the body under its own digest. */
  lemma StoredExactly(hash: Bytes -> Bytes, w: Cas.World, who: nat, made: bool, renamed: bool)
    requires who in w.writers && (w.writers[who].Staged? || w.writers[who].Missing?)
    ensures var body := w.writers[who].body;
            var d := SHA256_PREFIX + hash(body);
            var looked, committed := Cas.Next(hash, w, Look(who)), Cas.Next(hash, w, Commit(who, made, renamed));
            && (w.writers[who].Staged? ==>
                  && looked.blobs == w.blobs
                  && looked.writers == w.writers[who := if d in w.blobs then Cas.Stored(body) else Cas.Missing(body)])
            && (w.writers[who].Missing? ==>
                  && committed.blobs == (if made && renamed then w.blobs[d := body] else w.blobs)
                  && committed.writers
                     == w.writers[who := if made && (renamed || d in w.blobs) then Cas.Stored(body) else Cas.Failed])
  {
    assert DigestOf(hash, w.writers[who].body) == SHA256_PREFIX + hash(w.writers[who].body);
  }
}
