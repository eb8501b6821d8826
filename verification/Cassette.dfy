/** The content-addressed store, over any interleaving of writers (`internal/cas/fs.go`). */
module Cas {
  import opened Basics

  const PREFIX: Bytes := [115, 104, 97, 50, 53, 54, 58]

  /** The digest naming some bytes. */
  function DigestOf(hash: Bytes -> Bytes, b: Bytes): Bytes { PREFIX + hash(b) }

  /** No two of these bodies share a digest. */
  ghost predicate CollisionFree(hash: Bytes -> Bytes, bodies: set<Bytes>) {
    forall x, y :: x in bodies && y in bodies && hash(x) == hash(y) ==> x == y
  }

  /** Every blob is named by its own digest. */
  ghost predicate Addressed(hash: Bytes -> Bytes, blobs: map<Bytes, Bytes>) {
    forall d :: d in blobs ==> d == DigestOf(hash, blobs[d])
  }

  /** A writer's progress: its body staged under a temporary name, the blob found missing, and how it ended. */
  datatype Progress = Staged(body: Bytes) | Missing(body: Bytes) | Stored(body: Bytes) | Failed

  datatype World = World(blobs: map<Bytes, Bytes>, writers: map<nat, Progress>)

  /** How far the file system obliges: the body is staged, the blob's directory made, the staged file renamed. */
  datatype Disk = Disk(staged: bool, made: bool, renamed: bool)
  {
    /** A body cannot be stored without being staged first, even when its blob is already there. */
    predicate Stores(present: bool) { staged && (present || (made && renamed)) }
  }

  /** A writer stages its body, looks for the blob, or commits it, as far as the file system obliges. */
  datatype Move =
    | Stage(who: nat, body: Bytes, staged: bool)
    | Look(who: nat)
    | Commit(who: nat, made: bool, renamed: bool)

  function Next(hash: Bytes -> Bytes, w: World, m: Move): World {
    match m
    case Stage(who, body, staged) =>
      if who in w.writers then w else w.(writers := w.writers[who := if staged then Staged(body) else Failed])
    case Look(who) =>
      if who in w.writers && w.writers[who].Staged? then
        var body := w.writers[who].body;
        w.(writers := w.writers[who := if DigestOf(hash, body) in w.blobs then Stored(body) else Missing(body)])
      else w
    case Commit(who, made, renamed) =>
      if who in w.writers && w.writers[who].Missing? then
        var body := w.writers[who].body;
        var d := DigestOf(hash, body);
        if made && renamed then World(w.blobs[d := body], w.writers[who := Stored(body)])
        else w.(writers := w.writers[who := if made && d in w.blobs then Stored(body) else Failed])
      else w
  }

  function After(hash: Bytes -> Bytes, w: World, moves: seq<Move>): World
    decreases |moves|
  {
    if moves == [] then w else After(hash, Next(hash, w, moves[0]), moves[1..])
  }

  /** What every interleaving keeps: blobs hash to their names, and a writer told its body is stored finds it there. */
  ghost predicate Sound(hash: Bytes -> Bytes, w: World) {
    && Addressed(hash, w.blobs)
    && (forall who :: who in w.writers && w.writers[who].Stored? ==> DigestOf(hash, w.writers[who].body) in w.blobs)
  }

  /** The bodies stored and being written. */
  ghost predicate Holds(w: World, bodies: set<Bytes>) {
    && (forall d :: d in w.blobs ==> w.blobs[d] in bodies)
    && (forall who :: who in w.writers && !w.writers[who].Failed? ==> w.writers[who].body in bodies)
  }

  /** The bodies the moves bring. */
  ghost predicate Brings(moves: seq<Move>, bodies: set<Bytes>) {
    forall i :: 0 <= i < |moves| && moves[i].Stage? ==> moves[i].body in bodies
  }

  lemma CommitSound(hash: Bytes -> Bytes, w: World, who: nat, body: Bytes, bodies: set<Bytes>)
    requires Sound(hash, w)
    ensures var d := DigestOf(hash, body);
            var t := World(w.blobs[d := body], w.writers[who := Stored(body)]);
            && Sound(hash, t) && w.blobs.Keys <= t.blobs.Keys
            && (CollisionFree(hash, bodies) && Holds(w, bodies) && body in bodies ==>
                  Holds(t, bodies) && forall e :: e in w.blobs ==> t.blobs[e] == w.blobs[e])
  {
    hide DigestOf;
    var d := DigestOf(hash, body);
    if d in w.blobs {
      SameDigest(hash, w.blobs[d], body, bodies);
    }
  }

  lemma NextSound(hash: Bytes -> Bytes, w: World, m: Move, bodies: set<Bytes>)
    requires Sound(hash, w)
    ensures Sound(hash, Next(hash, w, m)) && w.blobs.Keys <= Next(hash, w, m).blobs.Keys
    ensures CollisionFree(hash, bodies) && Holds(w, bodies) && Brings([m], bodies) ==>
              && Holds(Next(hash, w, m), bodies)
              && forall d :: d in w.blobs ==> Next(hash, w, m).blobs[d] == w.blobs[d]
  {
    hide DigestOf, CollisionFree, Addressed;
    assert [m][0] == m;
    if m.Commit? && m.who in w.writers && w.writers[m.who].Missing? && m.made && m.renamed {
      CommitSound(hash, w, m.who, w.writers[m.who].body, bodies);
    } else {
      assert Next(hash, w, m).blobs == w.blobs;
    }
  }

  lemma SameDigest(hash: Bytes -> Bytes, x: Bytes, y: Bytes, bodies: set<Bytes>)
    requires DigestOf(hash, x) == DigestOf(hash, y)
    ensures CollisionFree(hash, bodies) && x in bodies && y in bodies ==> x == y
  {
    assert DigestOf(hash, x)[|PREFIX|..] == hash(x) && DigestOf(hash, y)[|PREFIX|..] == hash(y);
  }

  /** Over any run, no blob disappears, each keeps hashing to its name, and if no two of the bodies there are collide none
      ever changes. */
  lemma {:induction false} RunsAreSound(hash: Bytes -> Bytes, w: World, moves: seq<Move>, bodies: set<Bytes>)
    requires Sound(hash, w)
    ensures Sound(hash, After(hash, w, moves)) && w.blobs.Keys <= After(hash, w, moves).blobs.Keys
    ensures CollisionFree(hash, bodies) && Holds(w, bodies) && Brings(moves, bodies) ==>
              && Holds(After(hash, w, moves), bodies)
              && forall d :: d in w.blobs ==> After(hash, w, moves).blobs[d] == w.blobs[d]
    decreases |moves|
  {
    hide Next, Sound, CollisionFree, Holds;
    if moves != [] {
      NextSound(hash, w, moves[0], bodies);
      RunsAreSound(hash, Next(hash, w, moves[0]), moves[1..], bodies);
      assert Brings(moves, bodies) ==> Brings([moves[0]], bodies) && Brings(moves[1..], bodies);
    }
  }

  /** A writer that was told its body is stored can read back exactly that body, whatever others do, if no two of the bodies
      there are collide. */
  lemma StoredReadsBack(hash: Bytes -> Bytes, w: World, moves: seq<Move>, who: nat, bodies: set<Bytes>)
    requires Sound(hash, w) && who in w.writers && w.writers[who].Stored?
    requires CollisionFree(hash, bodies) && Holds(w, bodies) && Brings(moves, bodies)
    ensures var body := w.writers[who].body;
            var t := After(hash, w, moves);
            DigestOf(hash, body) in t.blobs && t.blobs[DigestOf(hash, body)] == body
  {
    RunsAreSound(hash, w, moves, bodies);
    var body := w.writers[who].body;
    SameDigest(hash, w.blobs[DigestOf(hash, body)], body, bodies);
  }

  // ---- One Put with no other writer ----

  function PutResult(hash: Bytes -> Bytes, blobs: map<Bytes, Bytes>, body: Bytes): map<Bytes, Bytes> {
    var d := DigestOf(hash, body);
    if d in blobs then blobs else blobs[d := body]
  }

  class FS {
    var blobs: map<Bytes, Bytes>
    const hash: Bytes -> Bytes

    constructor (hash: Bytes -> Bytes)
      ensures blobs == map[] && this.hash == hash && Addressed(hash, blobs)
    {
      this.hash := hash;
      blobs := map[];
    }

    method Put(body: Bytes, disk: Disk) returns (r: Result<Bytes>)
      modifies this
      ensures r.Ok? ==> r.value == DigestOf(hash, body) && blobs == PutResult(hash, old(blobs), body)
      ensures r.Err? ==> blobs == old(blobs)
      ensures r.Ok? <==> disk.Stores(DigestOf(hash, body) in old(blobs))
      ensures old(Addressed(hash, blobs)) ==> Addressed(hash, blobs)
    {
      if !disk.staged {
        return Err;
      }
      var digest := DigestOf(hash, body);
      if digest in blobs {
        return Ok(digest);
      }
      if !disk.made {
        return Err;
      }
      if !disk.renamed {
        return Err;
      }
      blobs := blobs[digest := body];
      return Ok(digest);
    }

    method Get(d: Bytes) returns (r: Result<Bytes>)
      ensures r.Ok? <==> d in blobs
      ensures r.Ok? ==> r.value == blobs[d]
    {
      return if d in blobs then Ok(blobs[d]) else Err;
    }
  }
}

/** Writing a session's spans and reading their payloads back
    (`internal/cassette/writer.go`, `internal/cassette/reader.go`). */
module Cassette {
  import opened Basics
  import opened Cas
  import opened Names
  import opened Utf8

  datatype Key =
    | SchemaVersion | KindKey | StepIndex | Redacted
    | RequestBody | RequestRef | RequestBytes | ResponseBody | ResponseRef | ResponseBytes
    | Attribute(name: string)

  /** A span attribute; `Other` stands for any value that is not a payload, a number or labels. */
  datatype Attr = Text(b: Bytes) | Raw(b: Bytes) | Number(n: int) | Labels(ls: seq<string>) | Other(what: string)

  type Attrs = map<Key, Attr>

  datatype Kind = Session | ModelKind | ToolKind

  const SCHEMA := Other("waveoff.ai/cassette/v1alpha1")

  /** Where blobs go, if anywhere; payloads longer than a positive threshold are offloaded. */
  datatype Config = Config(offload: bool, threshold: int, hash: Bytes -> Bytes, redact: Bytes -> (Bytes, seq<string>))

  function KindAttr(k: Kind): Attr {
    match k case Session => Other("session") case ModelKind => Other("model") case ToolKind => Other("tool")
  }

  function PayloadBytes(attrs: Attrs, key: Key): Option<Bytes> {
    if key !in attrs then None
    else match attrs[key] case Text(b) => Some(b) case Raw(b) => Some(b) case _ => None
  }

  function MergeLabels(attrs: Attrs, add: seq<string>): Attr {
    Labels(Dedup((if Redacted in attrs && attrs[Redacted].Labels? then attrs[Redacted].ls else []) + add))
  }

  // ---- One payload ----

  /** The attribute keys of a payload. */
  datatype Slot = Slot(body: Key, ref: Key, size: Key)

  const REQUEST := Slot(RequestBody, RequestRef, RequestBytes)
  const RESPONSE := Slot(ResponseBody, ResponseRef, ResponseBytes)

  predicate Offloads(c: Config, clean: Bytes) { c.offload && c.threshold > 0 && |clean| > c.threshold }

  /** The attributes once the redacted payload has been sized and its labels noted. */
  function Measured(c: Config, attrs: Attrs, slot: Slot, raw: Bytes): Attrs {
    var (clean, fired) := c.redact(raw);
    var labelled := if |fired| > 0 then attrs[Redacted := MergeLabels(attrs, fired)] else attrs;
    labelled[slot.size := Number(|clean|)]
  }

  datatype Handled = Handled(attrs: Attrs, blobs: map<Bytes, Bytes>, ok: bool)

  function HandlePayload(c: Config, attrs: Attrs, blobs: map<Bytes, Bytes>, slot: Slot, disk: Disk): Handled {
    match PayloadBytes(attrs, slot.body)
    case None => Handled(attrs, blobs, true)
    case Some(raw) =>
      var clean := c.redact(raw).0;
      var measured := Measured(c, attrs, slot, raw);
      if !Offloads(c, clean) then Handled(measured[slot.body := Text(clean)], blobs, true)
      else if !disk.Stores(DigestOf(c.hash, clean) in blobs) then Handled(measured, blobs, false)
      else Handled((measured - {slot.body})[slot.ref := Text(DigestOf(c.hash, clean))], PutResult(c.hash, blobs, clean), true)
  }

  /** What a reader resolves a payload to; a missing blob is an error, a missing payload is empty. */
  function Payload(attrs: Attrs, slot: Slot, blobs: Option<map<Bytes, Bytes>>): Result<Bytes> {
    if slot.body in attrs then Ok(if PayloadBytes(attrs, slot.body).Some? then PayloadBytes(attrs, slot.body).value else [])
    else if slot.ref !in attrs || !attrs[slot.ref].Text? || attrs[slot.ref].b == [] then Ok([])
    else if blobs.None? || attrs[slot.ref].b !in blobs.value then Err
    else Ok(blobs.value[attrs[slot.ref].b])
  }

  // ---- One span ----

  /** A span as it comes back from its line: encoding keeps of a text only what is UTF-8. */
  function Line(attrs: Attrs): Attrs {
    map k | k in attrs :: match attrs[k] case Text(b) => Text(Sanitized(b)) case other => other
  }

  /** `out` is the file, line by line as it would be read. */
  datatype Writer = Writer(header: bool, nextStep: nat, out: seq<Attrs>, blobs: map<Bytes, Bytes>)

  /** A span to write, and whether the file system obliges for each payload and the encoder for the span. */
  datatype Call = Call(attrs: Attrs, kind: Kind, request: Disk, response: Disk, encoded: bool)

  predicate HasStep(attrs: Attrs) { StepIndex in attrs && attrs[StepIndex].Number? }

  /** The span needs a number of its own. */
  predicate Unnumbered(call: Call) { call.kind != Session && !HasStep(call.attrs) }

  function Stamped(w: Writer, call: Call): Attrs {
    var marked := call.attrs[SchemaVersion := SCHEMA][KindKey := KindAttr(call.kind)];
    if Unnumbered(call) then marked[StepIndex := Number(w.nextStep)] else marked
  }

  datatype Written = Written(writer: Writer, attrs: Attrs, ok: bool)

  function WriteSpan(c: Config, w: Writer, call: Call): Written {
    if !w.header then Written(w, call.attrs, false)
    else
      var numbered := w.(nextStep := w.nextStep + if Unnumbered(call) then 1 else 0);
      var one := HandlePayload(c, Stamped(w, call), w.blobs, REQUEST, call.request);
      if !one.ok then Written(numbered.(blobs := one.blobs), one.attrs, false)
      else
        var two := HandlePayload(c, one.attrs, one.blobs, RESPONSE, call.response);
        var after := numbered.(blobs := two.blobs);
        if !two.ok || !call.encoded then Written(after, two.attrs, false)
        else Written(after.(out := after.out + [Line(two.attrs)]), two.attrs, true)
  }

  // ---- What is written reads back ----

  /** No different body is stored under the body's digest. */
  predicate NoClash(c: Config, blobs: map<Bytes, Bytes>, clean: Bytes) {
    var d := DigestOf(c.hash, clean);
    d in blobs ==> blobs[d] == clean
  }

  /** Digests are text, as hexadecimal digits are. */
  ghost predicate TextDigests(hash: Bytes -> Bytes) { forall b :: Valid(hash(b)) }

  lemma DigestsReadBack(hash: Bytes -> Bytes, b: Bytes)
    requires TextDigests(hash)
    ensures Sanitized(DigestOf(hash, b)) == DigestOf(hash, b) != []
  {
    hide RuneLength;
    assert Valid(PREFIX) by { PrefixIsText(); }
    ValidConcat(PREFIX, hash(b));
    UnchangedExactly(DigestOf(hash, b));
  }

  lemma PrefixIsText()
    ensures Valid(PREFIX)
  {
    hide Valid;
    AsciiIsValid(PREFIX);
  }

  /** Blobs are only ever added to. */
  ghost predicate Grew(blobs: map<Bytes, Bytes>, later: map<Bytes, Bytes>) {
    forall d :: d in blobs ==> d in later && later[d] == blobs[d]
  }

  /** The bodies a span was given, redacted. */
  function Clean(c: Config, attrs: Attrs, slot: Slot): Bytes
    requires PayloadBytes(attrs, slot.body).Some?
  {
    c.redact(PayloadBytes(attrs, slot.body).value).0
  }

  /** A handled payload comes back as its redacted body exactly when, offloaded, no other body has its digest, and, inline,
      it is UTF-8; an inline body always comes back as what of it is. */
  lemma HandledPayload(c: Config, attrs: Attrs, blobs: map<Bytes, Bytes>, slot: Slot, disk: Disk, later: map<Bytes, Bytes>)
    requires (slot == REQUEST || slot == RESPONSE) && TextDigests(c.hash)
    requires PayloadBytes(attrs, slot.body).Some? && HandlePayload(c, attrs, blobs, slot, disk).ok
    requires Grew(HandlePayload(c, attrs, blobs, slot, disk).blobs, later)
    ensures var clean := Clean(c, attrs, slot);
            var read := Payload(Line(HandlePayload(c, attrs, blobs, slot, disk).attrs), slot, Some(later));
            && (read == Ok(clean) <==> if Offloads(c, clean) then NoClash(c, blobs, clean) else Valid(clean))
            && (!Offloads(c, clean) ==> read == Ok(Sanitized(clean)))
  {
    hide Valid, Sanitized, RuneLength, MergeLabels, DigestOf;
    var clean := Clean(c, attrs, slot);
    DigestsReadBack(c.hash, clean);
    UnchangedExactly(clean);
  }

  lemma OtherPayloadKept(c: Config, attrs: Attrs, blobs: map<Bytes, Bytes>, slot: Slot, other: Slot, disk: Disk)
    requires (slot == REQUEST && other == RESPONSE) || (slot == RESPONSE && other == REQUEST)
    ensures var h := HandlePayload(c, attrs, blobs, slot, disk);
            && (forall later :: Payload(Line(h.attrs), other, later) == Payload(Line(attrs), other, later))
            && PayloadBytes(h.attrs, other.body) == PayloadBytes(attrs, other.body)
            && Grew(blobs, h.blobs)
  {
    hide HandlePayload, Payload, PayloadBytes, Grew, Line;
    var h := HandlePayload(c, attrs, blobs, slot, disk);
    OtherAttrsKept(c, attrs, blobs, slot, other, disk);
    SameLines(attrs, h.attrs, other.body);
    SameLines(attrs, h.attrs, other.ref);
    forall later
      ensures Payload(Line(h.attrs), other, later) == Payload(Line(attrs), other, later)
    {
      SameAttrsSamePayload(Line(attrs), Line(h.attrs), other, later);
    }
    SameAttrsSamePayload(attrs, h.attrs, other, None);
    BlobsGrow(c, attrs, blobs, slot, disk);
  }

  lemma SameLines(one: Attrs, two: Attrs, key: Key)
    requires SameAt(one, two, key)
    ensures SameAt(Line(one), Line(two), key)
  {
  }

  /** Two spans have the same attribute, or neither has it. */
  predicate SameAt(one: Attrs, two: Attrs, key: Key) {
    (key in one <==> key in two) && (key in one ==> one[key] == two[key])
  }

  lemma OtherAttrsKept(c: Config, attrs: Attrs, blobs: map<Bytes, Bytes>, slot: Slot, other: Slot, disk: Disk)
    requires (slot == REQUEST && other == RESPONSE) || (slot == RESPONSE && other == REQUEST)
    ensures var h := HandlePayload(c, attrs, blobs, slot, disk);
            SameAt(attrs, h.attrs, other.body) && SameAt(attrs, h.attrs, other.ref)
  {
    hide MergeLabels, DigestOf, Offloads;
  }

  lemma SameAttrsSamePayload(one: Attrs, two: Attrs, slot: Slot, blobs: Option<map<Bytes, Bytes>>)
    requires SameAt(one, two, slot.body) && SameAt(one, two, slot.ref)
    ensures Payload(one, slot, blobs) == Payload(two, slot, blobs)
    ensures PayloadBytes(one, slot.body) == PayloadBytes(two, slot.body)
  {
  }

  lemma BlobsGrow(c: Config, attrs: Attrs, blobs: map<Bytes, Bytes>, slot: Slot, disk: Disk)
    ensures Grew(blobs, HandlePayload(c, attrs, blobs, slot, disk).blobs)
  {
    hide DigestOf, Offloads, Measured;
  }

  lemma StampKeepsPayloads(w: Writer, call: Call, slot: Slot)
    requires slot == REQUEST || slot == RESPONSE
    ensures PayloadBytes(Stamped(w, call), slot.body) == PayloadBytes(call.attrs, slot.body)
  {
  }

  /** The line of a span that was written. */
  function LineOf(c: Config, w: Writer, call: Call): Attrs { Line(WriteSpan(c, w, call).attrs) }

  /** After a span is written, a payload read from its line is exactly its redacted body, from the store as it was then or
      as it has grown since, in all cases but two: an offloaded body whose digest already named other bytes, and an inline
      body that is not UTF-8. */
  lemma WrittenPayloadsReadBack(c: Config, w: Writer, call: Call, later: map<Bytes, Bytes>)
    requires TextDigests(c.hash)
    requires WriteSpan(c, w, call).ok && Grew(WriteSpan(c, w, call).writer.blobs, later)
    ensures WriteSpan(c, w, call).writer.out == w.out + [LineOf(c, w, call)]
    ensures PayloadBytes(call.attrs, RequestBody).Some? ==>
              var clean := Clean(c, call.attrs, REQUEST);
              (Payload(LineOf(c, w, call), REQUEST, Some(later)) == Ok(clean) <==>
               if Offloads(c, clean) then NoClash(c, w.blobs, clean) else Valid(clean))
              && (!Offloads(c, clean) ==> Payload(LineOf(c, w, call), REQUEST, Some(later)) == Ok(Sanitized(clean)))
    ensures PayloadBytes(call.attrs, ResponseBody).Some? ==>
              var clean := Clean(c, call.attrs, RESPONSE);
              (Payload(LineOf(c, w, call), RESPONSE, Some(later)) == Ok(clean) <==>
               if Offloads(c, clean) then NoClash(c, AfterRequest(c, w, call), clean) else Valid(clean))
              && (!Offloads(c, clean) ==> Payload(LineOf(c, w, call), RESPONSE, Some(later)) == Ok(Sanitized(clean)))
  {
    hide HandlePayload, Payload, PayloadBytes, NoClash, Offloads, Stamped, KindAttr, Valid, Sanitized, Line, TextDigests;
    StampKeepsPayloads(w, call, REQUEST);
    StampKeepsPayloads(w, call, RESPONSE);
    var one := HandlePayload(c, Stamped(w, call), w.blobs, REQUEST, call.request);
    var two := HandlePayload(c, one.attrs, one.blobs, RESPONSE, call.response);
    OtherPayloadKept(c, Stamped(w, call), w.blobs, REQUEST, RESPONSE, call.request);
    OtherPayloadKept(c, one.attrs, one.blobs, RESPONSE, REQUEST, call.response);
    if PayloadBytes(call.attrs, RequestBody).Some? {
      HandledPayload(c, Stamped(w, call), w.blobs, REQUEST, call.request, later);
    }
    if PayloadBytes(call.attrs, ResponseBody).Some? {
      HandledPayload(c, one.attrs, one.blobs, RESPONSE, call.response, later);
    }
  }

  /** The store after the request payload has been handled. */
  function AfterRequest(c: Config, w: Writer, call: Call): map<Bytes, Bytes> {
    HandlePayload(c, Stamped(w, call), w.blobs, REQUEST, call.request).blobs
  }

  /** What a reader gets of a body. */
  function AsRead(c: Config, clean: Bytes): Bytes { if Offloads(c, clean) then clean else Sanitized(clean) }

  /** The redacted payloads of a span. */
  function Bodies(c: Config, attrs: Attrs): set<Bytes> {
    (if PayloadBytes(attrs, RequestBody).Some? then {Clean(c, attrs, REQUEST)} else {})
    + if PayloadBytes(attrs, ResponseBody).Some? then {Clean(c, attrs, RESPONSE)} else {}
  }

  /** With a sound store and no collisions among what it holds and is given, an offloaded payload comes back as it was, and an
      inline one as what of it is UTF-8. */
  lemma SoundStoreReadsBack(c: Config, w: Writer, call: Call, later: map<Bytes, Bytes>, bodies: set<Bytes>)
    requires WriteSpan(c, w, call).ok && Grew(WriteSpan(c, w, call).writer.blobs, later)
    requires TextDigests(c.hash) && Addressed(c.hash, w.blobs) && CollisionFree(c.hash, bodies)
    requires Bodies(c, call.attrs) <= bodies && forall d :: d in w.blobs ==> w.blobs[d] in bodies
    ensures PayloadBytes(call.attrs, RequestBody).Some? ==>
              Payload(LineOf(c, w, call), REQUEST, Some(later)) == Ok(AsRead(c, Clean(c, call.attrs, REQUEST)))
    ensures PayloadBytes(call.attrs, ResponseBody).Some? ==>
              Payload(LineOf(c, w, call), RESPONSE, Some(later)) == Ok(AsRead(c, Clean(c, call.attrs, RESPONSE)))
  {
    hide HandlePayload, Payload, PayloadBytes, Offloads, Stamped, WriteSpan, NoClash, Addressed, Line, Valid, Sanitized;
    hide TextDigests;
    WrittenPayloadsReadBack(c, w, call, later);
    StampKeepsPayloads(w, call, REQUEST);
    HandleAdds(c, Stamped(w, call), w.blobs, REQUEST, call.request, bodies);
    HandleKeepsAddressed(c, Stamped(w, call), w.blobs, REQUEST, call.request);
    if PayloadBytes(call.attrs, RequestBody).Some? {
      NothingClashes(c, w.blobs, Clean(c, call.attrs, REQUEST), bodies);
    }
    if PayloadBytes(call.attrs, ResponseBody).Some? {
      NothingClashes(c, AfterRequest(c, w, call), Clean(c, call.attrs, RESPONSE), bodies);
    }
  }

  /** The single byte 255, small enough to stay inline, comes back as three others. */
  lemma BinaryBodyChanges(c: Config, w: Writer, kind: Kind, disk: Disk, later: map<Bytes, Bytes>)
    requires w.header && c.redact([255]) == ([255], []) && !Offloads(c, [255])
    ensures var call := Call(map[RequestBody := Raw([255])], kind, disk, disk, true);
            WriteSpan(c, w, call).ok && Payload(LineOf(c, w, call), REQUEST, Some(later)) == Ok(REPLACEMENT) != Ok([255])
  {
    hide Valid, Sanitized;
    var call := Call(map[RequestBody := Raw([255])], kind, disk, disk, true);
    LoneByte();
    var one := HandlePayload(c, Stamped(w, call), w.blobs, REQUEST, disk);
    assert one.ok && one.attrs[RequestBody] == Text([255]) && ResponseBody !in one.attrs;
  }

  lemma NothingClashes(c: Config, blobs: map<Bytes, Bytes>, clean: Bytes, bodies: set<Bytes>)
    requires CollisionFree(c.hash, bodies) && Addressed(c.hash, blobs)
    requires clean in bodies && forall d :: d in blobs ==> blobs[d] in bodies
    ensures NoClash(c, blobs, clean)
  {
    var d := DigestOf(c.hash, clean);
    if d in blobs {
      SameDigest(c.hash, blobs[d], clean, bodies);
    }
  }

  lemma HandleAdds(c: Config, attrs: Attrs, blobs: map<Bytes, Bytes>, slot: Slot, disk: Disk, bodies: set<Bytes>)
    requires forall d :: d in blobs ==> blobs[d] in bodies
    requires PayloadBytes(attrs, slot.body).Some? ==> Clean(c, attrs, slot) in bodies
    ensures var after := HandlePayload(c, attrs, blobs, slot, disk).blobs; forall d :: d in after ==> after[d] in bodies
  {
    hide DigestOf, Offloads, Measured;
  }

  lemma HandleKeepsAddressed(c: Config, attrs: Attrs, blobs: map<Bytes, Bytes>, slot: Slot, disk: Disk)
    requires Addressed(c.hash, blobs)
    ensures Addressed(c.hash, HandlePayload(c, attrs, blobs, slot, disk).blobs)
  {
  }

  // ---- Runs of one writer ----

  function Run(c: Config, w: Writer, calls: seq<Call>): Writer {
    if calls == [] then w else WriteSpan(c, Run(c, w, calls[..|calls| - 1]), calls[|calls| - 1]).writer
  }

  function UnnumberedIn(calls: seq<Call>): nat {
    if calls == [] then 0
    else UnnumberedIn(calls[..|calls| - 1]) + if Unnumbered(calls[|calls| - 1]) then 1 else 0
  }

  /** A writer with its header keeps its store sound and its store and file only growing, and numbers the spans that came without a number
      0, 1, 2 and so on, in the order they were given to it, whether or not they could be written. */
  lemma {:induction false} WriterRuns(c: Config, w: Writer, calls: seq<Call>)
    requires w.header && Addressed(c.hash, w.blobs)
    ensures var t := Run(c, w, calls);
            && t.header && Addressed(c.hash, t.blobs) && Grew(w.blobs, t.blobs) && w.out <= t.out
            && t.nextStep == w.nextStep + UnnumberedIn(calls)
  {
    hide HandlePayload, Stamped, Addressed, Unnumbered;
    if calls != [] {
      var front, last := calls[..|calls| - 1], calls[|calls| - 1];
      WriterRuns(c, w, front);
      WriteKeeps(c, Run(c, w, front), last);
    }
  }

  lemma WriteKeeps(c: Config, w: Writer, call: Call)
    requires Addressed(c.hash, w.blobs)
    ensures var t := WriteSpan(c, w, call).writer;
            Addressed(c.hash, t.blobs) && Grew(w.blobs, t.blobs) && w.out <= t.out
  {
    hide HandlePayload, Stamped, Addressed;
    var one := HandlePayload(c, Stamped(w, call), w.blobs, REQUEST, call.request);
    HandleKeepsAddressed(c, Stamped(w, call), w.blobs, REQUEST, call.request);
    HandleKeepsAddressed(c, one.attrs, one.blobs, RESPONSE, call.response);
    OtherPayloadKept(c, Stamped(w, call), w.blobs, REQUEST, RESPONSE, call.request);
    OtherPayloadKept(c, one.attrs, one.blobs, RESPONSE, REQUEST, call.response);
  }

  /** The number a span is given is how many came before it without one. */
  lemma NumberGiven(c: Config, w: Writer, calls: seq<Call>, call: Call)
    requires w.header && Addressed(c.hash, w.blobs) && Unnumbered(call)
    ensures var written := WriteSpan(c, Run(c, w, calls), call);
            StepIndex in written.attrs && written.attrs[StepIndex] == Number(w.nextStep + UnnumberedIn(calls))
  {
    hide HandlePayload;
    WriterRuns(c, w, calls);
    var t := Run(c, w, calls);
    StepKept(c, Stamped(t, call), t.blobs, REQUEST, call.request);
    var one := HandlePayload(c, Stamped(t, call), t.blobs, REQUEST, call.request);
    StepKept(c, one.attrs, one.blobs, RESPONSE, call.response);
  }

  lemma StepKept(c: Config, attrs: Attrs, blobs: map<Bytes, Bytes>, slot: Slot, disk: Disk)
    requires (slot == REQUEST || slot == RESPONSE) && StepIndex in attrs
    ensures var h := HandlePayload(c, attrs, blobs, slot, disk);
            StepIndex in h.attrs && h.attrs[StepIndex] == attrs[StepIndex]
  {
    hide MergeLabels;
  }
}

/** The writer and reader themselves. */
module CassetteRun {
  import opened Basics
  import opened Cas
  import Cassette
  import opened C = Cassette

  /** A span is changed in place while it is written. */
  class Span {
    var attrs: Attrs
    const kind: Kind

    constructor (attrs: Attrs, kind: Kind)
      ensures this.attrs == attrs && this.kind == kind
    {
      this.attrs, this.kind := attrs, kind;
    }
  }

  class CassetteWriter {
    const config: Config
    const store: FS
    var wroteHeader: bool
    var nextStep: nat
    var out: seq<Attrs>

    constructor (config: Config, store: FS)
      requires store.hash == config.hash
      ensures this.store == store && this.config == config && View() == Writer(false, 0, [], store.blobs)
    {
      this.config, this.store := config, store;
      wroteHeader, nextStep, out := false, 0, [];
    }

    ghost function View(): Writer
      reads this, store
    {
      Writer(wroteHeader, nextStep, out, store.blobs)
    }

    /** A header is written, or adopted from the store that wrote it, at most once. */
    method AdoptHeader() returns (ok: bool)
      modifies this
      ensures ok <==> !old(wroteHeader)
      ensures View() == old(View()).(header := true)
    {
      if wroteHeader {
        return false;
      }
      wroteHeader := true;
      return true;
    }

    method HandlePayload(s: Span, slot: Slot, disk: Disk) returns (ok: bool)
      requires store.hash == config.hash
      requires slot == REQUEST || slot == RESPONSE
      modifies s, store
      ensures Handled(s.attrs, store.blobs, ok)
              == Cassette.HandlePayload(config, old(s.attrs), old(store.blobs), slot, disk)
    {
      hide MergeLabels;
      var raw := PayloadBytes(s.attrs, slot.body);
      if raw.None? {
        return true;
      }
      var (clean, fired) := config.redact(raw.value);
      if |fired| > 0 {
        s.attrs := s.attrs[Redacted := MergeLabels(s.attrs, fired)];
      }
      s.attrs := s.attrs[slot.size := Number(|clean|)];
      if !config.offload || config.threshold <= 0 || |clean| <= config.threshold {
        s.attrs := s.attrs[slot.body := Text(clean)];
        return true;
      }
      var digest := store.Put(clean, disk);
      if digest.Err? {
        return false;
      }
      s.attrs := (s.attrs - {slot.body})[slot.ref := Text(digest.value)];
      return true;
    }

    method WriteSpan(s: Span, call: Call) returns (ok: bool)
      requires store.hash == config.hash && call.attrs == s.attrs && call.kind == s.kind
      modifies this, s, store
      ensures Written(View(), s.attrs, ok) == Cassette.WriteSpan(config, old(View()), call)
    {
      hide Cassette.HandlePayload, KindAttr;
      if !wroteHeader {
        return false;
      }
      s.attrs := s.attrs[SchemaVersion := SCHEMA][KindKey := KindAttr(s.kind)];
      if s.kind != Session {
        if !HasStep(s.attrs) {
          s.attrs := s.attrs[StepIndex := Number(nextStep)];
          nextStep := nextStep + 1;
        }
      }
      assert s.attrs == Stamped(old(View()), call);
      ok := HandlePayload(s, REQUEST, call.request);
      if !ok {
        return;
      }
      ok := HandlePayload(s, RESPONSE, call.response);
      if !ok || !call.encoded {
        return false;
      }
      out := out + [Line(s.attrs)];
    }
  }

  class CassetteReader {
    const blobs: FS?

    constructor (blobs: FS?)
      ensures this.blobs == blobs
    {
      this.blobs := blobs;
    }

    method Resolve(attrs: Attrs, slot: Slot) returns (r: Result<Bytes>)
      ensures r == Payload(attrs, slot, if blobs == null then None else Some(blobs.blobs))
    {
      if slot.body in attrs {
        var b := PayloadBytes(attrs, slot.body);
        return Ok(if b.Some? then b.value else []);
      }
      if slot.ref !in attrs || !attrs[slot.ref].Text? || attrs[slot.ref].b == [] {
        return Ok([]);
      }
      if blobs == null {
        return Err;
      }
      r := blobs.Get(attrs[slot.ref].b);
    }
  }
}
