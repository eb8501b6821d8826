/** Which calls a shadow candidate may make, and what it is told about the others
    (`internal/recorder/suppress.go`, `internal/recorder/registry.go`). */
module Suppression {
  import opened Basics

  datatype Request = Request(post: bool, readable: bool, session: string, rpc: string, tool: string, args: string)

  datatype Value = Text(s: string) | Flag(b: bool)

  type Object = map<string, Value>

  datatype Response = Forwarded | BadRequest | Replayed(obj: Object) | Refused(tool: string) | Suppressed(obj: Object)

  /** A step written to the recording in place of a call that was not forwarded. */
  datatype Emitted = Emitted(session: string, step: nat, tool: string, effect: string, refused: bool)

  datatype SessionView = SessionView(objects: map<string, Object>, seen: int)

  datatype State = State(
    sessions: map<string, SessionView>, suppressed: nat, refused: nat, allowed: nat, replayed: nat,
    attempts: map<string, nat>, steps: map<string, nat>, forwarded: seq<Request>, emitted: seq<Emitted>)

  datatype Config = Config(effects: map<string, string>, ttl: int, hash: string -> string)

  /** A registration reads the clock twice: to find the sessions to evict, and to note when it saw its own. */
  datatype Clock = Clock(evict: int, seen: int)

  /** A request, the clock's readings at its two registrations, and the identifier a search meets first. */
  datatype Event = Event(request: Request, first: Clock, second: Clock, pick: string)

  const EMPTY := State(map[], 0, 0, 0, 0, map[], map[], [], [])

  function SessionOf(r: Request): string { if r.session == "" then "unattributed" else r.session }

  predicate IsCall(r: Request) { r.post && r.readable && r.rpc == "tools/call" }

  function EffectOf(c: Config, tool: string): string { if tool in c.effects then c.effects[tool] else "" }

  // ---- Identifiers and objects ----

  function IdOf(c: Config, r: Request): string {
    var sum := c.hash(SessionOf(r) + "\0" + r.tool + "\0" + r.args);
    "waveoff-synthetic-" + if |sum| > 16 then sum[..16] else sum
  }

  function Explanation(tool: string, effect: string): string {
    "[waveoff] " + tool + " was not executed: this is shadow traffic and the tool is classified effect=" + effect
  }

  function FullText(c: Config, r: Request): string {
    Explanation(r.tool, EffectOf(c, r.tool)) + " (a placeholder object " + IdOf(c, r) + " has been recorded for this session)"
  }

  /** What a suppressed write is answered with. */
  function ResultOf(c: Config, r: Request): Object {
    map["content" := Text(FullText(c, r)), "isError" := Flag(false), "id" := Text(IdOf(c, r))]
  }

  predicate Contains(blob: string, part: string) {
    part <= blob || (blob != "" && Contains(blob[1..], part))
  }

  lemma {:induction false} ContainsMeaning(blob: string, part: string)
    ensures Contains(blob, part) <==> exists i :: 0 <= i <= |blob| && part <= blob[i..]
  {
    assert blob[0..] == blob;
    if blob != "" {
      ContainsMeaning(blob[1..], part);
      if Contains(blob[1..], part) {
        var i :| 0 <= i <= |blob[1..]| && part <= blob[1..][i..];
        assert blob[1..][i..] == blob[i + 1..];
      }
      if i :| 0 <= i <= |blob| && part <= blob[i..] {
        if i > 0 {
          assert blob[1..][i - 1..] == blob[i..];
        }
      }
    }
  }

  lemma ContainsEnd(before: string, part: string)
    ensures Contains(before + part, part)
  {
    ContainsMeaning(before + part, part);
    assert part <= (before + part)[|before|..];
  }

  lemma ContainsMore(blob: string, more: string, part: string)
    requires Contains(blob, part)
    ensures Contains(blob + more, part)
  {
    ContainsMeaning(blob, part);
    ContainsMeaning(blob + more, part);
    var i :| 0 <= i <= |blob| && part <= blob[i..];
    assert (blob + more)[i..] == blob[i..] + more;
  }

  lemma ExplanationNames(tool: string, effect: string)
    ensures Contains(Explanation(tool, effect), tool) && Contains(Explanation(tool, effect), effect)
  {
    hide Contains;
    var head, middle := "[waveoff] ", " was not executed: this is shadow traffic and the tool is classified effect=";
    ContainsEnd(head, tool);
    ContainsMore(head + tool, middle, tool);
    ContainsMore(head + tool + middle, effect, tool);
    ContainsEnd(head + tool + middle, effect);
  }

  /** A write is answered with its identifier, with no error, and with a text that names its tool, the tool's class and the
      identifier. */
  lemma AnswerNames(c: Config, r: Request)
    ensures var answer := ResultOf(c, r);
            && answer.Keys == {"content", "isError", "id"} && answer["id"] == Text(IdOf(c, r)) && answer["isError"] == Flag(false)
            && answer["content"].Text?
            && Contains(answer["content"].s, r.tool) && Contains(answer["content"].s, IdOf(c, r))
            && Contains(answer["content"].s, EffectOf(c, r.tool))
  {
    hide IdOf, EffectOf, Contains, FullText;
    FullTextNames(c, r);
  }

  lemma FullTextNames(c: Config, r: Request)
    ensures Contains(FullText(c, r), r.tool) && Contains(FullText(c, r), IdOf(c, r)) && Contains(FullText(c, r), EffectOf(c, r.tool))
  {
    hide IdOf, EffectOf, Contains, Explanation;
    var effect, id, head := EffectOf(c, r.tool), IdOf(c, r), Explanation(r.tool, EffectOf(c, r.tool));
    var link, end := " (a placeholder object ", " has been recorded for this session)";
    ExplanationNames(r.tool, effect);
    ContainsEnd(head + link, id);
    ContainsMore(head + link + id, end, id);
    TextKeeps(head, link, id, end, r.tool);
    TextKeeps(head, link, id, end, effect);
  }

  lemma TextKeeps(head: string, link: string, id: string, end: string, part: string)
    requires Contains(head, part)
    ensures Contains(head + link + id + end, part)
  {
    hide Contains;
    ContainsMore(head, link, part);
    ContainsMore(head + link, id, part);
    ContainsMore(head + link + id, end, part);
  }

  // ---- The registry of invented objects ----

  function ObjectsOf(sessions: map<string, SessionView>, session: string): map<string, Object> {
    if session in sessions then sessions[session].objects else map[]
  }

  /** The call's arguments name an object invented in its session. */
  predicate Names(sessions: map<string, SessionView>, r: Request, id: string) {
    r.args != "" && id in ObjectsOf(sessions, SessionOf(r)) && Contains(r.args, id)
  }

  ghost predicate NamesAny(sessions: map<string, SessionView>, r: Request) {
    exists id :: Names(sessions, r, id)
  }

  /** Sessions not seen since the cutoff are dropped. */
  function Evict(sessions: map<string, SessionView>, cutoff: int): map<string, SessionView> {
    map s | s in sessions && cutoff <= sessions[s].seen :: sessions[s]
  }

  function Mint(sessions: map<string, SessionView>, session: string, id: string, obj: Object, at: Clock, ttl: int)
    : map<string, SessionView>
  {
    Register(Evict(sessions, at.evict - ttl), session, id, obj, at.seen)
  }

  /** The first object under an identifier stays; the session counts as seen now. */
  function Register(kept: map<string, SessionView>, session: string, id: string, obj: Object, now: int)
    : map<string, SessionView>
  {
    var objects := ObjectsOf(kept, session);
    kept[session := SessionView(if id in objects then objects else objects[id := obj], now)]
  }

  // ---- One request ----

  function Count<K>(m: map<K, nat>, k: K): nat { if k in m then m[k] else 0 }

  function Emit(s: State, r: Request, effect: string, refused: bool): State {
    var session := SessionOf(r);
    var step := Count(s.steps, session);
    s.(steps := s.steps[session := step + 1], emitted := s.emitted + [Emitted(session, step, r.tool, effect, refused)])
  }

  /** The identifier answered with: the one met first, if the arguments name it. */
  ghost function Chosen(sessions: map<string, SessionView>, r: Request, pick: string): (id: string)
    requires NamesAny(sessions, r)
    ensures Names(sessions, r, id)
  {
    if Names(sessions, r, pick) then pick else var id :| Names(sessions, r, id); id
  }

  function Forward(s: State, r: Request): State { s.(allowed := s.allowed + 1, forwarded := s.forwarded + [r]) }

  /** The state after an unclassified call. */
  function Refuse(s: State, r: Request): State { Emit(s.(refused := s.refused + 1), r, "", true) }

  /** The state after a write that is answered with an invented object. */
  function Suppress(c: Config, s: State, e: Event): State {
    var r := e.request;
    var once := Mint(s.sessions, SessionOf(r), IdOf(c, r), ResultOf(c, r), e.first, c.ttl);
    var twice := Mint(once, SessionOf(r), IdOf(c, r), ResultOf(c, r), e.second, c.ttl);
    Emit(s.(suppressed := s.suppressed + 1, attempts := s.attempts[r.tool := Count(s.attempts, r.tool) + 1], sessions := twice),
         r, EffectOf(c, r.tool), false)
  }

  ghost function Serve(c: Config, s: State, e: Event): (State, Response) {
    var r := e.request;
    if !r.post then (s.(forwarded := s.forwarded + [r]), Forwarded)
    else if !r.readable then (s, BadRequest)
    else if r.rpc != "tools/call" then (Forward(s, r), Forwarded)
    else if NamesAny(s.sessions, r) then
      (s.(replayed := s.replayed + 1), Replayed(s.sessions[SessionOf(r)].objects[Chosen(s.sessions, r, e.pick)]))
    else if EffectOf(c, r.tool) == "" then (Refuse(s, r), Refused(r.tool))
    else if EffectOf(c, r.tool) != "read" then (Suppress(c, s, e), Suppressed(ResultOf(c, r)))
    else (Forward(s, r), Forwarded)
  }

  ghost function Run(c: Config, events: seq<Event>): State {
    if events == [] then EMPTY else Serve(c, Run(c, events[..|events| - 1]), events[|events| - 1]).0
  }

  ghost function After(c: Config, s: State, events: seq<Event>): State
    decreases |events|
  {
    if events == [] then s else After(c, Serve(c, s, events[0]).0, events[1..])
  }

  // ---- What reaches the live server ----

  /** Traffic that cannot change anything. */
  predicate Harmless(c: Config, r: Request) {
    !r.post || r.rpc != "tools/call" || EffectOf(c, r.tool) == "read"
  }

  /** A request is forwarded exactly when it is not a tool call, or is a read that names nothing invented. */
  lemma ForwardedExactly(c: Config, s: State, e: Event)
    ensures var (t, response) := Serve(c, s, e);
            var r := e.request;
            && (response == Forwarded <==> !r.post || (r.readable && (r.rpc != "tools/call"
                                           || (EffectOf(c, r.tool) == "read" && !NamesAny(s.sessions, r)))))
            && t.forwarded == if response == Forwarded then s.forwarded + [r] else s.forwarded
  {
  }

  lemma {:induction false} OnlyHarmlessForwarded(c: Config, events: seq<Event>)
    ensures forall r :: r in Run(c, events).forwarded ==> Harmless(c, r)
  {
    if events != [] {
      OnlyHarmlessForwarded(c, events[..|events| - 1]);
      ForwardedExactly(c, Run(c, events[..|events| - 1]), events[|events| - 1]);
    }
  }

  // ---- Where the objects come from ----

  /** Some write of this session, among the events, was answered with this object under this identifier. */
  ghost predicate Invented(c: Config, events: seq<Event>, session: string, id: string, obj: Object) {
    exists i :: 0 <= i < |events| && WasWrite(c, events[i].request, session) && IdOf(c, events[i].request) == id
                && ResultOf(c, events[i].request) == obj
  }

  predicate WasWrite(c: Config, r: Request, session: string) {
    IsCall(r) && SessionOf(r) == session && EffectOf(c, r.tool) != "" && EffectOf(c, r.tool) != "read"
  }

  lemma InventedStays(c: Config, events: seq<Event>, e: Event, session: string, id: string, obj: Object)
    requires Invented(c, events, session, id, obj)
    ensures Invented(c, events + [e], session, id, obj)
  {
    var i :| 0 <= i < |events| && WasWrite(c, events[i].request, session) && IdOf(c, events[i].request) == id
             && ResultOf(c, events[i].request) == obj;
    assert (events + [e])[i] == events[i];
  }

  /** Registering one object adds nothing else. */
  lemma MintAdds(sessions: map<string, SessionView>, session: string, id: string, obj: Object, at: Clock, ttl: int,
                 who: string, key: string)
    ensures var after := Mint(sessions, session, id, obj, at, ttl);
            key in ObjectsOf(after, who) ==>
              || (key in ObjectsOf(sessions, who) && ObjectsOf(after, who)[key] == ObjectsOf(sessions, who)[key])
              || (who == session && key == id && ObjectsOf(after, who)[key] == obj)
  {
  }

  /** Whatever is stored for a session was invented for a write of that same session. */
  lemma {:induction false} StoredWasInvented(c: Config, events: seq<Event>, session: string, id: string)
    requires id in ObjectsOf(Run(c, events).sessions, session)
    ensures Invented(c, events, session, id, ObjectsOf(Run(c, events).sessions, session)[id])
  {
    hide ResultOf, IdOf, Mint, Invented, NamesAny;
    if events != [] {
      var front, e := events[..|events| - 1], events[|events| - 1];
      assert events == front + [e];
      var s, t := Run(c, front), Run(c, events);
      var r := e.request;
      var obj := ObjectsOf(t.sessions, session)[id];
      if t.sessions != s.sessions {
        var once := Mint(s.sessions, SessionOf(r), IdOf(c, r), ResultOf(c, r), e.first, c.ttl);
        MintAdds(s.sessions, SessionOf(r), IdOf(c, r), ResultOf(c, r), e.first, c.ttl, session, id);
        MintAdds(once, SessionOf(r), IdOf(c, r), ResultOf(c, r), e.second, c.ttl, session, id);
      }
      if id in ObjectsOf(s.sessions, session) && ObjectsOf(s.sessions, session)[id] == obj {
        StoredWasInvented(c, front, session, id);
        InventedStays(c, front, e, session, id, obj);
      } else {
        JustInvented(c, front, e, session);
      }
    }
  }

  lemma JustInvented(c: Config, front: seq<Event>, e: Event, session: string)
    requires WasWrite(c, e.request, session)
    ensures Invented(c, front + [e], session, IdOf(c, e.request), ResultOf(c, e.request))
  {
    assert (front + [e])[|front|] == e;
  }

  /** Between requests every stored object carries its own identifier. */
  lemma StoredCarriesId(c: Config, events: seq<Event>, session: string, id: string)
    requires id in ObjectsOf(Run(c, events).sessions, session)
    ensures var obj := ObjectsOf(Run(c, events).sessions, session)[id];
            "id" in obj && obj["id"] == Text(id)
  {
    hide Run, FullText;
    StoredWasInvented(c, events, session, id);
  }

  /** A session is only ever answered with objects invented for its own writes, named in its own arguments. */
  lemma SessionsAreIsolated(c: Config, events: seq<Event>, e: Event)
    requires Serve(c, Run(c, events), e).1.Replayed?
    ensures exists id :: Contains(e.request.args, id)
              && Invented(c, events, SessionOf(e.request), id, Serve(c, Run(c, events), e).1.obj)
  {
    hide Run, Invented;
    var id := Chosen(Run(c, events).sessions, e.request, e.pick);
    StoredWasInvented(c, events, SessionOf(e.request), id);
  }

  /** What is registered before the object is completed. */
  function PartialOf(c: Config, r: Request): Object {
    map["content" := Text(Explanation(r.tool, EffectOf(c, r.tool))), "isError" := Flag(false)]
  }

  /** Within a request, between its two registrations, its identifier stands for an object without one exactly when the
      request is the first to use that identifier since the session was last evicted. */
  lemma IncompleteExactlyWhenNew(c: Config, events: seq<Event>, e: Event)
    ensures var session, id := SessionOf(e.request), IdOf(c, e.request);
            var sessions := Run(c, events).sessions;
            var once := Mint(sessions, session, id, PartialOf(c, e.request), e.first, c.ttl);
            && id in ObjectsOf(once, session)
            && ("id" !in ObjectsOf(once, session)[id] <==> id !in ObjectsOf(Evict(sessions, e.first.evict - c.ttl), session))
  {
    hide Run, IdOf, Explanation, EffectOf, ResultOf;
    var session, id := SessionOf(e.request), IdOf(c, e.request);
    if id in ObjectsOf(Run(c, events).sessions, session) {
      StoredCarriesId(c, events, session, id);
    }
  }

  // ---- Reading back what was written ----

  predicate Holds(s: State, session: string, id: string, obj: Object) {
    session in s.sessions && id in s.sessions[session].objects && s.sessions[session].objects[id] == obj
  }

  /** Neither registration of the event, if it makes any, evicts later than the time to live after the session was last
      seen. */
  ghost predicate Survives(c: Config, s: State, e: Event, session: string) {
    session in s.sessions
    && (Serve(c, s, e).1.Suppressed? ==>
          var seen := s.sessions[session].seen;
          && e.first.evict <= seen + c.ttl
          && e.second.evict <= (if session == SessionOf(e.request) then e.first.seen else seen) + c.ttl)
  }

  /** The session survives every event: its own writes keep it alive, and silence lets it go. */
  ghost predicate KeptAlive(c: Config, s: State, events: seq<Event>, session: string)
    decreases |events|
  {
    events == [] || (Survives(c, s, events[0], session) && KeptAlive(c, Serve(c, s, events[0]).0, events[1..], session))
  }

  /** Some event is a write of the session with this identifier. */
  ghost predicate Rewrites(c: Config, events: seq<Event>, session: string, id: string) {
    exists i :: 0 <= i < |events| && WritesId(c, events[i], session, id)
  }

  predicate WritesId(c: Config, e: Event, session: string, id: string) {
    WasWrite(c, e.request, session) && IdOf(c, e.request) == id
  }

  /** One registration keeps what a session holds exactly when it does not evict the session. */
  lemma MintKeeps(sessions: map<string, SessionView>, own: string, minted: string, made: Object, at: Clock, ttl: int,
                  session: string, id: string)
    ensures var after := Mint(sessions, own, minted, made, at, ttl);
            && (session in sessions && at.evict <= sessions[session].seen + ttl ==>
                  && session in after
                  && after[session].seen == (if session == own then at.seen else sessions[session].seen)
                  && (id in sessions[session].objects ==>
                        id in after[session].objects && after[session].objects[id] == sessions[session].objects[id]))
            && (!(session in sessions && at.evict <= sessions[session].seen + ttl) && !(session == own && id == minted) ==>
                  id !in ObjectsOf(after, session))
            && (id !in ObjectsOf(sessions, session) && !(session == own && id == minted) ==> id !in ObjectsOf(after, session))
  {
  }

  lemma StepHeld(c: Config, s: State, e: Event, session: string, id: string, obj: Object)
    requires Holds(s, session, id, obj)
    ensures Survives(c, s, e, session) ==> Holds(Serve(c, s, e).0, session, id, obj)
    ensures !Survives(c, s, e, session) && !WritesId(c, e, session, id) ==> id !in ObjectsOf(Serve(c, s, e).0.sessions, session)
  {
    hide Mint, NamesAny, IdOf, ResultOf, EffectOf;
    var r := e.request;
    var once := Mint(s.sessions, SessionOf(r), IdOf(c, r), ResultOf(c, r), e.first, c.ttl);
    MintKeeps(s.sessions, SessionOf(r), IdOf(c, r), ResultOf(c, r), e.first, c.ttl, session, id);
    MintKeeps(once, SessionOf(r), IdOf(c, r), ResultOf(c, r), e.second, c.ttl, session, id);
  }

  lemma StepAbsent(c: Config, s: State, e: Event, session: string, id: string)
    requires id !in ObjectsOf(s.sessions, session) && !WritesId(c, e, session, id)
    ensures id !in ObjectsOf(Serve(c, s, e).0.sessions, session)
  {
    hide Mint, NamesAny, IdOf, ResultOf, EffectOf;
    var r := e.request;
    var once := Mint(s.sessions, SessionOf(r), IdOf(c, r), ResultOf(c, r), e.first, c.ttl);
    MintKeeps(s.sessions, SessionOf(r), IdOf(c, r), ResultOf(c, r), e.first, c.ttl, session, id);
    MintKeeps(once, SessionOf(r), IdOf(c, r), ResultOf(c, r), e.second, c.ttl, session, id);
  }

  lemma {:induction false} StaysAbsent(c: Config, s: State, events: seq<Event>, session: string, id: string)
    requires id !in ObjectsOf(s.sessions, session) && !Rewrites(c, events, session, id)
    ensures id !in ObjectsOf(After(c, s, events).sessions, session)
    decreases |events|
  {
    hide Serve, ObjectsOf, WritesId;
    if events != [] {
      RestRewrites(c, events, session, id);
      StepAbsent(c, s, events[0], session, id);
      StaysAbsent(c, Serve(c, s, events[0]).0, events[1..], session, id);
    }
  }

  lemma RestRewrites(c: Config, events: seq<Event>, session: string, id: string)
    requires events != []
    ensures Rewrites(c, events, session, id) <==> WritesId(c, events[0], session, id) || Rewrites(c, events[1..], session, id)
  {
    hide WritesId;
    if Rewrites(c, events[1..], session, id) {
      var i :| 0 <= i < |events[1..]| && WritesId(c, events[1..][i], session, id);
      assert events[i + 1] == events[1..][i];
    }
    if i :| 0 <= i < |events| && WritesId(c, events[i], session, id) {
      assert i > 0 ==> events[1..][i - 1] == events[i];
    }
  }

  /** A session goes on holding an object as long as it is kept alive, and, unless the same write is made again, no longer. */
  lemma {:induction false} HeldExactly(c: Config, s: State, events: seq<Event>, session: string, id: string, obj: Object)
    requires Holds(s, session, id, obj)
    ensures KeptAlive(c, s, events, session) ==> Holds(After(c, s, events), session, id, obj)
    ensures !Rewrites(c, events, session, id) ==>
              (id in ObjectsOf(After(c, s, events).sessions, session) <==> KeptAlive(c, s, events, session))
    decreases |events|
  {
    hide Serve, Survives, WritesId;
    if events != [] {
      var next := Serve(c, s, events[0]).0;
      RestRewrites(c, events, session, id);
      StepHeld(c, s, events[0], session, id, obj);
      if Survives(c, s, events[0], session) {
        HeldExactly(c, next, events[1..], session, id, obj);
      } else if !Rewrites(c, events, session, id) {
        StaysAbsent(c, next, events[1..], session, id);
      }
    }
  }

  /** The clock never runs back, and no reading is later than the limit. */
  ghost predicate Timely(events: seq<Event>, start: int, limit: int) {
    && (forall i :: 0 <= i < |events| ==>
          start <= events[i].first.evict <= events[i].first.seen <= events[i].second.evict <= events[i].second.seen <= limit)
    && (forall i, j :: 0 <= i < j < |events| ==> events[i].second.seen <= events[j].first.evict)
  }

  lemma SurvivorsAreSeen(c: Config, s: State, e: Event, session: string, since: int)
    requires session in s.sessions && since <= s.sessions[session].seen && Timely([e], since, since + c.ttl)
    ensures Survives(c, s, e, session)
    ensures session in Serve(c, s, e).0.sessions && since <= Serve(c, s, e).0.sessions[session].seen
  {
    hide Mint, NamesAny, IdOf, ResultOf, EffectOf;
    assert [e][0] == e;
    var r := e.request;
    var once := Mint(s.sessions, SessionOf(r), IdOf(c, r), ResultOf(c, r), e.first, c.ttl);
    MintKeeps(s.sessions, SessionOf(r), IdOf(c, r), ResultOf(c, r), e.first, c.ttl, session, "");
    MintKeeps(once, SessionOf(r), IdOf(c, r), ResultOf(c, r), e.second, c.ttl, session, "");
  }

  /** Within the time to live of when it was last seen, a session is alive whatever anyone does. */
  lemma {:induction false} TimelyKeepsAlive(c: Config, s: State, events: seq<Event>, session: string, since: int)
    requires session in s.sessions && since <= s.sessions[session].seen && Timely(events, since, since + c.ttl)
    ensures KeptAlive(c, s, events, session)
    decreases |events|
  {
    hide Serve, Survives;
    if events != [] {
      assert Timely([events[0]], since, since + c.ttl);
      SurvivorsAreSeen(c, s, events[0], session, since);
      TimelyKeepsAlive(c, Serve(c, s, events[0]).0, events[1..], session, since);
    }
  }

  /** Suppressing a write leaves an object under its identifier, just seen. */
  lemma SuppressHolds(c: Config, s: State, write: Event)
    ensures var t, id, session := Suppress(c, s, write), IdOf(c, write.request), SessionOf(write.request);
            && id in ObjectsOf(t.sessions, session)
            && t.sessions[session].seen == write.second.seen
  {
    hide ResultOf, IdOf, EffectOf, Evict;
  }

  /** A suppressed write leaves its session holding an object under the write's identifier; without a clash of identifiers
      it is the very object the write was answered with. */
  lemma WriteIsHeld(c: Config, events: seq<Event>, write: Event)
    requires Serve(c, Run(c, events), write).1.Suppressed?
    ensures var t, id, session := Serve(c, Run(c, events), write).0, IdOf(c, write.request), SessionOf(write.request);
            && id in ObjectsOf(t.sessions, session)
            && Holds(t, session, id, ObjectsOf(t.sessions, session)[id])
            && t.sessions[session].seen == write.second.seen
            && (NoClash(c, events, write.request) ==> ObjectsOf(t.sessions, session)[id] == ResultOf(c, write.request))
  {
    hide ResultOf, IdOf, NamesAny, Invented, Suppress, Refuse, NoClash, Run;
    var all := events + [write];
    assert Run(c, all) == Serve(c, Run(c, events), write).0 by { RunStep(c, events, write); }
    var id, session := IdOf(c, write.request), SessionOf(write.request);
    SuppressHolds(c, Run(c, events), write);
    StoredWasInvented(c, all, session, id);
    if NoClash(c, events, write.request) {
      ClashFree(c, events, write, ObjectsOf(Run(c, all).sessions, session)[id]);
    }
  }

  lemma RunStep(c: Config, events: seq<Event>, e: Event)
    ensures Run(c, events + [e]) == Serve(c, Run(c, events), e).0
  {
    hide Serve;
    assert (events + [e])[..|events|] == events;
  }

  /** No earlier write of the session by another tool shares the identifier. */
  ghost predicate NoClash(c: Config, events: seq<Event>, r: Request) {
    forall i :: 0 <= i < |events| && WasWrite(c, events[i].request, SessionOf(r)) && IdOf(c, events[i].request) == IdOf(c, r)
      ==> events[i].request.tool == r.tool
  }

  // ---- What an identifier stands for ----

  /** The text whose hash names a write. */
  function Hashed(r: Request): string { SessionOf(r) + ['\0'] + r.tool + ['\0'] + r.args }

  function First16(s: string): string { if |s| > 16 then s[..16] else s }

  /** The hash tells the two texts apart by its first sixteen characters. */
  predicate HashedApart(c: Config, r: Request, s: Request) {
    First16(c.hash(Hashed(r))) == First16(c.hash(Hashed(s))) ==> Hashed(r) == Hashed(s)
  }

  predicate Anonymous(session: string) { session == "" || session == "unattributed" }

  /** Requests share a session exactly when they give the same one, or neither gives any. */
  lemma SessionsTellApart(r: Request, s: Request)
    ensures SessionOf(r) == SessionOf(s) <==> r.session == s.session || (Anonymous(r.session) && Anonymous(s.session))
  {
  }

  lemma CutAtMark(a: string, b: string, x: string, y: string)
    requires '\0' !in a && '\0' !in b && a + ['\0'] + x == b + ['\0'] + y
    ensures a == b && x == y
  {
    var s, t := a + ['\0'] + x, b + ['\0'] + y;
    assert s[|a|] == '\0' && t[|b|] == '\0';
    assert a == s[..|a|] && b == t[..|b|] && x == s[|a| + 1..] && y == t[|b| + 1..];
  }

  lemma HashedTellsApart(r: Request, s: Request)
    requires '\0' !in SessionOf(r) && '\0' !in SessionOf(s) && '\0' !in r.tool && '\0' !in s.tool
    ensures Hashed(r) == Hashed(s) <==> SessionOf(r) == SessionOf(s) && r.tool == s.tool && r.args == s.args
  {
    if Hashed(r) == Hashed(s) {
      assert Hashed(r) == SessionOf(r) + ['\0'] + (r.tool + ['\0'] + r.args);
      assert Hashed(s) == SessionOf(s) + ['\0'] + (s.tool + ['\0'] + s.args);
      CutAtMark(SessionOf(r), SessionOf(s), r.tool + ['\0'] + r.args, s.tool + ['\0'] + s.args);
      CutAtMark(r.tool, s.tool, r.args, s.args);
    }
  }

  lemma IdIsOfHash(c: Config, r: Request)
    ensures IdOf(c, r) == "waveoff-synthetic-" + First16(c.hash(Hashed(r)))
  {
    assert SessionOf(r) + "\0" + r.tool + "\0" + r.args == Hashed(r);
  }

  /** Two writes are given one identifier exactly when they are the same write: the same session, tool and arguments. */
  lemma IdsTellApart(c: Config, r: Request, s: Request)
    requires '\0' !in SessionOf(r) && '\0' !in SessionOf(s) && '\0' !in r.tool && '\0' !in s.tool
    requires HashedApart(c, r, s)
    ensures IdOf(c, r) == IdOf(c, s) <==> SessionOf(r) == SessionOf(s) && r.tool == s.tool && r.args == s.args
  {
    IdIsOfHash(c, r);
    IdIsOfHash(c, s);
    HashedTellsApart(r, s);
    if IdOf(c, r) == IdOf(c, s) {
      var mark := "waveoff-synthetic-";
      assert IdOf(c, r)[|mark|..] == First16(c.hash(Hashed(r))) && IdOf(c, s)[|mark|..] == First16(c.hash(Hashed(s)));
    }
  }

  /** No tool's name holds the mark that separates the parts hashed, and the hash tells the write apart from the session's
      other writes. */
  ghost predicate ApartFrom(c: Config, events: seq<Event>, r: Request) {
    && '\0' !in SessionOf(r) && '\0' !in r.tool
    && forall i :: 0 <= i < |events| && WasWrite(c, events[i].request, SessionOf(r)) ==>
         '\0' !in events[i].request.tool && HashedApart(c, events[i].request, r)
  }

  lemma ApartMeansNoClash(c: Config, events: seq<Event>, r: Request)
    requires ApartFrom(c, events, r)
    ensures NoClash(c, events, r)
  {
    hide IdOf, Hashed, HashedApart, EffectOf;
    forall i | 0 <= i < |events| && WasWrite(c, events[i].request, SessionOf(r)) && IdOf(c, events[i].request) == IdOf(c, r)
      ensures events[i].request.tool == r.tool
    {
      IdsTellApart(c, events[i].request, r);
    }
  }

  lemma ClashFree(c: Config, events: seq<Event>, write: Event, obj: Object)
    requires NoClash(c, events, write.request)
    requires Invented(c, events + [write], SessionOf(write.request), IdOf(c, write.request), obj)
    ensures obj == ResultOf(c, write.request)
  {
    hide IdOf;
    var all := events + [write];
    var i :| 0 <= i < |all| && WasWrite(c, all[i].request, SessionOf(write.request))
             && IdOf(c, all[i].request) == IdOf(c, write.request) && ResultOf(c, all[i].request) == obj;
    if i < |events| {
      assert all[i] == events[i];
    }
  }

  /** After a suppressed write, a call in that session naming its identifier, made while the session is kept alive, is
      answered with an object of that session and never forwarded. If it names that identifier alone, and the hash tells the
      write apart from the session's others, it is answered with exactly what the write was answered with. */
  lemma WritesReadBack(c: Config, events: seq<Event>, write: Event, later: seq<Event>, read: Event)
    requires Serve(c, Run(c, events), write).1.Suppressed?
    requires KeptAlive(c, Serve(c, Run(c, events), write).0, later, SessionOf(write.request))
    requires IsCall(read.request) && SessionOf(read.request) == SessionOf(write.request)
    requires Contains(read.request.args, IdOf(c, write.request)) && read.request.args != ""
    ensures var before := After(c, Serve(c, Run(c, events), write).0, later);
            var (after, response) := Serve(c, before, read);
            && after.forwarded == before.forwarded
            && response.Replayed?
            && response.obj in ObjectsOf(before.sessions, SessionOf(write.request)).Values
            && (OnlyNames(before, read.request, IdOf(c, write.request)) && ApartFrom(c, events, write.request)
                ==> response.obj == Serve(c, Run(c, events), write).1.obj)
  {
    hide Run, ResultOf, IdOf, Contains, KeptAlive, NoClash, ApartFrom, After, Suppress, Invented, Rewrites;
    if ApartFrom(c, events, write.request) {
      ApartMeansNoClash(c, events, write.request);
    }
    var t, id, session := Serve(c, Run(c, events), write).0, IdOf(c, write.request), SessionOf(write.request);
    WriteIsHeld(c, events, write);
    var obj := ObjectsOf(t.sessions, session)[id];
    HeldExactly(c, t, later, session, id, obj);
    var before := After(c, t, later);
    assert Names(before.sessions, read.request, id);
    var got := Chosen(before.sessions, read.request, read.pick);
  }

  ghost predicate OnlyNames(s: State, r: Request, id: string) {
    forall other :: Names(s.sessions, r, other) ==> other == id
  }

  /** A retry of a suppressed write is answered as the first attempt was, exactly when its arguments name nothing the
      session has invented since; otherwise it is answered with the object they name. */
  lemma RetriesAgree(c: Config, s: State, t: State, one: Event, again: Event)
    requires one.request == again.request && Serve(c, s, one).1.Suppressed?
    ensures Serve(c, t, again).1 == Serve(c, s, one).1 <==> !NamesAny(t.sessions, again.request)
    ensures NamesAny(t.sessions, again.request) ==> Serve(c, t, again).1.Replayed?
    ensures Serve(c, t, again).0.forwarded == t.forwarded
  {
    hide ResultOf, IdOf, Contains, EffectOf, Suppress, Refuse;
    SuppressForwardsNothing(c, t, again);
  }

  /** A write, with these arguments, that nobody attributes to a session. */
  function PlainWrite(tool: string, args: string): Request { Request(true, true, "", "tools/call", tool, args) }

  /** Such a retry: a write names an identifier in advance, another write is then given that identifier, and the first write,
      made again, is answered with the object of the second. */
  lemma RetryMeetsAnother(c: Config, tool: string, at: Clock, pick: string)
    requires EffectOf(c, tool) != "" && EffectOf(c, tool) != "read" && c.ttl >= 0 && at.evict <= at.seen + c.ttl
    requires forall text :: |c.hash(text)| >= 16
    requires var other := PlainWrite(tool, ""); IdOf(c, PlainWrite(tool, IdOf(c, other))) != IdOf(c, other)
    ensures var other := PlainWrite(tool, "");
            var write := PlainWrite(tool, IdOf(c, other));
            var events := [Event(write, at, at, pick), Event(other, at, at, pick)];
            && Serve(c, EMPTY, events[0]).1 == Suppressed(ResultOf(c, write))
            && Serve(c, Run(c, events), events[0]).1 == Replayed(ResultOf(c, other))
  {
    hide ResultOf, IdOf, EffectOf, Suppress, Serve, Contains;
    var other := PlainWrite(tool, "");
    var write := PlainWrite(tool, IdOf(c, other));
    var one, two := Event(write, at, at, pick), Event(other, at, at, pick);
    IdsAreLong(c, other);
    IdsAreLong(c, write);
    WriteIsSuppressed(c, EMPTY, one);
    WriteIsStored(c, EMPTY, write, at, pick);
    var s1 := Suppress(c, EMPTY, one);
    WriteIsSuppressed(c, s1, two);
    WriteIsStored(c, s1, other, at, pick);
    RunTwo(c, one, two);
    ContainsItself(IdOf(c, other), IdOf(c, other));
    ContainsItself(IdOf(c, other), IdOf(c, write));
    NamedIsReplayed(c, Suppress(c, s1, two), one, IdOf(c, other));
  }

  lemma NamedIsReplayed(c: Config, s: State, e: Event, id: string)
    requires IsCall(e.request) && Names(s.sessions, e.request, id)
    requires forall other :: Names(s.sessions, e.request, other) ==> other == id
    ensures Serve(c, s, e).1 == Replayed(s.sessions[SessionOf(e.request)].objects[id])
  {
    hide Names, Suppress, Refuse, ResultOf;
  }

  lemma IdsAreLong(c: Config, r: Request)
    requires forall text :: |c.hash(text)| >= 16
    ensures |IdOf(c, r)| == 34
  {
  }

  /** A part as long as the whole is in it only if it is the whole. */
  lemma ContainsItself(blob: string, part: string)
    requires |blob| == |part| > 0
    ensures Contains(blob, part) <==> part == blob
  {
    ContainsMeaning(blob, part);
    if i :| 0 <= i <= |blob| && part <= blob[i..] {
      assert |blob[i..]| == |blob| - i;
    }
    assert blob[0..] == blob;
  }

  lemma WriteIsSuppressed(c: Config, s: State, e: Event)
    requires WasWrite(c, e.request, SessionOf(e.request)) && !NamesAny(s.sessions, e.request)
    ensures Serve(c, s, e) == (Suppress(c, s, e), Suppressed(ResultOf(c, e.request)))
  {
    hide ResultOf, Suppress, EffectOf;
  }

  /** Both registrations find the session alive. */
  lemma WriteIsStored(c: Config, s: State, r: Request, at: Clock, pick: string)
    requires at.evict <= at.seen + c.ttl
    requires SessionOf(r) in s.sessions ==> at.evict <= s.sessions[SessionOf(r)].seen + c.ttl
    ensures SessionOf(r) in Suppress(c, s, Event(r, at, at, pick)).sessions
    ensures Suppress(c, s, Event(r, at, at, pick)).sessions[SessionOf(r)]
            == SessionView(WithObject(ObjectsOf(s.sessions, SessionOf(r)), IdOf(c, r), ResultOf(c, r)), at.seen)
  {
    hide ResultOf, IdOf, EffectOf;
  }

  function WithObject(objects: map<string, Object>, id: string, obj: Object): map<string, Object> {
    if id in objects then objects else objects[id := obj]
  }

  lemma RunTwo(c: Config, one: Event, two: Event)
    ensures Run(c, [one, two]) == Serve(c, Serve(c, EMPTY, one).0, two).0
  {
    hide Serve;
    assert [one, two][..1] == [one] && [one][..0] == [];
    assert Run(c, [one]) == Serve(c, EMPTY, one).0;
  }

  lemma SuppressForwardsNothing(c: Config, s: State, e: Event)
    ensures Suppress(c, s, e).forwarded == s.forwarded && Refuse(s, e.request).forwarded == s.forwarded
  {
    hide ResultOf, IdOf, EffectOf, Mint;
  }

  /** A retry while the session is alive leaves the first object in place, and adds none. */
  lemma RetryAddsNothing(c: Config, s: State, again: Event, obj: Object)
    requires Holds(s, SessionOf(again.request), IdOf(c, again.request), obj)
    requires Survives(c, s, again, SessionOf(again.request))
    ensures ObjectsOf(Serve(c, s, again).0.sessions, SessionOf(again.request)) == ObjectsOf(s.sessions, SessionOf(again.request))
  {
    hide ResultOf, IdOf, NamesAny;
  }

  // ---- Accounting ----

  /** How many steps have been emitted for a session. */
  function EmittedFor(emitted: seq<Emitted>, session: string): nat {
    if emitted == [] then 0
    else EmittedFor(emitted[..|emitted| - 1], session) + if emitted[|emitted| - 1].session == session then 1 else 0
  }

  function WritesOf(emitted: seq<Emitted>, tool: string): nat {
    if emitted == [] then 0
    else
      var last := emitted[|emitted| - 1];
      WritesOf(emitted[..|emitted| - 1], tool) + if !last.refused && last.tool == tool then 1 else 0
  }

  function PostsRead(events: seq<Event>): nat {
    if events == [] then 0
    else
      var r := events[|events| - 1].request;
      PostsRead(events[..|events| - 1]) + if r.post && r.readable then 1 else 0
  }

  /** Every readable POST is in exactly one count; every call not forwarded or replayed is recorded once, its session's
      steps are numbered from 0 without gaps, and attempts by tool are the recorded writes. */
  ghost predicate Accounted(s: State, posts: nat) {
    && s.suppressed + s.refused + s.allowed + s.replayed == posts
    && |s.emitted| == s.suppressed + s.refused
    && (forall session :: Count(s.steps, session) == EmittedFor(s.emitted, session))
    && (forall k :: 0 <= k < |s.emitted| ==> s.emitted[k].step == EmittedFor(s.emitted[..k], s.emitted[k].session))
    && (forall tool :: Count(s.attempts, tool) == WritesOf(s.emitted, tool))
  }

  lemma EmitAccounts(s: State, r: Request, effect: string, refused: bool)
    requires forall session :: Count(s.steps, session) == EmittedFor(s.emitted, session)
    requires forall k :: 0 <= k < |s.emitted| ==> s.emitted[k].step == EmittedFor(s.emitted[..k], s.emitted[k].session)
    ensures var t := Emit(s, r, effect, refused);
            && (forall session :: Count(t.steps, session) == EmittedFor(t.emitted, session))
            && (forall k :: 0 <= k < |t.emitted| ==> t.emitted[k].step == EmittedFor(t.emitted[..k], t.emitted[k].session))
            && |t.emitted| == |s.emitted| + 1
            && (forall tool :: WritesOf(t.emitted, tool) == WritesOf(s.emitted, tool) + if !refused && tool == r.tool then 1 else 0)
            && t.attempts == s.attempts && t.suppressed == s.suppressed && t.refused == s.refused
            && t.allowed == s.allowed && t.replayed == s.replayed
  {
    var t := Emit(s, r, effect, refused);
    assert t.emitted[..|s.emitted|] == s.emitted;
    forall k | 0 <= k < |t.emitted|
      ensures t.emitted[k].step == EmittedFor(t.emitted[..k], t.emitted[k].session)
    {
      if k < |s.emitted| {
        assert t.emitted[..k] == s.emitted[..k];
      }
    }
  }

  lemma SuppressAccounts(c: Config, s: State, e: Event, posts: nat)
    requires Accounted(s, posts)
    ensures Accounted(Suppress(c, s, e), posts + 1) && Accounted(Refuse(s, e.request), posts + 1)
  {
    hide EmittedFor, WritesOf, NamesAny, Emit, Mint, IdOf, ResultOf, EffectOf;
    var r := e.request;
    EmitAccounts(s.(refused := s.refused + 1), r, "", true);
    var once := Mint(s.sessions, SessionOf(r), IdOf(c, r), ResultOf(c, r), e.first, c.ttl);
    var twice := Mint(once, SessionOf(r), IdOf(c, r), ResultOf(c, r), e.second, c.ttl);
    var counted := s.(suppressed := s.suppressed + 1, attempts := s.attempts[r.tool := Count(s.attempts, r.tool) + 1],
                      sessions := twice);
    EmitAccounts(counted, r, EffectOf(c, r.tool), false);
  }

  /** A request that records nothing moves one of the other two counts. */
  lemma PassAccounts(s: State, t: State, posts: nat)
    requires Accounted(s, posts)
    requires t.emitted == s.emitted && t.steps == s.steps && t.attempts == s.attempts
    requires t.suppressed == s.suppressed && t.refused == s.refused && t.allowed + t.replayed >= s.allowed + s.replayed
    ensures Accounted(t, posts + t.allowed + t.replayed - s.allowed - s.replayed)
  {
    hide EmittedFor, WritesOf;
  }

  lemma ServeAccounts(c: Config, s: State, e: Event, posts: nat)
    requires Accounted(s, posts)
    ensures Accounted(Serve(c, s, e).0, posts + if e.request.post && e.request.readable then 1 else 0)
  {
    hide Accounted, NamesAny, ResultOf, EffectOf, Suppress, Refuse;
    var t := Serve(c, s, e).0;
    SuppressKeepsPasses(c, s, e);
    if e.request.post && e.request.readable && t.allowed + t.replayed == s.allowed + s.replayed {
      SuppressAccounts(c, s, e, posts);
    } else {
      PassAccounts(s, t, posts);
    }
  }

  lemma SuppressKeepsPasses(c: Config, s: State, e: Event)
    ensures Suppress(c, s, e).allowed == s.allowed && Suppress(c, s, e).replayed == s.replayed
    ensures Refuse(s, e.request).allowed == s.allowed && Refuse(s, e.request).replayed == s.replayed
  {
    hide IdOf, ResultOf, Mint, EffectOf;
  }

  lemma {:induction false} RunsAreAccounted(c: Config, events: seq<Event>)
    ensures Accounted(Run(c, events), PostsRead(events))
  {
    hide Accounted, Serve;
    if events == [] {
      NothingEmitted();
    } else {
      var front, e := events[..|events| - 1], events[|events| - 1];
      RunsAreAccounted(c, front);
      ServeAccounts(c, Run(c, front), e, PostsRead(front));
    }
  }

  lemma NothingEmitted()
    ensures Accounted(EMPTY, 0)
  {
  }
}
