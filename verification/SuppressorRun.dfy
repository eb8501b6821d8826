/** The suppressor as it runs: the result of a write is stored first and completed in place afterwards
    (`internal/recorder/suppress.go`, `internal/recorder/registry.go`). */
module SuppressorRun {
  import opened Basics
  import opened Suppression

  /** A decoded JSON object, shared by everyone who holds it. */
  class JsonMap {
    var fields: Object

    constructor (fields: Object)
      ensures this.fields == fields
    {
      this.fields := fields;
    }
  }

  datatype SyntheticSession = SyntheticSession(objects: map<string, JsonMap>, seen: int)

  ghost function ViewOf(x: SyntheticSession): SessionView
    reads x.objects.Values
  {
    SessionView(map i | i in x.objects :: x.objects[i].fields, x.seen)
  }

  ghost function ViewOfAll(sessions: map<string, SyntheticSession>): map<string, SessionView>
    reads Stored(sessions)
  {
    map s | s in sessions :: ViewOf(sessions[s])
  }

  ghost function Stored(sessions: map<string, SyntheticSession>): set<JsonMap> {
    set s, i | s in sessions && i in sessions[s].objects :: sessions[s].objects[i]
  }

  // ---- The registry's maps, which hold the objects themselves ----

  function EvictIn(sessions: map<string, SyntheticSession>, cutoff: int): map<string, SyntheticSession> {
    map s | s in sessions && cutoff <= sessions[s].seen :: sessions[s]
  }

  function RegisterIn(kept: map<string, SyntheticSession>, session: string, id: string, result: JsonMap, now: int)
    : map<string, SyntheticSession>
  {
    var objects := if session in kept then kept[session].objects else map[];
    kept[session := SyntheticSession(if id in objects then objects else objects[id := result], now)]
  }

  function MintIn(sessions: map<string, SyntheticSession>, session: string, id: string, result: JsonMap, at: Clock, ttl: int)
    : map<string, SyntheticSession>
  {
    RegisterIn(EvictIn(sessions, at.evict - ttl), session, id, result, at.seen)
  }

  lemma EvictView(sessions: map<string, SyntheticSession>, cutoff: int)
    ensures ViewOfAll(EvictIn(sessions, cutoff)) == Evict(ViewOfAll(sessions), cutoff)
  {
  }

  lemma UpdateView(m: map<string, SyntheticSession>, session: string, x: SyntheticSession)
    ensures ViewOfAll(m[session := x]) == ViewOfAll(m)[session := ViewOf(x)]
  {
    hide ViewOf;
  }

  lemma AddView(objects: map<string, JsonMap>, id: string, result: JsonMap, now: int)
    ensures ViewOf(SyntheticSession(objects[id := result], now)).objects
            == ViewOf(SyntheticSession(objects, now)).objects[id := result.fields]
  {
  }

  lemma ObjectsView(m: map<string, SyntheticSession>, session: string, now: int)
    ensures ViewOf(SyntheticSession(if session in m then m[session].objects else map[], now)).objects
            == ObjectsOf(ViewOfAll(m), session)
  {
  }

  lemma RegisterView(kept: map<string, SyntheticSession>, session: string, id: string, result: JsonMap, now: int)
    ensures ViewOfAll(RegisterIn(kept, session, id, result, now)) == Register(ViewOfAll(kept), session, id, result.fields, now)
  {
    hide ViewOfAll, ObjectsOf;
    var objects := if session in kept then kept[session].objects else map[];
    ObjectsView(kept, session, now);
    AddView(objects, id, result, now);
    UpdateView(kept, session, SyntheticSession(if id in objects then objects else objects[id := result], now));
  }

  /** Whatever the result holds by now, that is what its registration shows. */
  lemma MintView(sessions: map<string, SyntheticSession>, session: string, id: string, result: JsonMap, at: Clock, ttl: int)
    ensures ViewOfAll(MintIn(sessions, session, id, result, at, ttl))
            == Mint(ViewOfAll(sessions), session, id, result.fields, at, ttl)
  {
    hide ViewOfAll, Register, RegisterIn, Evict, EvictIn;
    EvictView(sessions, at.evict - ttl);
    RegisterView(EvictIn(sessions, at.evict - ttl), session, id, result, at.seen);
  }

  class SyntheticRegistry {
    var sessions: map<string, SyntheticSession>
    const ttl: int

    constructor (ttl: int)
      ensures View() == map[] && sessions == map[] && this.ttl == if ttl <= 0 then 1_800_000_000_000 else ttl
    {
      this.ttl := if ttl <= 0 then 1_800_000_000_000 else ttl;
      sessions := map[];
    }

    ghost function View(): map<string, SessionView>
      reads this, Stored(sessions)
    {
      ViewOfAll(sessions)
    }

    method EvictLocked(now: int)
      modifies this`sessions
      ensures sessions == EvictIn(old(sessions), now - ttl)
    {
      var cutoff := now - ttl;
      var keys := sessions.Keys;
      while keys != {}
        invariant keys <= sessions.Keys <= old(sessions).Keys
        invariant forall s :: s in old(sessions) && s !in keys ==> (s in sessions <==> cutoff <= old(sessions)[s].seen)
        invariant forall s :: s in sessions ==> sessions[s] == old(sessions)[s]
        decreases |keys|
      {
        var k :| k in keys;
        if sessions[k].seen < cutoff {
          sessions := sessions - {k};
        }
        keys := keys - {k};
      }
    }

    method Mint(c: Config, r: Request, result: JsonMap, at: Clock) returns (id: string)
      modifies this`sessions
      ensures id == IdOf(c, r) && sessions == MintIn(old(sessions), SessionOf(r), id, result, at, ttl)
    {
      hide IdOf, EvictIn;
      id := IdOf(c, r);
      var session := SessionOf(r);
      EvictLocked(at.evict);
      var s := if session in sessions then sessions[session] else SyntheticSession(map[], 0);
      s := s.(seen := at.seen);
      if id !in s.objects {
        s := s.(objects := s.objects[id := result]);
      }
      sessions := sessions[session := s];
    }

    method Lookup(r: Request) returns (found: bool, obj: Object, id: string)
      ensures found <==> NamesAny(View(), r)
      ensures found ==> Names(View(), r, id) && obj == View()[SessionOf(r)].objects[id]
    {
      hide Contains;
      if r.args == "" {
        return false, map[], "";
      }
      var session := SessionOf(r);
      if session !in sessions {
        return false, map[], "";
      }
      var s := sessions[session];
      var keys := s.objects.Keys;
      while keys != {}
        invariant keys <= s.objects.Keys
        invariant forall i :: i in s.objects && i !in keys ==> !Contains(r.args, i)
        decreases |keys|
      {
        var k :| k in keys;
        if Contains(r.args, k) {
          assert Names(View(), r, k);
          return true, s.objects[k].fields, k;
        }
        keys := keys - {k};
      }
      return false, map[], "";
    }
  }

  class Suppressor {
    const config: Config
    const synthetic: SyntheticRegistry
    var suppressed: nat
    var refused: nat
    var allowed: nat
    var replayed: nat
    var attempts: map<string, nat>
    var steps: map<string, nat>
    /** What `Next` and `Sink` were given. */
    var forwarded: seq<Request>
    var emitted: seq<Emitted>

    constructor (effects: map<string, string>, hash: string -> string)
      ensures View() == EMPTY && fresh(synthetic) && config == Config(effects, synthetic.ttl, hash)
    {
      hide ViewOfAll, Stored;
      var registry := new SyntheticRegistry(0);
      config := Config(effects, registry.ttl, hash);
      synthetic := registry;
      suppressed, refused, allowed, replayed := 0, 0, 0, 0;
      attempts, steps, forwarded, emitted := map[], map[], [], [];
      new;
      NothingStored();
    }

    ghost function View(): State
      reads this, synthetic, Stored(synthetic.sessions)
    {
      State(synthetic.View(), suppressed, refused, allowed, replayed, attempts, steps, forwarded, emitted)
    }

    method Next(r: Request)
      modifies this`forwarded
      ensures forwarded == old(forwarded) + [r]
    {
      forwarded := forwarded + [r];
    }

    method Record(tool: string)
      modifies this`attempts
      ensures attempts == old(attempts)[tool := Count(old(attempts), tool) + 1]
    {
      attempts := attempts[tool := Count(attempts, tool) + 1];
    }

    method EmitStep(r: Request, effect: string, refused: bool)
      modifies this`steps, this`emitted
      ensures steps == old(steps)[SessionOf(r) := Count(old(steps), SessionOf(r)) + 1]
      ensures emitted == old(emitted) + [Emitted(SessionOf(r), Count(old(steps), SessionOf(r)), r.tool, effect, refused)]
    {
      var step := Count(steps, SessionOf(r));
      steps := steps[SessionOf(r) := step + 1];
      emitted := emitted + [Emitted(SessionOf(r), step, r.tool, effect, refused)];
    }

    /** Register the result, complete it in place, and register it again. */
    method SuppressCall(r: Request, effect: string, first: Clock, second: Clock) returns (answer: JsonMap)
      requires config.ttl == synthetic.ttl && effect == EffectOf(config, r.tool)
      modifies this`steps, this`emitted, synthetic`sessions
      ensures fresh(answer) && answer.fields == ResultOf(config, r)
      ensures synthetic.View() == Twice(config, old(synthetic.View()), r, first, second)
      ensures steps == old(steps)[SessionOf(r) := Count(old(steps), SessionOf(r)) + 1]
      ensures emitted == old(emitted) + [Emitted(SessionOf(r), Count(old(steps), SessionOf(r)), r.tool, effect, false)]
    {
      hide IdOf, FullText, Explanation, MintIn, Suppression.Mint, ViewOfAll, Emit;
      ghost var before, view := synthetic.sessions, synthetic.View();
      var explanation := Explanation(r.tool, effect);
      answer := new JsonMap(map["content" := Text(explanation), "isError" := Flag(false)]);
      var id := synthetic.Mint(config, r, answer, first);
      answer.fields := answer.fields["id" := Text(id)];
      answer.fields := answer.fields["content" := Text(FullText(config, r))];
      assert answer.fields == ResultOf(config, r);
      ghost var once := synthetic.sessions;
      var again := synthetic.Mint(config, r, answer, second);
      EmitStep(r, effect, false);
      Unmoved(before);
      MintView(before, SessionOf(r), id, answer, first, config.ttl);
      MintView(once, SessionOf(r), id, answer, second, config.ttl);
    }

    /** Count the attempt and answer the write. */
    method HandleWrite(r: Request, effect: string, first: Clock, second: Clock) returns (answer: Object)
      requires config.ttl == synthetic.ttl && effect == EffectOf(config, r.tool)
      modifies this, synthetic`sessions
      ensures answer == ResultOf(config, r)
      ensures forall pick :: View() == Suppress(config, old(View()), Event(r, first, second, pick))
    {
      hide ViewOfAll, ResultOf, Suppression.Mint, IdOf, EffectOf;
      suppressed := suppressed + 1;
      Record(r.tool);
      Unmoved(synthetic.sessions);
      var result := SuppressCall(r, effect, first, second);
      answer := result.fields;
    }

    method HandleUnclassified(r: Request)
      modifies this
      ensures View() == Refuse(old(View()), r)
    {
      hide ViewOfAll;
      refused := refused + 1;
      EmitStep(r, "", true);
      Unmoved(synthetic.sessions);
    }

    method ServeHTTP(r: Request, first: Clock, second: Clock) returns (response: Response, ghost pick: string)
      requires config.ttl == synthetic.ttl
      modifies this, synthetic`sessions
      ensures (View(), response) == Serve(config, old(View()), Event(r, first, second, pick))
    {
      hide ViewOfAll, ResultOf, Contains, Serve, Refuse, Suppress, NamesAny, EffectOf;
      pick := "";
      ServeCases(config, View(), Event(r, first, second, pick));
      if !r.post {
        Next(r);
        Unmoved(synthetic.sessions);
        assert View() == old(View()).(forwarded := old(View()).forwarded + [r]);
        return Forwarded, pick;
      }
      if !r.readable {
        return BadRequest, pick;
      }
      if r.rpc != "tools/call" {
        allowed := allowed + 1;
        Next(r);
        Unmoved(synthetic.sessions);
        assert View() == Forward(old(View()), r);
        return Forwarded, pick;
      }
      var found, obj, id := synthetic.Lookup(r);
      Unmoved(synthetic.sessions);
      assert View() == old(View());
      ServeCases(config, View(), Event(r, first, second, id));
      if found {
        replayed := replayed + 1;
        Unmoved(synthetic.sessions);
        assert View() == old(View()).(replayed := old(View()).replayed + 1);
        return Replayed(obj), id;
      }
      var effect := EffectOf(config, r.tool);
      if effect == "" {
        HandleUnclassified(r);
        return Refused(r.tool), pick;
      }
      if effect != "read" {
        var answer := HandleWrite(r, effect, first, second);
        return Suppressed(answer), pick;
      }
      allowed := allowed + 1;
      Next(r);
      Unmoved(synthetic.sessions);
      assert View() == Forward(old(View()), r);
      return Forwarded, pick;
    }
  }

  lemma ServeCases(c: Config, s: State, e: Event)
    ensures var r := e.request;
            && (!r.post ==> Serve(c, s, e) == (s.(forwarded := s.forwarded + [r]), Forwarded))
            && (r.post && !r.readable ==> Serve(c, s, e) == (s, BadRequest))
            && (r.post && r.readable && r.rpc != "tools/call" ==> Serve(c, s, e) == (Forward(s, r), Forwarded))
            && (IsCall(r) && NamesAny(s.sessions, r) && Names(s.sessions, r, e.pick)
                ==> Serve(c, s, e) == (s.(replayed := s.replayed + 1), Replayed(s.sessions[SessionOf(r)].objects[e.pick])))
            && (IsCall(r) && !NamesAny(s.sessions, r) && EffectOf(c, r.tool) == ""
                ==> Serve(c, s, e) == (Refuse(s, r), Refused(r.tool)))
            && (IsCall(r) && !NamesAny(s.sessions, r) && EffectOf(c, r.tool) != "" && EffectOf(c, r.tool) != "read"
                ==> Serve(c, s, e) == (Suppress(c, s, e), Suppressed(ResultOf(c, r))))
            && (IsCall(r) && !NamesAny(s.sessions, r) && EffectOf(c, r.tool) == "read"
                ==> Serve(c, s, e) == (Forward(s, r), Forwarded))
  {
    hide Suppress, Refuse, Contains, ResultOf, EffectOf;
  }

  twostate lemma Unmoved(sessions: map<string, SyntheticSession>)
    requires forall x :: x in Stored(sessions) ==> old(allocated(x)) && old(x.fields) == x.fields
    ensures old(ViewOfAll(sessions)) == ViewOfAll(sessions)
  {
    forall s | s in sessions
      ensures old(ViewOf(sessions[s])) == ViewOf(sessions[s])
    {
      assert forall i :: i in sessions[s].objects ==> sessions[s].objects[i] in Stored(sessions);
    }
  }

  lemma NothingStored()
    ensures ViewOfAll(map[]) == map[]
  {
  }

  ghost function Twice(c: Config, sessions: map<string, SessionView>, r: Request, first: Clock, second: Clock)
    : map<string, SessionView>
  {
    Mint(Mint(sessions, SessionOf(r), IdOf(c, r), ResultOf(c, r), first, c.ttl),
         SessionOf(r), IdOf(c, r), ResultOf(c, r), second, c.ttl)
  }
}
