/** Which answer each request gets, and what is recorded about it (`internal/recorder/suppressor.go`). */
module SuppressionAnswers {
  import opened Basics
  import opened Suppression

  predicate IsWrite(c: Config, tool: string) { tool in c.effects && c.effects[tool] != "" && c.effects[tool] != "read" }

  predicate IsUnclassified(c: Config, tool: string) { tool !in c.effects || c.effects[tool] == "" }

  predicate ToolCall(r: Request) { r.post && r.readable && r.rpc == "tools/call" }

  /** Which answer a request gets, exactly. A call that names an invented object is answered with one it names, whatever its tool;
      any other call of a write is suppressed, and of an unclassified tool refused. */
  lemma AnsweredExactly(c: Config, s: State, e: Event)
    ensures var a, r := Serve(c, s, e).1, e.request;
            && (a == BadRequest <==> r.post && !r.readable)
            && (a.Replayed? <==> ToolCall(r) && NamesAny(s.sessions, r))
            && (a.Replayed? ==> exists id :: Names(s.sessions, r, id) && s.sessions[SessionOf(r)].objects[id] == a.obj)
            && (a.Refused? <==> ToolCall(r) && !NamesAny(s.sessions, r) && IsUnclassified(c, r.tool))
            && (a.Refused? ==> a.tool == r.tool)
            && (a.Suppressed? <==> ToolCall(r) && !NamesAny(s.sessions, r) && IsWrite(c, r.tool))
            && (a.Suppressed? ==> a.obj == ResultOf(c, r))
  {
    hide ResultOf, IdOf, Contains;
    if ToolCall(e.request) && NamesAny(s.sessions, e.request) {
      assert Names(s.sessions, e.request, Chosen(s.sessions, e.request, e.pick));
    }
  }

  /** Each tally counts its own answers; only posts that are forwarded count as allowed. */
  lemma TalliedByAnswer(c: Config, s: State, e: Event)
    ensures var (t, a) := Serve(c, s, e);
            && t.suppressed == s.suppressed + (if a.Suppressed? then 1 else 0)
            && t.refused == s.refused + (if a.Refused? then 1 else 0)
            && t.replayed == s.replayed + (if a.Replayed? then 1 else 0)
            && t.allowed == s.allowed + (if a == Forwarded && e.request.post then 1 else 0)
  {
    hide NamesAny, ResultOf, IdOf, Mint;
  }

  /** The answer event i got. */
  ghost function AnswerTo(c: Config, events: seq<Event>, i: nat): Response
    requires i < |events|
  {
    Serve(c, Run(c, events[..i]), events[i]).1
  }

  /** The record is of event i, of a suppressed write with the effect it is classified with, or of a refused call. */
  ghost predicate Records(c: Config, events: seq<Event>, i: int, m: Emitted) {
    && 0 <= i < |events| && m.tool == events[i].request.tool && m.session == SessionOf(events[i].request)
    && if m.refused then AnswerTo(c, events, i).Refused? && m.effect == ""
       else AnswerTo(c, events, i).Suppressed? && m.tool in c.effects && m.effect == c.effects[m.tool]
  }

  lemma EmittedNow(c: Config, s: State, e: Event)
    ensures var (t, a) := Serve(c, s, e);
            var r := e.request;
            if a.Suppressed? || a.Refused? then
              && |t.emitted| == |s.emitted| + 1 && t.emitted[..|s.emitted|] == s.emitted
              && var m := t.emitted[|s.emitted|];
                 && m.tool == r.tool && m.session == SessionOf(r) && m.refused == a.Refused?
                 && (a.Refused? ==> m.effect == "") && (a.Suppressed? ==> r.tool in c.effects && m.effect == c.effects[r.tool])
            else t.emitted == s.emitted
  {
    hide NamesAny, ResultOf, IdOf, Mint;
  }

  /** Over a run, everything recorded is of a suppressed or refused call, and says its tool, its session and its effect. */
  lemma {:induction false} EmittedMeaning(c: Config, events: seq<Event>, k: nat)
    requires k < |Run(c, events).emitted|
    ensures exists i :: Records(c, events, i, Run(c, events).emitted[k])
  {
    hide Serve;
    if events != [] {
      var n, front, e := |events| - 1, events[..|events| - 1], events[|events| - 1];
      var s := Run(c, front);
      EmittedNow(c, s, e);
      if k < |s.emitted| {
        EmittedMeaning(c, front, k);
        var i :| Records(c, front, i, s.emitted[k]);
        assert front[..i] == events[..i];
        assert Run(c, events).emitted[k] == s.emitted[k];
        assert Records(c, events, i, Run(c, events).emitted[k]);
      } else {
        assert Records(c, events, n, Run(c, events).emitted[k]);
      }
    }
  }
}
