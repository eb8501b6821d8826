/** One route object under any of the three routers: the abstract one, an HTTPRoute, or a VirtualService. */
module Routing {
  import opened Basics
  import opened Traffic
  import Gateway
  import Istio

  datatype Route =
    | Abstract(view: View, canMirror: bool)
    | HttpRoute(rules: seq<Gateway.Rule>)
    | VirtualService(http: seq<Istio.HttpRoute>)

  predicate Readable(r: Route) {
    match r
    case Abstract(_, _) => true
    case HttpRoute(rules) => rules != []
    case VirtualService(http) => http != [] && Istio.Readable(http[0])
  }

  function ViewOf(r: Route, t: Target): View
    requires Readable(r)
  {
    match r
    case Abstract(view, _) => view
    case HttpRoute(rules) => Gateway.ViewOf(rules[0], t)
    case VirtualService(http) => Istio.ViewOf(http[0], t)
  }

  function ReadSplit(r: Route, t: Target): Result<Split> {
    if Readable(r) then Ok(ViewOf(r, t).split) else Err
  }

  function SetSplit(r: Route, t: Target, s: Split): Result<Route> {
    match r
    case Abstract(view, _) => if s.Valid() then Ok(r.(view := view.(split := s))) else Err
    case HttpRoute(rules) =>
      if rules == [] then Err
      else (match Gateway.Reweighted(rules[0], t, s) case Ok(rule) => Ok(HttpRoute(rules[0 := rule])) case Err => Err)
    case VirtualService(http) =>
      if http == [] then Err
      else (match Istio.Reweighted(http[0], t, s) case Ok(route) => Ok(VirtualService(http[0 := route])) case Err => Err)
  }

  datatype MirrorAnswer = Changed(route: Route) | Impossible | Unsupported

  /** An HTTPRoute cannot honour a percentage between 0 and 100; a router may be unable to mirror at all. */
  function SetMirror(r: Route, t: Target, percent: int): MirrorAnswer {
    match r
    case Abstract(view, canMirror) =>
      if !canMirror then Unsupported
      else if percent < 0 || percent > 100 then Impossible
      else Changed(r.(view := view.(mirror := percent)))
    case HttpRoute(rules) =>
      if percent != 0 && percent != 100 then Unsupported
      else if rules == [] then Impossible
      else (match Gateway.Mirrored(rules[0], t, percent)
            case Ok(rule) => Changed(HttpRoute(rules[0 := rule]))
            case Err => Impossible)
    case VirtualService(http) =>
      if http == [] then Impossible
      else (match Istio.Mirrored(http[0], t, percent)
            case Ok(route) => Changed(VirtualService(http[0 := route]))
            case Err => Impossible)
  }

  /** A route the rollout can tell its two arms apart on. */
  predicate Usable(r: Route, t: Target) {
    && Readable(r)
    && (r.Abstract? || t.incumbent != t.candidate)
    && (r.Abstract? && !r.canMirror ==> r.view.mirror == 0)
  }

  /** Whatever the router, a split that is accepted is the split read back, and the mirror to the candidate stays as it
      was. What else a route holds may move: see `Gateway.BackendsKeptExactly`. */
  lemma SplitReadsBack(r: Route, t: Target, s: Split)
    requires Usable(r, t) && SetSplit(r, t, s).Ok? && Gateway.InRange(s)
    ensures s.Valid()
    ensures var r' := SetSplit(r, t, s).value; Usable(r', t) && ViewOf(r', t) == ViewOf(r, t).(split := s)
  {
    match r
    case Abstract(_, _) =>
    case HttpRoute(rules) => Gateway.SplitReadsBack(rules[0], t, s);
    case VirtualService(http) => Istio.SplitReadsBack(http[0], t, s);
  }

  /** Whatever the router, a mirror change that is accepted is exactly the share asked for, and the split stays as it
      was. */
  lemma MirrorReadsBack(r: Route, t: Target, percent: int)
    requires Usable(r, t)
    ensures SetMirror(r, t, percent).Changed? ==>
              var r' := SetMirror(r, t, percent).route; Usable(r', t) && ViewOf(r', t) == ViewOf(r, t).(mirror := percent)
    ensures SetMirror(r, t, percent).Unsupported? && percent == 0 ==> ViewOf(r, t).mirror == 0
  {
    match r
    case Abstract(_, _) =>
    case HttpRoute(rules) =>
      if Gateway.Mirrored(rules[0], t, percent).Ok? {
        Gateway.MirrorReadsBack(rules[0], t, percent);
      }
    case VirtualService(http) =>
      if Istio.Mirrored(http[0], t, percent).Ok? {
        Istio.MirrorReadsBack(http[0], t, percent);
      }
  }

  /** Asking twice is asking once: a split that was accepted is accepted again, and changes nothing more. */
  lemma SplitIdempotent(r: Route, t: Target, s: Split)
    requires SetSplit(r, t, s).Ok?
    ensures SetSplit(SetSplit(r, t, s).value, t, s) == SetSplit(r, t, s)
  {
    hide Gateway.Reweighted, Istio.Reweighted;
    match r
    case Abstract(_, _) =>
    case HttpRoute(rules) =>
      Gateway.SplitTwice(rules[0], t, s);
      var rule := Gateway.Reweighted(rules[0], t, s).value;
      assert rules[0 := rule][0 := rule] == rules[0 := rule];
    case VirtualService(http) =>
      Istio.SplitTwice(http[0], t, s);
      var route := Istio.Reweighted(http[0], t, s).value;
      assert http[0 := route][0 := route] == http[0 := route];
  }

  /** And so for a mirror. */
  lemma MirrorIdempotent(r: Route, t: Target, percent: int)
    requires SetMirror(r, t, percent).Changed?
    ensures SetMirror(SetMirror(r, t, percent).route, t, percent) == SetMirror(r, t, percent)
  {
    hide Gateway.Mirrored;
    match r
    case Abstract(_, _) =>
    case HttpRoute(rules) =>
      Gateway.MirrorTwice(rules[0], t, percent);
      var rule := Gateway.Mirrored(rules[0], t, percent).value;
      assert rules[0 := rule][0 := rule] == rules[0 := rule];
    case VirtualService(http) =>
      var route := Istio.Mirrored(http[0], t, percent).value;
      assert http[0 := route][0 := route] == http[0 := route];
  }

  /** The routes differ in their first rule at most, and are of one kind. */
  predicate FirstRuleOnly(r: Route, r': Route) {
    match r
    case Abstract(_, canMirror) => r'.Abstract? && r'.canMirror == canMirror
    case HttpRoute(rules) => r'.HttpRoute? && |rules| == |r'.rules| > 0 && rules[1..] == r'.rules[1..]
    case VirtualService(http) => r'.VirtualService? && |http| == |r'.http| > 0 && http[1..] == r'.http[1..]
  }

  /** Both edits are to the first rule of a route, and leave every other rule as it was. */
  lemma OtherRulesKept(r: Route, t: Target, s: Split, percent: int)
    ensures SetSplit(r, t, s).Ok? ==> FirstRuleOnly(r, SetSplit(r, t, s).value)
    ensures SetMirror(r, t, percent).Changed? ==> FirstRuleOnly(r, SetMirror(r, t, percent).route)
  {
    hide Gateway.Reweighted, Istio.Reweighted, Gateway.Mirrored, Istio.Mirrored;
  }

  /** A backend of that name is there, and the first such has a port. */
  ghost predicate PortKnown(backends: seq<Gateway.BackendRef>, name: string) {
    exists i :: Gateway.FirstOf(backends, name, i) && backends[i].port.Some?
  }

  /** Which mirror changes are accepted, and why the others are not: the Gateway API copies all of the traffic or none, and only
      to a backend with a port. */
  lemma MirrorAccepted(r: Route, t: Target, percent: int)
    ensures SetMirror(r, t, percent).Changed? <==>
              match r
              case Abstract(_, canMirror) => canMirror && 0 <= percent <= 100
              case HttpRoute(rules) => |rules| > 0 && (percent == 0 || (percent == 100 && PortKnown(rules[0].backends, t.candidate)))
              case VirtualService(http) => |http| > 0 && 0 <= percent <= 100
    ensures SetMirror(r, t, percent).Unsupported? <==>
              (r.Abstract? && !r.canMirror) || (r.HttpRoute? && percent != 0 && percent != 100)
  {
    if r.HttpRoute? && r.rules != [] {
      FirstNamedIs(r.rules[0].backends, t.candidate);
    }
  }

  lemma FirstNamedIs(backends: seq<Gateway.BackendRef>, name: string)
    ensures var found := Gateway.FirstNamed(backends, name);
            found.Some? && found.value.port.Some? <==> PortKnown(backends, name)
  {
    Gateway.FirstNamedMeaning(backends, name);
    forall i | Gateway.FirstOf(backends, name, i)
      ensures Gateway.FirstNamed(backends, name) == Some(backends[i])
    {
      Gateway.OneFirst(backends, name, i);
    }
  }
}
