/** The observable matching rule of the `route_recognizer` crate, as the two
    tools use it: a template such as `collections/cardano/:policy_id/overview.toml`
    is split at `/`; a segment of the form `:name` captures one non-empty path
    segment, every other segment must equal the path segment exactly (neither
    template has a `*name` glob segment, which the crate reads specially and
    this model reads as a literal). */
module Router {
  import opened Wrappers
  import opened Paths

  datatype Segment = Literal(text: string) | Param(name: string)

  /** A registered route: the template as the router has parsed it, and the
      handler it maps to. */
  datatype Route<H> = Route(pattern: seq<Segment>, handler: H)

  /** A successful recognition: the handler and the captured parameters. */
  datatype Match<H> = Match(handler: H, params: map<string, string>)

  /** One template segment as the router reads it. */
  function ParseSegment(s: string): (r: Segment)
    ensures r.Param? <==> |s| > 0 && s[0] == ':'
    ensures r.Param? ==> [':'] + r.name == s
    ensures r.Literal? ==> r.text == s
  {
    if |s| > 0 && s[0] == ':' then Param(s[1..]) else Literal(s)
  }

  /** Each segment read in turn. */
  function ParseSegments(segs: seq<string>): (r: seq<Segment>)
    ensures |r| == |segs|
    ensures forall i :: 0 <= i < |r| ==> r[i] == ParseSegment(segs[i])
  {
    if |segs| == 0 then [] else [ParseSegment(segs[0])] + ParseSegments(segs[1..])
  }

  /** The segment list of a template, as `Add` parses it on registration. */
  function Pattern(template: string): seq<Segment>
  {
    ParseSegments(Split(template))
  }

  /** Whether one template segment accepts one path segment. */
  predicate Accepts(p: Segment, s: string)
  {
    match p
    case Literal(t) => t == s
    case Param(_) => s != ""
  }

  /** Matching a template's segments against a path's segments; the captured
      values are bound to the capture names (a later capture of the same name
      wins, as in the crate's parameter map). */
  function MatchSegments(pat: seq<Segment>, segs: seq<string>): Option<map<string, string>>
  {
    if |pat| != |segs| then None
    else if |pat| == 0 then Some(map[])
    else if !Accepts(pat[0], segs[0]) then None
    else match MatchSegments(pat[1..], segs[1..])
      case None => None
      case Some(rest) =>
        if pat[0].Param? then Some(map[pat[0].name := segs[0]] + rest) else Some(rest)
  }

  /** The names of the captures of a pattern. */
  function ParamNames(pat: seq<Segment>): set<string>
  {
    set i | 0 <= i < |pat| && pat[i].Param? :: pat[i].name
  }

  /** No capture name occurs twice. */
  predicate DistinctNames(pat: seq<Segment>)
  {
    forall i, j :: 0 <= i < j < |pat| && pat[i].Param? && pat[j].Param? ==> pat[i].name != pat[j].name
  }

  /** The matching rule: a pattern matches exactly when the segment counts are
      equal and every segment accepts its counterpart. */
  lemma {:induction false} MatchSegmentsRule(pat: seq<Segment>, segs: seq<string>)
    ensures MatchSegments(pat, segs).Some? <==>
      |pat| == |segs| && forall i :: 0 <= i < |pat| ==> Accepts(pat[i], segs[i])
  {
    if |pat| == |segs| && |pat| > 0 {
      MatchSegmentsRule(pat[1..], segs[1..]);
      if forall i :: 0 <= i < |pat| ==> Accepts(pat[i], segs[i]) {
        assert forall i :: 0 <= i < |pat[1..]| ==> Accepts(pat[1..][i], segs[1..][i]) by {
          forall i | 0 <= i < |pat[1..]| ensures Accepts(pat[1..][i], segs[1..][i]) {
            assert Accepts(pat[i + 1], segs[i + 1]);
          }
        }
      }
      if MatchSegments(pat, segs).Some? {
        forall i | 0 <= i < |pat| ensures Accepts(pat[i], segs[i]) {
          if i > 0 { assert pat[1..][i - 1] == pat[i] && segs[1..][i - 1] == segs[i]; }
        }
      }
    }
  }

  /** A match binds exactly the capture names of the pattern, and, when the
      names are distinct, each to the path segment in its position. */
  lemma {:induction false} MatchSegmentsBinds(pat: seq<Segment>, segs: seq<string>)
    requires MatchSegments(pat, segs).Some?
    ensures MatchSegments(pat, segs).value.Keys == ParamNames(pat)
    ensures DistinctNames(pat) ==>
      forall i :: 0 <= i < |pat| && pat[i].Param? ==> MatchSegments(pat, segs).value[pat[i].name] == segs[i]
  {
    if |pat| > 0 {
      var rest := pat[1..];
      MatchSegmentsBinds(rest, segs[1..]);
      var m := MatchSegments(rest, segs[1..]).value;
      assert ParamNames(pat) == (if pat[0].Param? then {pat[0].name} else {}) + ParamNames(rest) by {
        forall n | n in ParamNames(pat)
          ensures n in (if pat[0].Param? then {pat[0].name} else {}) + ParamNames(rest)
        {
          var i :| 0 <= i < |pat| && pat[i].Param? && pat[i].name == n;
          if i > 0 { assert rest[i - 1] == pat[i]; }
        }
        forall n | n in ParamNames(rest) ensures n in ParamNames(pat) {
          var i :| 0 <= i < |rest| && rest[i].Param? && rest[i].name == n;
          assert pat[i + 1] == rest[i];
        }
      }
      if DistinctNames(pat) {
        assert DistinctNames(rest) by {
          forall i, j | 0 <= i < j < |rest| && rest[i].Param? && rest[j].Param?
            ensures rest[i].name != rest[j].name
          {
            assert pat[i + 1] == rest[i] && pat[j + 1] == rest[j];
          }
        }
        forall i | 0 <= i < |pat| && pat[i].Param?
          ensures MatchSegments(pat, segs).value[pat[i].name] == segs[i]
        {
          if i == 0 {
            assert pat[0].name !in ParamNames(rest);
          } else {
            assert rest[i - 1] == pat[i];
            assert segs[1..][i - 1] == segs[i];
          }
        }
      }
    }
  }

  /** The first route, in registration order, whose template matches the
      segments. */
  function RecognizeSegments<H>(routes: seq<Route<H>>, segs: seq<string>): Option<Match<H>>
  {
    if |routes| == 0 then None
    else match MatchSegments(routes[0].pattern, segs)
      case Some(params) => Some(Match(routes[0].handler, params))
      case None => RecognizeSegments(routes[1..], segs)
  }

  /** `Router::recognize`: the path is split and handed to the routes. */
  function Recognize<H>(routes: seq<Route<H>>, path: string): Option<Match<H>>
  {
    RecognizeSegments(routes, Split(path))
  }

  /** Recognition tries the first route before the others. */
  lemma RecognizeCons<H>(r: Route<H>, rest: seq<Route<H>>, segs: seq<string>)
    ensures RecognizeSegments([r] + rest, segs) ==
      if MatchSegments(r.pattern, segs).Some? then Some(Match(r.handler, MatchSegments(r.pattern, segs).value))
      else RecognizeSegments(rest, segs)
  {
    assert ([r] + rest)[0] == r && ([r] + rest)[1..] == rest;
  }

  /** `Router::add`: the template is parsed and appended to the table. */
  function Add<H>(routes: seq<Route<H>>, template: string, handler: H): (r: seq<Route<H>>)
    ensures |r| == |routes| + 1 && r[..|routes|] == routes
    ensures r[|routes|] == Route(Pattern(template), handler)
  {
    routes + [Route(Pattern(template), handler)]
  }

  /** Adding a template whose parsed form is known. */
  lemma AddParsed<H>(routes: seq<Route<H>>, template: string, pattern: seq<Segment>, handler: H)
    requires Pattern(template) == pattern
    ensures Add(routes, template, handler) == routes + [Route(pattern, handler)]
  {
  }

  /** Recognition picks the earliest matching route: it fails only when no
      route matches, and otherwise returns the handler and captures of the
      first route that does. */
  lemma {:induction false} RecognizeFirst<H>(routes: seq<Route<H>>, segs: seq<string>)
    ensures RecognizeSegments(routes, segs).None? <==>
      forall i :: 0 <= i < |routes| ==> MatchSegments(routes[i].pattern, segs).None?
    ensures RecognizeSegments(routes, segs).Some? ==>
      exists i :: 0 <= i < |routes| &&
        (forall j :: 0 <= j < i ==> MatchSegments(routes[j].pattern, segs).None?) &&
        MatchSegments(routes[i].pattern, segs) == Some(RecognizeSegments(routes, segs).value.params) &&
        RecognizeSegments(routes, segs).value.handler == routes[i].handler
  {
    if |routes| > 0 {
      var tail := routes[1..];
      RecognizeFirst(tail, segs);
      assert forall i :: 0 <= i < |tail| ==> tail[i] == routes[i + 1];
      if MatchSegments(routes[0].pattern, segs).None? {
        if RecognizeSegments(tail, segs).Some? {
          var i :| 0 <= i < |tail| &&
            (forall j :: 0 <= j < i ==> MatchSegments(tail[j].pattern, segs).None?) &&
            MatchSegments(tail[i].pattern, segs) == Some(RecognizeSegments(tail, segs).value.params) &&
            RecognizeSegments(tail, segs).value.handler == tail[i].handler;
          assert forall j :: 0 <= j < i + 1 ==> MatchSegments(routes[j].pattern, segs).None? by {
            forall j | 0 <= j < i + 1 ensures MatchSegments(routes[j].pattern, segs).None? {
              if j > 0 { assert routes[j] == tail[j - 1]; }
            }
          }
        }
      }
    }
  }
}
