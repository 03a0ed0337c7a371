/** The `validator` tool (tools/validator/src/main.rs): route each file given on
    the command line to the validation endpoint, post it, and report the
    service's verdict. Unlike the curator, only a file that cannot be read
    makes the run fail. */
module Validator {
  import opened Wrappers
  import opened Paths
  import opened Router
  import opened Files
  import opened Http
  import Curator

  /** The handlers of the validator's router. */
  datatype RouteTarget = CardanoOverview | Noop

  /** A routed file: where to post it. */
  datatype MatchedRoute = MatchedRoute(endpoint: string)

  // ---------------------------------------------------------------- routing

  /** A route without captures, registered with the `Noop` handler. */
  const CargoTemplate: string := "tools/validator/Cargo.toml"

  const CargoSegments: seq<Segment> := [Literal("tools"), Literal("validator"), Literal("Cargo.toml")]

  /** The `Noop` template splits into three segments. */
  lemma SplitCargoTemplate()
    ensures Split(CargoTemplate) == ["tools", "validator", "Cargo.toml"]
  {
    assert CargoTemplate == "tools" + "/" + ("validator" + "/" + "Cargo.toml");
    SplitThree("tools", "validator", "Cargo.toml");
  }

  /** Reading three segments. */
  lemma ParseThree(a: string, b: string, c: string)
    ensures ParseSegments([a, b, c]) == [ParseSegment(a), ParseSegment(b), ParseSegment(c)]
  {
  }

  /** The `Noop` template reads as three literal segments. */
  lemma CargoPattern()
    ensures Pattern(CargoTemplate) == CargoSegments
  {
    SplitCargoTemplate();
    ParseThree("tools", "validator", "Cargo.toml");
  }

  /** The router's two routes: the overview template, then the `Noop` one. */
  const Routes: seq<Route<RouteTarget>> := [Route(Curator.OverviewSegments, CardanoOverview), Route(CargoSegments, Noop)]

  /** The table is what the two `add` calls build, in order. */
  lemma RoutesRegistered()
    ensures Routes == Add(Add([], Curator.OverviewTemplate, CardanoOverview), CargoTemplate, Noop)
  {
    Curator.OverviewPattern();
    CargoPattern();
    AddParsed([], Curator.OverviewTemplate, Curator.OverviewSegments, CardanoOverview);
    AddParsed([Routes[0]], CargoTemplate, CargoSegments, Noop);
  }

  /** The segment shape the `Noop` route accepts. */
  predicate IsCargoShape(segs: seq<string>)
  {
    |segs| == 3 && segs[0] == "tools" && segs[1] == "validator" && segs[2] == "Cargo.toml"
  }

  /** Matching the `Noop` pattern segment by segment; it captures nothing. */
  lemma MatchCargoSegments(segs: seq<string>)
    ensures MatchSegments(CargoSegments, segs) == if IsCargoShape(segs) then Some(map[]) else None
  {
    var pat := CargoSegments;
    if |segs| == 3 {
      assert pat[2..][1..] == [] && segs[2..][1..] == [];
      assert MatchSegments(pat[2..], segs[2..]) == if segs[2] == "Cargo.toml" then Some(map[]) else None;
      assert pat[1..][1..] == pat[2..] && segs[1..][1..] == segs[2..];
      assert MatchSegments(pat[1..], segs[1..]) ==
        if segs[1] == "validator" && segs[2] == "Cargo.toml" then Some(map[]) else None;
    }
  }

  /** No path matches both templates, so the order in which the router ranks
      its routes does not change what a path recognises as. */
  lemma TemplatesDisjoint(segs: seq<string>)
    ensures !(MatchSegments(Curator.OverviewSegments, segs).Some? && MatchSegments(CargoSegments, segs).Some?)
  {
    Curator.MatchOverviewSegments(segs);
    MatchCargoSegments(segs);
  }

  /** `match_route`: recognise the path, take the `policy_id` capture, and
      give the overview handler its validation URL; every other handler has
      no endpoint. */
  function MatchRoute(path: string): Option<MatchedRoute>
  {
    match Recognize(Routes, path)
    case None => None
    case Some(m) =>
      if "policy_id" !in m.params then None
      else match m.handler
        case CardanoOverview => Some(MatchedRoute(Curator.ValidateBase + m.params["policy_id"]))
        case _ => None
  }

  /** What the router recognises a path as: the overview handler with its
      capture, the `Noop` handler with no captures, or nothing. */
  lemma RecognizeRule(path: string)
    ensures var segs := Split(path);
      Recognize(Routes, path) ==
        if Curator.IsOverviewShape(segs) then Some(Match(CardanoOverview, map["policy_id" := segs[2]]))
        else if IsCargoShape(segs) then Some(Match(Noop, map[]))
        else None
  {
    var segs := Split(path);
    Curator.MatchOverviewSegments(segs);
    MatchCargoSegments(segs);
    assert Routes == [Routes[0]] + [Routes[1]];
    RecognizeCons(Routes[0], [Routes[1]], segs);
    assert [Routes[1]] == [Routes[1]] + [];
    RecognizeCons(Routes[1], [], segs);
  }

  /** The routing rule of `match_route`: an endpoint exactly for an overview
      path, and it is the validation URL of the captured policy id. */
  lemma MatchRouteRule(path: string)
    ensures MatchRoute(path) ==
      if Curator.IsOverviewShape(Split(path)) then Some(MatchedRoute(Curator.ValidateBase + Split(path)[2])) else None
  {
    RecognizeRule(path);
  }

  /** The overview file of any policy is posted to that policy's validation
      URL. */
  lemma MatchRouteOverview(p: string)
    requires Curator.IsPolicySegment(p)
    ensures MatchRoute(Curator.OverviewPath(p)) == Some(MatchedRoute(Curator.ValidateBase + p))
  {
    MatchRouteRule(Curator.OverviewPath(p));
    Curator.SplitOverviewPath(p);
  }

  /** The validator's own manifest is recognised, by the `Noop` route, yet has
      no endpoint: that route has no `policy_id` capture to find. */
  lemma CargoIsNoop()
    ensures Recognize(Routes, CargoTemplate) == Some(Match(Noop, map[]))
    ensures MatchRoute(CargoTemplate) == None
  {
    SplitCargoTemplate();
    RecognizeRule(CargoTemplate);
  }

  /** The validator routes exactly the files the curator routes, to the URL
      the curator's `Validate` action posts to. */
  lemma AgreesWithCurator(path: string)
    ensures MatchRoute(path).Some? <==> Curator.MatchRoute(path).Some?
    ensures MatchRoute(path).Some? ==>
      MatchRoute(path).value.endpoint == Curator.Endpoints(Curator.Validate, Curator.MatchRoute(path).value)[Curator.ConfigKey]
  {
    MatchRouteRule(path);
    Curator.MatchRouteRule(path);
  }

  // ------------------------------------------------------------ batch runner

  /** The line a file gets in the output. */
  datatype Report =
    | Skipped(file: string)
    | ReadFailed(file: string, detail: string)
    | Valid(file: string)
    | Invalid(file: string, error: string)
    | BadResponse(file: string)
    | RequestFailed(file: string)

  /** How a reply to the post of `file` is reported: the service's verdict,
      an undecodable body (also an unreadable one, read as empty text), or a
      failed request. */
  function Classify(file: string, reply: Reply): (r: Report)
    ensures r.file == file
    ensures r.Valid? <==> reply.Delivered? && reply.body.Tagged? && reply.body.status == "ok"
    ensures r.Invalid? <==> reply.Delivered? && reply.body.Tagged? && reply.body.status == "error" && reply.body.errorField.Some?
    ensures r.Invalid? ==> r.error == reply.body.errorField.value
    ensures r.RequestFailed? <==> reply.SendFailed?
    ensures !r.Skipped? && !r.ReadFailed?
  {
    match reply
    case SendFailed(_) => RequestFailed(file)
    case Delivered(body) =>
      match Decode(body)
      case Some(RespOk) => Valid(file)
      case Some(RespError(e)) => Invalid(file, e)
      case None => BadResponse(file)
  }

  /** The runner's state after a prefix of the files. */
  datatype BatchState = BatchState(reports: seq<Report>, sent: seq<Request>, errored: bool)

  /** One iteration of the `for file in &args` loop. */
  function BatchStep(server: Server, fs: FileSystem, st: BatchState, file: string): BatchState
  {
    match MatchRoute(file)
    case None => st.(reports := st.reports + [Skipped(file)])
    case Some(m) =>
      match Read(fs, file)
      case Err(e) => BatchState(st.reports + [ReadFailed(file, e)], st.sent, true)
      case Ok(text) =>
        var req := Request(m.endpoint, Curator.TextType, text);
        BatchState(st.reports + [Classify(file, server(st.sent, req))], st.sent + [req], st.errored)
  }

  /** The state after the loop has gone through `files`, in order. */
  function Batch(server: Server, fs: FileSystem, history: seq<Request>, files: seq<string>): (st: BatchState)
    ensures |st.reports| == |files|
  {
    if |files| == 0 then BatchState([], history, false)
    else BatchStep(server, fs, Batch(server, fs, history, files[..|files| - 1]), files[|files| - 1])
  }

  /** The request a file gives rise to, if it is routed and readable. */
  function FileRequest(fs: FileSystem, file: string): seq<Request>
  {
    match MatchRoute(file)
    case None => []
    case Some(m) => if Read(fs, file).Ok? then [Request(m.endpoint, Curator.TextType, fs[file].bytes)] else []
  }

  /** The requests of a list of files, in order. */
  function Plan(fs: FileSystem, files: seq<string>): seq<Request>
  {
    if |files| == 0 then [] else Plan(fs, files[..|files| - 1]) + FileRequest(fs, files[|files| - 1])
  }

  /** A file is a failure exactly when it is routed and cannot be read. */
  predicate ReadFails(fs: FileSystem, file: string)
  {
    MatchRoute(file).Some? && Read(fs, file).Err?
  }

  /** `main`'s result: exit status 1 at once for an empty argument list,
      otherwise the batch and the status its flag gives. */
  datatype Outcome = Outcome(exitCode: int, st: BatchState)

  function RunArgs(server: Server, fs: FileSystem, history: seq<Request>, args: seq<string>): Outcome
  {
    if |args| == 0 then Outcome(1, BatchState([], history, false))
    else
      var st := Batch(server, fs, history, args);
      Outcome(Curator.ExitCode(st.errored), st)
  }

  /** One iteration appends one report about the file, skipped exactly when it
      has no route; the flag is set by a read failure and by nothing else, and
      the file's planned request, if any, is appended to the log. */
  lemma BatchStepFacts(server: Server, fs: FileSystem, st: BatchState, file: string)
    ensures var next := BatchStep(server, fs, st, file);
      && |next.reports| == |st.reports| + 1
      && next.reports[..|st.reports|] == st.reports
      && next.reports[|st.reports|].file == file
      && (next.reports[|st.reports|].Skipped? <==> MatchRoute(file).None?)
      && (next.reports[|st.reports|].ReadFailed? <==> ReadFails(fs, file))
      && next.errored == (st.errored || ReadFails(fs, file))
      && next.sent == st.sent + FileRequest(fs, file)
  {
    var next := BatchStep(server, fs, st, file);
    if MatchRoute(file).Some? && Read(fs, file).Ok? {
      assert !next.reports[|st.reports|].ReadFailed?;
    }
  }

  /** Every file gets exactly one report, in input order; a file is skipped
      exactly when it has no route, and reported as unreadable exactly when it
      is routed and cannot be read. */
  lemma {:induction false} BatchReportsInOrder(server: Server, fs: FileSystem, history: seq<Request>, files: seq<string>)
    ensures var st := Batch(server, fs, history, files);
      forall i :: 0 <= i < |files| ==>
        && st.reports[i].file == files[i]
        && (st.reports[i].Skipped? <==> MatchRoute(files[i]).None?)
        && (st.reports[i].ReadFailed? <==> ReadFails(fs, files[i]))
  {
    if |files| > 0 {
      var init := files[..|files| - 1];
      BatchReportsInOrder(server, fs, history, init);
      var prev := Batch(server, fs, history, init);
      BatchStepFacts(server, fs, prev, files[|files| - 1]);
      var st := Batch(server, fs, history, files);
      forall i | 0 <= i < |files|
        ensures && st.reports[i].file == files[i]
                && (st.reports[i].Skipped? <==> MatchRoute(files[i]).None?)
                && (st.reports[i].ReadFailed? <==> ReadFails(fs, files[i]))
      {
        if i < |files| - 1 {
          assert init[i] == files[i];
          assert st.reports[i] == prev.reports[i];
        }
      }
    }
  }

  /** The flag is set exactly when some routed file cannot be read, whatever
      the service answers: a rejected file, an undecodable reply or a failed
      request never sets it. */
  lemma {:induction false} BatchErroredIff(server: Server, fs: FileSystem, history: seq<Request>, files: seq<string>)
    ensures Batch(server, fs, history, files).errored <==> exists i :: 0 <= i < |files| && ReadFails(fs, files[i])
  {
    if |files| > 0 {
      var init := files[..|files| - 1];
      BatchErroredIff(server, fs, history, init);
      var prev := Batch(server, fs, history, init);
      BatchStepFacts(server, fs, prev, files[|files| - 1]);
      if prev.errored {
        var i :| 0 <= i < |init| && ReadFails(fs, init[i]);
        assert files[i] == init[i];
      }
      if exists i :: 0 <= i < |files| && ReadFails(fs, files[i]) {
        var i :| 0 <= i < |files| && ReadFails(fs, files[i]);
        if i < |init| { assert init[i] == files[i]; }
      }
    }
  }

  /** The requests sent do not depend on the service: one post per routed,
      readable file, in input order, appended to what was sent before. */
  lemma {:induction false} BatchSendsPlan(server: Server, fs: FileSystem, history: seq<Request>, files: seq<string>)
    ensures Batch(server, fs, history, files).sent == history + Plan(fs, files)
  {
    if |files| > 0 {
      var init := files[..|files| - 1];
      BatchSendsPlan(server, fs, history, init);
      BatchStepFacts(server, fs, Batch(server, fs, history, init), files[|files| - 1]);
    }
  }

  /** A routed, readable file is reported as the service answered its post,
      which carries the file's text to its endpoint after the requests of the
      files before it. */
  lemma {:induction false} BatchReportsReply(server: Server, fs: FileSystem, history: seq<Request>, files: seq<string>, i: nat)
    requires i < |files| && MatchRoute(files[i]).Some? && Read(fs, files[i]).Ok?
    ensures var req := Request(MatchRoute(files[i]).value.endpoint, Curator.TextType, fs[files[i]].bytes);
      Batch(server, fs, history, files).reports[i] == Classify(files[i], server(history + Plan(fs, files[..i]), req))
  {
    var init := files[..|files| - 1];
    if i < |files| - 1 {
      assert init[i] == files[i];
      assert init[..i] == files[..i];
      BatchReportsReply(server, fs, history, init, i);
      BatchStepFacts(server, fs, Batch(server, fs, history, init), files[|files| - 1]);
    } else {
      assert files[..i] == init;
      BatchSendsPlan(server, fs, history, init);
    }
  }

  /** The exit status of `main`: 1 exactly when there are no arguments or some
      routed file cannot be read; with no arguments nothing is reported or
      sent. */
  lemma ExitCodeRule(server: Server, fs: FileSystem, history: seq<Request>, args: seq<string>)
    ensures var out := RunArgs(server, fs, history, args);
      && (out.exitCode == 1 <==> |args| == 0 || exists i :: 0 <= i < |args| && ReadFails(fs, args[i]))
      && (out.exitCode == 0 <==> |args| > 0 && forall i :: 0 <= i < |args| ==> !ReadFails(fs, args[i]))
      && (|args| == 0 ==> out.st.reports == [] && out.st.sent == history)
  {
    if |args| > 0 {
      BatchErroredIff(server, fs, history, args);
    }
  }

  /** `main`: the empty-argument check, then the loop over the files, then
      the exit status. */
  method RunValidator(client: Client, fs: FileSystem, args: seq<string>) returns (exitCode: int, reports: seq<Report>)
    modifies client
    ensures var out := RunArgs(client.server, fs, old(client.sent), args);
      exitCode == out.exitCode && reports == out.st.reports && client.sent == out.st.sent
  {
    if |args| == 0 {
      return 1, [];
    }
    var errored := false;
    reports := [];
    ghost var history := client.sent;
    var i := 0;
    while i < |args|
      invariant 0 <= i <= |args|
      invariant Batch(client.server, fs, history, args[..i]) == BatchState(reports, client.sent, errored)
    {
      var file := args[i];
      assert args[..i + 1][..i] == args[..i];
      var route := MatchRoute(file);
      if route.None? {
        reports := reports + [Skipped(file)];
        i := i + 1;
        continue;
      }
      var content := Read(fs, file);
      if content.Err? {
        reports := reports + [ReadFailed(file, content.msg)];
        errored := true;
        i := i + 1;
        continue;
      }
      var reply := client.Send(Request(route.value.endpoint, Curator.TextType, content.value));
      reports := reports + [Classify(file, reply)];
      i := i + 1;
    }
    assert args[..i] == args;
    exitCode := Curator.ExitCode(errored);
  }
}
