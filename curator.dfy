/** The `curator` tool (tools/curator/src/main.rs): route a collection file to
    the curation service, validate it or upload it with its optional images,
    and turn the outcomes of a batch into an exit status. */
module Curator {
  import opened Wrappers
  import opened Paths
  import opened Router
  import opened Files
  import opened Http

  datatype Action = Validate | Update

  /** The remote resource a file stands for. */
  datatype RouteTarget = CardanoOverview(policyId: string)

  // ---------------------------------------------------------------- routing

  const OverviewTemplate: string := "collections/cardano/:policy_id/overview.toml"


  /** The repository path of the overview file of one policy. */
  function OverviewPath(policyId: string): string
  {
    "collections/cardano/" + policyId + "/overview.toml"
  }

  /** What the `:policy_id` capture accepts: one non-empty segment. */
  predicate IsPolicySegment(p: string)
  {
    p != "" && '/' !in p
  }

  /** `match_route`: recognise the path, take the `policy_id` capture, and map
      the handler name to a target. */
  function MatchRoute(path: string): Option<RouteTarget>
  {
    match Recognize(Routes, path)
    case None => None
    case Some(m) =>
      if "policy_id" !in m.params then None
      else if m.handler == "cardano_overview" then Some(CardanoOverview(m.params["policy_id"]))
      else None
  }

  /** The segments of an overview path. */
  lemma SplitOverviewPath(p: string)
    requires '/' !in p
    ensures Split(OverviewPath(p)) == ["collections", "cardano", p, "overview.toml"]
  {
    assert OverviewPath(p) == "collections" + "/" + ("cardano" + "/" + (p + "/" + "overview.toml"));
    SplitFour("collections", "cardano", p, "overview.toml");
  }

  /** The overview template splits into four segments. */
  lemma SplitOverviewTemplate()
    ensures Split(OverviewTemplate) == ["collections", "cardano", ":policy_id", "overview.toml"]
  {
    assert OverviewTemplate == OverviewPath(":policy_id");
    SplitOverviewPath(":policy_id");
  }

  /** Reading four segments. */
  lemma ParseFour(a: string, b: string, c: string, d: string)
    ensures ParseSegments([a, b, c, d]) == [ParseSegment(a), ParseSegment(b), ParseSegment(c), ParseSegment(d)]
  {
  }

  /** The parsed overview template. */
  const OverviewSegments: seq<Segment> :=
    [Literal("collections"), Literal("cardano"), Param("policy_id"), Literal("overview.toml")]

  /** The overview template reads as four segments, the third a capture. */
  lemma OverviewPattern()
    ensures Pattern(OverviewTemplate) == OverviewSegments
  {
    SplitOverviewTemplate();
    ParseFour("collections", "cardano", ":policy_id", "overview.toml");
  }

  /** The router's one route, with its handler name. */
  const Routes: seq<Route<string>> := [Route(OverviewSegments, "cardano_overview")]

  /** The table is what registering the overview template builds. */
  lemma RoutesRegistered()
    ensures Routes == Add([], OverviewTemplate, "cardano_overview")
  {
    OverviewPattern();
  }

  /** Matching the overview pattern segment by segment. */
  lemma MatchOverviewSegments(segs: seq<string>)
    ensures MatchSegments(OverviewSegments, segs) ==
      if IsOverviewShape(segs) then Some(map["policy_id" := segs[2]]) else None
  {
    var pat := OverviewSegments;
    if |segs| == 4 {
      assert pat[3..][1..] == [] && segs[3..][1..] == [];
      assert MatchSegments(pat[3..], segs[3..]) == if segs[3] == "overview.toml" then Some(map[]) else None;
      assert pat[2..][1..] == pat[3..] && segs[2..][1..] == segs[3..];
      assert pat[2..][0] == Param("policy_id") && segs[2..][0] == segs[2];
      assert map["policy_id" := segs[2]] + map[] == map["policy_id" := segs[2]];
      assert MatchSegments(pat[2..], segs[2..]) ==
        if segs[2] != "" && segs[3] == "overview.toml" then Some(map["policy_id" := segs[2]]) else None;
      assert pat[1..][1..] == pat[2..] && segs[1..][1..] == segs[2..];
      assert MatchSegments(pat[1..], segs[1..]) ==
        if segs[1] == "cardano" && segs[2] != "" && segs[3] == "overview.toml"
        then Some(map["policy_id" := segs[2]]) else None;
    }
  }

  /** The segment shape the overview route accepts. */
  predicate IsOverviewShape(segs: seq<string>)
  {
    |segs| == 4 && segs[0] == "collections" && segs[1] == "cardano" && segs[2] != "" && segs[3] == "overview.toml"
  }

  /** The routing rule of `match_route`: a target exactly for four segments
      `collections`, `cardano`, a non-empty policy id and `overview.toml`; any
      other segment count or literal gives no route. */
  lemma MatchRouteRule(path: string)
    ensures MatchRoute(path) ==
      if IsOverviewShape(Split(path)) then Some(CardanoOverview(Split(path)[2])) else None
  {
    MatchOverviewSegments(Split(path));
    assert Routes == [Routes[0]] + [];
    RecognizeCons(Routes[0], [], Split(path));
  }

  /** The overview file of any policy routes to that policy. */
  lemma MatchRouteOverview(p: string)
    requires IsPolicySegment(p)
    ensures MatchRoute(OverviewPath(p)) == Some(CardanoOverview(p))
  {
    MatchRouteRule(OverviewPath(p));
    SplitOverviewPath(p);
  }

  /** Only overview files route, and the target names the policy segment. */
  lemma MatchRouteOnlyOverview(path: string)
    requires MatchRoute(path).Some?
    ensures IsPolicySegment(MatchRoute(path).value.policyId)
    ensures path == OverviewPath(MatchRoute(path).value.policyId)
  {
    MatchRouteRule(path);
    OverviewPathOfSegments(path);
  }

  /** A path of the overview shape is the overview path of its third segment. */
  lemma OverviewPathOfSegments(path: string)
    requires IsOverviewShape(Split(path))
    ensures IsPolicySegment(Split(path)[2]) && path == OverviewPath(Split(path)[2])
  {
    var segs := Split(path);
    SplitSlashFree(path);
    assert '/' !in segs[2];
    JoinSplit(path);
    JoinFour(segs);
    assert OverviewPath(segs[2]) == "collections" + "/" + ("cardano" + "/" + (segs[2] + "/" + "overview.toml"));
  }

  // -------------------------------------------------------------- endpoints

  const ValidateBase: string := "https://curator.hodlcroft.net/validate/cardano/"
  const UpdateBase: string := "https://curator.hodlcroft.net/update/cardano/"

  const ConfigKey: string := "config"
  const ThumbnailKey: string := "thumbnail"
  const BannerKey: string := "banner"

  /** The asset names an action has endpoints for. */
  function AssetNames(action: Action): set<string>
  {
    match action
    case Validate => {ConfigKey}
    case Update => {ConfigKey, ThumbnailKey, BannerKey}
  }

  /** `get_endpoints`: asset name to URL. Validation has the one `config`
      endpoint; an update has one per asset, each named after its asset under
      the policy's update URL. No file is consulted. */
  function Endpoints(action: Action, target: RouteTarget): (r: map<string, string>)
    ensures r.Keys == AssetNames(action)
    ensures action.Validate? ==> r[ConfigKey] == ValidateBase + target.policyId
    ensures action.Update? ==> forall k :: k in r ==> r[k] == UpdateBase + target.policyId + "/" + k
  {
    match (action, target)
    case (Validate, CardanoOverview(p)) =>
      map[ConfigKey := ValidateBase + p]
    case (Update, CardanoOverview(p)) =>
      var base := UpdateBase + p;
      map[ConfigKey := base + "/config", ThumbnailKey := base + "/thumbnail", BannerKey := base + "/banner"]
  }

  /** Equal prefixes are cancelled from equal strings. */
  lemma CancelAround(a: string, p: string, q: string, z: string)
    requires a + p + z == a + q + z
    ensures p == q
  {
    var s := a + p + z;
    assert |p| == |q|;
    assert p == s[|a|..|a| + |p|];
    assert q == (a + q + z)[|a|..|a| + |q|];
  }

  /** Distinct policies never share an endpoint: the URLs determine the target. */
  lemma EndpointsDetermineTarget(action: Action, t1: RouteTarget, t2: RouteTarget)
    requires Endpoints(action, t1)[ConfigKey] == Endpoints(action, t2)[ConfigKey]
    ensures t1 == t2
  {
    match action
    case Validate =>
      CancelAround(ValidateBase, t1.policyId, t2.policyId, "");
    case Update =>
      CancelAround(UpdateBase, t1.policyId, t2.policyId, "/config");
  }

  /** The endpoints of a file, empty when it has no route (the
      `map(get_endpoints).unwrap_or_default()` of the batch loop). */
  function RouteEndpoints(action: Action, path: string): (r: map<string, string>)
    ensures |r| == 0 <==> MatchRoute(path).None?
    ensures MatchRoute(path).Some? ==> r == Endpoints(action, MatchRoute(path).value)
  {
    match MatchRoute(path)
    case None => map[]
    case Some(t) =>
      var ep := Endpoints(action, t);
      assert ConfigKey in ep;
      ep
  }

  // --------------------------------------------------------------- requests

  const RequestErrorPrefix: string := "request error: "
  const InvalidResponse: string := "invalid server response"

  /** How `post_file` reads a reply: a send failure, the service's own error
      message, or a generic complaint about a body it cannot decode. */
  function Interpret(reply: Reply): (r: Result<()>)
    ensures reply.SendFailed? ==> r == Err(RequestErrorPrefix + reply.detail)
    ensures reply.Delivered? ==> (r.Ok? <==> Decode(reply.body) == Some(RespOk))
    ensures reply.Delivered? && Decode(reply.body).Some? && Decode(reply.body).value.RespError? ==>
      r == Err(Decode(reply.body).value.error)
    ensures reply.Delivered? && Decode(reply.body).None? ==> r == Err(InvalidResponse)
  {
    match reply
    case SendFailed(e) => Err(RequestErrorPrefix + e)
    case Delivered(body) =>
      match Decode(body)
      case Some(RespOk) => Ok(())
      case Some(RespError(e)) => Err(e)
      case None => Err(InvalidResponse)
  }

  /** The classification in terms of the reply body: success only for a
      delivered reply tagged `ok`; an unknown or missing tag is never a
      success, and an `error` tag without its message is a protocol error. */
  lemma InterpretClassifies(reply: Reply)
    ensures Interpret(reply) == Ok(()) <==> reply.Delivered? && reply.body.Tagged? && reply.body.status == "ok"
    ensures reply.Delivered? && reply.body.Tagged? && reply.body.status == "error" && reply.body.errorField.Some? ==>
      Interpret(reply) == Err(reply.body.errorField.value)
    ensures reply.Delivered? && (reply.body.Malformed? || (reply.body.status != "ok" && reply.body.status != "error")) ==>
      Interpret(reply) == Err(InvalidResponse)
    ensures reply.Delivered? && reply.body.Tagged? && reply.body.status == "error" && reply.body.errorField.None? ==>
      Interpret(reply) == Err(InvalidResponse)
  {
  }

  /** `post_file`: send one POST and interpret the reply. */
  method PostFile(client: Client, endpoint: string, content: seq<byte>, contentType: string)
    returns (r: Result<()>)
    modifies client
    ensures client.sent == old(client.sent) + [Request(endpoint, contentType, content)]
    ensures r == Interpret(client.server(old(client.sent), Request(endpoint, contentType, content)))
  {
    var reply := client.Send(Request(endpoint, contentType, content));
    r := Interpret(reply);
  }

  /** What one handler call does: its result and the requests it sent. */
  datatype Run = Run(result: Result<()>, sent: seq<Request>)

  const ReadErrorPrefix: string := "read error: "

  /** The effect of `handle_validate` when the service answers as `server`
      does after `history`. */
  function ValidateRun(server: Server, history: seq<Request>, fs: FileSystem, file: string, endpoint: string): Run
  {
    match Read(fs, file)
    case Err(e) => Run(Err(ReadErrorPrefix + e), [])
    case Ok(text) =>
      var req := Request(endpoint, TextType, text);
      Run(Interpret(server(history, req)), [req])
  }

  /** An unreadable file sends nothing; a readable one sends exactly its
      contents, as plain text, to the endpoint, and the result is the reading
      of the reply. */
  lemma ValidateRunSends(server: Server, history: seq<Request>, fs: FileSystem, file: string, endpoint: string)
    ensures var run := ValidateRun(server, history, fs, file, endpoint);
      if Read(fs, file).Err? then run == Run(Err(ReadErrorPrefix + Read(fs, file).msg), [])
      else |run.sent| == 1 && run.sent[0] == Request(endpoint, TextType, fs[file].bytes) &&
           run.result == Interpret(server(history, run.sent[0]))
  {
  }

  /** `handle_validate`. */
  method HandleValidate(client: Client, fs: FileSystem, file: string, endpoint: string) returns (r: Result<()>)
    modifies client
    ensures var run := ValidateRun(client.server, old(client.sent), fs, file, endpoint);
      r == run.result && client.sent == old(client.sent) + run.sent
  {
    var content := Read(fs, file);
    if content.Err? {
      return Err(ReadErrorPrefix + content.msg);
    }
    r := PostFile(client, endpoint, content.value, TextType);
  }

  /** The labels of the update's messages and the bodies' content types. */
  const ReadErrorSuffix: string := " read error: "
  const UploadFailedSuffix: string := " upload failed: "
  const TextType: string := "text/plain"
  const PngType: string := "image/png"
  const JpegType: string := "image/jpeg"

  const ThumbnailFile: string := "thumbnail.png"
  const BannerFile: string := "banner.jpg"

  /** The endpoints an update indexes: `config` always, and the endpoint of
      each image that exists (a missing key would abort). */
  predicate HasStepEndpoints(fs: FileSystem, thumb: string, banner: string, ep: map<string, string>)
  {
    && ConfigKey in ep
    && (Exists(fs, thumb) ==> ThumbnailKey in ep)
    && (Exists(fs, banner) ==> BannerKey in ep)
  }

  /** The endpoints an update of `file` indexes, its images being its siblings. */
  predicate HasUpdateEndpoints(fs: FileSystem, file: string, ep: map<string, string>)
  {
    HasStepEndpoints(fs, SiblingPath(file, ThumbnailFile), SiblingPath(file, BannerFile), ep)
  }

  /** One optional image of an update: nothing when it does not exist, else
      read it and upload it, each failure labelled with the image's name. */
  function ImageRun(server: Server, history: seq<Request>, fs: FileSystem, path: string,
                    ep: map<string, string>, key: string, contentType: string): Run
    requires Exists(fs, path) ==> key in ep
  {
    if !Exists(fs, path) then Run(Ok(()), [])
    else match Read(fs, path)
      case Err(e) => Run(Err(key + ReadErrorSuffix + e), [])
      case Ok(bytes) =>
        var req := Request(ep[key], contentType, bytes);
        match Interpret(server(history, req))
        case Ok(_) => Run(Ok(()), [req])
        case Err(e) => Run(Err(key + UploadFailedSuffix + e), [req])
  }

  /** The steps of an update with the images at `thumb` and `banner`: the
      config, then the thumbnail, then the banner, stopping at the first
      failure. */
  function UpdateSteps(server: Server, history: seq<Request>, fs: FileSystem, file: string,
                       thumb: string, banner: string, ep: map<string, string>): Run
    requires HasStepEndpoints(fs, thumb, banner, ep)
  {
    match Read(fs, file)
    case Err(e) => Run(Err(ReadErrorPrefix + e), [])
    case Ok(config) =>
      var c := Request(ep[ConfigKey], TextType, config);
      match Interpret(server(history, c))
      case Err(e) => Run(Err((ConfigKey + UploadFailedSuffix) + e), [c])
      case Ok(_) =>
        var t := ImageRun(server, history + [c], fs, thumb, ep, ThumbnailKey, PngType);
        if t.result.Err? then Run(t.result, [c] + t.sent)
        else
          var b := ImageRun(server, history + [c] + t.sent, fs, banner, ep, BannerKey, JpegType);
          Run(b.result, [c] + t.sent + b.sent)
  }

  /** The effect of `handle_update`: its images sit next to the file. */
  function UpdateRun(server: Server, history: seq<Request>, fs: FileSystem, file: string, ep: map<string, string>): Run
    requires HasUpdateEndpoints(fs, file, ep)
  {
    UpdateSteps(server, history, fs, file, SiblingPath(file, ThumbnailFile), SiblingPath(file, BannerFile), ep)
  }

  /** The images of a policy's overview file sit in the policy's directory. */
  lemma OverviewImages(p: string)
    requires IsPolicySegment(p)
    ensures SiblingPath(OverviewPath(p), ThumbnailFile) == "collections/cardano/" + p + "/thumbnail.png"
    ensures SiblingPath(OverviewPath(p), BannerFile) == "collections/cardano/" + p + "/banner.jpg"
  {
    var dir := "collections/cardano/" + p;
    assert OverviewPath(p) == dir + "/" + "overview.toml";
    SiblingOf(dir, "overview.toml", ThumbnailFile);
    SiblingOf(dir, "overview.toml", BannerFile);
  }

  /** The upload of an image when it exists and can be read. */
  function ImageUpload(fs: FileSystem, path: string, ep: map<string, string>, key: string, contentType: string): seq<Request>
    requires Exists(fs, path) ==> key in ep
  {
    if Exists(fs, path) && fs[path].ReadOk? then [Request(ep[key], contentType, fs[path].bytes)] else []
  }

  /** The requests an update sends when every reply is a success: the config
      first, then each image that exists, thumbnail before banner. */
  function UpdatePlan(fs: FileSystem, file: string, thumb: string, banner: string, ep: map<string, string>): seq<Request>
    requires HasStepEndpoints(fs, thumb, banner, ep)
  {
    match Read(fs, file)
    case Err(_) => []
    case Ok(config) =>
      [Request(ep[ConfigKey], TextType, config)]
      + ImageUpload(fs, thumb, ep, ThumbnailKey, PngType)
      + ImageUpload(fs, banner, ep, BannerKey, JpegType)
  }

  /** An update sends a prefix of its plan, so never more than three requests,
      always in the order config, thumbnail, banner; the config goes first
      whenever the file can be read. */
  lemma UpdateSendsPlanPrefix(server: Server, history: seq<Request>, fs: FileSystem, file: string,
                              thumb: string, banner: string, ep: map<string, string>)
    requires HasStepEndpoints(fs, thumb, banner, ep)
    ensures var run := UpdateSteps(server, history, fs, file, thumb, banner, ep);
      var plan := UpdatePlan(fs, file, thumb, banner, ep);
      |run.sent| <= |plan| <= 3 && run.sent == plan[..|run.sent|]
    ensures Read(fs, file).Ok? ==>
      var run := UpdateSteps(server, history, fs, file, thumb, banner, ep);
      |run.sent| >= 1 && run.sent[0] == Request(ep[ConfigKey], TextType, fs[file].bytes)
  {
  }

  /** A successful update sent its whole plan: every image that exists was
      read and uploaded, and a missing image was simply left out. */
  lemma UpdateSuccess(server: Server, history: seq<Request>, fs: FileSystem, file: string,
                      thumb: string, banner: string, ep: map<string, string>)
    requires HasStepEndpoints(fs, thumb, banner, ep)
    requires UpdateSteps(server, history, fs, file, thumb, banner, ep).result.Ok?
    ensures UpdateSteps(server, history, fs, file, thumb, banner, ep).sent == UpdatePlan(fs, file, thumb, banner, ep)
    ensures Read(fs, file).Ok?
    ensures Exists(fs, thumb) ==> fs[thumb].ReadOk?
    ensures Exists(fs, banner) ==> fs[banner].ReadOk?
  {
  }

  /** A failed update names the step that failed and stopped there: what it
      sent is the part of its plan up to and including the failing request.
      A missing image is never the cause of a failure. */
  lemma UpdateFailure(server: Server, history: seq<Request>, fs: FileSystem, file: string,
                      thumb: string, banner: string, ep: map<string, string>)
    requires HasStepEndpoints(fs, thumb, banner, ep)
    requires UpdateSteps(server, history, fs, file, thumb, banner, ep).result.Err?
    ensures var run := UpdateSteps(server, history, fs, file, thumb, banner, ep);
      var m := run.result.msg;
      var plan := UpdatePlan(fs, file, thumb, banner, ep);
      || (Read(fs, file).Err? && m == ReadErrorPrefix + Read(fs, file).msg && run.sent == [])
      || (Read(fs, file).Ok? && run.sent == plan[..1]
          && Interpret(server(history, plan[0])).Err?
          && m == (ConfigKey + UploadFailedSuffix) + Interpret(server(history, plan[0])).msg)
      || (Exists(fs, thumb) && fs[thumb].ReadErr? && run.sent == plan[..1]
          && m == (ThumbnailKey + ReadErrorSuffix) + fs[thumb].detail)
      || (Exists(fs, thumb) && fs[thumb].ReadOk? && |plan| >= 2 && run.sent == plan[..2]
          && plan[1] == Request(ep[ThumbnailKey], PngType, fs[thumb].bytes)
          && Interpret(server(history + plan[..1], plan[1])).Err?
          && m == (ThumbnailKey + UploadFailedSuffix) + Interpret(server(history + plan[..1], plan[1])).msg)
      || (Exists(fs, banner) && fs[banner].ReadErr? && run.sent == plan
          && m == (BannerKey + ReadErrorSuffix) + fs[banner].detail)
      || (Exists(fs, banner) && fs[banner].ReadOk? && run.sent == plan
          && plan[|plan| - 1] == Request(ep[BannerKey], JpegType, fs[banner].bytes)
          && Interpret(server(history + plan[..|plan| - 1], plan[|plan| - 1])).Err?
          && m == (BannerKey + UploadFailedSuffix) + Interpret(server(history + plan[..|plan| - 1], plan[|plan| - 1])).msg)
  {
    var plan := UpdatePlan(fs, file, thumb, banner, ep);
    if Read(fs, file).Ok? {
      var c := Request(ep[ConfigKey], TextType, fs[file].bytes);
      assert plan[..1] == [c];
      if Interpret(server(history, c)).Ok? {
        var t := ImageRun(server, history + [c], fs, thumb, ep, ThumbnailKey, PngType);
        if t.result.Err? {
          ThumbnailFailure(server, history, fs, file, thumb, banner, ep);
        } else {
          BannerFailure(server, history, fs, file, thumb, banner, ep);
        }
      }
    }
  }

  /** The thumbnail step of a failed update. */
  lemma ThumbnailFailure(server: Server, history: seq<Request>, fs: FileSystem, file: string,
                         thumb: string, banner: string, ep: map<string, string>)
    requires HasStepEndpoints(fs, thumb, banner, ep) && Read(fs, file).Ok?
    requires Interpret(server(history, Request(ep[ConfigKey], TextType, fs[file].bytes))).Ok?
    requires ImageRun(server, history + [Request(ep[ConfigKey], TextType, fs[file].bytes)], fs,
                      thumb, ep, ThumbnailKey, PngType).result.Err?
    ensures var run := UpdateSteps(server, history, fs, file, thumb, banner, ep);
      var m := run.result.msg;
      var plan := UpdatePlan(fs, file, thumb, banner, ep);
      || (Exists(fs, thumb) && fs[thumb].ReadErr? && run.sent == plan[..1]
          && m == (ThumbnailKey + ReadErrorSuffix) + fs[thumb].detail)
      || (Exists(fs, thumb) && fs[thumb].ReadOk? && |plan| >= 2 && run.sent == plan[..2]
          && plan[1] == Request(ep[ThumbnailKey], PngType, fs[thumb].bytes)
          && Interpret(server(history + plan[..1], plan[1])).Err?
          && m == (ThumbnailKey + UploadFailedSuffix) + Interpret(server(history + plan[..1], plan[1])).msg)
  {
    var run := UpdateSteps(server, history, fs, file, thumb, banner, ep);
    var plan := UpdatePlan(fs, file, thumb, banner, ep);
    var c := Request(ep[ConfigKey], TextType, fs[file].bytes);
    var tu := ImageUpload(fs, thumb, ep, ThumbnailKey, PngType);
    var bu := ImageUpload(fs, banner, ep, BannerKey, JpegType);
    assert plan == [c] + tu + bu;
    assert plan[..1] == [c];
    var t := ImageRun(server, history + [c], fs, thumb, ep, ThumbnailKey, PngType);
    ImageRunOutcome(server, history + [c], fs, thumb, ep, ThumbnailKey, PngType);
    assert run == Run(t.result, [c] + t.sent);
    if fs[thumb].ReadOk? {
      assert plan[..2] == [c] + tu;
    }
  }

  /** The banner step of a failed update. */
  lemma BannerFailure(server: Server, history: seq<Request>, fs: FileSystem, file: string,
                      thumb: string, banner: string, ep: map<string, string>)
    requires HasStepEndpoints(fs, thumb, banner, ep) && Read(fs, file).Ok?
    requires Interpret(server(history, Request(ep[ConfigKey], TextType, fs[file].bytes))).Ok?
    requires ImageRun(server, history + [Request(ep[ConfigKey], TextType, fs[file].bytes)], fs,
                      thumb, ep, ThumbnailKey, PngType).result.Ok?
    requires UpdateSteps(server, history, fs, file, thumb, banner, ep).result.Err?
    ensures var run := UpdateSteps(server, history, fs, file, thumb, banner, ep);
      var m := run.result.msg;
      var plan := UpdatePlan(fs, file, thumb, banner, ep);
      || (Exists(fs, banner) && fs[banner].ReadErr? && run.sent == plan
          && m == (BannerKey + ReadErrorSuffix) + fs[banner].detail)
      || (Exists(fs, banner) && fs[banner].ReadOk? && run.sent == plan
          && plan[|plan| - 1] == Request(ep[BannerKey], JpegType, fs[banner].bytes)
          && Interpret(server(history + plan[..|plan| - 1], plan[|plan| - 1])).Err?
          && m == (BannerKey + UploadFailedSuffix) + Interpret(server(history + plan[..|plan| - 1], plan[|plan| - 1])).msg)
  {
    var c := Request(ep[ConfigKey], TextType, fs[file].bytes);
    var tu := ImageUpload(fs, thumb, ep, ThumbnailKey, PngType);
    AfterThumbnail(server, history, fs, file, thumb, banner, ep);
    ImageRunOutcome(server, history + [c] + tu, fs, banner, ep, BannerKey, JpegType);
    if fs[banner].ReadOk? {
      assert history + ([c] + tu) == history + [c] + tu;
      ImageUploadFailure(server, history, [c] + tu, [], fs, banner, ep, BannerKey, JpegType);
      assert [c] + tu + ImageUpload(fs, banner, ep, BannerKey, JpegType) + [] == UpdatePlan(fs, file, thumb, banner, ep);
    }
  }

  /** After the config and the thumbnail went through, the update is the
      banner step, the thumbnail having sent its planned upload. */
  lemma AfterThumbnail(server: Server, history: seq<Request>, fs: FileSystem, file: string,
                       thumb: string, banner: string, ep: map<string, string>)
    requires HasStepEndpoints(fs, thumb, banner, ep) && Read(fs, file).Ok?
    requires Interpret(server(history, Request(ep[ConfigKey], TextType, fs[file].bytes))).Ok?
    requires ImageRun(server, history + [Request(ep[ConfigKey], TextType, fs[file].bytes)], fs,
                      thumb, ep, ThumbnailKey, PngType).result.Ok?
    ensures var c := Request(ep[ConfigKey], TextType, fs[file].bytes);
      var tu := ImageUpload(fs, thumb, ep, ThumbnailKey, PngType);
      var b := ImageRun(server, history + [c] + tu, fs, banner, ep, BannerKey, JpegType);
      && UpdateSteps(server, history, fs, file, thumb, banner, ep) == Run(b.result, [c] + tu + b.sent)
      && UpdatePlan(fs, file, thumb, banner, ep) == [c] + tu + ImageUpload(fs, banner, ep, BannerKey, JpegType)
  {
    var c := Request(ep[ConfigKey], TextType, fs[file].bytes);
    ImageRunOutcome(server, history + [c], fs, thumb, ep, ThumbnailKey, PngType);
  }

  /** A failed upload of an existing, readable image: the image's request
      follows the ones before it in the plan, is the last one sent, and its
      reply gives the message. */
  lemma ImageUploadFailure(server: Server, history: seq<Request>, pre: seq<Request>, rest: seq<Request>,
                           fs: FileSystem, path: string, ep: map<string, string>, key: string, contentType: string)
    requires Exists(fs, path) ==> key in ep
    requires Exists(fs, path) && fs[path].ReadOk?
    requires ImageRun(server, history + pre, fs, path, ep, key, contentType).result.Err?
    ensures var run := ImageRun(server, history + pre, fs, path, ep, key, contentType);
      var plan := pre + ImageUpload(fs, path, ep, key, contentType) + rest;
      var k := |pre|;
      && |plan| == k + 1 + |rest| && pre + run.sent == plan[..k + 1]
      && plan[k] == Request(ep[key], contentType, fs[path].bytes)
      && Interpret(server(history + plan[..k], plan[k])).Err?
      && run.result.msg == key + UploadFailedSuffix + Interpret(server(history + plan[..k], plan[k])).msg
  {
    var u := ImageUpload(fs, path, ep, key, contentType);
    var plan := pre + u + rest;
    assert plan[..|pre|] == pre;
    assert plan[..|pre| + 1] == pre + u;
  }

  /** One optional image: absent means success with nothing sent; otherwise the
      failure says whether reading or uploading the image failed. */
  lemma ImageRunOutcome(server: Server, history: seq<Request>, fs: FileSystem, path: string,
                        ep: map<string, string>, key: string, contentType: string)
    requires Exists(fs, path) ==> key in ep
    ensures var run := ImageRun(server, history, fs, path, ep, key, contentType);
      var upload := ImageUpload(fs, path, ep, key, contentType);
      && (run.result.Ok? ==> run.sent == upload)
      && (!Exists(fs, path) ==> run == Run(Ok(()), []))
      && (Exists(fs, path) && fs[path].ReadErr? ==> run == Run(Err(key + ReadErrorSuffix + fs[path].detail), []))
      && (Exists(fs, path) && fs[path].ReadOk? ==>
            |upload| == 1 && run.sent == upload &&
            upload[0] == Request(ep[key], contentType, fs[path].bytes) &&
            (run.result.Err? <==> Interpret(server(history, upload[0])).Err?) &&
            (run.result.Err? ==> run.result.msg == key + UploadFailedSuffix + Interpret(server(history, upload[0])).msg))
  {
  }

  /** One optional image of `handle_update`. */
  method PostImage(client: Client, fs: FileSystem, path: string, ep: map<string, string>, key: string, contentType: string)
    returns (r: Result<()>)
    requires Exists(fs, path) ==> key in ep
    modifies client
    ensures var run := ImageRun(client.server, old(client.sent), fs, path, ep, key, contentType);
      r == run.result && client.sent == old(client.sent) + run.sent
  {
    if !Exists(fs, path) {
      return Ok(());
    }
    var bytes := Read(fs, path);
    if bytes.Err? {
      return Err(key + ReadErrorSuffix + bytes.msg);
    }
    r := PostFile(client, ep[key], bytes.value, contentType);
    if r.Err? {
      r := Err(key + UploadFailedSuffix + r.msg);
    }
  }

  /** `handle_update`. */
  method HandleUpdate(client: Client, fs: FileSystem, file: string, ep: map<string, string>) returns (r: Result<()>)
    requires HasUpdateEndpoints(fs, file, ep)
    modifies client
    ensures var run := UpdateRun(client.server, old(client.sent), fs, file, ep);
      r == run.result && client.sent == old(client.sent) + run.sent
  {
    var config := Read(fs, file);
    if config.Err? {
      return Err(ReadErrorPrefix + config.msg);
    }
    r := PostFile(client, ep[ConfigKey], config.value, TextType);
    if r.Err? {
      return Err((ConfigKey + UploadFailedSuffix) + r.msg);
    }
    r := PostImage(client, fs, SiblingPath(file, ThumbnailFile), ep, ThumbnailKey, PngType);
    if r.Err? {
      return;
    }
    r := PostImage(client, fs, SiblingPath(file, BannerFile), ep, BannerKey, JpegType);
  }

  // ------------------------------------------------------------ batch runner

  /** The line a file gets in the output. */
  datatype Report = Skipped(file: string) | Succeeded(file: string) | Failed(file: string, msg: string)

  /** The runner's state after a prefix of the files: the reports so far, the
      client's log and the `errored` flag. */
  datatype BatchState = BatchState(reports: seq<Report>, sent: seq<Request>, errored: bool)

  /** What the handler for `action` does with a routed file. */
  function HandleRun(server: Server, history: seq<Request>, action: Action, fs: FileSystem, file: string,
                     ep: map<string, string>): Run
    requires ep.Keys == AssetNames(action)
  {
    match action
    case Validate => ValidateRun(server, history, fs, file, ep[ConfigKey])
    case Update => UpdateRun(server, history, fs, file, ep)
  }

  /** One iteration of the `for file in &files` loop. */
  function BatchStep(server: Server, action: Action, fs: FileSystem, st: BatchState, file: string): BatchState
  {
    var ep := RouteEndpoints(action, file);
    if |ep| == 0 then st.(reports := st.reports + [Skipped(file)])
    else
      var run := HandleRun(server, st.sent, action, fs, file, ep);
      match run.result
      case Ok(_) => BatchState(st.reports + [Succeeded(file)], st.sent + run.sent, st.errored)
      case Err(msg) => BatchState(st.reports + [Failed(file, msg)], st.sent + run.sent, true)
  }

  /** The state after the loop has gone through `files`, in order, starting
      from a client that has sent `history`. */
  function Batch(server: Server, action: Action, fs: FileSystem, history: seq<Request>, files: seq<string>): (st: BatchState)
    ensures |st.reports| == |files|
  {
    if |files| == 0 then BatchState([], history, false)
    else BatchStep(server, action, fs, Batch(server, action, fs, history, files[..|files| - 1]), files[|files| - 1])
  }

  /** The process exit status: 1 when `errored` is set, 0 otherwise. */
  function ExitCode(errored: bool): (code: int)
    ensures code == 1 <==> errored
    ensures code == 0 <==> !errored
  {
    if errored then 1 else 0
  }

  /** One iteration appends one report about the file, skipped exactly when
      it has no route; the flag becomes set when that report is a failure and
      is never cleared; the log only grows. */
  lemma BatchStepFacts(server: Server, action: Action, fs: FileSystem, st: BatchState, file: string)
    ensures var next := BatchStep(server, action, fs, st, file);
      && |next.reports| == |st.reports| + 1
      && next.reports[..|st.reports|] == st.reports
      && next.reports[|st.reports|].file == file
      && (next.reports[|st.reports|].Skipped? <==> MatchRoute(file).None?)
      && next.errored == (st.errored || next.reports[|st.reports|].Failed?)
      && |st.sent| <= |next.sent| && next.sent[..|st.sent|] == st.sent
  {
    var ep := RouteEndpoints(action, file);
    if |ep| != 0 {
      var run := HandleRun(server, st.sent, action, fs, file, ep);
      assert (st.sent + run.sent)[..|st.sent|] == st.sent;
    }
  }

  /** Every file gets exactly one report, in input order; a file is skipped
      exactly when it has no route. */
  lemma {:induction false} BatchReportsInOrder(server: Server, action: Action, fs: FileSystem, history: seq<Request>, files: seq<string>)
    ensures var st := Batch(server, action, fs, history, files);
      forall i :: 0 <= i < |files| ==>
        st.reports[i].file == files[i] && (st.reports[i].Skipped? <==> MatchRoute(files[i]).None?)
  {
    if |files| > 0 {
      var init := files[..|files| - 1];
      BatchReportsInOrder(server, action, fs, history, init);
      var prev := Batch(server, action, fs, history, init);
      BatchStepFacts(server, action, fs, prev, files[|files| - 1]);
      var st := Batch(server, action, fs, history, files);
      forall i | 0 <= i < |files|
        ensures st.reports[i].file == files[i] && (st.reports[i].Skipped? <==> MatchRoute(files[i]).None?)
      {
        if i < |files| - 1 {
          assert init[i] == files[i];
          assert st.reports[i] == prev.reports[i];
        }
      }
    }
  }

  /** The flag is set exactly when some routed file's handler failed; a
      skipped file never sets it. */
  lemma {:induction false} BatchErroredIff(server: Server, action: Action, fs: FileSystem, history: seq<Request>, files: seq<string>)
    ensures var st := Batch(server, action, fs, history, files);
      st.errored <==> exists i :: 0 <= i < |st.reports| && st.reports[i].Failed?
  {
    if |files| > 0 {
      var init := files[..|files| - 1];
      BatchErroredIff(server, action, fs, history, init);
      var prev := Batch(server, action, fs, history, init);
      BatchStepFacts(server, action, fs, prev, files[|files| - 1]);
      var st := Batch(server, action, fs, history, files);
      if prev.errored {
        var i :| 0 <= i < |prev.reports| && prev.reports[i].Failed?;
        assert st.reports[i] == prev.reports[i];
      }
      if exists i :: 0 <= i < |st.reports| && st.reports[i].Failed? {
        var i :| 0 <= i < |st.reports| && st.reports[i].Failed?;
        if i < |prev.reports| { assert prev.reports[i] == st.reports[i]; }
      }
    }
  }

  /** A routed file that cannot be read fails with a read error, whatever the
      service answers, and so the batch exits with status 1. */
  lemma {:induction false} BatchReadErrorFails(server: Server, action: Action, fs: FileSystem, history: seq<Request>, files: seq<string>, i: nat)
    requires i < |files| && MatchRoute(files[i]).Some? && Read(fs, files[i]).Err?
    ensures var st := Batch(server, action, fs, history, files);
      st.reports[i] == Failed(files[i], ReadErrorPrefix + Read(fs, files[i]).msg) && ExitCode(st.errored) == 1
  {
    BatchReportsInOrder(server, action, fs, history, files);
    BatchErroredIff(server, action, fs, history, files);
    var init := files[..|files| - 1];
    if i < |files| - 1 {
      assert init[i] == files[i];
      BatchReadErrorFails(server, action, fs, history, init, i);
      BatchReportsInOrder(server, action, fs, history, init);
      var prev := Batch(server, action, fs, history, init);
      assert Batch(server, action, fs, history, files).reports[i] == prev.reports[i];
    }
  }

  /** The reports about the first `k` files are what the loop had reported
      when it reached the `k`-th: later files do not change earlier lines. */
  lemma {:induction false} BatchPrefix(server: Server, action: Action, fs: FileSystem, history: seq<Request>, files: seq<string>, k: nat)
    requires k <= |files|
    ensures Batch(server, action, fs, history, files).reports[..k] == Batch(server, action, fs, history, files[..k]).reports
  {
    if k < |files| {
      var init := files[..|files| - 1];
      BatchPrefix(server, action, fs, history, init, k);
      BatchStepFacts(server, action, fs, Batch(server, action, fs, history, init), files[|files| - 1]);
      assert init[..k] == files[..k];
    } else {
      assert files[..k] == files;
    }
  }

  /** A routed file is reported as its handler's result, with the handler
      run on the log the earlier files left behind: success for `Ok`, the
      error message for `Err`, and every `Err` makes the batch exit with
      status 1. */
  lemma {:induction false} BatchReportsHandler(server: Server, action: Action, fs: FileSystem, history: seq<Request>, files: seq<string>, i: nat)
    requires i < |files| && MatchRoute(files[i]).Some?
    ensures var st := Batch(server, action, fs, history, files);
      var run := HandleRun(server, Batch(server, action, fs, history, files[..i]).sent, action, fs, files[i],
                           RouteEndpoints(action, files[i]));
      && st.reports[i] == (if run.result.Ok? then Succeeded(files[i]) else Failed(files[i], run.result.msg))
      && (run.result.Err? ==> ExitCode(st.errored) == 1)
  {
    BatchPrefix(server, action, fs, history, files, i + 1);
    assert files[..i + 1][..i] == files[..i];
    assert files[..i + 1][i] == files[i];
    var prev := Batch(server, action, fs, history, files[..i]);
    BatchStepFacts(server, action, fs, prev, files[i]);
    BatchErroredIff(server, action, fs, history, files);
    var st := Batch(server, action, fs, history, files);
    assert st.reports[i] == st.reports[..i + 1][i];
  }

  /** The client's log only grows: what was sent before the batch is kept. */
  lemma {:induction false} BatchKeepsHistory(server: Server, action: Action, fs: FileSystem, history: seq<Request>, files: seq<string>)
    ensures var st := Batch(server, action, fs, history, files);
      |history| <= |st.sent| && st.sent[..|history|] == history
  {
    if |files| > 0 {
      var init := files[..|files| - 1];
      BatchKeepsHistory(server, action, fs, history, init);
      var prev := Batch(server, action, fs, history, init);
      BatchStepFacts(server, action, fs, prev, files[|files| - 1]);
      var st := Batch(server, action, fs, history, files);
      assert st.sent[..|history|] == prev.sent[..|prev.sent|][..|history|];
    }
  }

  /** The handler `main` calls for `action`. */
  method Handle(client: Client, fs: FileSystem, action: Action, file: string, ep: map<string, string>)
    returns (r: Result<()>)
    requires ep.Keys == AssetNames(action)
    modifies client
    ensures var run := HandleRun(client.server, old(client.sent), action, fs, file, ep);
      r == run.result && client.sent == old(client.sent) + run.sent
  {
    match action {
      case Validate =>
        r := HandleValidate(client, fs, file, ep[ConfigKey]);
      case Update =>
        r := HandleUpdate(client, fs, file, ep);
    }
  }

  /** The body of the `for file in &files` loop, on the `i`-th file: skip an
      unrouted file, otherwise run the handler and report its result, setting
      the flag on a failure. It extends the loop's state by that file. */
  method ProcessFile(client: Client, fs: FileSystem, action: Action, reports: seq<Report>, errored: bool,
                     ghost history: seq<Request>, files: seq<string>, i: nat)
    returns (reports': seq<Report>, errored': bool)
    requires i < |files|
    requires Batch(client.server, action, fs, history, files[..i]) == BatchState(reports, client.sent, errored)
    modifies client
    ensures Batch(client.server, action, fs, history, files[..i + 1]) == BatchState(reports', client.sent, errored')
  {
    assert files[..i + 1][..i] == files[..i];
    var file := files[i];
    var endpoints := RouteEndpoints(action, file);
    if |endpoints| == 0 {
      return reports + [Skipped(file)], errored;
    }
    var result := Handle(client, fs, action, file, endpoints);
    match result {
      case Ok(_) =>
        reports', errored' := reports + [Succeeded(file)], errored;
      case Err(msg) =>
        reports', errored' := reports + [Failed(file, msg)], true;
    }
  }

  /** The batch loop of `main`: every file in order, one report each, and the
      exit status from the `errored` flag. */
  method RunBatch(client: Client, fs: FileSystem, action: Action, files: seq<string>)
    returns (exitCode: int, reports: seq<Report>)
    modifies client
    ensures var st := Batch(client.server, action, fs, old(client.sent), files);
      reports == st.reports && client.sent == st.sent && exitCode == ExitCode(st.errored)
  {
    var errored := false;
    reports := [];
    ghost var history := client.sent;
    var i := 0;
    while i < |files|
      invariant 0 <= i <= |files|
      invariant Batch(client.server, action, fs, history, files[..i]) == BatchState(reports, client.sent, errored)
    {
      reports, errored := ProcessFile(client, fs, action, reports, errored, history, files, i);
      i := i + 1;
    }
    assert files[..i] == files;
    exitCode := ExitCode(errored);
  }
}
