# Curator and validator: routing, submission and batch outcome

This project models the core of two command-line tools from the hodlcroft
collections repository:

- `curator` (tools/curator/src/main.rs) takes an action, `validate` or
  `update`, and a list of repository files.
  - Each file path is matched against the template
    `collections/cardano/:policy_id/overview.toml`.
  - A matching file has its endpoint URLs resolved for the action.
    Validation posts the file's text to one URL. An update posts the config,
    then an optional `thumbnail.png`, then an optional `banner.jpg` from the
    same directory, each to its own URL, stopping at the first failure.
  - The service's tagged JSON reply is turned into success or an error
    message.
  - The run exits with status 1 when any routed file failed.
- `validator` (tools/validator/src/main.rs) takes a list of files.
  - Its router has two templates: the overview one and a `Noop`
    route for `tools/validator/Cargo.toml`.
  - It posts each routed file to the curator's validation URL and reports
    the service's verdict.
  - Only a file that cannot be read makes it exit with status 1. An empty
    argument list exits 1 at once.

Modules and files:

- `wrappers.dfy` (`Wrappers`): `Option` and `Result` with a string error.
- `paths.dfy` (`Paths`): the `/`-split of a path and the sibling of a file in
  its directory.
- `router.dfy` (`Router`): the matching rule of the router. A template is
  split at `/`. A `:name` segment captures one non-empty path segment. Every
  other segment must be equal to the path segment (neither template has a
  `*name` glob segment, which the model does not read specially). Routes are
  tried in the order they were added.
- `files.dfy` (`Files`): the file system as a map from path to
  `ReadOk(bytes)` or `ReadErr(detail)`. A path is a key exactly when it
  exists.
- `http.dfy` (`Http`):
  - a request is an endpoint, a content type and a body;
  - a reply body is already decoded, to `Tagged(status, errorField)` or
    `Malformed`;
  - a send failure is a reply of its own;
  - the class `Client` appends every request to its `sent` log and gets its
    answer from a server oracle. The oracle is a function of the log so far
    and the new request.
- `curator.dfy` (`Curator`): `match_route`, `get_endpoints`, `post_file`,
  `handle_validate`, `handle_update` and the batch loop of `main`.
- `validator.dfy` (`Validator`): `match_route` with its two routes and the
  batch loop of `main`.

Each handler and batch loop is a method. Each method is proved against a
specification function: `ValidateRun`, `UpdateSteps`/`UpdateRun`, `Batch`,
`RunArgs`. The properties are lemmas about those functions.

Three facts about the code shape the model:

- An unroutable file is skipped and never counts as a failure, for
  `update` as for `validate`.
- The validator's exit status depends on read errors only, never on the
  service's verdict.
- The update assets go to separate per-asset endpoints, one request each,
  not to one multi-part request.

## Model

| member | source | states |
|---|---|---|
| Paths.Split | tools/curator/src/main.rs:56 | the path segments the router matches against: the text between consecutive `/`, empty segments kept; its meaning is fixed by `JoinSplit`, `SplitJoin` and `SplitSlashFree` |
| Paths.JoinSplit | tools/curator/src/main.rs:56 | gluing the `/`-segments of a path back together gives the path |
| Paths.SplitJoin | tools/curator/src/main.rs:56 | slash-free segments joined by `/` split back into the same segments |
| Paths.SplitSlashFree | tools/curator/src/main.rs:56 | no segment of a split path contains `/` |
| Paths.SplitSlash | tools/curator/src/main.rs:56 | a slash-free head before a `/` is the first segment, the rest splits on its own |
| Paths.SplitNoSlash | tools/curator/src/main.rs:56 | a slash-free string is a single segment |
| Paths.SplitThree | tools/validator/src/main.rs:29 | three slash-free names joined by `/` split into exactly those three |
| Paths.SplitFour | tools/curator/src/main.rs:52 | four slash-free names joined by `/` split into exactly those four |
| Paths.JoinFour | tools/curator/src/main.rs:56 | a four-segment list joins to its segments with `/` between them |
| Paths.DirPrefix | tools/curator/src/main.rs:120 | the directory part of a path, `Path::parent` without normalisation: everything up to and including the last `/`; characterised by `DirPrefixSplits` |
| Paths.SiblingPath | tools/curator/src/main.rs:133 | `base.join(name)`: the name placed in the directory part of the file; characterised by `SiblingOf` |
| Paths.DirPrefixSplits | tools/curator/src/main.rs:120 | the directory part of a path is a prefix that is empty or ends in `/`, with no `/` after it |
| Paths.SiblingOf | tools/curator/src/main.rs:120-141 | the `name` next to `dir/leaf` is `dir/name` (the `parent().join(name)` of the update step) |
| Router.ParseSegment | tools/curator/src/main.rs:51-54 | a template segment is a capture exactly when it starts with `:`, named by the rest; otherwise it is a literal |
| Router.ParseSegments | tools/curator/src/main.rs:51-54 | a template reads segment by segment, one pattern segment per template segment |
| Router.Pattern | tools/curator/src/main.rs:52 | the template as `add` parses it: split at `/`, each segment read as a capture or a literal; characterised by `ParseSegments` and `ParseSegment` |
| Router.Add | tools/curator/src/main.rs:51-54 | adding a template appends its parsed route and keeps the earlier ones |
| Router.MatchSegments | tools/curator/src/main.rs:56-57 | matching one route's pattern against the path segments, giving its captures or nothing; characterised by `MatchSegmentsRule` and `MatchSegmentsBinds` |
| Router.RecognizeSegments | tools/curator/src/main.rs:56 | trying the routes of the table in order on the segments, giving the handler and captures of the first that matches; characterised by `RecognizeFirst` |
| Router.Recognize | tools/curator/src/main.rs:56 | `router.recognize(path)`: recognition of the split path, `None` for the crate's error |
| Router.MatchSegmentsRule | tools/curator/src/main.rs:56 | a pattern matches exactly when the segment counts are equal and every literal equals, and every capture gets a non-empty segment |
| Router.MatchSegmentsBinds | tools/curator/src/main.rs:56-57 | a match binds exactly the capture names, each (names being distinct) to the path segment at its position |
| Router.RecognizeFirst | tools/curator/src/main.rs:56 | recognition fails exactly when no route matches, else gives the handler and captures of the earliest matching route |
| Files.Exists | tools/curator/src/main.rs:134 | `Path::exists`: a path exists exactly when the file system has an entry for it |
| Files.Read | tools/curator/src/main.rs:111 | reading succeeds exactly for an existing readable entry and gives its bytes; a missing path gives the not-found error, an unreadable one its own error |
| Http.Decode | tools/curator/src/main.rs:37-42 | the tagged enum decodes to `Ok` exactly for tag `ok`, to `Error(e)` exactly for tag `error` with a string `error` field `e`, and fails otherwise |
| Http.Client.Send | tools/curator/src/main.rs:95-99 | sending appends the request to the log and the reply is the server's answer given the earlier log |
| Http.Client.constructor | tools/curator/src/main.rs:158 | a new client has sent nothing |
| Curator.MatchRoute | tools/curator/src/main.rs:49-63 | `match_route`: recognise the path, take the `policy_id` capture, give the `cardano_overview` target; characterised by `MatchRouteRule`, `MatchRouteOverview` and `MatchRouteOnlyOverview` |
| Curator.SplitOverviewPath | tools/curator/src/main.rs:52 | `collections/cardano/P/overview.toml` splits into its four segments for a slash-free P |
| Curator.OverviewPattern | tools/curator/src/main.rs:51-54 | the overview template reads as `collections`, `cardano`, capture `policy_id`, `overview.toml` |
| Curator.RoutesRegistered | tools/curator/src/main.rs:50-54 | the route table is what adding the overview template with handler `cardano_overview` builds |
| Curator.MatchOverviewSegments | tools/curator/src/main.rs:56-57 | the overview pattern matches exactly the four-segment shape with a non-empty third segment, capturing it as `policy_id` |
| Curator.MatchRouteRule | tools/curator/src/main.rs:49-63 | `match_route` gives a target exactly for the overview shape, carrying the third segment; any other segment count or literal gives none |
| Curator.MatchRouteOverview | tools/curator/src/main.rs:49-63 | the overview file of any non-empty slash-free policy id routes to that policy |
| Curator.MatchRouteOnlyOverview | tools/curator/src/main.rs:49-63 | a routed path is the overview file of its target's policy id, which is non-empty and slash-free |
| Curator.OverviewPathOfSegments | tools/curator/src/main.rs:49-63 | a path of the overview shape is the overview path of its third segment |
| Curator.Endpoints | tools/curator/src/main.rs:65-87 | validation has exactly the key `config` with the validation URL of the policy; an update has exactly `config`, `thumbnail`, `banner`, each the update URL of the policy followed by `/` and its key; no file is consulted |
| Curator.EndpointsDetermineTarget | tools/curator/src/main.rs:65-87 | distinct policies never share a `config` endpoint |
| Curator.RouteEndpoints | tools/curator/src/main.rs:162-166 | the endpoint map of a file is empty exactly when it has no route, else the endpoints of its target |
| Curator.Interpret | tools/curator/src/main.rs:95-107 | a send failure gives `request error: ` and its detail; success exactly for a decoded `Ok`; a decoded `Error` gives its message; an undecodable body gives `invalid server response` |
| Curator.InterpretClassifies | tools/curator/src/main.rs:95-107 | the same classification stated on the body: success only for tag `ok`; tag `error` with a message gives it; tag `error` without one, any other tag or a malformed body is `invalid server response` |
| Curator.PostFile | tools/curator/src/main.rs:89-108 | one request with the endpoint, content type and body is appended to the log, and the result is the interpretation of its reply |
| Curator.ValidateRun | tools/curator/src/main.rs:110-113 | what `handle_validate` returns and sends for a file and an endpoint, given the server's answers; characterised by `ValidateRunSends` |
| Curator.ValidateRunSends | tools/curator/src/main.rs:110-113 | an unreadable file gives `read error: ` and its detail with nothing sent; a readable one sends exactly one `text/plain` request of its bytes to the endpoint |
| Curator.HandleValidate | tools/curator/src/main.rs:110-113 | the result and the appended requests are those of the validation run |
| Curator.ImageRun | tools/curator/src/main.rs:132-146 | one optional image step of `handle_update`: skip a missing image, fail on a read error, otherwise post and relabel a failed upload; characterised by `ImageRunOutcome` |
| Curator.UpdateSteps | tools/curator/src/main.rs:122-148 | the config step then the two image steps, stopping at the first failure, with the image paths given; characterised by `UpdateSendsPlanPrefix`, `UpdateSuccess` and `UpdateFailure` |
| Curator.UpdateRun | tools/curator/src/main.rs:115-149 | `handle_update` of a file: the steps with the images next to the file |
| Curator.UpdatePlan | tools/curator/src/main.rs:122-146 | the reference sequence of requests an update would send if nothing failed: the config, then each existing image; independent of the server |
| Curator.OverviewImages | tools/curator/src/main.rs:120-141 | the images of a policy's overview file are `thumbnail.png` and `banner.jpg` in the policy's directory |
| Curator.UpdateSendsPlanPrefix | tools/curator/src/main.rs:115-149 | an update sends a prefix of config, existing thumbnail, existing banner (so at most three, in that order), the config first whenever the file is readable |
| Curator.UpdateSuccess | tools/curator/src/main.rs:115-149 | a successful update sent the whole plan, read the config and every existing image; a missing image is skipped |
| Curator.UpdateFailure | tools/curator/src/main.rs:123-146 | a failed update failed at exactly one step, with that step's message prefix, having sent its plan up to and including the failing request and nothing after |
| Curator.ThumbnailFailure | tools/curator/src/main.rs:132-138 | a failure in the thumbnail step is its read error or its upload failure, after the config and with nothing after it |
| Curator.BannerFailure | tools/curator/src/main.rs:140-146 | a failure in the banner step is its read error or its upload failure, the upload being the last request |
| Curator.AfterThumbnail | tools/curator/src/main.rs:132-146 | once config and thumbnail went through, the update is the banner step after the thumbnail's planned upload |
| Curator.ImageUploadFailure | tools/curator/src/main.rs:133-146 | a failed image upload is the request right after the earlier ones and its reply gives the `upload failed: ` message |
| Curator.ImageRunOutcome | tools/curator/src/main.rs:132-146 | a missing image is a success with nothing sent; an unreadable one fails with `read error: ` and sends nothing; a readable one sends one request and fails exactly when its reply does |
| Curator.PostImage | tools/curator/src/main.rs:132-146 | the result and appended requests are those of one optional image step |
| Curator.HandleUpdate | tools/curator/src/main.rs:115-149 | the result and appended requests are those of the update of the file and its sibling images |
| Curator.Handle | tools/curator/src/main.rs:173-176 | the handler for the action is run, with its result and requests |
| Curator.HandleRun | tools/curator/src/main.rs:173-176 | the handler run for the action: validation with the `config` endpoint, or the update with the whole map |
| Curator.BatchStep | tools/curator/src/main.rs:162-187 | one loop iteration: skip an unrouted file; otherwise run the handler, report success or the message, and set the flag on `Err` |
| Curator.Batch | tools/curator/src/main.rs:161-188 | the loop gives one report per file; what each report is, is fixed by `BatchReportsInOrder` and `BatchReportsHandler` |
| Curator.ExitCode | tools/curator/src/main.rs:190-192 | status 1 exactly when the flag is set, 0 otherwise |
| Curator.BatchStepFacts | tools/curator/src/main.rs:161-187 | one iteration appends one report about the file, a skip exactly when unrouted; the flag becomes set exactly by a failure and is never cleared; the log only grows |
| Curator.BatchReportsInOrder | tools/curator/src/main.rs:161-171 | reports follow the input order and a file is skipped exactly when it has no route |
| Curator.BatchErroredIff | tools/curator/src/main.rs:178-187 | the flag is set exactly when some report is a failure; skipped files never set it |
| Curator.BatchReadErrorFails | tools/curator/src/main.rs:173-187 | a routed unreadable file fails with its read error whatever the service does, and the exit status is 1 |
| Curator.BatchPrefix | tools/curator/src/main.rs:161-188 | the reports about the first k files are those the loop had made when it reached file k; later files never change earlier reports |
| Curator.BatchReportsHandler | tools/curator/src/main.rs:173-187 | a routed file is reported as its handler's result, run on the log the earlier files left: success for `Ok`, the message for `Err`, and any `Err` makes the exit status 1 |
| Curator.BatchKeepsHistory | tools/curator/src/main.rs:158-176 | the requests sent before the batch stay at the front of the log |
| Curator.ProcessFile | tools/curator/src/main.rs:162-187 | one iteration of the loop extends the batch state by the next file |
| Curator.RunBatch | tools/curator/src/main.rs:151-193 | the reports, the log and the exit status are those of the batch over the files in order |
| Validator.MatchRoute | tools/validator/src/main.rs:23-42 | the validator's `match_route`: recognise the path over both routes, take the `policy_id` capture, and give the overview handler its validation URL, any other handler nothing; characterised by `MatchRouteRule` and `CargoIsNoop` |
| Validator.SplitCargoTemplate | tools/validator/src/main.rs:29 | `tools/validator/Cargo.toml` splits into its three segments |
| Validator.CargoPattern | tools/validator/src/main.rs:29 | the `Noop` template reads as three literal segments |
| Validator.RoutesRegistered | tools/validator/src/main.rs:24-29 | the route table is what adding the overview template and then the `Noop` template builds |
| Validator.MatchCargoSegments | tools/validator/src/main.rs:29-31 | the `Noop` pattern matches exactly `tools`, `validator`, `Cargo.toml`, capturing nothing |
| Validator.TemplatesDisjoint | tools/validator/src/main.rs:25-31 | no path matches both templates, so the router's ranking of routes cannot change a result |
| Validator.RecognizeRule | tools/validator/src/main.rs:24-31 | recognition gives the overview handler with its capture, or `Noop` with no captures, or nothing |
| Validator.MatchRouteRule | tools/validator/src/main.rs:23-42 | `match_route` gives an endpoint exactly for the overview shape, the validation URL of the captured policy id |
| Validator.MatchRouteOverview | tools/validator/src/main.rs:31-38 | the overview file of policy P is posted to the validation base URL followed by P |
| Validator.CargoIsNoop | tools/validator/src/main.rs:29-39 | `tools/validator/Cargo.toml` is recognised by the `Noop` route, yet `match_route` gives nothing |
| Validator.AgreesWithCurator | tools/validator/src/main.rs:35-38 | the validator routes the same files as the curator, to the curator's validation `config` URL |
| Validator.Classify | tools/validator/src/main.rs:76-94 | a reply is reported valid exactly for tag `ok`, invalid with the message exactly for a tagged error, a request failure exactly for a send failure, and an undecodable body otherwise |
| Validator.Batch | tools/validator/src/main.rs:54-95 | the loop gives one report per file |
| Validator.BatchStep | tools/validator/src/main.rs:54-95 | one loop iteration: skip an unrouted file, report and flag a read error, otherwise post the text and classify the reply |
| Validator.Plan | tools/validator/src/main.rs:63-74 | the reference sequence of posts: one `text/plain` post of each routed readable file, in order, independent of the server |
| Validator.RunArgs | tools/validator/src/main.rs:44-100 | the whole run: exit 1 with nothing done on an empty argument list, otherwise the batch and its read-error exit status |
| Validator.BatchStepFacts | tools/validator/src/main.rs:54-95 | one iteration appends one report, a skip exactly when unrouted, a read failure exactly when routed and unreadable; only a read failure sets the flag; the file's request, if any, is appended |
| Validator.BatchReportsInOrder | tools/validator/src/main.rs:54-70 | reports follow the input order; skipped exactly when unrouted, read failures exactly when routed and unreadable |
| Validator.BatchErroredIff | tools/validator/src/main.rs:63-98 | the flag is set exactly when some routed file cannot be read, independently of the service's answers |
| Validator.BatchSendsPlan | tools/validator/src/main.rs:63-74 | the requests sent are one `text/plain` post per routed readable file, in order, independently of the service |
| Validator.BatchReportsReply | tools/validator/src/main.rs:72-94 | a routed readable file is reported as the classification of the reply to its post, sent after the earlier files' posts |
| Validator.ExitCodeRule | tools/validator/src/main.rs:44-100 | the exit status is 1 exactly when there are no arguments or some routed file cannot be read; no arguments means no reports and nothing sent |
| Validator.RunValidator | tools/validator/src/main.rs:44-100 | exit status, reports and log are those of the run over the arguments, including the empty-argument exit |

## Left out

- The `thumnailer` tool: image decoding, resizing with floating-point aspect ratios, and WebP encoding through foreign crates.
- Argument parsing with clap and `env::args`: the input is the action and the list of files. clap rejects an empty file list for both curator actions. The curator loop is modelled for any list.
- The HTTP clients: reqwest for the curator, ureq for the validator. Each request is answered by an abstract server oracle.
  - ureq turns a non-success HTTP status into an error. The validator's oracle gives that case as `SendFailed`.
  - A body that cannot be read as text is read as empty text. The model has such a body decode as `Malformed`.
- JSON text and serde parsing: the reply body is already decoded.
- The router's internals. The crate ranks routes by specificity, not by the order they were added. The model tries routes in order. `Validator.TemplatesDisjoint` shows the two orders agree here. How the crate treats a leading `/` is not modelled. Every path is split at `/` as given.
- Path normalisation by `Path::parent`. The model takes everything up to the last `/` as the directory.
  - A path ending in `/` is not normalised.
  - A path without a parent is not mapped to `.`.
  - Routed paths end in `overview.toml`, so neither case arises for them.
  - `.` and `..` components are kept as spelled. `Path::parent` drops a `.` component, so for `collections/cardano/./overview.toml` the tool looks at `collections/cardano/thumbnail.png` while the model looks up `collections/cardano/./thumbnail.png`. The file-system map identifies a file by how its path is spelled, so two spellings of one file are two keys.
- The text of the operating system's error messages: a missing file has the fixed detail `NotFoundDetail`. A `read_to_string` UTF-8 failure is a `ReadErr` entry of the file system.
- Curator.HandleUpdate: requires `config` in the endpoint map, plus the key of every existing image. The source indexes the map and would panic otherwise. `get_endpoints` always supplies those keys.
- Console output, status lines and emoji: each file gets one report value instead.
- Concurrency and timeouts: both tools are sequential. A timeout is one kind of `SendFailed`.
