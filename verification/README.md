# nope: a verified model of an HTTP toolkit's core

This project models the decision-making core of `nope`, a Go toolkit for HTTP
services, in Dafny, and proves properties of the model. It covers:

- the path router: registering patterns into a segment trie, matching a path
  against it, mounted sub-handlers, and the 404/405/handler dispatch with its
  sorted `Allow` header;
- the route builder: group prefixes, path joining, middleware order and the
  first build error it keeps;
- the response wrappers as small state machines: the write-once timeout
  writer, the status recorder behind the request hooks, the byte counter of
  the observability wrapper and the access-log writer;
- the error contract: `AppError` construction, cloning and fields, the
  status and JSON body `WriteError` derives, and the dispatch of a handler's
  result (payload, `Created`, `NoContent` or error);
- CORS: origin allow-listing, preflight answers and `Vary` de-duplication;
- request ids and their hex encoding;
- JSON request decoding: options, the trailing-data rule and the mapping of
  decoder errors;
- the JSON HTTP client's option defaults, body limits and error values;
- the database helpers: affected-row rules, the row cursor loops of
  `QueryAll`, `QueryOne` and `Exists`, and SQL error classification;
- server configuration defaults.

Each Go source file of the core has its own module:

| module | Go file |
|---|---|
| `RouteNode`, `RouteMatch`, `RouteMount`, `RouteParams`, `Routing` | router/node.go, match.go, mount.go, params.go, router.go |
| `Server` | server/server.go |
| `AppConfig`, `AppHooks` | app/config.go, app/hooks.go |
| `TimeoutErrors` | httpkit/middleware/timeout_error.go |
| `AccessLogging`, `Cors`, `RequestIds` | httpkit/middleware/access_log.go, cors.go, request_id.go |
| `Adapting` | httpkit/adapt.go, httpkit/results.go |
| `AppErrors`, `WriteErrors` | errors/app_error.go, timeout.go, codes.go; errors/write.go |
| `ObsHooks`, `ObsWrap` | obs/obs.go, obs/wrap.go |
| `JsonDecoding` | json/decode.go, json/options.go |
| `ClientKit` | clientkit/client.go |
| `DbExec`, `DbScan`, `DbClassify` | dbkit/exec.go, scan.go, classify.go |

Where the Go code keeps state that its methods update (the router's trie
and mounts, the server's middleware lists and build error, the wrappers'
flags and counters, a cursor's position), the model is a class whose
methods change those fields. Each method is specified against a function
of the old state, and the properties are proved about those functions.
The pure rules are functions with lemmas.

The standard library the toolkit builds on is modelled in supporting
modules, which state what the toolkit relies on and nothing more:
- `HttpWriter` models `net/http`'s ResponseWriter and an `io.Reader`;
- `GoStrings` models `strings` and `strconv` over `seq<char>`;
- `GoSort` models `sort.Strings`;
- `GoErrors` models Go's error trees with `errors.Is`/`errors.As`, searched depth first: `%w` wrapping, and `errors.Join` or several `%w` verbs wrapping a list of errors. It also models the map an `*AppError` points at;
- `Context` models `context.Context` values;
- `Http` models method names and handler identities;
- `Wrappers` holds `Option`.

The network, the database driver, JSON encoding and decoding, clocks and
random bytes are parameters of the functions that use them.

## Model

| member | source | states |
|---|---|---|
| RouteNode.NewNode | router/node.go:14-19 | a new node has no literal, param or wildcard child and no handlers |
| RouteNode.GrowsTransitive | router/node.go:5-12 | (proof helper) growing a trie twice keeps every edge and name of the first trie |
| RouteMatch.SplitPath | router/match.go:5-11 | "/" is the only path with no segments; no segment contains '/' |
| RouteMatch.SplitPathRoundTrip | router/match.go:5-11 | a path that starts with '/' is "/" followed by its segments joined with '/' |
| RouteMatch.SplitPathTrailingSlash | router/match.go:5-11 | "/a/" splits into ["a", ""]: a trailing slash gives a final empty segment |
| RouteMatch.Walk | router/match.go:21-33 | a resolution ends on an existing node and captures at most one non-empty param per segment |
| RouteMatch.WalkAppend | router/match.go:21-33 | resolving a + b is resolving a, then b from where a ended, with a's params first (left-to-right capture) |
| RouteMatch.WalkStep | router/match.go:22-31 | a literal child is taken whenever it exists, even if the rest then fails (no backtracking to the param child); a param child takes only a non-empty segment, captured under that child's name; otherwise the match fails |
| RouteMatch.WalkParamsPrefix | router/match.go:20-27 | the params captured for a path extend those captured for each of its prefixes |
| RouteMatch.MatchPath | router/match.go:13-34 | the loop method: a nil (empty) trie fails; otherwise the result is the resolution Walk describes from the root |
| RouteMount.MatchPrefix | router/mount.go:34-51 | "/" takes every path starting with '/' unchanged; another prefix takes itself (remainder "/") or a path continuing with '/', whose remainder is the suffix from that '/'; no match gives "" |
| RouteMount.HasPrefixExtend | router/mount.go:41-49 | (proof helper) a text starts with p + [c] exactly when it starts with p and c follows |
| RouteMount.BestMountUnique | router/mount.go:13-32 | at most one mount is the longest, earliest matching one |
| RouteMount.BestMount | router/mount.go:13-32 | picks a matching mount with no longer match and no earlier one of equal length; none exactly when no mount matches |
| RouteMount.BestMountExtend | router/mount.go:22-26 | a later mount replaces the best only when it matches with a strictly longer prefix (ties keep the earlier one) |
| RouteMount.MatchMount | router/mount.go:13-32 | the loop method returns the best mount and its remainder, or ok=false with an empty remainder |
| RouteMount.RootMountTakesAll | router/mount.go:35-40 | with a "/" mount, every path starting with '/' is taken by some mount |
| RouteMount.SegmentBoundary | router/mount.go:47-49 | a prefix never takes a path that continues it with a character other than '/' ("/api" does not take "/apiX") |
| RouteParams.Params | router/params.go:27-37 | the stored list, or nothing when the key is absent or holds a value of another type |
| RouteParams.WithParams | router/params.go:39-44 | an empty list leaves the context unchanged; otherwise every other key is unchanged |
| RouteParams.ParamsRoundTrip | router/params.go:27-44 | Params reads back what withParams stored; an empty capture leaves the old value visible |
| RouteParams.Param | router/params.go:17-24 | the value of the first param named key, or "" when none has that name |
| Routing.SetHandler | router/router.go:75 | only node k's handler for the verb changes; the trie keeps its shape |
| Routing.AddStatic | router/router.go:65-69 | adds a fresh literal child for seg and changes no handler |
| Routing.AddParam | router/router.go:59-62 | adds a fresh param child carrying the name and changes no handler |
| Routing.AddWildcard | router/router.go:49-52 | adds a fresh wildcard child carrying the name and changes no handler |
| Routing.Descend | router/router.go:55-71 | a ":" segment goes to the param child (created once, the first name kept); any other segment to its literal child (created when missing) |
| Routing.Insert | router/router.go:37-75 | the segment loop as a function; its only panics are an empty wildcard or param name, a wildcard not last, and a wildcard name conflict (which segment raises which is Routing.InsertErrors) |
| Routing.WildcardPost | router/router.go:39-54 | the wildcard branch keeps the trie invariant; a bare `*`, a wildcard before the last segment and a second wildcard name are refused with the trie untouched; the same name reuses the existing child, and a first wildcard creates one under its name |
| Routing.InsertErrors | router/router.go:37-66 | the first wildcard or bare `:` segment decides the outcome: none means success, `:` is an empty param name, `*` an empty wildcard name, a named wildcard before the end is not last, and a final named wildcard succeeds or conflicts |
| Routing.InsertKeepsTrie | router/router.go:35-75 | insertion only grows the trie, keeps literal keys free of ':' and '*', and changes only the verb's handler at the target, and only on success |
| Routing.Register | router/router.go:23-76 | a nil handler, an unsupported upper-cased method and a pattern without a leading '/' are refused before the trie is touched; success implies all three checks passed |
| Routing.RegisterKeepsTrie | router/router.go:23-76 | every registration keeps the trie valid; success installs the handler under the upper-cased method and changes no other handler (re-registration overwrites only that method) |
| Routing.InsertReaches | router/router.go:35-75 | inserting a pattern without wildcards builds the path that matchPath follows for the pattern's own segments |
| Routing.RegisteredRouteMatches | router/router.go:23-76 | after registering a pattern without wildcards, the pattern's own text resolves to the node holding the new handler |
| Routing.NoRoute | router/router.go:130-136 | no route gives 404 for a supported method and 405 otherwise, with no Allow header |
| Routing.MountWins | router/router.go:124-127 | a matching mount takes the request, whatever routes exist, and sees the path below its prefix |
| Routing.MethodNotAllowed | router/router.go:139-150 | a matched node without the verb gives 405 with Allow listing each registered method once, in increasing order, joined with ", " |
| Routing.ServeNeedsExactMethod | router/router.go:139-143 | a route serves only the exact method text registered (Handle upper-cases, dispatch does not) |
| Routing.CheckMount | router/router.go:109-118 | Mount is refused exactly for a nil handler or a prefix that is empty, lacks a leading '/' or ends with '/' other than "/" |
| Routing.AllowHeader | router/router.go:158-168 | the loop method collects, sorts and joins the methods, giving the sorted join of the map's keys |
| Routing.RejectStatus | router/router.go:129-150 | every rejection is a 404 (only for a supported method, without Allow) or a 405 |
| Routing.WildcardRouteUnreachable | router/router.go:39-54 | on a router holding only GET "/assets/" + "*path", every GET below "/assets/" gets 404: matchPath never follows a wildcard child |
| Routing.Grow | router/router.go:35-75 | the segment loop method builds exactly the trie and error Insert describes, keeping the trie invariant |
| Routing.GrowStep | router/router.go:55-71 | one param or literal step is Descend |
| Routing.GrowWildcard | router/router.go:39-54 | the wildcard step builds what Insert describes |
| Routing.Router.constructor | router/router.go:16-20 | a new router has an empty root and no mounts |
| Routing.Router.Handle | router/router.go:23-76 | the trie and error become Register's; mounts are unchanged |
| Routing.Router.Mount | router/router.go:109-120 | appends the mount exactly when CheckMount accepts it; the trie is unchanged |
| Routing.Router.ServeHTTP | router/router.go:123-150 | the outcome is Route on the current state: mounts first, then 404/405, the handler with captured params, or 405 with Allow |
| Server.ValidatePrefix | server/server.go:287-295 | a prefix is accepted exactly when it starts with '/' and, unless it is "/", does not end with '/'; a missing leading '/' is errInvalidPrefix, a trailing one errTrailingPrefix |
| Server.ValidatePath | server/server.go:297-302 | a route path is accepted exactly when it starts with '/', otherwise errInvalidPath |
| Server.JoinPaths | server/server.go:304-318 | the prefix error wins over the path error; on success the joined path starts with '/' and with the prefix |
| Server.JoinedSegments | server/server.go:311-317 | prefix "/" gives the route's own segments; route "/" gives the prefix's segments plus an empty one (prefix + "/"); otherwise the prefix's segments followed by the route's |
| Server.Present | server/server.go:91-98 | Use keeps exactly the non-nil middleware, in registration order |
| Server.Compose | server/server.go:280-285 | the composed handler's layers are mws followed by the handler's own, so mws[0] is outermost |
| Server.ApplyMiddleware | server/server.go:280-285 | the reverse loop method builds exactly Compose: mws[0] outermost |
| Server.FirstError | server/server.go:262-267 | the first recorded error is kept; a nil error records nothing |
| Server.RouteError | server/server.go:241-249 | a router panic becomes errInvalidRoute carrying the panic's cause; no panic, no error |
| Server.Assemble | server/server.go:167-175 | the router wrapped by the global middleware, then by the health route, then by pprof when enabled |
| Server.Server.New | server/server.go:56-75 | an empty address keeps ":8080"; the config is the default with that address; new router, no middleware, no build error |
| Server.Server.NewWithPreset | server/server.go:61-75 | as New, and PresetDefault adds Recover, RequestID and a 5s Timeout in that order |
| Server.Server.ApplyPreset | server/server.go:269-278 | PresetDefault appends the three middleware; any other preset changes nothing |
| Server.Server.CurrentConfig | server/server.go:78-80 | the stored config always has a non-empty address |
| Server.Server.SetConfig | server/server.go:83-88 | the config is replaced, an empty Addr falling back to the server's address; nothing else changes |
| Server.Server.Use | server/server.go:91-98 | appends the non-nil middleware in order; nothing else changes |
| Server.Server.EnableHealth | server/server.go:101-103 | sets only the health flag |
| Server.Server.EnablePprof | server/server.go:106-108 | sets only the pprof flag |
| Server.Server.SetBuildErr | server/server.go:262-267 | the build error becomes FirstError of the old one and the new one |
| Server.Server.Group | server/server.go:111-116 | returns a new group for the prefix with no middleware, recording the prefix's validation error if it is the first |
| Server.Server.Handle | server/server.go:222-260 | a nil handler records errNilHandler and a bad path errInvalidPath, leaving the trie alone; otherwise the router registers the adapted handler wrapped by the local middleware and a panic is recorded as errInvalidRoute |
| Server.Server.Handler | server/server.go:162-176 | a stored build error is returned and nothing is built; otherwise the assembled handler |
| Server.Group.constructor | server/server.go:115 | a group holds its server and prefix and no middleware |
| Server.Group.Use | server/server.go:179-186 | appends the non-nil middleware to the group in order |
| Server.Group.Handle | server/server.go:213-220 | a join error is recorded and nothing is registered; otherwise the server registers the joined path with the group's middleware |
| Server.GroupRouteMatches | server/server.go:213-239 | a route registered through a group resolves from the prefix's and route's segments to a handler whose layers are exactly the group's middleware |
| AppConfig.DefaultConfig | app/config.go:16-25 | ":8080" with 5s read-header, 15s read, 15s write, 60s idle and 5s shutdown timeouts; no field is zero |
| AppConfig.WithDefaults | app/config.go:27-48 | each zero field is replaced by its default and each non-zero field is kept, so the result has no zero field and a complete config is returned unchanged |
| AppConfig.WithDefaultsIdempotent | app/config.go:27-48 | applying the defaults twice is applying them once |
| TimeoutErrors.TimeoutWriter.constructor | httpkit/middleware/timeout_error.go:23 | a new guard over the writer is neither started nor timed |
| TimeoutErrors.TimeoutWriter.WriteTimeout | httpkit/middleware/timeout_error.go:56-66 | a no-op once started; otherwise sets started and timed and plays the timeout response once |
| TimeoutErrors.TimeoutWriter.WriteHeader | httpkit/middleware/timeout_error.go:68-77 | once timed nothing is forwarded; otherwise started is set and the status reaches the writer |
| TimeoutErrors.TimeoutWriter.Write | httpkit/middleware/timeout_error.go:79-88 | once timed nothing is forwarded and (len(p), nil) is reported; otherwise started is set and the bytes reach the writer |
| TimeoutErrors.TimeoutWriter.ReadFrom | httpkit/middleware/timeout_error.go:112-124 | once timed nothing is forwarded and (0, nil) is reported; otherwise started is set and the source is copied |
| TimeoutErrors.TimeoutWriter.SetHeader | httpkit/middleware/timeout_error.go:49-54 | a header set through the embedded writer changes neither flag |
| TimeoutErrors.TimeoutWriter.Do | httpkit/middleware/timeout_error.go:68-124 | one handler call: forwarded and recorded in started unless timed; once timed the status and body stay as they were |
| TimeoutErrors.TimeoutWriter.Run | httpkit/middleware/timeout_error.go:68-124 | a handler's calls in order; while not timed the response is their replay and started records whether any of them sent |
| TimeoutErrors.ServeTimeoutError | httpkit/middleware/timeout_error.go:15-42 | a nil writer function or a handler that finishes first leaves the handler's response; a cancellation other than the deadline writes nothing; on the deadline the timeout response is written only if the handler had sent nothing yet, and later handler writes are dropped |
| TimeoutErrors.DefaultTimeoutError | httpkit/middleware/timeout_error.go:45-47 | the calls WriteError makes for errors.Timeout() |
| TimeoutErrors.DefaultTimeoutReply | httpkit/middleware/timeout_error.go:45-47 | on an untouched writer the default reply is 504 with code timeout and message "request timed out" |
| AppHooks.StatusOf | app/hooks.go:60-65 | Status() is 200 when no status was recorded, otherwise the recorded one |
| AppHooks.RecStepAsWritten | app/hooks.go:42-108 | the recorder step as written: ReadFrom forwards the body but leaves wroteBody and wroteHeader as they were |
| AppHooks.RecStep | app/hooks.go:42-108 | WriteHeader records the status and wroteHeader; Write and ReadFrom record wroteBody and default the status to 200; SetErr records only the error; every call is forwarded; it differs from the as-written step only on ReadFrom |
| AppHooks.RecPlayForwards | app/hooks.go:34-108 | the recorder forwards every call, so the response is the plain replay of the handler's calls |
| AppHooks.RecPlaySnoc | app/hooks.go:34-108 | recording a list of calls is recording them one at a time, in order |
| AppHooks.StatusRecorder.constructor | app/hooks.go:124 | a new recorder over the writer has recorded nothing |
| AppHooks.StatusRecorder.WriteHeader | app/hooks.go:42-46 | the recorder state advances by RecStep for WriteHeader |
| AppHooks.StatusRecorder.Write | app/hooks.go:48-54 | the recorder state advances by RecStep for Write, and the bytes reach the writer |
| AppHooks.StatusRecorder.ReadFrom | app/hooks.go:97-108 | the recorder state advances by the corrected RecStep for ReadFrom, and the source is copied |
| AppHooks.StatusRecorder.SetErr | app/hooks.go:56-58 | only the recorded error changes |
| AppHooks.StatusRecorder.SetHeader | app/hooks.go:35 | a header set through the embedded writer changes no recorded flag |
| AppHooks.StatusRecorder.Status | app/hooks.go:60-65 | 200 when no status was recorded, otherwise the recorded one |
| AppHooks.StatusRecorder.Do | app/hooks.go:42-108 | one handler call advances the state by RecStep |
| AppHooks.StatusRecorder.Run | app/hooks.go:153 | the handler's calls advance the state by RecPlay |
| AppHooks.StatusRecorder.Recover | app/hooks.go:128-137 | after a panic the state is AfterPanic of the state before it |
| AppHooks.PanicErr | app/hooks.go:132 | the panic error is a 500 internal_error with the internal message |
| AppHooks.AfterPanic | app/hooks.go:128-137 | the panic error is recorded; an error response is written only when neither header nor body was written |
| AppHooks.ReplyKeepsErr | app/hooks.go:133-136 | writing the error reply does not change the recorded error |
| AppHooks.ServeWithHooks | app/hooks.go:110-155 | with no hooks the handler runs on the bare writer; otherwise the handler sees OnRequestStart's context, a panic is recovered, OnPanic fires before OnRequestEnd, and OnRequestEnd receives Status(), the elapsed time and the panic error over SetErr's |
| AppHooks.EndHookOnce | app/hooks.go:127-151 | OnRequestEnd, when set, fires exactly once and last |
| AppHooks.PanicBeforeWriting | app/hooks.go:128-137 | a panic before anything was sent gives a 500 response and a 500 status with the panic error |
| AppHooks.QuietRecording | app/hooks.go:42-58 | calls that send nothing leave the status and the written flags alone |
| AppHooks.ErrorPrecedence | app/hooks.go:127-143 | an error set with SetErr reaches the end hook on its own, and a panic error replaces it |
| AppHooks.SendingMarks | app/hooks.go:42-108 | once the handler has sent anything, the recorder has marked a header or a body as written |
| AppHooks.NoReplyAfterSending | app/hooks.go:134-136 | after anything was sent a panic writes no error response |
| AppHooks.StreamThenPanicAsWritten | app/hooks.go:97-136 | as written, a body streamed through ReadFrom followed by a panic leaves wroteBody false, so the error reply is appended to a 200 response already sent |
| GoErrors.FieldMap.constructor | errors/app_error.go:10 | a new fields map holds exactly the given entries |
| GoErrors.AppErrorText | errors/app_error.go:15-26 | "" for a nil AppError; otherwise Message if non-empty, else Code if non-empty, else "internal error", and never "" |
| GoErrors.AsApp | errors/app_error.go:84-85 | errors.As finds the AppError itself, or a nil one, at the head of the chain |
| GoErrors.AppOf | errors/app_error.go:84-87 | a non-nil AppError is found exactly when errors.As finds one that is not nil |
| AppErrors.Entries | errors/app_error.go:10 | an AppError without a map has no fields |
| AppErrors.E | errors/app_error.go:29-35 | sets status, code and message, and no fields and no cause |
| AppErrors.Wrap | errors/app_error.go:38-48 | as E, with the cause kept |
| AppErrors.WrapNilIsE | errors/app_error.go:38-41 | Wrap with a nil cause equals E with the same arguments |
| AppErrors.Timeout | errors/timeout.go:6-8 | status 504, code "timeout", message "request timed out", no fields, no cause |
| AppErrors.TimeoutText | errors/timeout.go:6-8 | the timeout error's text is its message, and lifting it returns it unchanged |
| AppErrors.Internal | errors/app_error.go:88-93 | status 500, code internal_error, message "internal error", carrying the given cause |
| AppErrors.AsAppError | errors/app_error.go:83-94 | an AppError found on the chain is returned as it is; anything else is lifted to a 500 internal_error that keeps the original as cause |
| AppErrors.AsAppErrorThroughWrap | errors/app_error.go:83-87 | wrapping an AppError does not change what asAppError finds |
| AppErrors.LiftedTextNonEmpty | errors/app_error.go:15-26 | the text of a lifted error is never empty |
| AppErrors.PutAll | errors/app_error.go:77-79 | the loop method adds every given entry to the map, later keys overriding |
| AppErrors.MergeStep | errors/app_error.go:77-79 | adding one more entry is one step of the union the loop builds |
| AppErrors.CopyFields | errors/app_error.go:106-109 | the copy is a new map with the same entries |
| AppErrors.CloneAppErrorAsWritten | errors/app_error.go:96-112 | as written: nil gives the internal error; same head and entries; a map with entries is copied into a new one, but an empty map is shared with the original |
| AppErrors.CloneAppError | errors/app_error.go:96-112 | corrected: same head and entries, and any map the clone has is a new one |
| AppErrors.WithFieldAsWritten | errors/app_error.go:51-62 | as written: nil stays nil; the result has the lifted head and the old entries plus key:=val; when the original holds an empty map, the result shares it; a nil or non-empty original map is left as it was |
| AppErrors.WithField | errors/app_error.go:51-62 | nil stays nil; otherwise a new AppError with the lifted head and the entries plus key:=val, in a new map |
| AppErrors.WithFieldsAsWritten | errors/app_error.go:65-81 | as written: nil stays nil; an empty map returns the input; otherwise the lifted head and the old entries plus the new ones, sharing an original empty map; a nil or non-empty original map is left as it was |
| AppErrors.WithFields | errors/app_error.go:65-81 | nil stays nil; an empty map returns the input unchanged; otherwise the lifted head and the old entries plus the new ones, in a new map |
| AppErrors.SharedMapExample | errors/app_error.go:55-111 | as written, adding a field to an AppError with an empty non-nil map changes the original's fields from {} to {"id": "1"} |
| AppErrors.SeparateMapExample | errors/app_error.go:55-111 | with the corrected clone, the original keeps {} and only the result holds {"id": "1"} |
| WriteErrors.ReplyFor | errors/write.go:20-49 | nil gives no reply; a non-AppError gives 500 internal_error "internal error"; status, code and message are never empty (defaults kept); fields appear exactly when the AppError has at least one, as its entries |
| WriteErrors.CauseNotShown | errors/write.go:9-49 | the cause never changes the reply |
| WriteErrors.SetFieldsKept | errors/write.go:34-42 | an AppError's non-zero status, code and message are used as they are |
| WriteErrors.WrappedSameReply | errors/write.go:32-33 | a wrapped AppError gets the same reply as the AppError itself |
| WriteErrors.TimeoutReply | errors/write.go:20-49 | the timeout error's reply is 504 {code: "timeout", message: "request timed out"} without fields |
| WriteErrors.CopyMap | errors/write.go:44-47 | the loop method copies every field entry |
| WriteErrors.DecideReply | errors/write.go:20-49 | the method that updates status and body step by step gives exactly ReplyFor |
| WriteErrors.ReplyCalls | errors/write.go:51-53 | no reply makes no call; otherwise three calls: Content-Type, the status, the encoded body |
| WriteErrors.ReplyOnBlank | errors/write.go:51-53 | on an untouched writer the reply sets the JSON Content-Type, the status and the encoded body |
| WriteErrors.WriteErrorCalls | errors/write.go:20-54 | nil writes nothing at all; any error writes the header, the reply's status and the body |
| Adapting.Created | httpkit/results.go:9-30 | Created(p) reports status 201 and payload p |
| Adapting.NoContent | httpkit/results.go:19-35 | NoContent() reports status 204 and a nil payload |
| Adapting.Serve | httpkit/adapt.go:34-55 | a handler error calls SetErr and then WriteError and nothing else; NoContent writes only status 204; Created writes JSON with 201; any other value, nil included, is JSON with 200 |
| Adapting.NoContentSendsNothingElse | httpkit/adapt.go:46-49 | a NoContent result leaves an untouched writer with status 204, no body and no Content-Type |
| Adapting.ErrorWins | httpkit/adapt.go:36-42 | when the handler returns an error, its result value is ignored |
| Adapting.TryAdapt | httpkit/adapt.go:30-33 | a nil handler gives ErrNilHandler and no handler; otherwise the adapted handler and no error |
| Adapting.Adapt | httpkit/adapt.go:21-27 | panics with ErrNilHandler exactly when TryAdapt fails; otherwise returns TryAdapt's handler |
| RequestIds.ReqID | httpkit/middleware/request_id.go:31-40 | "" for a nil context and for a missing or non-string value; otherwise the stored string |
| RequestIds.GetRequestID | httpkit/middleware/request_id.go:43-45 | always equals ReqID |
| RequestIds.HexEncode | httpkit/middleware/request_id.go:54 | two lower-case hex digits per byte |
| RequestIds.HexRoundTrip | httpkit/middleware/request_id.go:54 | decoding the hex encoding gives back the bytes |
| RequestIds.IdBytes | httpkit/middleware/request_id.go:47-53 | always 16 bytes: the random ones, or the clock fallback when the random read fails |
| RequestIds.NewReqID | httpkit/middleware/request_id.go:47-55 | 32 lower-case hex characters that decode to the 16 id bytes |
| RequestIds.RequestID | httpkit/middleware/request_id.go:17-28 | a non-empty incoming X-Request-Id is reused, otherwise a new id; the id is never empty; the context's ReqID and the response header are that same id; no other context key and neither status nor body change |
| ObsHooks.ErrKind | obs/obs.go:102-117 | "timeout" exactly for an AppError with code timeout or status 504; "internal" exactly for a non-AppError or another AppError with status >= 500; "" for nil and for any other AppError |
| ObsHooks.TimeoutKind | obs/obs.go:106-110 | the timeout error stays "timeout" however many times it is wrapped |
| ObsHooks.UnsetStatusKind | obs/obs.go:111-114 | an AppError with status 0 and a non-timeout code has kind "", although WriteError sends it as 500 |
| ObsHooks.Duration | obs/obs.go:119-130 | always positive: a positive input is returned as it is, else the positive time since the start, else 1ns |
| ObsHooks.NewHooks | obs/obs.go:45-86 | all three hooks are installed, each holding the given logger and metrics |
| ObsHooks.NewMetricsHook | obs/obs.go:89-100 | nil metrics gives empty hooks; otherwise only OnRequestEnd, reporting to metrics |
| ObsHooks.Installed | obs/obs.go:45-100 | empty hooks set nothing; NewHooks sets all three; NewMetricsHook only the end hook |
| ObsHooks.OnRequestStart | obs/obs.go:47-54 | a new metadata record with the start time, the context's request id and a zero counter, stored in the returned context |
| ObsHooks.EndEvent | obs/obs.go:56-65 | the event copies method, path and status, takes the clamped byte count and the request id from the metadata (0 and "" without it), a positive duration and errKind of the error |
| ObsHooks.OnRequestEnd | obs/obs.go:55-72 | logs the event only when a logger is set and observes the metric only when metrics are set, always with a positive duration |
| ObsHooks.OnPanic | obs/obs.go:73-84 | nothing without a logger; otherwise one panic log with method, path and request id |
| ObsHooks.ObserveOneRequest | obs/obs.go:45-72 | a request through the hooks and Wrap: the handler's response is untouched, and the end event carries the request id from context, request header or response header, the bytes written and a positive duration |
| ObsWrap.Wrap64 | obs/wrap.go:81 | int64 wrap-around: the result is in range and equals an in-range input |
| ObsWrap.WrapTwice | obs/wrap.go:81 | adding after a wrap is wrapping the whole sum |
| ObsWrap.MaxInt | obs/wrap.go:89 | maxInt is 2^63-1 on 64-bit and 2^31-1 on 32-bit platforms |
| ObsWrap.IntOf | obs/wrap.go:93 | the int conversion keeps a value that fits |
| ObsWrap.ByteCounter.constructor | obs/wrap.go:23 | a new counter is zero |
| ObsWrap.Added | obs/wrap.go:77-82 | n <= 0 leaves the count alone; a positive add that does not overflow increases it by exactly n |
| ObsWrap.Add | obs/wrap.go:77-82 | a nil counter is ignored; otherwise the count becomes Added of the old count |
| ObsWrap.CountValue | obs/wrap.go:84-94 | 0 for a nil counter; the count clamped to maxInt, and the count itself when it fits |
| ObsWrap.ReqMeta.constructor | obs/wrap.go:42-46 | the record holds the given start, id and counter |
| ObsWrap.GetReqMeta | obs/wrap.go:48-57 | non-nil exactly when the context holds a *reqMeta under the key, and then that one |
| ObsWrap.BytesValue | obs/wrap.go:59-64 | 0 for nil metadata or a nil counter, else the counter's value |
| ObsWrap.ReqIDValue | obs/wrap.go:66-71 | "" for nil metadata, else its id |
| ObsWrap.CountingWriter.constructor | obs/wrap.go:29 | wraps the writer with the given counter |
| ObsWrap.CountingWriter.Write | obs/wrap.go:105-111 | forwards the bytes and adds exactly the count the writer reports |
| ObsWrap.CountingWriter.ReadFrom | obs/wrap.go:142-155 | copies the source and adds exactly the copied count |
| ObsWrap.CountingWriter.Do | obs/wrap.go:101-155 | any call is forwarded and the counter grows by the bytes the body grew by |
| ObsWrap.CountingWriter.Run | obs/wrap.go:30 | over a handler's calls the counter grows by the bytes the body grew by |
| ObsWrap.AcquireMeta | obs/wrap.go:21-25 | existing metadata is reused with the same context; otherwise a new empty record is stored in a new context |
| ObsWrap.ServeWrap | obs/wrap.go:16-38 | a nil handler does nothing; otherwise the handler's response is untouched, the id is the first non-empty of the stored one, the context's, the request header's and the response header's, and the counter grows by the bytes written |
| AccessLogging.LogStep | httpkit/middleware/access_log.go:54-101 | WriteHeader records the status (later ones overwrite it); Write and ReadFrom default it to 200; bytes grow by exactly what the body grew by; every call is forwarded |
| AccessLogging.LogPlayForwards | httpkit/middleware/access_log.go:48-52 | the log writer forwards every call, so the response is the plain replay of the handler's calls |
| AccessLogging.LogCountsBody | httpkit/middleware/access_log.go:64-108 | over any calls the logged bytes grow by exactly the bytes the body grew by |
| AccessLogging.LogPlaySnoc | httpkit/middleware/access_log.go:48-66 | logging a list of calls is logging them one at a time |
| AccessLogging.LogWriter.constructor | httpkit/middleware/access_log.go:26 | a new log writer has status 0 and 0 bytes |
| AccessLogging.LogWriter.WriteHeader | httpkit/middleware/access_log.go:54-57 | the state advances by LogStep for WriteHeader |
| AccessLogging.LogWriter.Write | httpkit/middleware/access_log.go:59-66 | the state advances by LogStep for Write and the bytes reach the writer |
| AccessLogging.LogWriter.ReadFrom | httpkit/middleware/access_log.go:99-122 | the copy loop: total is the number of bytes written, a failed or short write ends it with that error, EOF ends it without error, and the state advances by LogStep |
| AccessLogging.LogWriter.SetHeader | httpkit/middleware/access_log.go:49 | a header set through the embedded writer changes neither status nor bytes |
| AccessLogging.LogWriter.Do | httpkit/middleware/access_log.go:54-122 | one handler call advances the state by LogStep |
| AccessLogging.LogWriter.Run | httpkit/middleware/access_log.go:27 | the handler's calls advance the state by LogPlay |
| AccessLogging.LoggedStatus | httpkit/middleware/access_log.go:28-30 | the logged status is the recorded one, or 200 when none was set |
| AccessLogging.LineID | httpkit/middleware/access_log.go:32-38 | the id from the context, else the response header, else the request header |
| AccessLogging.ServeAccessLog | httpkit/middleware/access_log.go:17-46 | a nil logger logs nothing; the response is the handler's; the line has method, path, duration, the logged status and the bytes written, and carries req_id exactly when the id is non-empty |
| AccessLogging.CreatedTwoBytes | httpkit/middleware/access_log.go:54-66 | (example) a 201 with a 2-byte body is logged as status=201 bytes=2 |
| AccessLogging.LastStatusLogged | httpkit/middleware/access_log.go:54-57 | (example) two WriteHeader calls log the second status while the response keeps the first |
| Cors.HasWildcard | httpkit/middleware/cors.go:143-150 | true exactly when "*" is one of the items |
| Cors.OriginAllowed | httpkit/middleware/cors.go:131-141 | true exactly when "*" or the origin itself is listed |
| Cors.ValidateCORSOptions | httpkit/middleware/cors.go:122-129 | panics exactly when credentials are allowed together with a wildcard origin |
| Cors.JoinCSV | httpkit/middleware/cors.go:152-157 | no items give ""; otherwise the items joined by ", " |
| Cors.JoinCSVSplits | httpkit/middleware/cors.go:152-165 | splitting a joined list at commas and trimming each piece gives the items back, when they hold no comma and no outer space |
| Cors.VaryAdded | httpkit/middleware/cors.go:159-173 | an empty value, or one Vary already names up to space and case, leaves the headers alone; no header other than Vary changes |
| Cors.VaryAddedNames | httpkit/middleware/cors.go:159-173 | adding keeps every earlier Vary piece, and afterwards Vary names the value |
| Cors.VaryHasKept | httpkit/middleware/cors.go:159-173 | a name Vary held before adding is still held after |
| Cors.AppendedVary | httpkit/middleware/cors.go:169 | appending ", value" keeps the earlier pieces and makes the last piece name the value |
| Cors.NewVary | httpkit/middleware/cors.go:172 | a Vary set to the value names the value |
| Cors.VaryIdempotent | httpkit/middleware/cors.go:159-173 | adding the same value twice is adding it once |
| Cors.AnyNames | httpkit/middleware/cors.go:164-168 | the loop finds a piece naming the value exactly when one exists |
| Cors.AddVary | httpkit/middleware/cors.go:159-173 | the imperative addVary computes VaryAdded |
| Cors.NewCORS | httpkit/middleware/cors.go:39-55 | panics exactly when credentials meet a wildcard origin; otherwise default methods and headers replace empty lists, and the CSV values and wildcard flags are computed once |
| Cors.SetAllowOrigin | httpkit/middleware/cors.go:80-90 | Allow-Origin is "*" under a wildcard policy and the origin otherwise, in which case Vary names Origin; nothing else changes |
| Cors.SetCredentials | httpkit/middleware/cors.go:91-93 | Allow-Credentials is "true" exactly when credentials are allowed; nothing else changes |
| Cors.PreflightValues | httpkit/middleware/cors.go:96-107 | Allow-Methods is the methods list; Allow-Headers echoes the trimmed request headers under a wildcard, else is the configured list when non-empty, else is left as it was; Max-Age is the whole seconds when positive and is left as it was otherwise; no other header changes |
| Cors.PreflightVary | httpkit/middleware/cors.go:108-109 | Vary then names both request headers and keeps naming Origin |
| Cors.PreflightVaryNames | httpkit/middleware/cors.go:108-109 | the two additions leave Vary naming both request headers |
| Cors.PreflightVaryKeeps | httpkit/middleware/cors.go:108-109 | the two additions keep every name Vary held before |
| Cors.SetOriginHeaders | httpkit/middleware/cors.go:80-93 | Allow-Origin, Vary: Origin unless any origin is allowed, and the credentials flag exactly when allowed; nothing but those three headers changes |
| Cors.SetPreflightHeaders | httpkit/middleware/cors.go:95-109 | the methods list, the echoed or configured Allow-Headers, Max-Age only when positive and Vary on both request headers; Allow-Origin, the credentials flag and a Vary naming Origin are kept, and no header a preflight does not set changes |
| Cors.AllowedPreflight | httpkit/middleware/cors.go:80-110 | an allowed preflight gets Allow-Origin, Vary: Origin unless any origin is allowed, the credentials flag exactly when credentials are allowed, the methods list, the echoed or configured Allow-Headers, Max-Age only when positive and Vary on both request headers; every other header is kept |
| Cors.AllowedSimple | httpkit/middleware/cors.go:80-116 | an allowed plain request gets Allow-Origin, Vary: Origin unless any origin is allowed, the credentials flag exactly when credentials are allowed and Expose-Headers only when there are exposed headers; no other header changes, so no preflight header is set |
| Cors.ServeCORS | httpkit/middleware/cors.go:57-118 | with no origins configured or no Origin header the request passes through unchanged; a disallowed preflight is a bare 204 and a disallowed request passes through; an allowed preflight gets the headers AllowedPreflight states (origin, credentials, methods, Allow-Headers, Max-Age only when positive, Vary, every other header kept) and 204 without the handler; an allowed request gets the headers AllowedSimple states and reaches the handler |
| JsonDecoding.Applied | json/options.go:15-21 | WithMaxBodyBytes sets the limit only for a positive n; any other option leaves the configuration as it was, and strictness is never changed |
| JsonDecoding.Configure | json/decode.go:19-27 | the option loop starts from the defaults and applies the options in order, skipping nil ones |
| JsonDecoding.ConfiguredStrictPositive | json/decode.go:19-27 | whatever the options, decoding stays strict and the body limit stays positive |
| JsonDecoding.DefaultLimitKept | json/options.go:12 | with no option setting a limit, the limit is DefaultMaxBodyBytes, 1 MiB |
| JsonDecoding.LastLimitWins | json/decode.go:23-27 | the last option that sets a positive limit decides it |
| JsonDecoding.UnknownFieldName | json/decode.go:58-70 | no name unless the message starts with "json: unknown field " and something other than quotes follows; a name found is non-empty and not quoted |
| JsonDecoding.TrimCharEmpty | json/decode.go:65-66 | trimming quotes leaves nothing exactly when the text is all quotes |
| JsonDecoding.TrimCharWrapped | json/decode.go:65 | trimming quotes from a quoted unquoted name gives the name back |
| JsonDecoding.UnknownFieldRoundTrip | json/decode.go:58-70 | the message for an unknown field "name" gives back that name |
| JsonDecoding.Classified | json/decode.go:43-56 | EOF is invalid JSON; a MaxBytesError anywhere in the error tree is too large, and only then; an unknown-field message names the field; anything else is invalid JSON |
| JsonDecoding.MapDecodeError | json/decode.go:43-56 | the returned error is the AppError reporting the failure's status, code, message and fields |
| JsonDecoding.FieldError | json/decode.go:52-53 | the unexpected-field error has status 400, its code and message, and one field naming the unknown field |
| JsonDecoding.DecodeJSON | json/decode.go:14-41 | a missing request or body is invalid JSON; a failed first decode is mapped; trailing data after the value is invalid JSON; otherwise nil |
| ClientKit.NormalizeJSONOptions | clientkit/client.go:200-213 | no options give 1 MiB and 8 KiB limits and no headers; given options keep their headers and strictness, and a non-positive limit is replaced by its default |
| ClientKit.NormalizeJSONOptionsSettled | clientkit/client.go:200-213 | normalised limits are positive, and normalising twice is normalising once |
| ClientKit.NormalizeOptions | clientkit/client.go:215-225 | no options give the 8 KiB error-body limit; a non-positive limit is replaced by it; headers are kept |
| ClientKit.NormalizeOptionsSettled | clientkit/client.go:215-225 | the normalised limit is positive, and normalising twice is normalising once |
| ClientKit.BodyOrError | clientkit/client.go:238-244 | a read error gives no body; more than the limit gives "response body too large"; otherwise the bytes read |
| ClientKit.ReadBodyLimit | clientkit/client.go:233-245 | a non-positive limit is "invalid body limit"; a body over the limit is "too large"; a body within it read to EOF comes back whole; a failed read gives its error; a body returned is never over the limit |
| ClientKit.ReadBodyLimitAgrees | clientkit/client.go:237 | below the largest int64 the code as written, with limit+1 in 64 bits, computes ReadBodyLimit |
| ClientKit.ReadBodyLimitWrapLosesBody | clientkit/client.go:237 | with the limit at the largest int64, limit+1 wraps and a one-byte body comes back empty with no error |
| ClientKit.ErrBodyOf | clientkit/client.go:252-258 | a read error gives no bytes; otherwise the bytes read cut to the limit |
| ClientKit.ReadErrBody | clientkit/client.go:247-259 | a non-positive limit gives nothing; the result is never longer than the limit; a body read to EOF or over the limit is kept up to the limit; a failed read gives nothing |
| ClientKit.ReadErrBodyAgrees | clientkit/client.go:251 | below the largest int64 the code as written computes ReadErrBody |
| ClientKit.ReadErrBodyWrapLosesBody | clientkit/client.go:251 | with the limit at the largest int64 a one-byte error body is lost |
| ClientKit.Discarded | clientkit/client.go:261-267 | a non-positive limit reads nothing and fails never; an error is the reader's own, short of EOF and short of the limit |
| ClientKit.AsHTTPError | clientkit/client.go:55-61 | an HTTPError is found as itself; what is found is always an HTTPError |
| ClientKit.HTTPErrorStatusWord | clientkit/client.go:50-52 | the text starts with "clientkit: http error " and its fourth word is the status in decimal, which reads back as the status |
| ClientKit.EnsureJSONEOF | clientkit/client.go:269-277 | nil exactly when the next decode hits EOF; its own error is passed on; a second value is "invalid json (extra data)" |
| ClientKit.JSONRequestHeaders | clientkit/client.go:101-104 | every option header is sent as given; a request with a body gets Content-Type application/json unless the options set it; nothing else is added |
| ClientKit.HTTPErrorFor | clientkit/client.go:113-121 | the HTTPError carries the reply's status and status text, the URL, the method and the error body read under the error-body limit |
| ClientKit.DoJSON | clientkit/client.go:69-146 | a nil client or context fails before sending; an encoding or request-building failure sends nothing; what is sent carries the JSON headers; an answered exchange records status and headers; a non-2xx reply is an HTTPError naming the request's method, GET when the method is empty; no error only after a 2xx reply |
| ClientKit.DoJSONSuccess | clientkit/client.go:124-145 | a successful call with a destination read a 2xx body no larger than the limit, to EOF, which decoded to exactly one value |
| ClientKit.Do | clientkit/client.go:159-198 | a nil client, context or request fails before sending; the request goes out with the option headers on top; a non-2xx reply is an HTTPError; success returns the whole body within the error-body limit; an error returns no body |
| DbExec.ExecAffected | dbkit/exec.go:20-30 | an Exec or RowsAffected error gives 0 and that error; otherwise the count and no error |
| DbExec.ExecOne | dbkit/exec.go:33-42 | nil exactly when the statement succeeded and touched one row; an Exec error is passed on; any other count is RowsAffectedError{1, n} |
| DbExec.ExecAtMostOne | dbkit/exec.go:45-58 | true exactly for one row; no error exactly for 0 or 1 rows; an Exec error is passed on; any other count is RowsAffectedError{1, n} |
| DbExec.AtMostOneWeakerThanOne | dbkit/exec.go:33-58 | whatever ExecOne accepts ExecAtMostOne accepts with true, and where ExecAtMostOne fails ExecOne fails the same way |
| DbExec.RowsAffectedTextParts | dbkit/exec.go:15-17 | the text splits at its one comma into the prefix with the expected count and " got " with the actual count, and both counts read back |
| DbScan.ScannedAll | dbkit/scan.go:31-38 | the scan loop over all rows: no error gives one item per row; an error gives no items |
| DbScan.QueryAllResult | dbkit/scan.go:18-43 | a query error gives no items and that error; any error gives no items |
| DbScan.QueryAll | dbkit/scan.go:18-43 | the cursor loop returns QueryAllResult of the cursor's rows and failure, and closes the cursor once the query succeeded |
| DbScan.ScannedAllFailed | dbkit/scan.go:33-36 | when the rows before k scan and row k fails, the result is row k's error and no items |
| DbScan.ScannedAllInOrder | dbkit/scan.go:32-38 | without error, item i is what row i scanned to, in row order |
| DbScan.ScannedAllSucceeds | dbkit/scan.go:32-38 | when every row scans, the loop ends without a scan error |
| DbScan.QueryAllRowOrder | dbkit/scan.go:32-42 | when every row scans, a clean cursor gives all items in row order, and a cursor failure gives that error and nothing else |
| DbScan.FirstScanErrorWins | dbkit/scan.go:33-36 | the first row that fails to scan decides the error, whatever the cursor's own failure |
| DbScan.QueryOneResult | dbkit/scan.go:46-80 | an item exactly when no error; a query error is returned; no rows give the cursor failure or sql.ErrNoRows; a first-row scan error is returned; a second row is ErrTooManyRows; one row gives the cursor failure or the item |
| DbScan.QueryOne | dbkit/scan.go:46-80 | the cursor calls compute QueryOneResult and close the cursor once the query succeeded |
| DbScan.QueryOneIsQueryAllOfOne | dbkit/scan.go:18-80 | when QueryOne succeeds, QueryAll of the same query gives exactly that one item; for one row the two succeed together |
| DbScan.Exists | dbkit/scan.go:83-95 | a query error is returned with false; otherwise true exactly when there is a row, an error only when there is none and the cursor failed, and the cursor is closed |
| DbClassify.Classify | dbkit/classify.go:25-53 | nil is unknown; no-rows exactly when sql.ErrNoRows is in the error tree; unique and foreign-key exactly by MySQL 1062 or 1451/1452, or else by SQLSTATE 23505 or 23503 |
| DbClassify.IsNoRows | dbkit/classify.go:56-58 | true exactly when Classify gives no-rows |
| DbClassify.IsUnique | dbkit/classify.go:61-63 | true only for MySQL 1062 or SQLSTATE 23505, and never together with no-rows or foreign-key |
| DbClassify.IsForeignKey | dbkit/classify.go:66-68 | true only for MySQL 1451/1452 or SQLSTATE 23503 |
| DbClassify.ClassifyWrappedOnce | dbkit/classify.go:29-51 | one level of %w wrapping does not change the kind |
| DbClassify.ClassifyThroughWrapping | dbkit/classify.go:29-51 | any depth of wrapping keeps the kind |
| DbClassify.ClassifyJoinedOne | dbkit/classify_test.go:47-52 | `errors.Join` of a single error classifies as that error, so a joined MySQL 1062 is a unique violation |
| DbClassify.MixedDriverErrors | dbkit/classify.go:32-51 | in a tree holding a MySQL error and then a SQLSTATE error, a decisive MySQL number (1062, 1451, 1452) decides the kind, and any other number falls through to the SQLSTATE |
| DbClassify.MixedDriverErrorsExample | dbkit/classify.go:32-51 | MySQL error 1 joined with SQLSTATE 23505 is a unique violation |
| DbClassify.DriverKinds | dbkit/classify.go:32-52 | the kind of each MySQL number and each SQLSTATE code, everything else unknown |
| DbClassify.QueryOneMissingIsNoRows | dbkit/classify.go:29-31 | QueryOne's error for a clean empty cursor classifies as no-rows |
| DbClassify.QueryOneTooManyIsUnknown | dbkit/classify.go:52 | QueryOne's too-many-rows error has no database kind |

## Left out

- Wildcard routes: `matchPath` never follows a wildcard child and never backtracks, although `Handle` builds wildcard nodes. The model matches as written, and `Routing.WildcardRouteUnreachable` shows that a registered wildcard route is never reached. The wildcard and backtracking behaviour some router tests expect is not modelled, because no code implements it.
- The per-method registration shortcuts (`GET`, `POST`, … and `HandleFunc`) on the router and the server are not modelled. They only call `Handle`/`handle` with a fixed method.
- Running the server (`app/run.go`), health and pprof routes, `dbkit/config.go`, `dbkit/tx.go` and `dbkit/conn.go` are not part of this model. They are listener, signal, `net/http` and `database/sql` glue.
- `httpkit/middleware/recover.go`, `httpkit/middleware/timeout.go` and `obs/text_logger.go` are not part of this model.
- Panics are outcome values, not control flow. `recover` is modelled by the caller inspecting that value.
- The timeout race and the writer mutex are not modelled. Which of handler completion, deadline and other cancellation happened first is an input, and each timeout-writer method is one atomic step.
- `Flush`, `Hijack`, `Push` and `Unwrap` on the writer wrappers are not modelled. They only forward to `net/http` interfaces.
- Writer wrappers are stacked only in the combinations the middleware itself builds. Arbitrary chains of foreign wrappers are not modelled.
- The `io.ReaderFrom` fast path of each wrapper's `ReadFrom` is modelled as the same copy as the fallback loop. A reader is a list of chunks ending in an error or EOF.
- An `io.Writer` that reports more bytes than it was given (a broken writer) is not modelled. The model's writer never does, so the `ErrShortWrite` branch of the access-log copy loop is reached only by a short write.
- `WriteHeader` codes are not checked for validity.
- HttpWriter.HeaderSet: changes the header map whatever the status. `net/http` does not transmit header changes made after the status was sent, but the model's map keeps them, so after a streamed reply it can hold headers the client never receives.
- Header names are compared as given. `net/http` canonicalises them (`applyHeaders`, `Header.Get`); the model assumes canonical names throughout.
- `EqualFold` and `ToUpper` cover ASCII letters only.
- JSON encoding and decoding are inputs. The model fixes which decoder error leads to which response, not how `encoding/json` produces it. An encoder failure, and the 500 reply `WriteJSON` then sends, is not modelled.
- Clocks and random bytes are inputs: the request start time, elapsed durations and the 16 random bytes of a request id, or the clock reading used when the random read fails.
- Loggers and metrics sinks are modelled by whether they are present, plus the event records they receive. `Printf` formatting of the access-log line is a record of its fields.
- The `Value` field of a panic event (the recovered value) is not modelled.
- Typed nil interface values are treated as nil.
- Go's `int` and `int64` widths are not modelled except where they matter:
  - the byte counter clamps to the largest `int`;
  - `limit+1` in the client's body readers wraps at the largest `int64`. Only the as-written members of the third Findings row model that wrap; the request operations use the corrected readers.
- `errors.Join(errInvalidRoute, cause)` in the server is modelled as the build error `ErrInvalidRoute` carrying the router's registration error. `errors.Is` over the joined error is not modelled.
- `GetJSON` and `PostJSON` only fix the method and are not modelled separately. `DefaultClient` only sets a timeout and is not modelled.
- The network exchange of `DoJSON` and `Do` is an input: a reply or a transport error. `URL.String()` normalisation is not modelled; the URL is used as given.
- `rows.Close()` in `defer` is modelled as a `closed` flag the query methods set. `QueryContext`'s arguments and the row scanner are inputs.
- AppHooks.StatusRecorder.ReadFrom: sets `wroteBody`, which `statusRecorder.ReadFrom` does not. It is the corrected recorder of the second Findings row; the code as written is `AppHooks.RecStepAsWritten`.
- AppHooks.StatusRecorder.Do: advances by the corrected `AppHooks.RecStep`. A `ReadFrom` call therefore marks the body as written, unlike the program; `AppHooks.RecStepAsWritten` is the step as written.
- AppHooks.StatusRecorder.Run: replays the handler's calls with `AppHooks.RecPlay` over the corrected step, so it differs from the program after a `ReadFrom`; `AppHooks.RecStepAsWritten` is the step as written.
- AppHooks.ServeWithHooks: runs the corrected recorder. After a body streamed through `ReadFrom` and then a panic, the program appends the 500 error JSON and this model does not; `AppHooks.StreamThenPanicAsWritten` shows what the program does.
- ClientKit.HTTPErrorFor: reads the error body with the corrected `ClientKit.ReadErrBody`. At an error-body limit equal to the largest `int64` the program reads nothing (`ClientKit.ReadErrBodyWrapLosesBody`); below that limit the two agree (`ClientKit.ReadErrBodyAgrees`).
- ClientKit.DoJSON: reads a 2xx body with the corrected `ClientKit.ReadBodyLimit` and its error bodies with `ClientKit.ReadErrBody`. With `MaxBody` equal to the largest `int64` the program reads an empty body and decoding sees EOF (`ClientKit.ReadBodyLimitWrapLosesBody`); below that limit the two agree (`ClientKit.ReadBodyLimitAgrees`).
- ClientKit.Do: reads the body with the corrected `ClientKit.ReadBodyLimit` under `MaxErrBody`, and error bodies with `ClientKit.ReadErrBody`. At a limit equal to the largest `int64` the program loses the body (`ClientKit.ReadBodyLimitWrapLosesBody`); below it the two agree. `req.WithContext` copies the request shallowly, so the option headers are also written into the caller's own `req.Header`; the value `PlainRequest` does not show that write.
- DbExec.RowsAffectedTextParts: stated for non-negative counts only; a negative count from a driver prints with a minus sign, which this lemma does not cover.

## Findings

| source | as written | input that shows it | evidently intended | confidence | as-written member | corrected member |
|---|---|---|---|---|---|---|
| errors/app_error.go:104-110 | `cloneAppError` copies the field map only when it has at least one entry. An empty but non-nil map is shared by the clone, so `WithField` on the clone also writes into the original error. | An `*AppError` whose `Fields` is an empty non-nil map, then `WithField(err, "id", "1")`: the original's map now holds `id`. | A clone whose field map is never shared with the original. | not executed | AppErrors.CloneAppErrorAsWritten, AppErrors.WithFieldAsWritten, AppErrors.SharedMapExample | AppErrors.CloneAppError, AppErrors.WithField, AppErrors.SeparateMapExample |
| app/hooks.go:97-108 | `statusRecorder.ReadFrom` defaults the status to 200 but does not set `wroteBody`. After a body streamed with `io.Copy`, a panic still writes the error reply. | A handler that copies a non-empty body into the writer and then panics: the 500 error JSON is appended to a 200 response already sent. | A body sent through `ReadFrom` counts as written, like one sent through `Write`. | not executed | AppHooks.RecStepAsWritten, AppHooks.StreamThenPanicAsWritten | AppHooks.RecStep, AppHooks.NoReplyAfterSending |
| clientkit/client.go:237,251 | `readBodyLimit` and `readErrBody` read through `io.LimitReader(r, limit+1)` in `int64`. For a limit of the largest `int64`, `limit+1` wraps to a negative number, and the reader yields nothing. | `JSONOptions{MaxBody: math.MaxInt64}` and a one-byte 2xx body: `readBodyLimit` returns an empty body and no error. | The whole body, which is within the limit. | not executed | ClientKit.ReadBodyLimitWrapLosesBody, ClientKit.ReadErrBodyWrapLosesBody | ClientKit.ReadBodyLimit, ClientKit.ReadErrBody, ClientKit.ReadBodyLimitAgrees, ClientKit.ReadErrBodyAgrees |
