/**
 * obs/obs.go: the observability hooks. OnRequestStart stores a fresh
 * request meta in the context; OnRequestEnd turns what the request did into
 * one log event and one metrics observation; OnPanic logs the panic. The
 * logger and the metrics sink are present or nil; the clock readings
 * (time.Now at the start, time.Since at the end) are inputs.
 */
module ObsHooks {
  import opened Wrappers
  import opened GoStrings
  import opened Http
  import opened Context
  import opened GoErrors
  import opened AppErrors
  import opened HttpWriter
  import opened WriteErrors
  import opened ObsWrap
  import RequestIds
  import AppHooks

  const KindTimeout := "timeout"
  const KindInternal := "internal"

  /** The AppError behind `err` reads as a timeout: code "timeout" or status 504. */
  predicate IsTimeoutApp(a: AppError) {
    a.code == CodeTimeout || a.status == StatusGatewayTimeout
  }

  /**
   * errKind: the class of a request's error for the end event — "" for no
   * error and for an AppError that is neither a timeout nor a server error,
   * "timeout" for a timeout AppError, and "internal" for a server-error
   * AppError or any error that is not an AppError.
   */
  function ErrKind(err: Option<Err>): (k: string)
    ensures k == KindTimeout <==> err.Some? && AppOf(err.value).Some? && IsTimeoutApp(AppOf(err.value).value)
    ensures k == KindInternal <==>
      (err.Some? && (AppOf(err.value).None? ||
        (!IsTimeoutApp(AppOf(err.value).value) && AppOf(err.value).value.status >= StatusInternalServerError)))
    ensures k == "" <==>
      (err.None? ||
        (AppOf(err.value).Some? && !IsTimeoutApp(AppOf(err.value).value) && AppOf(err.value).value.status < StatusInternalServerError))
  {
    if err.None? then ""
    else match AppOf(err.value)
      case Some(a) =>
        if IsTimeoutApp(a) then KindTimeout
        else if a.status >= StatusInternalServerError then KindInternal
        else ""
      case None => KindInternal
  }

  /** The toolkit's own timeout error is classed as a timeout, however deeply it is wrapped. */
  lemma {:induction false} TimeoutKind(wraps: seq<string>)
    ensures ErrKind(Some(WrapAll(wraps, App(Timeout())))) == KindTimeout
    decreases |wraps|
  {
    if wraps != [] {
      TimeoutKind(wraps[1..]);
      AsAppErrorThroughWrap(wraps[0], WrapAll(wraps[1..], App(Timeout())));
    }
  }

  /** An error wrapped with %w in each of `wraps`, outermost first. */
  function WrapAll(wraps: seq<string>, e: Err): Err
    decreases |wraps|
  {
    if wraps == [] then e else Err.Wrapped(wraps[0], WrapAll(wraps[1..], e))
  }

  /**
   * An AppError with no status is sent as 500 by WriteError, yet errKind
   * classes it as no error at all: the two disagree on it.
   */
  lemma UnsetStatusKind(code: string, message: string)
    requires code != CodeTimeout
    ensures ErrKind(Some(App(AppError(0, code, message, None, None)))) == ""
    ensures ReplyFor(Some(App(AppError(0, code, message, None, None)))).value.status == StatusInternalServerError
  {
  }

  /**
   * duration: the hook's own duration when positive; otherwise the time
   * since the meta's start when there is a non-zero start and that time is
   * positive; otherwise one nanosecond. `since` is time.Since(meta.start).
   */
  function Duration(meta: ReqMeta?, dur: int, since: int): (d: int)
    reads meta
    ensures d > 0
    ensures dur > 0 ==> d == dur
    ensures dur <= 0 && (meta == null || meta.start.None? || since <= 0) ==> d == 1
    ensures dur <= 0 && meta != null && meta.start.Some? && since > 0 ==> d == since
  {
    if dur > 0 then dur
    else if meta != null && meta.start.Some? && since > 0 then since
    else 1
  }

  /** RequestEndEvent */
  datatype RequestEndEvent = RequestEndEvent(
    verb: string, path: string, status: int, bytes: int, dur: int, reqID: string, errKind: string)

  /** A call the hooks make on the logger or the metrics sink. */
  datatype ObsCall =
    | LogRequestEnd(event: RequestEndEvent)
    | ObserveRequest(verb: string, path: string, status: int, dur: int)
    | LogPanic(verb: string, path: string, reqID: string)

  /**
   * The hooks obs installs: NewHooks sets all three callbacks; NewMetricsHook
   * sets only OnRequestEnd, which then only observes.
   */
  datatype ObsHooks = ObsHooks(logger: bool, metrics: bool, full: bool)

  /** NewHooks(logger, metrics) */
  function NewHooks(logger: bool, metrics: bool): (h: AppHooksSet)
    ensures h.Some? && h.value.full && h.value.logger == logger && h.value.metrics == metrics
  {
    Some(ObsHooks(logger, metrics, true))
  }

  /** app.Hooks as obs builds them; None is the empty app.Hooks{}. */
  type AppHooksSet = Option<ObsHooks>

  /** NewMetricsHook(m): the empty hooks for a nil sink. */
  function NewMetricsHook(metrics: bool): (h: AppHooksSet)
    ensures !metrics <==> h.None?
    ensures h.Some? ==> !h.value.full && !h.value.logger && h.value.metrics
  {
    if !metrics then None else Some(ObsHooks(false, true, false))
  }

  /** Which of OnRequestStart, OnRequestEnd and OnPanic are set. */
  function Installed(h: AppHooksSet): (set3: (bool, bool, bool))
    ensures h.None? ==> set3 == (false, false, false)
    ensures h.Some? ==> set3 == (h.value.full, true, h.value.full)
  {
    if h.None? then (false, false, false) else (h.value.full, true, h.value.full)
  }

  /** OnRequestStart: a fresh meta with the start time, the request id so far and a zero counter, stored in the context. */
  method OnRequestStart(ctx: Ctx, now: int) returns (next: Ctx, meta: ReqMeta)
    requires ctx.Ctx?
    ensures fresh(meta) && fresh(meta.bytes) && meta.bytes != null
    ensures meta.start == Some(now) && meta.reqID == RequestIds.GetRequestID(ctx)
    ensures meta.bytes.n == 0 && meta.bytes.Valid()
    ensures next == WithValue(ctx, ReqMetaKey, Ref(meta)) && GetReqMeta(next) == meta
  {
    var counter := new ByteCounter();
    meta := new ReqMeta(Some(now), RequestIds.GetRequestID(ctx), counter);
    next := WithValue(ctx, ReqMetaKey, Ref(meta));
  }

  /** The frame of the end and panic hooks: the meta in the context and its counter. */
  function Meta(ctx: Ctx): ReqMeta? {
    GetReqMeta(ctx)
  }

  /** The end event OnRequestEnd builds from the context's meta and the request's outcome. */
  function EndEvent(ctx: Ctx, info: AppHooks.RequestInfo, status: int, err: Option<Err>, dur: int, since: int, bits: nat): (e: RequestEndEvent)
    requires bits == 32 || bits == 64
    requires Meta(ctx) != null && Meta(ctx).bytes != null ==> Meta(ctx).bytes.Valid()
    reads Meta(ctx), if Meta(ctx) != null then {Meta(ctx).bytes} else {}
    ensures e.verb == info.verb && e.path == info.path && e.status == status
    ensures e.dur > 0 && e.dur == Duration(Meta(ctx), dur, since)
    ensures e.bytes == BytesValue(Meta(ctx), bits) && e.reqID == ReqIDValue(Meta(ctx))
    ensures e.errKind == ErrKind(err)
  {
    RequestEndEvent(info.verb, info.path, status, BytesValue(Meta(ctx), bits),
      Duration(Meta(ctx), dur, since), ReqIDValue(Meta(ctx)), ErrKind(err))
  }

  /**
   * OnRequestEnd: NewHooks logs the end event when there is a logger and
   * observes the request when there is a metrics sink; NewMetricsHook only
   * observes. Every observation carries a positive duration.
   */
  function OnRequestEnd(h: ObsHooks, ctx: Ctx, info: AppHooks.RequestInfo, status: int, err: Option<Err>,
                        dur: int, since: int, bits: nat): (calls: seq<ObsCall>)
    requires bits == 32 || bits == 64
    requires Meta(ctx) != null && Meta(ctx).bytes != null ==> Meta(ctx).bytes.Valid()
    reads Meta(ctx), if Meta(ctx) != null then {Meta(ctx).bytes} else {}
    ensures |calls| == (if h.full && h.logger then 1 else 0) + (if h.metrics then 1 else 0)
    ensures h.full && h.logger ==> calls[0] == LogRequestEnd(EndEvent(ctx, info, status, err, dur, since, bits))
    ensures h.metrics ==>
      calls[|calls| - 1] == ObserveRequest(info.verb, info.path, status, Duration(Meta(ctx), dur, since))
    ensures forall c :: c in calls && c.ObserveRequest? ==> c.dur > 0
  {
    var d := Duration(Meta(ctx), dur, since);
    var log := if h.full && h.logger then [LogRequestEnd(EndEvent(ctx, info, status, err, dur, since, bits))] else [];
    var observe := if h.metrics then [ObserveRequest(info.verb, info.path, status, d)] else [];
    log + observe
  }

  /** OnPanic: logs the request and its id when NewHooks has a logger; nothing otherwise. */
  function OnPanic(h: ObsHooks, ctx: Ctx, info: AppHooks.RequestInfo): (calls: seq<ObsCall>)
    reads Meta(ctx)
    ensures !(h.full && h.logger) <==> calls == []
    ensures h.full && h.logger ==> calls == [LogPanic(info.verb, info.path, ReqIDValue(Meta(ctx)))]
  {
    if h.full && h.logger then [LogPanic(info.verb, info.path, ReqIDValue(Meta(ctx)))] else []
  }

  /**
   * One request observed end to end on a 64-bit platform: OnRequestStart,
   * then the handler behind Wrap, then OnRequestEnd with a logger. The
   * logged event counts exactly the body bytes sent (short of an int64
   * overflow) and carries the request id from the context, or else from the
   * request header, or else from the response header.
   */
  method ObserveOneRequest(metrics: bool, ctx: Ctx, info: AppHooks.RequestInfo, calls: seq<Call>,
                           requestHeaderID: string, w: Response, now: int, status: int, err: Option<Err>,
                           dur: int, since: int)
    returns (out: Response, events: seq<ObsCall>)
    requires ctx.Ctx?
    ensures out == Play(w, calls)
    ensures |events| >= 1 && events[0].LogRequestEnd?
    ensures events[0].event.reqID ==
      FirstNonEmpty([RequestIds.GetRequestID(ctx), requestHeaderID, HeaderGet(out, RequestIds.RequestIdHeader)])
    ensures |out.body| - |w.body| <= MaxInt64 ==> events[0].event.bytes == |out.body| - |w.body|
    ensures events[0].event.dur > 0 && events[0].event.status == status
  {
    var h := NewHooks(true, metrics).value;
    var ctx1, meta := OnRequestStart(ctx, now);
    var seen, m;
    out, seen, m := ServeWrap(Some(calls), ctx1, requestHeaderID, w);
    assert m == meta;
    assert RequestIds.GetRequestID(ctx1) == RequestIds.GetRequestID(ctx);
    events := OnRequestEnd(h, ctx1, info, status, err, dur, since, 64);
    BodyGrows(w, calls);
    assert meta.bytes.n == Wrap64(|out.body| - |w.body|);
    FirstOfThree(RequestIds.GetRequestID(ctx), requestHeaderID, HeaderGet(out, RequestIds.RequestIdHeader));
  }

  /** The fallback chain of three ids, read left to right. */
  lemma FirstOfThree(a: string, b: string, c: string)
    ensures FirstNonEmpty([a, b, c]) == if a != "" then a else if b != "" then b else c
  {
    var s := [a, b, c];
    assert s[1..] == [b, c] && s[1..][1..] == [c];
    assert FirstNonEmpty(s) == if a != "" then a else FirstNonEmpty([b, c]);
    assert FirstNonEmpty([b, c]) == if b != "" then b else FirstNonEmpty([c]);
    assert FirstNonEmpty([c]) == c;
  }
}
