/**
 * httpkit/middleware/access_log.go: the access-log middleware and the
 * logWriter it puts in front of the handler, which notes the status and
 * counts the bytes written. The logger's Printf is represented by the
 * record of the values it is given; the clock reading is an input.
 */
module AccessLogging {
  import opened Wrappers
  import opened GoStrings
  import opened GoErrors
  import opened Http
  import opened Context
  import opened HttpWriter
  import RequestIds

  /** The logWriter's state as a value: what it forwarded, the status it noted and the bytes it counted. */
  datatype LogState = LogState(out: Response, status: int, bytes: int)

  /**
   * One call on the logWriter: WriteHeader notes the status; Write and
   * ReadFrom default it to 200 and add the bytes that went through; every
   * call reaches the underlying writer (which offers no SetErr).
   */
  function LogStep(s: LogState, c: Call): (t: LogState)
    ensures t.out == Step(s.out, c)
    ensures c.WriteHeader? ==> t.status == c.code
    ensures c.Write? || c.ReadFrom? ==> t.status == (if s.status == 0 then StatusOK else s.status)
    ensures c.SetHeader? || c.SetErr? ==> t.status == s.status
    ensures t.bytes - s.bytes == |t.out.body| - |s.out.body|
  {
    match c
    case SetHeader(_, _) => s.(out := Step(s.out, c))
    case WriteHeader(code) => s.(out := Step(s.out, c), status := code)
    case Write(p) =>
      var w := BodyWritten(s.out, p);
      LogState(w.resp, if s.status == 0 then StatusOK else s.status, s.bytes + w.n)
    case ReadFrom(src) =>
      var w := Copied(s.out, src.chunks, src.end);
      LogState(w.resp, if s.status == 0 then StatusOK else s.status, s.bytes + w.n)
    case SetErr(_) => s
  }

  /** A script of calls on the logWriter. */
  function LogPlay(s: LogState, calls: seq<Call>): (t: LogState)
    decreases |calls|
  {
    if calls == [] then s else LogPlay(LogStep(s, calls[0]), calls[1..])
  }

  /** The logWriter is transparent: the client receives what the plain script sends. */
  lemma {:induction false} LogPlayForwards(s: LogState, calls: seq<Call>)
    ensures LogPlay(s, calls).out == Play(s.out, calls)
    decreases |calls|
  {
    if calls != [] {
      LogPlayForwards(LogStep(s, calls[0]), calls[1..]);
    }
  }

  /** The byte count grows by exactly the number of body bytes the client receives. */
  lemma {:induction false} LogCountsBody(s: LogState, calls: seq<Call>)
    ensures LogPlay(s, calls).bytes - s.bytes == |LogPlay(s, calls).out.body| - |s.out.body|
    decreases |calls|
  {
    if calls != [] {
      LogCountsBody(LogStep(s, calls[0]), calls[1..]);
    }
  }

  /** A script ending in a call is played one call at a time. */
  lemma {:induction false} LogPlaySnoc(s: LogState, calls: seq<Call>, c: Call)
    ensures LogPlay(s, calls + [c]) == LogStep(LogPlay(s, calls), c)
    decreases |calls|
  {
    if calls == [] {
      assert calls + [c] == [c];
    } else {
      assert (calls + [c])[0] == calls[0] && (calls + [c])[1..] == calls[1..] + [c];
      LogPlaySnoc(LogStep(s, calls[0]), calls[1..], c);
    }
  }

  /** The state after ReadFrom, given what the copy delivered. */
  lemma LogReadFromState(s: LogState, src: Source, total: nat, err: Option<Err>, out: Response)
    requires Written(out, total, err) == Copied(s.out, src.chunks, src.end)
    ensures LogStep(s, Call.ReadFrom(src)) == LogState(out, if s.status == 0 then StatusOK else s.status, s.bytes + total)
  {
  }

  /** logWriter */
  class LogWriter {
    var out: Response
    var status: int
    var bytes: int

    function Snapshot(): LogState
      reads this
    {
      LogState(out, status, bytes)
    }

    /** &logWriter{ResponseWriter: w} */
    constructor(w: Response)
      ensures Snapshot() == LogState(w, 0, 0)
    {
      out := w;
      status := 0;
      bytes := 0;
    }

    method WriteHeader(code: int)
      modifies this
      ensures Snapshot() == LogStep(old(Snapshot()), Call.WriteHeader(code))
    {
      status := code;
      out := HeaderWritten(out, code);
    }

    method Write(p: seq<byte>) returns (n: nat, err: Option<Err>)
      modifies this
      ensures Snapshot() == LogStep(old(Snapshot()), Call.Write(p))
      ensures Written(out, n, err) == BodyWritten(old(out), p)
    {
      if status == 0 {
        status := StatusOK;
      }
      var w := BodyWritten(out, p);
      out, n, err := w.resp, w.n, w.err;
      bytes := bytes + n;
    }

    /**
     * ReadFrom without an io.ReaderFrom underneath: read chunk after chunk
     * and write each through Write, stopping at the first failed write; at
     * the end of the stream EOF is success and any other error is returned.
     */
    method ReadFrom(src: Source) returns (total: nat, err: Option<Err>)
      modifies this
      ensures Written(out, total, err) == Copied(old(out), src.chunks, src.end)
      ensures Snapshot() == LogStep(old(Snapshot()), Call.ReadFrom(src))
    {
      if status == 0 {
        status := StatusOK;
      }
      total := 0;
      var i := 0;
      while i < |src.chunks|
        invariant 0 <= i <= |src.chunks|
        invariant Copied(old(out), src.chunks, src.end) == Shift(Copied(out, src.chunks[i..], src.end), total)
        invariant bytes == old(bytes) + total
        invariant status == (if old(status) == 0 then StatusOK else old(status))
      {
        var c := src.chunks[i];
        if |c| > 0 {
          ghost var before := out;
          var nw, ew := Write(c);
          CopiedRound(before, src.chunks, i, src.end, total, Written(out, nw, ew));
          total := total + nw;
          if ew.Some? {
            LogReadFromState(old(Snapshot()), src, total, ew, out);
            return total, ew;
          }
        } else {
          CopiedSkip(out, src.chunks, i, src.end, total);
        }
        i := i + 1;
      }
      if src.end == Sentinel(EOF) {
        err := None;
      } else {
        err := Some(src.end);
      }
      LogReadFromState(old(Snapshot()), src, total, err, out);
    }

    method SetHeader(name: string, value: string)
      modifies this
      ensures Snapshot() == LogStep(old(Snapshot()), Call.SetHeader(name, value))
    {
      out := HeaderSet(out, name, value);
    }

    /** One call of the handler on the logWriter. */
    method Do(c: Call)
      modifies this
      ensures Snapshot() == LogStep(old(Snapshot()), c)
    {
      match c {
        case SetHeader(k, v) => SetHeader(k, v);
        case WriteHeader(code) => WriteHeader(code);
        case Write(p) => var _, _ := Write(p);
        case ReadFrom(src) => var _, _ := ReadFrom(src);
        case SetErr(_) =>
      }
    }

    /** The handler's calls on the logWriter, one after the other. */
    method Run(calls: seq<Call>)
      modifies this
      ensures Snapshot() == LogPlay(old(Snapshot()), calls)
    {
      var i := 0;
      while i < |calls|
        invariant 0 <= i <= |calls|
        invariant Snapshot() == LogPlay(old(Snapshot()), calls[..i])
      {
        Do(calls[i]);
        assert calls[..i + 1] == calls[..i] + [calls[i]];
        LogPlaySnoc(old(Snapshot()), calls[..i], calls[i]);
        i := i + 1;
      }
      assert calls[..i] == calls;
    }
  }

  /** The status the line reports: the noted one, or 200 when none was noted. */
  function LoggedStatus(noted: int): (code: int)
    ensures code != 0
    ensures noted != 0 ==> code == noted
    ensures noted == 0 ==> code == StatusOK
  {
    if noted == 0 then StatusOK else noted
  }

  /** The values one access-log line is printed from; `reqID` is None when the req_id field is left out. */
  datatype LogLine = LogLine(verb: string, path: string, status: int, durMS: int, bytes: int, reqID: Option<string>)

  /** The request id the log line carries: the context's, else the response header's, else the request header's. */
  function LineID(ctx: Ctx, response: Response, requestHeaderID: string): (id: string)
    ensures RequestIds.ReqID(ctx) != "" ==> id == RequestIds.ReqID(ctx)
    ensures RequestIds.ReqID(ctx) == "" && HeaderGet(response, RequestIds.RequestIdHeader) != "" ==>
      id == HeaderGet(response, RequestIds.RequestIdHeader)
    ensures RequestIds.ReqID(ctx) == "" && HeaderGet(response, RequestIds.RequestIdHeader) == "" ==> id == requestHeaderID
  {
    var id := RequestIds.ReqID(ctx);
    if id != "" then id
    else
      var fromResponse := HeaderGet(response, RequestIds.RequestIdHeader);
      if fromResponse != "" then fromResponse else requestHeaderID
  }

  /**
   * AccessLog(l)(next) serving one request: with no logger the handler runs
   * on the bare writer and nothing is logged; otherwise the handler writes
   * through a logWriter and one line is logged with the noted status (200
   * when none), the duration, the byte count and, when non-empty, the
   * request id.
   */
  method ServeAccessLog(logger: bool, next: seq<Call>, ctx: Ctx, verb: string, path: string,
                        requestHeaderID: string, durMS: int, w: Response)
    returns (out: Response, line: Option<LogLine>)
    ensures out == Play(w, next)
    ensures !logger <==> line.None?
    ensures line.Some? ==> line.value.verb == verb && line.value.path == path && line.value.durMS == durMS
    ensures line.Some? ==> line.value.status == LoggedStatus(LogPlay(LogState(w, 0, 0), next).status)
    ensures line.Some? ==> line.value.bytes == |out.body| - |w.body|
    ensures line.Some? ==> (line.value.reqID.None? <==> LineID(ctx, out, requestHeaderID) == "")
    ensures line.Some? && line.value.reqID.Some? ==> line.value.reqID.value == LineID(ctx, out, requestHeaderID)
  {
    if !logger {
      return Play(w, next), None;
    }
    var lw := new LogWriter(w);
    lw.Run(next);
    LogPlayForwards(LogState(w, 0, 0), next);
    LogCountsBody(LogState(w, 0, 0), next);
    if lw.status == 0 {
      lw.status := StatusOK;
    }
    assert lw.status == LoggedStatus(LogPlay(LogState(w, 0, 0), next).status);
    out := lw.out;
    var reqID := LineID(ctx, out, requestHeaderID);
    line := Some(LogLine(verb, path, lw.status, durMS, lw.bytes, if reqID != "" then Some(reqID) else None));
  }

  /** A handler that sends 201 and a two-byte body is logged with status 201 and 2 bytes. */
  lemma CreatedTwoBytes(w: Response)
    requires w.status == 0 && w.room.None?
    ensures LogPlay(LogState(w, 0, 0), [Call.WriteHeader(StatusCreated), Call.Write([111, 107])]).status == StatusCreated
    ensures LogPlay(LogState(w, 0, 0), [Call.WriteHeader(StatusCreated), Call.Write([111, 107])]).bytes == 2
  {
    var calls := [Call.WriteHeader(StatusCreated), Call.Write([111, 107])];
    var s1 := LogStep(LogState(w, 0, 0), calls[0]);
    assert LogPlay(LogState(w, 0, 0), calls) == LogPlay(s1, calls[1..]);
    assert calls[1..][1..] == [];
  }

  /** The logged status is the last one written, even where the client keeps the first. */
  lemma LastStatusLogged(w: Response)
    requires w.status == 0
    ensures LogPlay(LogState(w, 0, 0), [Call.WriteHeader(StatusCreated), Call.WriteHeader(StatusInternalServerError)]).status ==
      StatusInternalServerError
    ensures Play(w, [Call.WriteHeader(StatusCreated), Call.WriteHeader(StatusInternalServerError)]).status == StatusCreated
  {
    var calls := [Call.WriteHeader(StatusCreated), Call.WriteHeader(StatusInternalServerError)];
    var s1 := LogStep(LogState(w, 0, 0), calls[0]);
    assert LogPlay(LogState(w, 0, 0), calls) == LogPlay(s1, calls[1..]);
    assert Play(w, calls) == Play(Step(w, calls[0]), calls[1..]);
    assert calls[1..][1..] == [];
  }
}
