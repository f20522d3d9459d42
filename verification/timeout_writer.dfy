/**
 * httpkit/middleware/timeout_error.go: when the request's deadline passes
 * before the handler has started its response, the timeout reply is
 * written instead, and whatever the handler writes afterwards is dropped.
 *
 * The race between the handler's goroutine and the context is an input
 * (Race): it says how many of the handler's calls happened before the
 * context finished, and whether it finished by its deadline. Each writer
 * method is one atomic step, as the mutex makes it.
 */
module TimeoutErrors {
  import opened Wrappers
  import opened GoStrings
  import opened Http
  import opened GoErrors
  import opened AppErrors
  import opened HttpWriter
  import opened WriteErrors

  /** timeoutWriter: forwards to `out` until the timeout reply is written. */
  class TimeoutWriter {
    var out: Response
    var started: bool
    var timed: bool

    /** Only a writer that has started can have timed out. */
    predicate Valid()
      reads this
    {
      timed ==> started
    }

    constructor(w: Response)
      ensures out == w && !started && !timed && Valid()
    {
      out := w;
      started := false;
      timed := false;
    }

    /** writeTimeout: a no-op once started; otherwise marks started and timed and runs `write` on the underlying writer. */
    method WriteTimeout(write: seq<Call>)
      requires Valid()
      modifies this
      ensures Valid()
      ensures old(started) ==> out == old(out) && started && timed == old(timed)
      ensures !old(started) ==> started && timed && out == Play(old(out), write)
    {
      if started {
        return;
      }
      started := true;
      timed := true;
      out := Play(out, write);
    }

    /** WriteHeader: dropped once timed; otherwise marks started and forwards. */
    method WriteHeader(code: int)
      requires Valid()
      modifies this
      ensures Valid() && timed == old(timed)
      ensures old(timed) ==> out == old(out) && started
      ensures !old(timed) ==> started && out == HeaderWritten(old(out), code)
    {
      if timed {
        return;
      }
      started := true;
      out := HeaderWritten(out, code);
    }

    /** Write: once timed, reports the whole slice written and forwards nothing; otherwise marks started and forwards. */
    method Write(p: seq<byte>) returns (n: nat, err: Option<Err>)
      requires Valid()
      modifies this
      ensures Valid() && timed == old(timed)
      ensures old(timed) ==> out == old(out) && started && n == |p| && err.None?
      ensures !old(timed) ==> started && Written(out, n, err) == BodyWritten(old(out), p)
    {
      if timed {
        return |p|, None;
      }
      started := true;
      var w := BodyWritten(out, p);
      out, n, err := w.resp, w.n, w.err;
    }

    /** ReadFrom: once timed, reports (0, nil) and reads nothing; otherwise marks started and copies. */
    method ReadFrom(src: Source) returns (n: nat, err: Option<Err>)
      requires Valid()
      modifies this
      ensures Valid() && timed == old(timed)
      ensures old(timed) ==> out == old(out) && started && n == 0 && err.None?
      ensures !old(timed) ==> started && Written(out, n, err) == Copied(old(out), src.chunks, src.end)
    {
      if timed {
        return 0, None;
      }
      started := true;
      var w := Copied(out, src.chunks, src.end);
      out, n, err := w.resp, w.n, w.err;
    }

    /** Header() is the underlying writer's own map: setting a header is never guarded. */
    method SetHeader(name: string, value: string)
      requires Valid()
      modifies this
      ensures Valid() && started == old(started) && timed == old(timed)
      ensures out == HeaderSet(old(out), name, value)
    {
      out := HeaderSet(out, name, value);
    }

    /** One call of the handler on this writer; SetErr is not offered. */
    method Do(c: Call)
      requires Valid()
      modifies this
      ensures Valid() && timed == old(timed)
      ensures !old(timed) ==> out == Step(old(out), c) && started == (old(started) || Sends(c))
      ensures old(timed) ==> started && out.status == old(out).status && out.body == old(out).body
    {
      match c {
        case SetHeader(k, v) => SetHeader(k, v);
        case WriteHeader(code) => WriteHeader(code);
        case Write(p) => var _, _ := Write(p);
        case ReadFrom(src) => var _, _ := ReadFrom(src);
        case SetErr(_) =>
      }
    }

    /** The handler's calls, one after the other. */
    method Run(calls: seq<Call>)
      requires Valid()
      modifies this
      ensures Valid() && timed == old(timed)
      ensures !old(timed) ==> out == Play(old(out), calls) && started == (old(started) || AnySends(calls))
      ensures old(timed) ==> out.status == old(out).status && out.body == old(out).body
    {
      var i := 0;
      while i < |calls|
        invariant 0 <= i <= |calls|
        invariant Valid() && timed == old(timed)
        invariant !old(timed) ==> out == Play(old(out), calls[..i]) && started == (old(started) || AnySends(calls[..i]))
        invariant old(timed) ==> out.status == old(out).status && out.body == old(out).body
      {
        Do(calls[i]);
        assert calls[..i + 1] == calls[..i] + [calls[i]];
        assert calls[..i + 1][..i] == calls[..i];
        PlaySnoc(old(out), calls[..i], calls[i]);
        i := i + 1;
      }
      assert calls[..i] == calls;
    }
  }

  /** Which came first: the handler finishing, or the context finishing after `after` of the handler's calls. */
  datatype Race =
    | HandlerDone
    | ContextDone(after: nat, deadline: bool)   // deadline: ctx.Err() is DeadlineExceeded

  /**
   * TimeoutError(write)(next) serving one request whose handler makes
   * `handler`'s calls: `atReturn` is the response when the middleware
   * returns, `final` the response once the handler's goroutine has made
   * all its calls. Without `write` the middleware is `next` itself.
   */
  method ServeTimeoutError(write: Option<seq<Call>>, handler: seq<Call>, race: Race, w: Response)
    returns (atReturn: Response, final: Response)
    ensures write.None? || race.HandlerDone? ==> atReturn == Play(w, handler) && final == atReturn
    ensures write.Some? && race.ContextDone? ==>
      var cut := if race.after < |handler| then race.after else |handler|;
      && (!race.deadline || AnySends(handler[..cut]) ==>
            atReturn == Play(w, handler[..cut]) && final == Play(w, handler))
      && (race.deadline && !AnySends(handler[..cut]) ==>
            atReturn == Play(Play(w, handler[..cut]), write.value)
            && final.status == atReturn.status && final.body == atReturn.body)
  {
    if write.None? {
      atReturn := Play(w, handler);
      final := atReturn;
      return;
    }
    var tw := new TimeoutWriter(w);
    match race {
      case HandlerDone =>
        tw.Run(handler);
        atReturn := tw.out;
        final := tw.out;
      case ContextDone(after, deadline) =>
        var cut := if after < |handler| then after else |handler|;
        tw.Run(handler[..cut]);
        if deadline {
          tw.WriteTimeout(write.value);
        }
        atReturn := tw.out;
        tw.Run(handler[cut..]);
        final := tw.out;
        assert handler[..cut] + handler[cut..] == handler;
        PlayConcat(w, handler[..cut], handler[cut..]);
    }
  }

  /** DefaultTimeoutError: WriteError with the timeout error. */
  function DefaultTimeoutError(encodeErr: ErrorBody -> seq<byte>): (calls: seq<Call>)
    ensures calls == WriteErrorCalls(Some(App(Timeout())), encodeErr)
  {
    WriteErrorCalls(Some(App(Timeout())), encodeErr)
  }

  /**
   * When the deadline passes before the handler sent anything, the client
   * gets 504 with the timeout error body.
   */
  lemma DefaultTimeoutReply(w: Response, before: seq<Call>, encodeErr: ErrorBody -> seq<byte>)
    requires w.status == 0 && w.body == [] && w.room.None? && !AnySends(before)
    ensures Play(Play(w, before), DefaultTimeoutError(encodeErr)).status == StatusGatewayTimeout
    ensures Play(Play(w, before), DefaultTimeoutError(encodeErr)).body ==
      encodeErr(ErrorBody(CodeTimeout, MsgTimeout, None))
  {
    TimeoutReply();
    QuietScript(w, before);
    var r0 := Play(w, before);
    var calls := DefaultTimeoutError(encodeErr);
    var r1 := Step(r0, calls[0]);
    var r2 := Step(r1, calls[1]);
    var r3 := Step(r2, calls[2]);
    assert Play(r0, calls) == Play(r1, calls[1..]);
    assert Play(r1, calls[1..]) == Play(r2, calls[2..]);
    assert Play(r2, calls[2..]) == Play(r3, calls[3..]);
    assert calls[3..] == [];
  }
}
