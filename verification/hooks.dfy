/**
 * app/hooks.go: the status recorder the server wraps around every
 * response, and the hook sequencing around one request. A panic of the
 * handler is an outcome of the handler's behaviour, and the clock reading
 * is an input.
 */
module AppHooks {
  import opened Wrappers
  import opened GoStrings
  import opened Http
  import opened Context
  import opened GoErrors
  import opened AppErrors
  import opened HttpWriter
  import opened WriteErrors

  /** The recorder's state as a value: what it forwarded, and what it noted. */
  datatype Recorded = Recorded(out: Response, status: int, err: Option<Err>, wroteHeader: bool, wroteBody: bool)

  /** A recorder over `w` that has seen nothing yet. */
  function Unrecorded(w: Response): Recorded {
    Recorded(w, 0, None, false, false)
  }

  /** Status(): the recorded status, 200 when none was recorded. */
  function StatusOf(s: Recorded): (code: int)
    ensures s.status == 0 ==> code == StatusOK
    ensures s.status != 0 ==> code == s.status
  {
    if s.status == 0 then StatusOK else s.status
  }

  /**
   * One call on the recorder as written: WriteHeader records the status and
   * marks the header written; Write marks the body written and defaults the
   * status to 200; ReadFrom defaults the status but marks nothing; SetErr
   * records the error; every call but SetErr reaches the underlying writer.
   */
  function RecStepAsWritten(s: Recorded, c: Call): (t: Recorded)
    ensures t.out == Step(s.out, c)
    ensures c.ReadFrom? ==> t.wroteBody == s.wroteBody && t.wroteHeader == s.wroteHeader
  {
    match c
    case SetHeader(_, _) => s.(out := Step(s.out, c))
    case WriteHeader(code) => s.(out := Step(s.out, c), status := code, wroteHeader := true)
    case Write(_) => s.(out := Step(s.out, c), status := if s.status == 0 then StatusOK else s.status, wroteBody := true)
    case ReadFrom(_) => s.(out := Step(s.out, c), status := if s.status == 0 then StatusOK else s.status)
    case SetErr(e) => s.(err := e)
  }

  /**
   * One call on the recorder as intended: as written, except that a body
   * streamed with ReadFrom also counts as a written body.
   */
  function RecStep(s: Recorded, c: Call): (t: Recorded)
    ensures t.out == Step(s.out, c)
    ensures c.WriteHeader? ==> t.wroteHeader && t.status == c.code
    ensures c.Write? || c.ReadFrom? ==> t.wroteBody && t.status != 0
    ensures c.SetErr? ==> t.err == c.err
    ensures !c.SetErr? ==> t.err == s.err
    ensures !c.WriteHeader? ==> t.wroteHeader == s.wroteHeader
    ensures !c.Write? && !c.ReadFrom? ==> t.wroteBody == s.wroteBody
    ensures !c.ReadFrom? ==> t == RecStepAsWritten(s, c)
  {
    if c.ReadFrom? then RecStepAsWritten(s, c).(wroteBody := true) else RecStepAsWritten(s, c)
  }

  /** A script of calls on the recorder. */
  function RecPlay(s: Recorded, calls: seq<Call>): (t: Recorded)
    decreases |calls|
  {
    if calls == [] then s else RecPlay(RecStep(s, calls[0]), calls[1..])
  }

  /** The recorder forwards every call but SetErr unchanged: what reaches the client is the plain script. */
  lemma {:induction false} RecPlayForwards(s: Recorded, calls: seq<Call>)
    ensures RecPlay(s, calls).out == Play(s.out, calls)
    decreases |calls|
  {
    if calls != [] {
      RecPlayForwards(RecStep(s, calls[0]), calls[1..]);
    }
  }

  /** A script ending in a call is played one call at a time. */
  lemma {:induction false} RecPlaySnoc(s: Recorded, calls: seq<Call>, c: Call)
    ensures RecPlay(s, calls + [c]) == RecStep(RecPlay(s, calls), c)
    decreases |calls|
  {
    if calls == [] {
      assert calls + [c] == [c];
    } else {
      assert (calls + [c])[0] == calls[0] && (calls + [c])[1..] == calls[1..] + [c];
      RecPlaySnoc(RecStep(s, calls[0]), calls[1..], c);
    }
  }

  /** statusRecorder */
  class StatusRecorder {
    var out: Response
    var status: int
    var err: Option<Err>
    var wroteHeader: bool
    var wroteBody: bool

    /** The recorder's fields as a value. */
    function Snapshot(): Recorded
      reads this
    {
      Recorded(out, status, err, wroteHeader, wroteBody)
    }

    constructor(w: Response)
      ensures Snapshot() == Unrecorded(w)
    {
      out := w;
      status := 0;
      err := None;
      wroteHeader := false;
      wroteBody := false;
    }

    method WriteHeader(code: int)
      modifies this
      ensures Snapshot() == RecStep(old(Snapshot()), Call.WriteHeader(code))
    {
      wroteHeader := true;
      status := code;
      out := HeaderWritten(out, code);
    }

    method Write(p: seq<byte>) returns (n: nat, e: Option<Err>)
      modifies this
      ensures Snapshot() == RecStep(old(Snapshot()), Call.Write(p))
      ensures Written(out, n, e) == BodyWritten(old(out), p)
    {
      wroteBody := true;
      if status == 0 {
        status := StatusOK;
      }
      var w := BodyWritten(out, p);
      out, n, e := w.resp, w.n, w.err;
    }

    /** ReadFrom, marking the body written (see RecStep). */
    method ReadFrom(src: Source) returns (n: nat, e: Option<Err>)
      modifies this
      ensures Snapshot() == RecStep(old(Snapshot()), Call.ReadFrom(src))
      ensures Written(out, n, e) == Copied(old(out), src.chunks, src.end)
    {
      wroteBody := true;
      if status == 0 {
        status := StatusOK;
      }
      var w := Copied(out, src.chunks, src.end);
      out, n, e := w.resp, w.n, w.err;
    }

    method SetErr(e: Option<Err>)
      modifies this
      ensures Snapshot() == RecStep(old(Snapshot()), Call.SetErr(e))
    {
      err := e;
    }

    method SetHeader(name: string, value: string)
      modifies this
      ensures Snapshot() == RecStep(old(Snapshot()), Call.SetHeader(name, value))
    {
      out := HeaderSet(out, name, value);
    }

    /** Status() */
    function Status(): (code: int)
      reads this
      ensures code == StatusOf(Snapshot())
    {
      if status == 0 then StatusOK else status
    }

    /** One call of the handler on the recorder. */
    method Do(c: Call)
      modifies this
      ensures Snapshot() == RecStep(old(Snapshot()), c)
    {
      match c {
        case SetHeader(k, v) => SetHeader(k, v);
        case WriteHeader(code) => WriteHeader(code);
        case Write(p) => var _, _ := Write(p);
        case ReadFrom(src) => var _, _ := ReadFrom(src);
        case SetErr(e) => SetErr(e);
      }
    }

    /** The handler's calls on the recorder, one after the other. */
    method Run(calls: seq<Call>)
      modifies this
      ensures Snapshot() == RecPlay(old(Snapshot()), calls)
    {
      var i := 0;
      while i < |calls|
        invariant 0 <= i <= |calls|
        invariant Snapshot() == RecPlay(old(Snapshot()), calls[..i])
      {
        Do(calls[i]);
        assert calls[..i + 1] == calls[..i] + [calls[i]];
        RecPlaySnoc(old(Snapshot()), calls[..i], calls[i]);
        i := i + 1;
      }
      assert calls[..i] == calls;
    }

    /** The deferred block after a panic: record the error, and write the reply unless the handler wrote anything. */
    method Recover(encodeErr: ErrorBody -> seq<byte>)
      modifies this
      ensures Snapshot() == AfterPanic(old(Snapshot()), encodeErr)
    {
      var hookErr := PanicErr();
      SetErr(Some(hookErr));
      if !wroteHeader && !wroteBody {
        Run(WriteErrorCalls(Some(hookErr), encodeErr));
      }
    }
  }

  /** RequestInfo */
  datatype RequestInfo = RequestInfo(verb: string, path: string)

  /**
   * The hooks of one server: the context OnRequestStart returns for this
   * request (None: no such hook), and whether OnRequestEnd and OnPanic are set.
   */
  datatype Hooks = Hooks(onStart: Option<Ctx>, onEnd: bool, onPanic: bool)

  predicate NoHooks(h: Hooks) {
    h.onStart.None? && !h.onEnd && !h.onPanic
  }

  /** The hook calls a request produces, in order. */
  datatype Event =
    | PanicHook(ctx: Ctx, info: RequestInfo)
    | EndHook(ctx: Ctx, info: RequestInfo, status: int, elapsed: int, err: Option<Err>)

  /** What the handler does: its calls on the writer, then whether it panics. */
  datatype Behaviour = Behaviour(calls: seq<Call>, panics: bool)

  /** The error wrapHooks records for a panic: a 500 internal_error. */
  function PanicErr(): (e: Err)
    ensures e == App(E(StatusInternalServerError, CodeInternal, MsgInternal))
  {
    App(E(StatusInternalServerError, CodeInternal, MsgInternal))
  }

  /**
   * The recorder's state once the deferred block has dealt with a panic:
   * the error is set, and the error reply is written through the recorder
   * only when the handler wrote neither a header nor a body.
   */
  function AfterPanic(s: Recorded, encodeErr: ErrorBody -> seq<byte>): (t: Recorded)
    ensures t.err == Some(PanicErr())
    ensures s.wroteHeader || s.wroteBody ==> t == s.(err := Some(PanicErr()))
    ensures !s.wroteHeader && !s.wroteBody ==>
      t == RecPlay(s.(err := Some(PanicErr())), WriteErrorCalls(Some(PanicErr()), encodeErr))
  {
    var marked := RecStep(s, Call.SetErr(Some(PanicErr())));
    if !s.wroteHeader && !s.wroteBody then
      var t := RecPlay(marked, WriteErrorCalls(Some(PanicErr()), encodeErr));
      ReplyKeepsErr(marked, WriteErrorCalls(Some(PanicErr()), encodeErr));
      t
    else marked
  }

  /** The error reply's calls never touch the recorded error. */
  lemma {:induction false} ReplyKeepsErr(s: Recorded, calls: seq<Call>)
    requires forall i :: 0 <= i < |calls| ==> !calls[i].SetErr?
    ensures RecPlay(s, calls).err == s.err
    decreases |calls|
  {
    if calls != [] {
      ReplyKeepsErr(RecStep(s, calls[0]), calls[1..]);
    }
  }

  /**
   * wrapHooks(h, hooks) serving one request. With no hook at all the
   * handler runs on the bare writer and a panic goes on up. Otherwise the
   * handler sees the context OnRequestStart returned; a panic is recovered,
   * OnPanic fires, and OnRequestEnd, when set, fires once with the status
   * and with the panic's error or else the one the handler set.
   */
  method ServeWithHooks(hooks: Hooks, ctx: Ctx, info: RequestInfo, b: Behaviour, elapsed: int,
                        encodeErr: ErrorBody -> seq<byte>, w: Response)
    returns (out: Response, events: seq<Event>, seen: Ctx, propagated: bool)
    ensures NoHooks(hooks) ==> out == Play(w, b.calls) && events == [] && seen == ctx && propagated == b.panics
    ensures !NoHooks(hooks) ==> seen == hooks.onStart.GetOr(ctx) && !propagated
    ensures !NoHooks(hooks) ==>
      var handled := RecPlay(Unrecorded(w), b.calls);
      var final := if b.panics then AfterPanic(handled, encodeErr) else handled;
      && out == final.out
      && events ==
         (if b.panics && hooks.onPanic then [PanicHook(seen, info)] else [])
         + (if hooks.onEnd then [EndHook(seen, info, StatusOf(final), elapsed, final.err)] else [])
  {
    if NoHooks(hooks) {
      return Play(w, b.calls), [], ctx, b.panics;
    }
    seen := ctx;
    if hooks.onStart.Some? {
      seen := hooks.onStart.value;
    }
    var rec := new StatusRecorder(w);
    rec.Run(b.calls);
    events := [];
    propagated := false;
    if b.panics {
      if hooks.onPanic {
        events := events + [PanicHook(seen, info)];
      }
      rec.Recover(encodeErr);
    }
    if hooks.onEnd {
      events := events + [EndHook(seen, info, rec.Status(), elapsed, rec.err)];
    }
    out := rec.out;
  }

  /** OnRequestEnd fires exactly once when it is set, and never otherwise. */
  lemma EndHookOnce(events: seq<Event>, panicked: bool, onPanic: bool, onEnd: bool, end: Event)
    requires end.EndHook?
    requires events == (if panicked && onPanic then [PanicHook(end.ctx, end.info)] else []) + (if onEnd then [end] else [])
    ensures |set i | 0 <= i < |events| && events[i].EndHook?| == (if onEnd then 1 else 0)
    ensures onEnd ==> events[|events| - 1] == end
  {
    var ends := set i | 0 <= i < |events| && events[i].EndHook?;
    if onEnd {
      assert ends == {|events| - 1};
    } else {
      assert ends == {};
    }
  }

  /**
   * A panic before anything was written: the client gets the 500 error
   * reply and OnRequestEnd sees status 500 and the panic's error.
   */
  lemma PanicBeforeWriting(w: Response, calls: seq<Call>, encodeErr: ErrorBody -> seq<byte>)
    requires w.status == 0 && w.room.None?
    requires !AnySends(calls)
    ensures var handled := RecPlay(Unrecorded(w), calls);
      && !handled.wroteHeader && !handled.wroteBody
      && StatusOf(AfterPanic(handled, encodeErr)) == StatusInternalServerError
      && AfterPanic(handled, encodeErr).out.status == StatusInternalServerError
      && AfterPanic(handled, encodeErr).err == Some(PanicErr())
  {
    var handled := RecPlay(Unrecorded(w), calls);
    QuietRecording(Unrecorded(w), calls);
    RecPlayForwards(Unrecorded(w), calls);
    QuietScript(w, calls);
    var marked := handled.(err := Some(PanicErr()));
    var reply := WriteErrorCalls(Some(PanicErr()), encodeErr);
    assert reply[1] == Call.WriteHeader(StatusInternalServerError);
    var r1 := RecStep(marked, reply[0]);
    var r2 := RecStep(r1, reply[1]);
    var r3 := RecStep(r2, reply[2]);
    assert RecPlay(marked, reply) == RecPlay(r1, reply[1..]);
    assert RecPlay(r1, reply[1..]) == RecPlay(r2, reply[2..]);
    assert RecPlay(r2, reply[2..]) == RecPlay(r3, reply[3..]);
    assert reply[3..] == [];
  }

  /** A script that sends nothing marks nothing written and records no status. */
  lemma {:induction false} QuietRecording(s: Recorded, calls: seq<Call>)
    requires !AnySends(calls)
    ensures RecPlay(s, calls).wroteHeader == s.wroteHeader
    ensures RecPlay(s, calls).wroteBody == s.wroteBody
    ensures RecPlay(s, calls).status == s.status
    decreases |calls|
  {
    if calls != [] {
      var init := calls[..|calls| - 1];
      assert calls == init + [calls[|calls| - 1]];
      QuietRecording(s, init);
      RecPlaySnoc(s, init, calls[|calls| - 1]);
    }
  }

  /**
   * An error the handler set reaches OnRequestEnd when there is no panic,
   * and a panic's error replaces it.
   */
  lemma ErrorPrecedence(w: Response, calls: seq<Call>, e: Err, encodeErr: ErrorBody -> seq<byte>)
    requires |calls| > 0 && calls[|calls| - 1] == Call.SetErr(Some(e))
    ensures RecPlay(Unrecorded(w), calls).err == Some(e)
    ensures AfterPanic(RecPlay(Unrecorded(w), calls), encodeErr).err == Some(PanicErr())
  {
    var init := calls[..|calls| - 1];
    assert calls == init + [calls[|calls| - 1]];
    RecPlaySnoc(Unrecorded(w), init, calls[|calls| - 1]);
  }

  /** Any call that sends something marks the header or the body written, and later calls keep the mark. */
  lemma {:induction false} SendingMarks(s: Recorded, calls: seq<Call>)
    requires AnySends(calls)
    ensures RecPlay(s, calls).wroteHeader || RecPlay(s, calls).wroteBody
    decreases |calls|
  {
    var init := calls[..|calls| - 1];
    var last := calls[|calls| - 1];
    assert calls == init + [last];
    RecPlaySnoc(s, init, last);
    if !Sends(last) {
      SendingMarks(s, init);
    }
  }

  /** With the intended recorder, a panic after the handler sent anything adds nothing to the response. */
  lemma NoReplyAfterSending(w: Response, calls: seq<Call>, encodeErr: ErrorBody -> seq<byte>)
    requires AnySends(calls)
    ensures AfterPanic(RecPlay(Unrecorded(w), calls), encodeErr).out == RecPlay(Unrecorded(w), calls).out
  {
    SendingMarks(Unrecorded(w), calls);
  }

  /**
   * As written, a handler that streams a body with ReadFrom (io.Copy onto the
   * recorder) and then panics gets the error reply appended to the streamed
   * body, and OnRequestEnd sees 500 while the client received 200.
   */
  lemma StreamThenPanicAsWritten(data: seq<byte>, encodeErr: ErrorBody -> seq<byte>)
    requires |data| > 0
    ensures var s := RecStepAsWritten(Unrecorded(Blank(None)), Call.ReadFrom(Source([data], Sentinel(EOF))));
      && s.out.status == StatusOK && s.out.body == data
      && !s.wroteHeader && !s.wroteBody
      && AfterPanic(s, encodeErr).out.status == StatusOK
      && AfterPanic(s, encodeErr).out.body == data + encodeErr(InternalReply.body)
      && StatusOf(AfterPanic(s, encodeErr)) == StatusInternalServerError
  {
    var src := Source([data], Sentinel(EOF));
    var s := RecStepAsWritten(Unrecorded(Blank(None)), Call.ReadFrom(src));
    var first := BodyWritten(Blank(None), data);
    assert src.chunks[0] == data && src.chunks[1..] == [];
    assert Copied(first.resp, src.chunks[1..], src.end) == Written(first.resp, 0, None);
    assert Copied(Blank(None), src.chunks, src.end).resp == first.resp;
    assert s.out == first.resp;
    var marked := s.(err := Some(PanicErr()));
    var reply := WriteErrorCalls(Some(PanicErr()), encodeErr);
    assert ReplyFor(Some(PanicErr())) == Some(InternalReply);
    var r1 := RecStep(marked, reply[0]);
    var r2 := RecStep(r1, reply[1]);
    var r3 := RecStep(r2, reply[2]);
    assert RecPlay(marked, reply) == RecPlay(r1, reply[1..]);
    assert RecPlay(r1, reply[1..]) == RecPlay(r2, reply[2..]);
    assert RecPlay(r2, reply[2..]) == RecPlay(r3, reply[3..]);
    assert reply[3..] == [];
  }
}
