/**
 * httpkit/adapt.go and httpkit/results.go: turning a business handler's
 * (result, error) pair into calls on the ResponseWriter. The business
 * handler itself is an input (the pair it returns), and JSON encoding is
 * a given function from values to bytes.
 */
module Adapting {
  import opened Wrappers
  import opened GoStrings
  import opened Http
  import opened GoErrors
  import opened AppErrors
  import opened HttpWriter
  import opened WriteErrors

  /** httpkit.ErrNilHandler */
  const ErrNilHandler: Err := Text("httpkit: nil handler")

  /** A value a business handler returns: the two result types of the package, or any other value (nil included). */
  datatype Value =
    | Nil
    | Data(id: nat)
    | CreatedResult(payload: Value)
    | NoContentResult

  /** Created(p) */
  function Created(p: Value): (v: Value)
    ensures ResultStatus(v) == Some(StatusCreated) && ResultPayload(v) == p
  {
    CreatedResult(p)
  }

  /** NoContent() */
  function NoContent(): (v: Value)
    ensures ResultStatus(v) == Some(StatusNoContent) && ResultPayload(v) == Nil
  {
    NoContentResult
  }

  /** status() of a value that implements the result interface; None for any other value. */
  function ResultStatus(v: Value): Option<int> {
    match v
    case CreatedResult(_) => Some(StatusCreated)
    case NoContentResult => Some(StatusNoContent)
    case _ => None
  }

  /** payload() of a result value; any other value is its own payload. */
  function ResultPayload(v: Value): Value {
    match v
    case CreatedResult(p) => p
    case NoContentResult => Nil
    case _ => v
  }

  /** What the business handler returned. */
  datatype Returned = Returned(res: Value, err: Option<Err>)

  /** jsonkit.WriteJSON(w, status, v): Content-Type, the status, then the encoded value. */
  function JsonCalls(status: int, v: Value, encode: Value -> seq<byte>): seq<Call> {
    [SetHeader(HeaderContentType, ContentTypeJSON), WriteHeader(status), Write(encode(v))]
  }

  /**
   * The adapted handler: an error is offered to SetErr and written by
   * WriteError, and nothing else happens; a 204 result sends only its status;
   * any other result is sent as JSON with its status; any other value as
   * JSON with 200.
   */
  function Serve(ret: Returned, encode: Value -> seq<byte>, encodeErr: ErrorBody -> seq<byte>): (calls: seq<Call>)
    reads SourceRefs(ret.err)
    ensures ret.err.Some? ==> calls == [SetErr(ret.err)] + WriteErrorCalls(ret.err, encodeErr)
    ensures ret.err.None? && ResultStatus(ret.res) == Some(StatusNoContent) ==> calls == [WriteHeader(StatusNoContent)]
    ensures ret.err.None? && ret.res.CreatedResult? ==> calls == JsonCalls(StatusCreated, ret.res.payload, encode)
    ensures ret.err.None? && ResultStatus(ret.res).None? ==> calls == JsonCalls(StatusOK, ret.res, encode)
  {
    if ret.err.Some? then
      [SetErr(ret.err)] + WriteErrorCalls(ret.err, encodeErr)
    else match ResultStatus(ret.res)
      case Some(status) =>
        if status == StatusNoContent then [WriteHeader(status)]
        else JsonCalls(status, ResultPayload(ret.res), encode)
      case None => JsonCalls(StatusOK, ret.res, encode)
  }

  /** A 204 result leaves a fresh response with status 204, no body and no Content-Type. */
  lemma NoContentSendsNothingElse(encode: Value -> seq<byte>, encodeErr: ErrorBody -> seq<byte>)
    ensures Play(Blank(None), Serve(Returned(NoContent(), None), encode, encodeErr)) ==
      Blank(None).(status := StatusNoContent)
  {
    var calls := Serve(Returned(NoContent(), None), encode, encodeErr);
    assert Play(Blank(None), calls) == Play(Step(Blank(None), calls[0]), calls[1..]);
  }

  /** Whatever the result value, an error decides the reply. */
  lemma ErrorWins(res: Value, other: Value, err: Err, encode: Value -> seq<byte>, encodeErr: ErrorBody -> seq<byte>)
    ensures Serve(Returned(res, Some(err)), encode, encodeErr) == Serve(Returned(other, Some(err)), encode, encodeErr)
  {
  }

  /** TryAdapt: a nil business handler is refused with ErrNilHandler. */
  function TryAdapt(fn: Option<nat>): (r: (Option<Handler>, Option<Err>))
    ensures fn.None? ==> r == (None, Some(ErrNilHandler))
    ensures fn.Some? ==> r == (Some(Adapted(fn.value)), None)
  {
    if fn.None? then (None, Some(ErrNilHandler)) else (Some(Adapted(fn.value)), None)
  }

  /** Adapt: TryAdapt, but a refusal panics with the error. */
  function Adapt(fn: Option<nat>): (r: Outcome<Handler>)
    ensures r.Panics? <==> TryAdapt(fn).1.Some?
    ensures r.Panics? ==> r.cause == ErrNilHandler
    ensures r.Returns? ==> Some(r.value) == TryAdapt(fn).0
  {
    var (h, err) := TryAdapt(fn);
    if err.Some? then Panics(err.value) else Returns(h.value)
  }
}
