/**
 * errors/write.go: the one JSON error reply every part of the toolkit uses.
 * The reply is decided by updating a status and a body step by step; the
 * JSON encoding of the body is an input to the model.
 */
module WriteErrors {
  import opened Wrappers
  import opened GoStrings
  import opened Http
  import opened GoErrors
  import opened AppErrors
  import opened HttpWriter

  /** errorBody; `fields` is None when it is left out of the JSON. */
  datatype ErrorBody = ErrorBody(code: string, message: string, fields: Option<map<string, string>>)

  /** The status and body WriteError sends. */
  datatype ErrorReply = ErrorReply(status: int, body: ErrorBody)

  /** The reply for an error that is not an AppError: 500 with the internal code and message. */
  const InternalReply := ErrorReply(StatusInternalServerError, ErrorBody(CodeInternal, MsgInternal, None))

  /**
   * What WriteError sends for `err`: nothing for nil; the internal reply
   * unless the error tree holds a non-nil AppError; otherwise the AppError's
   * status, code and message, each falling back to the internal default
   * when unset, and its fields only when there is at least one.
   */
  function ReplyFor(err: Option<Err>): (r: Option<ErrorReply>)
    reads SourceRefs(err)
    ensures err.None? <==> r.None?
    ensures err.Some? && AppOf(err.value).None? ==> r == Some(InternalReply)
    ensures r.Some? ==> r.value.status != 0 && r.value.body.code != "" && r.value.body.message != ""
    ensures r.Some? ==> (r.value.body.fields.Some? <==> |Entries(AsAppError(err.value))| > 0)
    ensures r.Some? && r.value.body.fields.Some? ==> r.value.body.fields.value == Entries(AsAppError(err.value))
  {
    if err.None? then None
    else match AppOf(err.value)
      case None => Some(InternalReply)
      case Some(a) =>
        var entries := Entries(a);
        Some(ErrorReply(
          if a.status != 0 then a.status else StatusInternalServerError,
          ErrorBody(
            if a.code != "" then a.code else CodeInternal,
            if a.message != "" then a.message else MsgInternal,
            if |entries| > 0 then Some(entries) else None)))
  }

  /** The cause never reaches the client: errors differing only in their cause get the same reply. */
  lemma CauseNotShown(a: AppError, cause: Option<Err>)
    ensures ReplyFor(Some(App(a))) == ReplyFor(Some(App(a.(cause := cause))))
  {
  }

  /** A set status, code and message are sent as they are. */
  lemma SetFieldsKept(a: AppError)
    requires a.status != 0 && a.code != "" && a.message != ""
    ensures ReplyFor(Some(App(a))).value.status == a.status
    ensures ReplyFor(Some(App(a))).value.body.code == a.code
    ensures ReplyFor(Some(App(a))).value.body.message == a.message
  {
  }

  /** Wrapping an AppError with %w does not change the reply. */
  lemma WrappedSameReply(msg: string, inner: Err)
    requires AppOf(inner).Some?
    ensures ReplyFor(Some(Err.Wrapped(msg, inner))) == ReplyFor(Some(inner))
  {
    AsAppErrorThroughWrap(msg, inner);
  }

  /** The reply for the timeout error is 504 "timeout" / "request timed out". */
  lemma TimeoutReply()
    ensures ReplyFor(Some(App(Timeout()))) ==
      Some(ErrorReply(StatusGatewayTimeout, ErrorBody(CodeTimeout, MsgTimeout, None)))
  {
  }

  /** A copy of a map, entry by entry. */
  method CopyMap(src: map<string, string>) returns (copy: map<string, string>)
    ensures copy == src
  {
    copy := map[];
    var todo := src.Keys;
    while todo != {}
      invariant todo <= src.Keys
      invariant copy == src - todo
      decreases |todo|
    {
      var k :| k in todo;
      assert src - (todo - {k}) == (src - todo)[k := src[k]];
      copy := copy[k := src[k]];
      todo := todo - {k};
    }
    assert src - {} == src;
  }

  /** WriteError's decision: the status and body, built up from the internal defaults. */
  method DecideReply(err: Option<Err>) returns (r: Option<ErrorReply>)
    ensures r == ReplyFor(err)
  {
    if err.None? {
      return None;
    }
    var status := StatusInternalServerError;
    var body := ErrorBody(CodeInternal, MsgInternal, None);
    var app := AppOf(err.value);
    if app.Some? {
      var a := app.value;
      if a.status != 0 {
        status := a.status;
      }
      if a.code != "" {
        body := body.(code := a.code);
      }
      if a.message != "" {
        body := body.(message := a.message);
      }
      if |Entries(a)| > 0 {
        var copy := CopyMap(Entries(a));
        body := body.(fields := Some(copy));
      }
    }
    r := Some(ErrorReply(status, body));
  }

  /** The calls WriteError makes for a reply: Content-Type, the status, then the encoded body. */
  function ReplyCalls(reply: Option<ErrorReply>, encode: ErrorBody -> seq<byte>): (calls: seq<Call>)
    ensures reply.None? ==> calls == []
    ensures reply.Some? ==> |calls| == 3 && calls[1] == WriteHeader(reply.value.status)
  {
    if reply.None? then []
    else [SetHeader(HeaderContentType, ContentTypeJSON), WriteHeader(reply.value.status), Write(encode(reply.value.body))]
  }

  /** On a fresh response the error reply arrives whole: its status, its JSON type and its encoded body. */
  lemma ReplyOnBlank(reply: ErrorReply, encode: ErrorBody -> seq<byte>)
    requires reply.status != 0
    ensures Play(Blank(None), ReplyCalls(Some(reply), encode)).status == reply.status
    ensures Play(Blank(None), ReplyCalls(Some(reply), encode)).body == encode(reply.body)
    ensures Play(Blank(None), ReplyCalls(Some(reply), encode)).header == map[HeaderContentType := ContentTypeJSON]
  {
    var calls := ReplyCalls(Some(reply), encode);
    var r1 := Step(Blank(None), calls[0]);
    var r2 := Step(r1, calls[1]);
    var r3 := Step(r2, calls[2]);
    assert Play(Blank(None), calls) == Play(r1, calls[1..]);
    assert Play(r1, calls[1..]) == Play(r2, calls[2..]);
    assert Play(r2, calls[2..]) == Play(r3, calls[3..]);
    assert calls[3..] == [];
  }

  /** WriteError(w, r, err): the calls it makes on w; a nil error makes none. */
  function WriteErrorCalls(err: Option<Err>, encode: ErrorBody -> seq<byte>): (calls: seq<Call>)
    reads SourceRefs(err)
    ensures err.None? <==> calls == []
    ensures err.Some? ==> |calls| == 3 && calls[1] == WriteHeader(ReplyFor(err).value.status)
  {
    ReplyCalls(ReplyFor(err), encode)
  }
}
