/**
 * clientkit/client.go: the JSON HTTP client's decisions. The network round
 * trip, the JSON encoding of the request and the decoding of the response
 * are inputs; what the client sends, which limits it reads the response
 * body with, and which error it returns are modelled. Limits are Go int64
 * values, and `limit + 1` wraps as int64 arithmetic does.
 */
module ClientKit {
  import opened Wrappers
  import opened GoStrings
  import opened GoErrors
  import opened HttpWriter
  import JsonDecoding
  import ObsWrap
  import Http

  /** defaultMaxBody: 1 MB. */
  const DefaultMaxBody := 1_048_576
  /** defaultMaxErrBody: 8 KB. */
  const DefaultMaxErrBody := 8_192

  const ErrNilClient: Err := Text("clientkit: nil client")
  const ErrNilContext: Err := Text("clientkit: nil context")
  const ErrNilRequest: Err := Text("clientkit: nil request")
  const ErrInvalidBodyLimit: Err := Text("clientkit: invalid body limit")
  const ErrResponseTooLarge: Err := Text("clientkit: response body too large")
  const ErrExtraData: Err := Text("clientkit: invalid json (extra data)")

  /** JSONOptions */
  datatype JSONOptions = JSONOptions(
    headers: map<string, string>, maxBody: int, maxErrBody: int, disallowUnknownFields: bool)

  /** Options */
  datatype Options = Options(headers: map<string, string>, maxErrBody: int)

  /**
   * normalizeJSONOptions: nil gives no headers and the default limits; a
   * given value keeps its headers and flag, and each non-positive limit
   * falls back to its default.
   */
  function NormalizeJSONOptions(opt: Option<JSONOptions>): (r: JSONOptions)
    ensures opt.None? ==> r == JSONOptions(map[], DefaultMaxBody, DefaultMaxErrBody, false)
    ensures opt.Some? ==> r.headers == opt.value.headers && r.disallowUnknownFields == opt.value.disallowUnknownFields
    ensures opt.Some? && opt.value.maxBody > 0 ==> r.maxBody == opt.value.maxBody
    ensures opt.Some? && opt.value.maxBody <= 0 ==> r.maxBody == DefaultMaxBody
    ensures opt.Some? && opt.value.maxErrBody > 0 ==> r.maxErrBody == opt.value.maxErrBody
    ensures opt.Some? && opt.value.maxErrBody <= 0 ==> r.maxErrBody == DefaultMaxErrBody
  {
    if opt.None? then JSONOptions(map[], DefaultMaxBody, DefaultMaxErrBody, false)
    else
      var out := opt.value;
      var out := if out.maxBody <= 0 then out.(maxBody := DefaultMaxBody) else out;
      if out.maxErrBody <= 0 then out.(maxErrBody := DefaultMaxErrBody) else out
  }

  /** Normalized JSON options have positive limits, and normalizing them again changes nothing. */
  lemma NormalizeJSONOptionsSettled(opt: Option<JSONOptions>)
    ensures NormalizeJSONOptions(opt).maxBody > 0 && NormalizeJSONOptions(opt).maxErrBody > 0
    ensures NormalizeJSONOptions(Some(NormalizeJSONOptions(opt))) == NormalizeJSONOptions(opt)
  {
  }

  /** normalizeOptions: nil or a non-positive MaxErrBody gives 8 KB; the headers are kept. */
  function NormalizeOptions(opt: Option<Options>): (r: Options)
    ensures opt.None? ==> r == Options(map[], DefaultMaxErrBody)
    ensures opt.Some? ==> r.headers == opt.value.headers
    ensures opt.Some? && opt.value.maxErrBody > 0 ==> r.maxErrBody == opt.value.maxErrBody
    ensures opt.Some? && opt.value.maxErrBody <= 0 ==> r.maxErrBody == DefaultMaxErrBody
  {
    if opt.None? then Options(map[], DefaultMaxErrBody)
    else if opt.value.maxErrBody <= 0 then opt.value.(maxErrBody := DefaultMaxErrBody)
    else opt.value
  }

  /** Normalized options have a positive limit, and normalizing them again changes nothing. */
  lemma NormalizeOptionsSettled(opt: Option<Options>)
    ensures NormalizeOptions(opt).maxErrBody > 0
    ensures NormalizeOptions(Some(NormalizeOptions(opt))) == NormalizeOptions(opt)
  {
  }

  /** What io.ReadAll returns: the bytes read, and the error unless it was io.EOF. */
  datatype Read = Read(data: seq<byte>, err: Option<Err>)

  /**
   * io.ReadAll(io.LimitReader(src, n)): nothing when n <= 0; the first n
   * bytes when the body has that many, whatever error follows them;
   * otherwise the whole body and the body's closing error unless it is EOF.
   */
  function ReadAllLimited(src: Source, n: int): (r: Read)
    ensures n <= 0 ==> r == Read([], None)
    ensures n > 0 ==> r.data == Flatten(src.chunks)[..Min(n, |Flatten(src.chunks)|)]
    ensures n > 0 ==> (r.err.None? <==> n <= |Flatten(src.chunks)| || src.end == Sentinel(EOF))
    ensures r.err.Some? ==> r.err == Some(src.end)
  {
    var all := Flatten(src.chunks);
    if n <= 0 then Read([], None)
    else if n <= |all| then Read(all[..n], None)
    else Read(all, if src.end == Sentinel(EOF) then None else Some(src.end))
  }

  function Min(a: int, b: int): int {
    if a < b then a else b
  }

  /** A Go int64 value. */
  predicate IsInt64(n: int) {
    ObsWrap.MinInt64 <= n <= ObsWrap.MaxInt64
  }

  /** The result of readBodyLimit: the body, or an error and no body. */
  function BodyOrError(buf: Read, limit: int): (r: Read)
    ensures buf.err.Some? ==> r == Read([], buf.err)
    ensures buf.err.None? && |buf.data| > limit ==> r == Read([], Some(ErrResponseTooLarge))
    ensures buf.err.None? && |buf.data| <= limit ==> r == buf
  {
    if buf.err.Some? then Read([], buf.err)
    else if |buf.data| > limit then Read([], Some(ErrResponseTooLarge))
    else buf
  }

  /**
   * readBodyLimit as written: a non-positive limit is an error; otherwise
   * it reads int64(limit + 1) bytes at most and refuses more than `limit`.
   * For limit = MaxInt64 the sum wraps to a negative count and nothing is
   * read.
   */
  function ReadBodyLimitAsWritten(src: Source, limit: int): (r: Read)
    requires IsInt64(limit)
  {
    if limit <= 0 then Read([], Some(ErrInvalidBodyLimit))
    else BodyOrError(ReadAllLimited(src, ObsWrap.Wrap64(limit + 1)), limit)
  }

  /** readBodyLimit as intended: it reads limit + 1 bytes at most, without wrapping. */
  function ReadBodyLimit(src: Source, limit: int): (r: Read)
    ensures limit <= 0 ==> r == Read([], Some(ErrInvalidBodyLimit))
    ensures limit > 0 && |Flatten(src.chunks)| > limit ==> r == Read([], Some(ErrResponseTooLarge))
    ensures limit > 0 && |Flatten(src.chunks)| <= limit && src.end == Sentinel(EOF) ==>
      r == Read(Flatten(src.chunks), None)
    ensures limit > 0 && |Flatten(src.chunks)| <= limit && src.end != Sentinel(EOF) ==>
      r == Read([], Some(src.end))
    ensures r.err.None? ==> r.data == Flatten(src.chunks) && |r.data| <= limit
  {
    if limit <= 0 then Read([], Some(ErrInvalidBodyLimit))
    else BodyOrError(ReadAllLimited(src, limit + 1), limit)
  }

  /** Below the largest int64 the code as written reads exactly as intended. */
  lemma ReadBodyLimitAgrees(src: Source, limit: int)
    requires IsInt64(limit) && limit < ObsWrap.MaxInt64
    ensures ReadBodyLimitAsWritten(src, limit) == ReadBodyLimit(src, limit)
  {
  }

  /** With MaxInt64 as the limit, the code as written returns an empty body for a one-byte response. */
  lemma ReadBodyLimitWrapLosesBody()
    ensures ReadBodyLimitAsWritten(Source([[65]], Sentinel(EOF)), ObsWrap.MaxInt64) == Read([], None)
    ensures ReadBodyLimit(Source([[65]], Sentinel(EOF)), ObsWrap.MaxInt64) == Read([65], None)
  {
    assert Flatten([[65]]) == [65] by {
      assert Flatten([[65]]) == [65] + Flatten([]);
    }
    assert ObsWrap.Wrap64(ObsWrap.MaxInt64 + 1) == ObsWrap.MinInt64;
  }

  /** The body of an error response: at most `limit` bytes, nothing when the read fails. */
  function ErrBodyOf(buf: Read, limit: int): (body: seq<byte>)
    ensures buf.err.Some? ==> body == []
    ensures buf.err.None? ==> body == buf.data[..Min(limit, |buf.data|)]
    requires limit >= 0
  {
    if buf.err.Some? then []
    else if |buf.data| > limit then buf.data[..limit]
    else buf.data
  }

  /** readErrBody as written: reading at most int64(limit + 1) bytes, which wraps for MaxInt64. */
  function ReadErrBodyAsWritten(src: Source, limit: int): (body: seq<byte>)
    requires IsInt64(limit)
  {
    if limit <= 0 then []
    else ErrBodyOf(ReadAllLimited(src, ObsWrap.Wrap64(limit + 1)), limit)
  }

  /**
   * readErrBody as intended: nothing for a non-positive limit or a failed
   * read, else the first min(len, limit) bytes of the body.
   */
  function ReadErrBody(src: Source, limit: int): (body: seq<byte>)
    ensures limit <= 0 ==> body == []
    ensures |body| <= Max(limit, 0)
    ensures limit > 0 && (|Flatten(src.chunks)| > limit || src.end == Sentinel(EOF)) ==>
      body == Flatten(src.chunks)[..Min(limit, |Flatten(src.chunks)|)]
    ensures limit > 0 && |Flatten(src.chunks)| <= limit && src.end != Sentinel(EOF) ==> body == []
  {
    if limit <= 0 then []
    else ErrBodyOf(ReadAllLimited(src, limit + 1), limit)
  }

  function Max(a: int, b: int): int {
    if a < b then b else a
  }

  /** Below the largest int64 the code as written truncates exactly as intended. */
  lemma ReadErrBodyAgrees(src: Source, limit: int)
    requires IsInt64(limit) && limit < ObsWrap.MaxInt64
    ensures ReadErrBodyAsWritten(src, limit) == ReadErrBody(src, limit)
  {
  }

  /** With MaxInt64 as the limit, the code as written drops the error body entirely. */
  lemma ReadErrBodyWrapLosesBody()
    ensures ReadErrBodyAsWritten(Source([[65]], Sentinel(EOF)), ObsWrap.MaxInt64) == []
    ensures ReadErrBody(Source([[65]], Sentinel(EOF)), ObsWrap.MaxInt64) == [65]
  {
    assert Flatten([[65]]) == [65] by {
      assert Flatten([[65]]) == [65] + Flatten([]);
    }
    assert ObsWrap.Wrap64(ObsWrap.MaxInt64 + 1) == ObsWrap.MinInt64;
  }

  /** discardBody: nothing for a non-positive limit; else copying up to `limit` bytes, which fails only on a read error. */
  function Discarded(src: Source, limit: int): (err: Option<Err>)
    ensures limit <= 0 ==> err.None?
    ensures err.Some? ==> err == Some(src.end) && src.end != Sentinel(EOF) && |Flatten(src.chunks)| < limit
  {
    if limit <= 0 then None else ReadAllLimited(src, limit).err
  }

  /** Only the 2xx statuses succeed. */
  predicate IsSuccess(status: int) {
    200 <= status <= 299
  }

  /** errors.As(err, &he) with he a *HTTPError: the first HTTPError in the tree. */
  function AsHTTPError(e: Err): (r: Option<Err>)
    ensures e.HTTP? ==> r == Some(e)
    ensures r.Some? ==> r.value.HTTP?
  {
    match e
    case HTTP(_, _, _, _, _) => Some(e)
    case Wrapped(_, inner) => AsHTTPError(inner)
    case Joined(_, errs) => FirstSome(seq(|errs|, i requires 0 <= i < |errs| => AsHTTPError(errs[i])))
    case _ => None
  }

  /** The start of an HTTPError's text. */
  const HTTPErrorPrefix := "clientkit: http error "

  /**
   * HTTPError.Error(): the prefix, the status in decimal, the status text,
   * the method and the URL, separated by spaces, so that the fourth
   * space-separated word gives the status back.
   */
  lemma HTTPErrorStatusWord(status: nat, statusText: string, url: string, verb: string, body: seq<byte>)
    ensures HasPrefix(Message(HTTP(status, statusText, url, verb, body)), HTTPErrorPrefix)
    ensures var words := Split(Message(HTTP(status, statusText, url, verb, body)), ' ');
      |words| > 3 && words[3] == NatToDecimal(status)
    ensures DecimalValue(NatToDecimal(status)) == status
  {
    var digits := NatToDecimal(status);
    var rest := statusText + " " + verb + " " + url;
    var text := Message(HTTP(status, statusText, url, verb, body));
    assert text == HTTPErrorPrefix + digits + [' '] + rest;
    HTTPErrorPrefixWords(digits + [' '] + rest);
    assert ' ' !in digits by {
      forall i | 0 <= i < |digits| ensures digits[i] != ' ' {
        assert IsDigit(digits[i]);
      }
    }
    FourthWord("clientkit:", "http", "error", digits, rest);
    DecimalRoundTrip(status);
  }

  /** The prefix is the three words "clientkit:", "http" and "error", each followed by a space. */
  lemma HTTPErrorPrefixWords(tail: string)
    ensures HTTPErrorPrefix + tail == "clientkit:" + [' '] + "http" + [' '] + "error" + [' '] + tail
    ensures HasPrefix(HTTPErrorPrefix + tail, HTTPErrorPrefix)
  {
    assert HTTPErrorPrefix == "clientkit:" + [' '] + "http" + [' '] + "error" + [' '];
    assert (HTTPErrorPrefix + tail)[..|HTTPErrorPrefix|] == HTTPErrorPrefix;
  }

  /** In four space-free words followed by anything, the fourth space-separated piece is the fourth word. */
  lemma FourthWord(a: string, b: string, c: string, d: string, rest: string)
    requires ' ' !in a && ' ' !in b && ' ' !in c && ' ' !in d
    ensures var words := Split(a + [' '] + b + [' '] + c + [' '] + d + [' '] + rest, ' ');
      |words| > 3 && words[3] == d
  {
    var t3 := d + [' '] + rest;
    var t2 := c + [' '] + t3;
    var t1 := b + [' '] + t2;
    assert a + [' '] + b + [' '] + c + [' '] + d + [' '] + rest == a + [' '] + t1;
    SplitAround(d, rest, ' ');
    SplitAround(c, t3, ' ');
    SplitAround(b, t2, ' ');
    SplitAround(a, t1, ' ');
  }

  /** ensureJSONEOF: only io.EOF after the first value is accepted; another value is extra data. */
  function EnsureJSONEOF(next: Option<Err>): (err: Option<Err>)
    ensures err.None? <==> next == Some(Sentinel(EOF))
    ensures next.None? ==> err == Some(ErrExtraData)
    ensures next.Some? && next.value != Sentinel(EOF) ==> err == next
  {
    if next == Some(Sentinel(EOF)) then None
    else if next.Some? then next
    else Some(ErrExtraData)
  }

  /** The request body DoJSON would send: none (a nil req), the encoded JSON, or an encoding failure. */
  datatype Payload = NoPayload | Encoded(bytes: seq<byte>) | EncodeFailed(err: Err)

  /** What the server answered: the status, its text, the headers and the body. */
  datatype Reply = Reply(status: int, statusText: string, header: map<string, string>, body: Source)

  /** What c.Do returned: an error, or a reply. */
  datatype Transport = Failed(err: Err) | Answered(reply: Reply)

  /** ResponseMeta: the zero value until a reply arrives. */
  datatype ResponseMeta = ResponseMeta(status: int, header: map<string, string>)

  const NoMeta := ResponseMeta(0, map[])

  /** The headers a request was sent with, if it was sent; the meta, the body returned, and the error. */
  datatype Exchange = Exchange(sent: Option<map<string, string>>, meta: ResponseMeta, body: seq<byte>, err: Option<Err>)

  /** The headers of a DoJSON request: JSON Content-Type when there is a body, then each option header. */
  function JSONRequestHeaders(hasBody: bool, headers: map<string, string>): (h: map<string, string>)
    ensures forall k :: k in headers ==> k in h && h[k] == headers[k]
    ensures hasBody && "Content-Type" !in headers ==> "Content-Type" in h && h["Content-Type"] == "application/json"
    ensures forall k :: k in h ==> k in headers || (hasBody && k == "Content-Type")
  {
    (if hasBody then map["Content-Type" := "application/json"] else map[]) + headers
  }

  /** The error for a non-2xx reply, with the body read under the error-body limit. */
  function HTTPErrorFor(reply: Reply, url: string, verb: string, maxErrBody: int): (e: Err)
    ensures e.HTTP? && e.status == reply.status && e.statusText == reply.statusText
    ensures e.url == url && e.verb == verb && e.body == ReadErrBody(reply.body, maxErrBody)
  {
    HTTP(reply.status, reply.statusText, url, verb, ReadErrBody(reply.body, maxErrBody))
  }

  /** The method http.NewRequestWithContext gives the request: GET for an empty one. */
  function RequestMethod(verb: string): (m: string)
    ensures m != ""
    ensures verb != "" ==> m == verb
  {
    if verb == "" then Http.MethodGet else verb
  }

  /**
   * DoJSON: a nil client or context is refused before anything is sent;
   * an encoding or request-building failure is returned; otherwise the
   * request is sent, a non-2xx reply becomes an HTTPError with a truncated
   * body that names the request's method (GET for an empty one), a 2xx
   * reply is discarded when there is no `out`, and otherwise
   * read under MaxBody, decoded, and required to end after one value.
   */
  function DoJSON(
    hasClient: bool, hasContext: bool, verb: string, url: string, payload: Payload,
    buildErr: Option<Err>, opt: Option<JSONOptions>, transport: Transport, hasOut: bool,
    decode: (seq<byte>, bool) -> JsonDecoding.Decoded): (x: Exchange)
    ensures !hasClient ==> x == Exchange(None, NoMeta, [], Some(ErrNilClient))
    ensures hasClient && !hasContext ==> x == Exchange(None, NoMeta, [], Some(ErrNilContext))
    ensures payload.EncodeFailed? || buildErr.Some? ==> x.sent.None? && x.err.Some?
    ensures x.sent.Some? ==> x.sent.value == JSONRequestHeaders(payload.Encoded?, NormalizeJSONOptions(opt).headers)
    ensures x.sent.Some? && transport.Answered? ==>
      x.meta == ResponseMeta(transport.reply.status, transport.reply.header)
    ensures x.sent.Some? && transport.Answered? && !IsSuccess(transport.reply.status) ==>
      x.err == Some(HTTPErrorFor(transport.reply, url, if verb == "" then Http.MethodGet else verb, NormalizeJSONOptions(opt).maxErrBody))
    ensures x.err.None? ==> x.sent.Some? && transport.Answered? && IsSuccess(transport.reply.status)
  {
    if !hasClient then Exchange(None, NoMeta, [], Some(ErrNilClient))
    else if !hasContext then Exchange(None, NoMeta, [], Some(ErrNilContext))
    else
      var opts := NormalizeJSONOptions(opt);
      if payload.EncodeFailed? then Exchange(None, NoMeta, [], Some(payload.err))
      else if buildErr.Some? then Exchange(None, NoMeta, [], buildErr)
      else
        var sent := Some(JSONRequestHeaders(payload.Encoded?, opts.headers));
        match transport
        case Failed(err) => Exchange(sent, NoMeta, [], Some(err))
        case Answered(reply) =>
          var meta := ResponseMeta(reply.status, reply.header);
          if !IsSuccess(reply.status) then Exchange(sent, meta, [], Some(HTTPErrorFor(reply, url, RequestMethod(verb), opts.maxErrBody)))
          else if !hasOut then Exchange(sent, meta, [], Discarded(reply.body, opts.maxBody))
          else
            var read := ReadBodyLimit(reply.body, opts.maxBody);
            if read.err.Some? then Exchange(sent, meta, [], read.err)
            else
              var d := decode(read.data, opts.disallowUnknownFields);
              if d.first.Some? then Exchange(sent, meta, [], d.first)
              else Exchange(sent, meta, [], EnsureJSONEOF(d.next))
  }

  /** A JSON exchange that succeeds had a 2xx reply, and when decoding into `out` its whole body fit under MaxBody and held exactly one value. */
  lemma DoJSONSuccess(
    hasClient: bool, hasContext: bool, verb: string, url: string, payload: Payload,
    buildErr: Option<Err>, opt: Option<JSONOptions>, transport: Transport, hasOut: bool,
    decode: (seq<byte>, bool) -> JsonDecoding.Decoded)
    requires DoJSON(hasClient, hasContext, verb, url, payload, buildErr, opt, transport, hasOut, decode).err.None?
    requires hasOut
    ensures transport.Answered? && IsSuccess(transport.reply.status)
    ensures |Flatten(transport.reply.body.chunks)| <= NormalizeJSONOptions(opt).maxBody
    ensures transport.reply.body.end == Sentinel(EOF)
    ensures var d := decode(Flatten(transport.reply.body.chunks), NormalizeJSONOptions(opt).disallowUnknownFields);
      d.first.None? && d.next == Some(Sentinel(EOF))
  {
    NormalizeJSONOptionsSettled(opt);
  }

  /** A plain request: its method, URL and headers. */
  datatype PlainRequest = PlainRequest(verb: string, url: string, header: map<string, string>)

  /**
   * Do: a nil client, context or request is refused before anything is
   * sent; otherwise the option headers are set on the request, a non-2xx
   * reply becomes an HTTPError with a truncated body, and a 2xx body is
   * read under MaxErrBody and returned.
   */
  function Do(hasClient: bool, hasContext: bool, req: Option<PlainRequest>, opt: Option<Options>, transport: Transport): (x: Exchange)
    ensures !hasClient ==> x == Exchange(None, NoMeta, [], Some(ErrNilClient))
    ensures hasClient && !hasContext ==> x == Exchange(None, NoMeta, [], Some(ErrNilContext))
    ensures hasClient && hasContext && req.None? ==> x == Exchange(None, NoMeta, [], Some(ErrNilRequest))
    ensures x.sent.Some? ==> req.Some? && x.sent.value == req.value.header + NormalizeOptions(opt).headers
    ensures x.sent.Some? && transport.Answered? && !IsSuccess(transport.reply.status) ==>
      x.err == Some(HTTPErrorFor(transport.reply, req.value.url, req.value.verb, NormalizeOptions(opt).maxErrBody))
    ensures x.err.None? ==>
      x.sent.Some? && transport.Answered? && IsSuccess(transport.reply.status) &&
      x.body == Flatten(transport.reply.body.chunks) && |x.body| <= NormalizeOptions(opt).maxErrBody
    ensures x.err.Some? ==> x.body == []
  {
    if !hasClient then Exchange(None, NoMeta, [], Some(ErrNilClient))
    else if !hasContext then Exchange(None, NoMeta, [], Some(ErrNilContext))
    else if req.None? then Exchange(None, NoMeta, [], Some(ErrNilRequest))
    else
      var opts := NormalizeOptions(opt);
      var r := req.value;
      var sent := Some(r.header + opts.headers);
      match transport
      case Failed(err) => Exchange(sent, NoMeta, [], Some(err))
      case Answered(reply) =>
        var meta := ResponseMeta(reply.status, reply.header);
        if !IsSuccess(reply.status) then Exchange(sent, meta, [], Some(HTTPErrorFor(reply, r.url, r.verb, opts.maxErrBody)))
        else
          var read := ReadBodyLimit(reply.body, opts.maxErrBody);
          if read.err.Some? then Exchange(sent, meta, [], read.err)
          else Exchange(sent, meta, read.data, None)
  }
}
