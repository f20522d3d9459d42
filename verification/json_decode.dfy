/**
 * json/decode.go and json/options.go: decoding one JSON request body and
 * mapping whatever goes wrong to a client error. The decoder itself
 * (encoding/json over an http.MaxBytesReader) is an input: given the
 * configuration it reports the error of the first Decode and of the
 * second one, which must see the end of the body.
 */
module JsonDecoding {
  import opened Wrappers
  import opened GoStrings
  import opened Http
  import opened GoErrors
  import opened AppErrors

  const CodeInvalidJSON := "invalid_json"
  const CodeBodyTooLarge := "body_too_large"
  const CodeUnexpectedField := "unexpected_field"
  const MsgInvalidJSON := "invalid json"
  const MsgBodyTooLarge := "body too large"
  const MsgUnexpectedField := "unexpected field"

  /** DefaultMaxBodyBytes: 1 << 20. */
  const DefaultMaxBodyBytes := 1_048_576

  /** The text encoding/json reports an unknown field with, before the quoted name. */
  const UnknownFieldPrefix := "json: unknown field "

  /** decodeOptions */
  datatype DecodeConfig = DecodeConfig(maxBodyBytes: int, strict: bool)

  /** An Option passed to DecodeJSON: a nil one, or WithMaxBodyBytes(n). */
  datatype DecodeOption = NilOption | WithMaxBodyBytes(n: int)

  /** The configuration before any option: the default limit, strict. */
  const Defaults := DecodeConfig(DefaultMaxBodyBytes, true)

  /** One option applied: a nil option is skipped and WithMaxBodyBytes changes the limit only for n > 0. */
  function Applied(cfg: DecodeConfig, opt: DecodeOption): (r: DecodeConfig)
    ensures r.strict == cfg.strict
    ensures opt.WithMaxBodyBytes? && opt.n > 0 ==> r.maxBodyBytes == opt.n
    ensures !(opt.WithMaxBodyBytes? && opt.n > 0) ==> r == cfg
  {
    match opt
    case NilOption => cfg
    case WithMaxBodyBytes(n) => if n > 0 then cfg.(maxBodyBytes := n) else cfg
  }

  /** The options applied in order to `cfg`. */
  function AppliedAll(cfg: DecodeConfig, opts: seq<DecodeOption>): DecodeConfig
    decreases |opts|
  {
    if opts == [] then cfg else Applied(AppliedAll(cfg, opts[..|opts| - 1]), opts[|opts| - 1])
  }

  /** The option sets a limit of its own. */
  predicate SetsLimit(opt: DecodeOption) {
    opt.WithMaxBodyBytes? && opt.n > 0
  }

  /** DecodeJSON's option loop: the defaults, then each non-nil option in turn. */
  method Configure(opts: seq<DecodeOption>) returns (cfg: DecodeConfig)
    ensures cfg == AppliedAll(Defaults, opts)
  {
    cfg := Defaults;
    for i := 0 to |opts|
      invariant cfg == AppliedAll(Defaults, opts[..i])
    {
      assert opts[..i + 1][..i] == opts[..i];
      if opts[i] != NilOption {
        match opts[i]
        case WithMaxBodyBytes(n) =>
          if n > 0 {
            cfg := cfg.(maxBodyBytes := n);
          }
      }
    }
    assert opts[..|opts|] == opts;
  }

  /** No option turns strict mode off, and the limit is always positive. */
  lemma {:induction false} ConfiguredStrictPositive(opts: seq<DecodeOption>)
    ensures AppliedAll(Defaults, opts).strict
    ensures AppliedAll(Defaults, opts).maxBodyBytes > 0
    decreases |opts|
  {
    if opts != [] {
      ConfiguredStrictPositive(opts[..|opts| - 1]);
    }
  }

  /** Without an option that sets a limit, the limit is the default. */
  lemma {:induction false} DefaultLimitKept(opts: seq<DecodeOption>)
    requires forall i :: 0 <= i < |opts| ==> !SetsLimit(opts[i])
    ensures AppliedAll(Defaults, opts) == Defaults
    decreases |opts|
  {
    if opts != [] {
      DefaultLimitKept(opts[..|opts| - 1]);
    }
  }

  /** The last option that sets a limit decides it. */
  lemma {:induction false} LastLimitWins(opts: seq<DecodeOption>, i: nat)
    requires i < |opts| && SetsLimit(opts[i])
    requires forall j :: i < j < |opts| ==> !SetsLimit(opts[j])
    ensures AppliedAll(Defaults, opts).maxBodyBytes == opts[i].n
    decreases |opts|
  {
    if i < |opts| - 1 {
      LastLimitWins(opts[..|opts| - 1], i);
    }
  }

  /**
   * unknownFieldName: the name after the prefix, its quotes trimmed. It
   * fails without the prefix, and when nothing but quotes follows it.
   */
  function UnknownFieldName(msg: string): (r: Option<string>)
    ensures r.None? <==> !HasPrefix(msg, UnknownFieldPrefix) || AllChar(msg[|UnknownFieldPrefix|..], '"')
    ensures r.Some? ==> r.value != "" && r.value[0] != '"' && r.value[|r.value| - 1] != '"'
  {
    if !HasPrefix(msg, UnknownFieldPrefix) then None
    else
      var rest := TrimPrefix(msg, UnknownFieldPrefix);
      var name := TrimChar(rest, '"');
      TrimCharEmpty(rest, '"');
      if name == "" then None else Some(name)
  }

  /** Every character of `s` is `c`. */
  predicate AllChar(s: string, c: char) {
    forall i :: 0 <= i < |s| ==> s[i] == c
  }

  /** Trimming a character leaves nothing exactly when the text is made of that character. */
  lemma TrimCharEmpty(s: string, c: char)
    ensures TrimChar(s, c) == "" <==> AllChar(s, c)
  {
    TrimLeftEmpty(s, c);
    var left := TrimLeftChar(s, c);
    if left != "" {
      TrimRightKeepsFirst(left, c);
    }
  }

  /** Trimming on the right keeps a first character that is not the cutset. */
  lemma {:induction false} TrimRightKeepsFirst(s: string, c: char)
    requires s != [] && s[0] != c
    ensures TrimRightChar(s, c) != ""
    decreases |s|
  {
    if s[|s| - 1] == c {
      assert |s| > 1;
      TrimRightKeepsFirst(s[..|s| - 1], c);
    }
  }

  /** Trimming on the left leaves nothing exactly when the text is made of that character. */
  lemma {:induction false} TrimLeftEmpty(s: string, c: char)
    ensures TrimLeftChar(s, c) == "" <==> AllChar(s, c)
    decreases |s|
  {
    if |s| > 0 && s[0] == c {
      TrimLeftEmpty(s[1..], c);
      assert AllChar(s, c) <==> AllChar(s[1..], c) by {
        if AllChar(s[1..], c) {
          forall i | 0 <= i < |s| ensures s[i] == c {
            if i > 0 {
              assert s[i] == s[1..][i - 1];
            }
          }
        }
      }
    }
  }

  /** Trimming a character off both ends of a text wrapped in it gives the text back. */
  lemma TrimCharWrapped(s: string, c: char)
    requires s == [] || (s[0] != c && s[|s| - 1] != c)
    ensures TrimChar([c] + s + [c], c) == s
  {
    var w := [c] + s + [c];
    if s == [] {
      assert w == [c, c];
      assert w[1..] == [c];
      assert TrimLeftChar(w, c) == TrimLeftChar([c], c) == TrimLeftChar([], c);
    } else {
      assert w[1..] == s + [c];
      assert TrimLeftChar(w, c) == s + [c];
      assert (s + [c])[..|s|] == s;
      assert TrimRightChar(s + [c], c) == TrimRightChar(s, c) == s;
    }
  }

  /** The message encoding/json writes for an unknown field gives the field's name back. */
  lemma UnknownFieldRoundTrip(name: string)
    requires name != "" && name[0] != '"' && name[|name| - 1] != '"'
    ensures UnknownFieldName(UnknownFieldPrefix + "\"" + name + "\"") == Some(name)
  {
    var msg := UnknownFieldPrefix + "\"" + name + "\"";
    assert msg[..|UnknownFieldPrefix|] == UnknownFieldPrefix;
    assert msg[|UnknownFieldPrefix|..] == ['"'] + name + ['"'];
    TrimCharWrapped(name, '"');
  }

  /** How a decode error is reported to the client. */
  datatype Failure = InvalidJSON | TooLarge | UnexpectedField(name: string)

  /**
   * mapDecodeError's decision: io.EOF itself is invalid JSON; a
   * MaxBytesError anywhere in the error tree is 413; an unknown-field message
   * names the field; anything else is invalid JSON.
   */
  function Classified(err: Err): (f: Failure)
    ensures err == Sentinel(EOF) ==> f == InvalidJSON
    ensures err != Sentinel(EOF) && IsMaxBytes(err) ==> f == TooLarge
    ensures err != Sentinel(EOF) && !IsMaxBytes(err) && UnknownFieldName(Message(err)).Some? ==>
      f == UnexpectedField(UnknownFieldName(Message(err)).value)
    ensures f.UnexpectedField? ==> HasPrefix(Message(err), UnknownFieldPrefix) && f.name != ""
    ensures f == TooLarge <==> err != Sentinel(EOF) && IsMaxBytes(err)
  {
    if err == Sentinel(EOF) then InvalidJSON
    else if IsMaxBytes(err) then TooLarge
    else match UnknownFieldName(Message(err))
      case Some(name) => UnexpectedField(name)
      case None => InvalidJSON
  }

  /** The status, code and message each failure is reported with. */
  function FailureStatus(f: Failure): int {
    if f == TooLarge then StatusRequestEntityTooLarge else StatusBadRequest
  }

  function FailureCode(f: Failure): string {
    match f
    case InvalidJSON => CodeInvalidJSON
    case TooLarge => CodeBodyTooLarge
    case UnexpectedField(_) => CodeUnexpectedField
  }

  function FailureMessage(f: Failure): string {
    match f
    case InvalidJSON => MsgInvalidJSON
    case TooLarge => MsgBodyTooLarge
    case UnexpectedField(_) => MsgUnexpectedField
  }

  /** The client-visible fields: the unexpected field's name maps to the message. */
  function FailureFields(f: Failure): map<string, string> {
    if f.UnexpectedField? then map[f.name := MsgUnexpectedField] else map[]
  }

  /** The maps an error's AppError may point at. */
  function ErrRefs(e: Err): set<FieldMap> {
    if e.App? then FieldsRef(e.app) else {}
  }

  /** `e` is the *AppError reporting `f`. */
  predicate Reports(e: Err, f: Failure)
    reads ErrRefs(e)
  {
    && e.App?
    && e.app.status == FailureStatus(f) && e.app.code == FailureCode(f) && e.app.message == FailureMessage(f)
    && e.app.cause.None?
    && Entries(e.app) == FailureFields(f)
  }

  /** mapDecodeError: the AppError for a decode error, with the field attached for an unknown one. */
  method MapDecodeError(err: Err) returns (r: Err)
    ensures Reports(r, Classified(err))
  {
    if err == Sentinel(EOF) {
      return App(E(StatusBadRequest, CodeInvalidJSON, MsgInvalidJSON));
    }
    if IsMaxBytes(err) {
      return App(E(StatusRequestEntityTooLarge, CodeBodyTooLarge, MsgBodyTooLarge));
    }
    var name := UnknownFieldName(Message(err));
    if name.Some? {
      r := FieldError(name.value);
      return;
    }
    return App(E(StatusBadRequest, CodeInvalidJSON, MsgInvalidJSON));
  }

  /** The unexpected-field error: E(400, unexpected_field) with the name attached by WithField. */
  method FieldError(name: string) returns (r: Err)
    ensures Reports(r, UnexpectedField(name))
  {
    var app := E(StatusBadRequest, CodeUnexpectedField, MsgUnexpectedField);
    var withField := WithField(Some(App(app)), name, MsgUnexpectedField);
    assert Entries(app) == map[];
    r := withField.value;
  }

  /** An incoming request as DecodeJSON sees it: None is a nil request, a None body a nil Body. */
  datatype JsonRequest = JsonRequest(body: Option<nat>)

  /** What the decoder reports: the first Decode's error, then the error of the Decode after it (None: another value was read). */
  datatype Decoded = Decoded(first: Option<Err>, next: Option<Err>)

  /**
   * DecodeJSON: a nil request or body is invalid JSON; otherwise the
   * options are applied and the decoder runs with them; a failed first
   * decode is mapped; anything but io.EOF after the first value is
   * invalid JSON; otherwise the decode succeeds.
   */
  method DecodeJSON(req: Option<JsonRequest>, opts: seq<DecodeOption>, decode: DecodeConfig -> Decoded)
    returns (err: Option<Err>)
    ensures req.None? || req.value.body.None? ==> err.Some? && Reports(err.value, InvalidJSON)
    ensures req.Some? && req.value.body.Some? ==>
      var d := decode(AppliedAll(Defaults, opts));
      && (d.first.Some? ==> err.Some? && Reports(err.value, Classified(d.first.value)))
      && (d.first.None? && d.next != Some(Sentinel(EOF)) ==> err.Some? && Reports(err.value, InvalidJSON))
      && (d.first.None? && d.next == Some(Sentinel(EOF)) ==> err.None?)
  {
    if req.None? || req.value.body.None? {
      return Some(App(E(StatusBadRequest, CodeInvalidJSON, MsgInvalidJSON)));
    }
    var cfg := Configure(opts);
    var d := decode(cfg);
    if d.first.Some? {
      var mapped := MapDecodeError(d.first.value);
      return Some(mapped);
    }
    if d.next != Some(Sentinel(EOF)) {
      return Some(App(E(StatusBadRequest, CodeInvalidJSON, MsgInvalidJSON)));
    }
    return None;
  }
}
