/**
 * httpkit/middleware/cors.go: the CORS middleware, after the CORS protocol
 * of section 3.2 of the WHATWG Fetch Standard, and the Vary bookkeeping of
 * section 12.5.5 of RFC 9110. Request headers are inputs; the response
 * headers are the header map of the response value.
 */
module Cors {
  import opened Wrappers
  import opened GoStrings
  import opened GoErrors
  import opened Http
  import opened HttpWriter

  const HeaderAllowOrigin := "Access-Control-Allow-Origin"
  const HeaderAllowMethods := "Access-Control-Allow-Methods"
  const HeaderAllowHeaders := "Access-Control-Allow-Headers"
  const HeaderAllowCredentials := "Access-Control-Allow-Credentials"
  const HeaderExposeHeaders := "Access-Control-Expose-Headers"
  const HeaderMaxAge := "Access-Control-Max-Age"
  const HeaderOrigin := "Origin"
  const HeaderRequestMethod := "Access-Control-Request-Method"
  const HeaderRequestHeaders := "Access-Control-Request-Headers"
  const HeaderVary := "Vary"

  const DefaultMethods: seq<string> := [MethodGet, MethodPost, MethodPut, MethodPatch, MethodDelete]
  const DefaultHeaders: seq<string> := ["Content-Type", "Authorization"]

  /** One second in time.Duration units (nanoseconds). */
  const Second := 1_000_000_000

  /** The message CORS panics with. */
  const ErrCredentialsWildcard: Err := Text("cors: AllowCredentials запрещает wildcard origin")

  /** CORSOptions; MaxAge is a duration in nanoseconds. */
  datatype CORSOptions = CORSOptions(
    allowedOrigins: seq<string>, allowedMethods: seq<string>, allowedHeaders: seq<string>,
    exposedHeaders: seq<string>, allowCredentials: bool, maxAge: int)

  /** hasWildcard: whether some item is exactly "*". */
  method HasWildcard(items: seq<string>) returns (found: bool)
    ensures found <==> "*" in items
  {
    var i := 0;
    while i < |items|
      invariant 0 <= i <= |items|
      invariant "*" !in items[..i]
    {
      if items[i] == "*" {
        return true;
      }
      assert items[..i + 1] == items[..i] + [items[i]];
      i := i + 1;
    }
    assert items[..i] == items;
    return false;
  }

  /** originAllowed: the list holds "*" or exactly the origin. */
  method OriginAllowed(origin: string, allowed: seq<string>) returns (ok: bool)
    ensures ok <==> "*" in allowed || origin in allowed
  {
    var i := 0;
    while i < |allowed|
      invariant 0 <= i <= |allowed|
      invariant "*" !in allowed[..i] && origin !in allowed[..i]
    {
      if allowed[i] == "*" || allowed[i] == origin {
        return true;
      }
      assert allowed[..i + 1] == allowed[..i] + [allowed[i]];
      i := i + 1;
    }
    assert allowed[..i] == allowed;
    return false;
  }

  /** validateCORSOptions: credentials together with a wildcard origin are refused with a panic. */
  method ValidateCORSOptions(opts: CORSOptions) returns (panic: Option<Err>)
    ensures panic.Some? <==> opts.allowCredentials && "*" in opts.allowedOrigins
    ensures panic.Some? ==> panic.value == ErrCredentialsWildcard
  {
    if !opts.allowCredentials {
      return None;
    }
    var wildcard := HasWildcard(opts.allowedOrigins);
    if wildcard {
      return Some(ErrCredentialsWildcard);
    }
    return None;
  }

  /** joinCSV: "" for no items, else the items joined with ", ". */
  function JoinCSV(items: seq<string>): (s: string)
    ensures items == [] ==> s == ""
    ensures items != [] ==> s == Join(items, ", ")
  {
    if |items| == 0 then "" else Join(items, ", ")
  }

  /** Every piece, trimmed. */
  function TrimAll(parts: seq<string>): (r: seq<string>)
    ensures |r| == |parts|
    ensures forall i :: 0 <= i < |parts| ==> r[i] == TrimSpace(parts[i])
  {
    if parts == [] then [] else [TrimSpace(parts[0])] + TrimAll(parts[1..])
  }

  /** Splitting a comma-joined list on ',' and trimming each piece gives the items back. */
  lemma {:induction false} JoinCSVSplits(items: seq<string>)
    requires items != []
    requires forall i :: 0 <= i < |items| ==> ',' !in items[i] && Trimmed(items[i])
    ensures TrimAll(Split(JoinCSV(items), ',')) == items
  {
    TrimSpaceAfterSpaces("", items[0]);
    assert "" + items[0] == items[0];
    if |items| == 1 {
      SplitNoSeparator(items[0], ',');
    } else {
      JoinCSVSplits(items[1..]);
      var S := Split(JoinCSV(items[1..]), ',');
      JoinCSVCons(items);
      TrimAllSpaceFront(S);
      assert ([items[0]] + ([" " + S[0]] + S[1..]))[1..] == [" " + S[0]] + S[1..];
    }
  }

  /** The split of a list of two or more: the first item, then the split of the rest with a space in front. */
  lemma JoinCSVCons(items: seq<string>)
    requires |items| > 1 && ',' !in items[0]
    ensures var S := Split(JoinCSV(items[1..]), ',');
      Split(JoinCSV(items), ',') == [items[0]] + ([" " + S[0]] + S[1..])
  {
    var tail := JoinCSV(items[1..]);
    assert JoinCSV(items) == items[0] + [','] + (" " + tail);
    SplitAround(items[0], " " + tail, ',');
    SpaceThenSplit(tail);
  }

  /** A space in front of the first piece does not change the trimmed pieces. */
  lemma TrimAllSpaceFront(S: seq<string>)
    requires S != []
    ensures TrimAll([" " + S[0]] + S[1..]) == TrimAll(S)
  {
    var T := [" " + S[0]] + S[1..];
    TrimLeadingSpace(S[0]);
    assert T[1..] == S[1..];
  }

  /** A leading space joins the first piece of a split. */
  lemma SpaceThenSplit(t: string)
    ensures Split(" " + t, ',') == [" " + Split(t, ',')[0]] + Split(t, ',')[1..]
  {
    assert (" " + t)[1..] == t;
  }

  /** One leading space is trimmed away. */
  lemma TrimLeadingSpace(p: string)
    ensures TrimSpace(" " + p) == TrimSpace(p)
  {
    assert (" " + p)[1..] == p;
  }

  /** The pieces of the Vary header: none when it is absent or empty. */
  function VaryParts(h: map<string, string>): seq<string> {
    if HeaderVary in h && h[HeaderVary] != "" then Split(h[HeaderVary], ',') else []
  }

  /** A piece of Vary names `v`, up to white space and ASCII case. */
  predicate Names(part: string, v: string) {
    EqualFold(TrimSpace(part), v)
  }

  /** The Vary header already names `v`. */
  predicate VaryHas(h: map<string, string>, v: string) {
    exists i :: 0 <= i < |VaryParts(h)| && Names(VaryParts(h)[i], v)
  }

  /**
   * addVary: an empty value or one Vary already names leaves the headers
   * alone; otherwise the value is appended after ", ", or becomes the
   * header when there is none. Nothing but Vary changes.
   */
  function VaryAdded(h: map<string, string>, value: string): (r: map<string, string>)
    ensures value == "" || VaryHas(h, value) ==> r == h
    ensures forall k :: k != HeaderVary ==> (k in r <==> k in h) && (k in h ==> r[k] == h[k])
  {
    if value == "" || VaryHas(h, value) then h
    else
      var existing := if HeaderVary in h then h[HeaderVary] else "";
      if existing != "" then h[HeaderVary := existing + ", " + value] else h[HeaderVary := value]
  }

  /** The names Vary had are kept, in order, and afterwards it names the value (one without commas or outer spaces). */
  lemma VaryAddedNames(h: map<string, string>, value: string)
    ensures VaryParts(h) <= VaryParts(VaryAdded(h, value))
    ensures value != "" && ',' !in value && Trimmed(value) ==> VaryHas(VaryAdded(h, value), value)
  {
    if value != "" && !VaryHas(h, value) {
      if HeaderVary in h && h[HeaderVary] != "" {
        assert VaryAdded(h, value) == h[HeaderVary := h[HeaderVary] + ", " + value];
        AppendedVaryNames(h, value);
      } else {
        assert VaryAdded(h, value) == h[HeaderVary := value];
        NewVaryNames(h, value);
      }
    }
  }

  /** Appending to a present Vary header keeps its pieces and names the value. */
  lemma AppendedVaryNames(h: map<string, string>, value: string)
    requires HeaderVary in h && h[HeaderVary] != ""
    ensures var r := h[HeaderVary := h[HeaderVary] + ", " + value];
      VaryParts(h) <= VaryParts(r) && (',' !in value && Trimmed(value) ==> VaryHas(r, value))
  {
    var existing := h[HeaderVary];
    var r := h[HeaderVary := existing + ", " + value];
    assert VaryParts(h) == Split(existing, ',');
    assert VaryParts(r) == Split(existing + ", " + value, ',');
    AppendedVary(existing, value);
    if ',' !in value && Trimmed(value) {
      var parts := VaryParts(r);
      assert Names(parts[|parts| - 1], value);
    }
  }

  /** Setting an absent or empty Vary header to the value names the value. */
  lemma NewVaryNames(h: map<string, string>, value: string)
    requires value != "" && !(HeaderVary in h && h[HeaderVary] != "")
    ensures var r := h[HeaderVary := value];
      VaryParts(h) <= VaryParts(r) && (',' !in value && Trimmed(value) ==> VaryHas(r, value))
  {
    var r := h[HeaderVary := value];
    assert VaryParts(h) == [];
    assert VaryParts(r) == Split(value, ',');
    NewVary(value);
    if ',' !in value && Trimmed(value) {
      assert Names(VaryParts(r)[0], value);
    }
  }

  /** A name Vary has stays there whatever else is added. */
  lemma VaryHasKept(h: map<string, string>, v: string, value: string)
    requires VaryHas(h, v)
    ensures VaryHas(VaryAdded(h, value), v)
  {
    VaryAddedNames(h, value);
    var i :| 0 <= i < |VaryParts(h)| && Names(VaryParts(h)[i], v);
    assert VaryParts(VaryAdded(h, value))[i] == VaryParts(h)[i];
  }

  /** After appending ", value" the existing pieces come first, and the last piece trims to the value. */
  lemma AppendedVary(existing: string, value: string)
    ensures Split(existing, ',') <= Split(existing + ", " + value, ',')
    ensures ',' !in value && Trimmed(value) ==>
      var parts := Split(existing + ", " + value, ',');
      Names(parts[|parts| - 1], value)
  {
    assert existing + ", " + value == existing + [','] + (" " + value);
    SplitConcat(existing, " " + value, ',');
    if ',' !in value && Trimmed(value) {
      SplitAppend(existing, " " + value, ',');
      TrimSpaceAfterSpaces(" ", value);
    }
  }

  /** A value alone, without commas and trimmed, is one piece naming itself. */
  lemma NewVary(value: string)
    ensures ',' !in value && Trimmed(value) && value != "" ==> Names(Split(value, ',')[0], value)
  {
    if ',' !in value && Trimmed(value) && value != "" {
      SplitNoSeparator(value, ',');
      TrimSpaceAfterSpaces("", value);
      assert "" + value == value;
    }
  }

  /** Adding a Vary value twice is adding it once. */
  lemma VaryIdempotent(h: map<string, string>, value: string)
    requires ',' !in value && Trimmed(value)
    ensures VaryAdded(VaryAdded(h, value), value) == VaryAdded(h, value)
  {
    VaryAddedNames(h, value);
  }

  /** The search addVary makes: whether some piece names the value. */
  method AnyNames(parts: seq<string>, value: string) returns (found: bool)
    ensures found <==> exists i :: 0 <= i < |parts| && Names(parts[i], value)
  {
    var i := 0;
    while i < |parts|
      invariant 0 <= i <= |parts|
      invariant forall j :: 0 <= j < i ==> !Names(parts[j], value)
    {
      if EqualFold(TrimSpace(parts[i]), value) {
        return true;
      }
      i := i + 1;
    }
    return false;
  }

  /** addVary(h, value), searching the existing pieces one by one. */
  method AddVary(h: map<string, string>, value: string) returns (r: map<string, string>)
    ensures r == VaryAdded(h, value)
  {
    if value == "" {
      return h;
    }
    var existing := if HeaderVary in h then h[HeaderVary] else "";
    if existing != "" {
      assert Split(existing, ',') == VaryParts(h);
      var found := AnyNames(Split(existing, ','), value);
      if found {
        return h;
      }
      return h[HeaderVary := existing + ", " + value];
    }
    return h[HeaderVary := value];
  }

  /** What CORS(opts) computes once, before serving any request. */
  datatype Policy = Policy(
    opts: CORSOptions, methodsCSV: string, headersCSV: string, exposedCSV: string,
    headersWildcard: bool, originsWildcard: bool)

  /**
   * CORS(opts): the options are validated (a panic refuses them), empty
   * method and header lists fall back to the defaults, and the header
   * values are joined once.
   */
  method NewCORS(opts: CORSOptions) returns (r: Outcome<Policy>)
    ensures r.Panics? <==> opts.allowCredentials && "*" in opts.allowedOrigins
    ensures r.Panics? ==> r.cause == ErrCredentialsWildcard
    ensures r.Returns? ==> Built(r.value, opts)
  {
    var panic := ValidateCORSOptions(opts);
    if panic.Some? {
      return Panics(panic.value);
    }
    var methods := opts.allowedMethods;
    if |methods| == 0 {
      methods := DefaultMethods;
    }
    var headers := opts.allowedHeaders;
    if |headers| == 0 {
      headers := DefaultHeaders;
    }
    var headersWildcard := HasWildcard(headers);
    var originsWildcard := HasWildcard(opts.allowedOrigins);
    return Returns(Policy(opts, JoinCSV(methods), JoinCSV(headers), JoinCSV(opts.exposedHeaders), headersWildcard, originsWildcard));
  }

  /** The policy CORS builds from the options: defaults for empty lists, joined values, wildcard flags. */
  predicate Built(p: Policy, opts: CORSOptions) {
    var methods := if opts.allowedMethods == [] then DefaultMethods else opts.allowedMethods;
    var headers := if opts.allowedHeaders == [] then DefaultHeaders else opts.allowedHeaders;
    && p.opts == opts
    && p.methodsCSV == JoinCSV(methods)
    && p.headersCSV == JoinCSV(headers)
    && p.exposedCSV == JoinCSV(opts.exposedHeaders)
    && (p.headersWildcard <==> "*" in headers)
    && (p.originsWildcard <==> "*" in opts.allowedOrigins)
  }

  /** The CORS-relevant parts of a request. */
  datatype CorsRequest = CorsRequest(verb: string, origin: string, requestMethod: string, requestHeaders: string)

  /** A preflight: OPTIONS carrying Access-Control-Request-Method. */
  predicate IsPreflight(req: CorsRequest) {
    req.verb == MethodOptions && req.requestMethod != ""
  }

  /** The request is subject to CORS at all: origins are configured and it names an origin. */
  predicate Applies(p: Policy, req: CorsRequest) {
    p.opts.allowedOrigins != [] && req.origin != ""
  }

  /** The request's origin may see the response. */
  predicate Allowed(p: Policy, origin: string) {
    "*" in p.opts.allowedOrigins || origin in p.opts.allowedOrigins
  }

  /** The Allow-Origin value and, unless it is "*", Vary: Origin. */
  method SetAllowOrigin(p: Policy, origin: string, h: map<string, string>) returns (r: map<string, string>)
    ensures HeaderAllowOrigin in r && r[HeaderAllowOrigin] == (if p.originsWildcard then "*" else origin)
    ensures p.originsWildcard ==> VaryParts(r) == VaryParts(h)
    ensures !p.originsWildcard ==> VaryHas(r, HeaderOrigin)
    ensures forall k :: k != HeaderAllowOrigin && k != HeaderVary ==> (k in r <==> k in h) && (k in h ==> r[k] == h[k])
  {
    var allowOrigin := origin;
    var varyOrigin := true;
    if p.originsWildcard {
      allowOrigin := "*";
      varyOrigin := false;
    }
    CorsHeadersDistinct();
    var withOrigin := h[HeaderAllowOrigin := allowOrigin];
    SetKeepsVary(h, HeaderAllowOrigin, allowOrigin);
    r := withOrigin;
    if varyOrigin {
      OriginIsName();
      VaryAddedNames(withOrigin, HeaderOrigin);
      r := AddVary(withOrigin, HeaderOrigin);
    }
  }

  /** "Origin" is a single header name: no comma, no outer white space. */
  lemma OriginIsName()
    ensures HeaderOrigin != "" && ',' !in HeaderOrigin && Trimmed(HeaderOrigin)
  {
  }

  /** Setting any header but Vary leaves Vary's pieces alone. */
  lemma SetKeepsVary(h: map<string, string>, k: string, v: string)
    requires k != HeaderVary
    ensures VaryParts(h[k := v]) == VaryParts(h)
  {
    assert HeaderVary in h[k := v] <==> HeaderVary in h;
  }

  /** The credentials flag, when the policy allows credentials. */
  method SetCredentials(p: Policy, h: map<string, string>) returns (r: map<string, string>)
    ensures p.opts.allowCredentials ==> HeaderAllowCredentials in r && r[HeaderAllowCredentials] == "true"
    ensures !p.opts.allowCredentials ==> r == h
    ensures VaryParts(r) == VaryParts(h)
    ensures HeaderAllowOrigin in h ==> HeaderAllowOrigin in r && r[HeaderAllowOrigin] == h[HeaderAllowOrigin]
    ensures forall k :: k != HeaderAllowCredentials ==> (k in r <==> k in h) && (k in h ==> r[k] == h[k])
  {
    r := h;
    if p.opts.allowCredentials {
      r := r[HeaderAllowCredentials := "true"];
      assert VaryParts(r) == VaryParts(h);
    }
  }

  /**
   * The values an allowed preflight gets: the allowed methods; the
   * requested headers echoed when the policy allows any header, else the
   * allowed headers; Max-Age in whole seconds when positive.
   */
  method PreflightValues(p: Policy, requestHeaders: string, h: map<string, string>) returns (r: map<string, string>)
    ensures HeaderAllowMethods in r && r[HeaderAllowMethods] == p.methodsCSV
    ensures TrimSpace(requestHeaders) != "" && p.headersWildcard ==>
      HeaderAllowHeaders in r && r[HeaderAllowHeaders] == TrimSpace(requestHeaders)
    ensures !(TrimSpace(requestHeaders) != "" && p.headersWildcard) && p.headersCSV != "" ==>
      HeaderAllowHeaders in r && r[HeaderAllowHeaders] == p.headersCSV
    ensures !(TrimSpace(requestHeaders) != "" && p.headersWildcard) && p.headersCSV == "" ==>
      Kept(h, r, HeaderAllowHeaders)
    ensures p.opts.maxAge > 0 ==> HeaderMaxAge in r && r[HeaderMaxAge] == Itoa(p.opts.maxAge / Second)
    ensures p.opts.maxAge <= 0 ==> (HeaderMaxAge in r <==> HeaderMaxAge in h) && (HeaderMaxAge in h ==> r[HeaderMaxAge] == h[HeaderMaxAge])
    ensures VaryParts(r) == VaryParts(h)
    ensures HeaderAllowOrigin in h ==> HeaderAllowOrigin in r && r[HeaderAllowOrigin] == h[HeaderAllowOrigin]
    ensures HeaderAllowCredentials in h ==> HeaderAllowCredentials in r && r[HeaderAllowCredentials] == h[HeaderAllowCredentials]
    ensures forall k :: k != HeaderAllowMethods && k != HeaderAllowHeaders && k != HeaderMaxAge ==>
      (k in r <==> k in h) && (k in h ==> r[k] == h[k])
  {
    r := h[HeaderAllowMethods := p.methodsCSV];
    var trimmed := TrimSpace(requestHeaders);
    if trimmed != "" && p.headersWildcard {
      r := r[HeaderAllowHeaders := trimmed];
    } else if p.headersCSV != "" {
      r := r[HeaderAllowHeaders := p.headersCSV];
    }
    if p.opts.maxAge > 0 {
      r := r[HeaderMaxAge := Itoa(p.opts.maxAge / Second)];
    }
  }

  /** Vary on both request headers of a preflight. */
  method PreflightVary(h: map<string, string>) returns (r: map<string, string>)
    ensures VaryHas(r, HeaderRequestMethod) && VaryHas(r, HeaderRequestHeaders)
    ensures VaryHas(h, HeaderOrigin) ==> VaryHas(r, HeaderOrigin)
    ensures forall k :: k != HeaderVary ==> (k in r <==> k in h) && (k in h ==> r[k] == h[k])
  {
    PreflightVaryNames(h);
    if VaryHas(h, HeaderOrigin) {
      PreflightVaryKeeps(h, HeaderOrigin);
    }
    r := AddVary(h, HeaderRequestMethod);
    r := AddVary(r, HeaderRequestHeaders);
  }

  /** The two request header names are single trimmed names without commas. */
  lemma RequestHeaderNamesPlain()
    ensures ',' !in HeaderRequestMethod && Trimmed(HeaderRequestMethod)
    ensures ',' !in HeaderRequestHeaders && Trimmed(HeaderRequestHeaders)
  {
  }

  /** After the preflight's Vary additions both request headers are named. */
  lemma PreflightVaryNames(h: map<string, string>)
    ensures VaryHas(VaryAdded(VaryAdded(h, HeaderRequestMethod), HeaderRequestHeaders), HeaderRequestMethod)
    ensures VaryHas(VaryAdded(VaryAdded(h, HeaderRequestMethod), HeaderRequestHeaders), HeaderRequestHeaders)
  {
    var m := VaryAdded(h, HeaderRequestMethod);
    RequestHeaderNamesPlain();
    VaryAddedNames(h, HeaderRequestMethod);
    VaryHasKept(m, HeaderRequestMethod, HeaderRequestHeaders);
    VaryAddedNames(m, HeaderRequestHeaders);
  }

  /** A name Vary had is still there after both preflight additions. */
  lemma PreflightVaryKeeps(h: map<string, string>, v: string)
    requires VaryHas(h, v)
    ensures VaryHas(VaryAdded(VaryAdded(h, HeaderRequestMethod), HeaderRequestHeaders), v)
  {
    var m := VaryAdded(h, HeaderRequestMethod);
    VaryHasKept(h, v, HeaderRequestMethod);
    VaryHasKept(m, v, HeaderRequestHeaders);
  }

  /** Header `k` is in `r` exactly when it is in `h`, with the same value. */
  predicate Kept(h: map<string, string>, r: map<string, string>, k: string) {
    (k in r <==> k in h) && (k in h ==> r[k] == h[k])
  }

  /** The headers an allowed preflight may set. */
  predicate PreflightHeader(k: string) {
    k == HeaderAllowOrigin || k == HeaderAllowCredentials || k == HeaderAllowMethods ||
    k == HeaderAllowHeaders || k == HeaderMaxAge || k == HeaderVary
  }

  /** The headers an allowed request that is not a preflight may set. */
  predicate SimpleHeader(k: string) {
    k == HeaderAllowOrigin || k == HeaderAllowCredentials || k == HeaderExposeHeaders || k == HeaderVary
  }

  /**
   * The headers every allowed request gets, starting from `h`: Allow-Origin
   * ("*" when any origin is allowed, else the origin), Vary: Origin unless
   * any origin is allowed, and the credentials flag exactly when the policy
   * allows credentials.
   */
  ghost predicate OriginHeadersSet(p: Policy, origin: string, h: map<string, string>, r: map<string, string>) {
    && HeaderAllowOrigin in r && r[HeaderAllowOrigin] == (if p.originsWildcard then "*" else origin)
    && (!p.originsWildcard ==> VaryHas(r, HeaderOrigin))
    && (p.opts.allowCredentials ==> HeaderAllowCredentials in r && r[HeaderAllowCredentials] == "true")
    && (!p.opts.allowCredentials ==> Kept(h, r, HeaderAllowCredentials))
  }

  /**
   * What a preflight adds: the allowed methods, the echoed or configured
   * Allow-Headers, Max-Age only when positive and Vary on both request
   * headers. No header a preflight does not set changes.
   */
  ghost predicate PreflightHeadersSet(p: Policy, req: CorsRequest, h: map<string, string>, r: map<string, string>) {
    && HeaderAllowMethods in r && r[HeaderAllowMethods] == p.methodsCSV
    && PreflightAllowHeaders(p, req, h, r)
    && (p.opts.maxAge > 0 ==> HeaderMaxAge in r && r[HeaderMaxAge] == Itoa(p.opts.maxAge / Second))
    && (p.opts.maxAge <= 0 ==> Kept(h, r, HeaderMaxAge))
    && VaryHas(r, HeaderRequestMethod) && VaryHas(r, HeaderRequestHeaders)
    && (forall k :: !PreflightHeader(k) ==> Kept(h, r, k))
  }

  /**
   * What a request that is not a preflight adds: the exposed headers when
   * there are any, with Vary as it was when any origin is allowed. No other
   * header changes; in particular none of the preflight's.
   */
  ghost predicate SimpleHeadersSet(p: Policy, h: map<string, string>, r: map<string, string>) {
    && (p.originsWildcard ==> VaryParts(r) == VaryParts(h))
    && (p.exposedCSV != "" ==> HeaderExposeHeaders in r && r[HeaderExposeHeaders] == p.exposedCSV)
    && (p.exposedCSV == "" ==> Kept(h, r, HeaderExposeHeaders))
    && (forall k :: !SimpleHeader(k) ==> Kept(h, r, k))
  }

  /** The headers an allowed request gets before the middleware calls next or answers the preflight. */
  ghost predicate AllowedHeadersSet(p: Policy, req: CorsRequest, h: map<string, string>, r: map<string, string>) {
    && OriginHeadersSet(p, req.origin, h, r)
    && (IsPreflight(req) ==> PreflightHeadersSet(p, req, h, r))
    && (!IsPreflight(req) ==> SimpleHeadersSet(p, h, r))
  }

  /**
   * Allow-Headers on a preflight: the trimmed requested headers when any
   * header is allowed and some were requested, else the configured list
   * when there is one, else left as it was.
   */
  predicate PreflightAllowHeaders(p: Policy, req: CorsRequest, h: map<string, string>, r: map<string, string>) {
    var echoed := TrimSpace(req.requestHeaders) != "" && p.headersWildcard;
    && (echoed ==> HeaderAllowHeaders in r && r[HeaderAllowHeaders] == TrimSpace(req.requestHeaders))
    && (!echoed && p.headersCSV != "" ==> HeaderAllowHeaders in r && r[HeaderAllowHeaders] == p.headersCSV)
    && (!echoed && p.headersCSV == "" ==> Kept(h, r, HeaderAllowHeaders))
  }

  /** The CORS header names are pairwise distinct. */
  lemma CorsHeadersDistinct()
    ensures HeaderAllowOrigin != HeaderAllowCredentials && HeaderAllowOrigin != HeaderAllowMethods
    ensures HeaderAllowOrigin != HeaderAllowHeaders && HeaderAllowOrigin != HeaderMaxAge
    ensures HeaderAllowOrigin != HeaderExposeHeaders && HeaderAllowOrigin != HeaderVary
    ensures HeaderAllowCredentials != HeaderAllowMethods && HeaderAllowCredentials != HeaderAllowHeaders
    ensures HeaderAllowCredentials != HeaderMaxAge && HeaderAllowCredentials != HeaderExposeHeaders
    ensures HeaderAllowCredentials != HeaderVary
    ensures HeaderAllowMethods != HeaderAllowHeaders && HeaderAllowMethods != HeaderMaxAge
    ensures HeaderAllowMethods != HeaderExposeHeaders && HeaderAllowMethods != HeaderVary
    ensures HeaderAllowHeaders != HeaderMaxAge && HeaderAllowHeaders != HeaderExposeHeaders
    ensures HeaderAllowHeaders != HeaderVary
    ensures HeaderMaxAge != HeaderExposeHeaders && HeaderMaxAge != HeaderVary
    ensures HeaderExposeHeaders != HeaderVary
  {
    assert |HeaderAllowOrigin| == 27 && |HeaderAllowCredentials| == 32;
    assert |HeaderAllowMethods| == 28 && |HeaderAllowHeaders| == 28;
    assert |HeaderMaxAge| == 22 && |HeaderExposeHeaders| == 29 && |HeaderVary| == 4;
    assert HeaderAllowMethods[21] == 'M' && HeaderAllowHeaders[21] == 'H';
  }

  /** Allow-Origin, Vary: Origin and the credentials flag, which every allowed request gets. */
  method SetOriginHeaders(p: Policy, origin: string, h: map<string, string>) returns (r: map<string, string>)
    ensures OriginHeadersSet(p, origin, h, r)
    ensures p.originsWildcard ==> VaryParts(r) == VaryParts(h)
    ensures forall k :: k != HeaderAllowOrigin && k != HeaderAllowCredentials && k != HeaderVary ==> Kept(h, r, k)
  {
    CorsHeadersDistinct();
    var r1 := SetAllowOrigin(p, origin, h);
    r := SetCredentials(p, r1);
    OriginStage(p, origin, h, r1, r);
    forall k | k != HeaderAllowOrigin && k != HeaderAllowCredentials && k != HeaderVary
      ensures Kept(h, r, k)
    {
      assert Kept(h, r1, k) && Kept(r1, r, k);
    }
  }

  /** The headers only a preflight gets: methods, Allow-Headers, Max-Age and Vary on the request headers. */
  method SetPreflightHeaders(p: Policy, req: CorsRequest, h: map<string, string>) returns (r: map<string, string>)
    ensures PreflightHeadersSet(p, req, h, r)
    ensures Kept(h, r, HeaderAllowOrigin) && Kept(h, r, HeaderAllowCredentials)
    ensures VaryHas(h, HeaderOrigin) ==> VaryHas(r, HeaderOrigin)
  {
    var r3 := PreflightValues(p, req.requestHeaders, h);
    VaryHasSameParts(h, r3, HeaderOrigin);
    r := PreflightVary(r3);
    PreflightFrame(h, r3, r);
    PreflightStage(p, req, h, r3, r);
  }

  /** The header preparation for an allowed preflight. */
  method AllowedPreflight(p: Policy, req: CorsRequest, h: map<string, string>) returns (r: map<string, string>)
    requires IsPreflight(req)
    ensures AllowedHeadersSet(p, req, h, r)
  {
    var r1 := SetOriginHeaders(p, req.origin, h);
    r := SetPreflightHeaders(p, req, r1);
    OriginHeadersKept(p, req.origin, h, r1, r);
    PreflightOverOrigin(p, req, h, r1, r);
  }

  /** After SetAllowOrigin and SetCredentials every allowed request has its origin headers. */
  lemma OriginStage(p: Policy, origin: string, h: map<string, string>, r1: map<string, string>, r2: map<string, string>)
    requires HeaderAllowOrigin in r1 && r1[HeaderAllowOrigin] == (if p.originsWildcard then "*" else origin)
    requires !p.originsWildcard ==> VaryHas(r1, HeaderOrigin)
    requires Kept(h, r1, HeaderAllowCredentials)
    requires p.opts.allowCredentials ==> HeaderAllowCredentials in r2 && r2[HeaderAllowCredentials] == "true"
    requires !p.opts.allowCredentials ==> r2 == r1
    requires Kept(r1, r2, HeaderAllowOrigin) && VaryParts(r2) == VaryParts(r1)
    ensures OriginHeadersSet(p, origin, h, r2)
  {
    VaryHasSameParts(r1, r2, HeaderOrigin);
  }

  /** A step that keeps Allow-Origin, the credentials flag and the names in Vary keeps the origin headers. */
  lemma OriginHeadersKept(p: Policy, origin: string, h: map<string, string>, a: map<string, string>, b: map<string, string>)
    requires OriginHeadersSet(p, origin, h, a)
    requires Kept(a, b, HeaderAllowOrigin) && Kept(a, b, HeaderAllowCredentials)
    requires VaryHas(a, HeaderOrigin) ==> VaryHas(b, HeaderOrigin)
    ensures OriginHeadersSet(p, origin, h, b)
  {
  }

  /** What a preflight adds on top of the origin headers, measured from the headers before both. */
  lemma PreflightOverOrigin(p: Policy, req: CorsRequest, h: map<string, string>, r1: map<string, string>, r: map<string, string>)
    requires forall k :: k != HeaderAllowOrigin && k != HeaderAllowCredentials && k != HeaderVary ==> Kept(h, r1, k)
    requires PreflightHeadersSet(p, req, r1, r)
    ensures PreflightHeadersSet(p, req, h, r)
  {
    CorsHeadersDistinct();
    assert Kept(h, r1, HeaderAllowHeaders) && Kept(h, r1, HeaderMaxAge);
    forall k | !PreflightHeader(k)
      ensures Kept(h, r, k)
    {
      assert Kept(h, r1, k) && Kept(r1, r, k);
    }
  }

  /** PreflightValues and PreflightVary together give what a preflight adds. */
  lemma PreflightStage(p: Policy, req: CorsRequest, h: map<string, string>, r3: map<string, string>, r: map<string, string>)
    requires HeaderAllowMethods in r3 && r3[HeaderAllowMethods] == p.methodsCSV
    requires TrimSpace(req.requestHeaders) != "" && p.headersWildcard ==>
      HeaderAllowHeaders in r3 && r3[HeaderAllowHeaders] == TrimSpace(req.requestHeaders)
    requires !(TrimSpace(req.requestHeaders) != "" && p.headersWildcard) && p.headersCSV != "" ==>
      HeaderAllowHeaders in r3 && r3[HeaderAllowHeaders] == p.headersCSV
    requires !(TrimSpace(req.requestHeaders) != "" && p.headersWildcard) && p.headersCSV == "" ==>
      Kept(h, r3, HeaderAllowHeaders)
    requires p.opts.maxAge > 0 ==> HeaderMaxAge in r3 && r3[HeaderMaxAge] == Itoa(p.opts.maxAge / Second)
    requires p.opts.maxAge <= 0 ==> Kept(h, r3, HeaderMaxAge)
    requires Kept(r3, r, HeaderAllowMethods) && Kept(r3, r, HeaderAllowHeaders) && Kept(r3, r, HeaderMaxAge)
    requires VaryHas(r, HeaderRequestMethod) && VaryHas(r, HeaderRequestHeaders)
    requires forall k :: !PreflightHeader(k) ==> Kept(h, r, k)
    ensures PreflightHeadersSet(p, req, h, r)
  {
  }

  /**
   * PreflightValues then PreflightVary keep every header a preflight does not
   * set, the origin headers among them, and the Vary step keeps the values.
   */
  lemma PreflightFrame(h: map<string, string>, r3: map<string, string>, r: map<string, string>)
    requires forall k :: k != HeaderAllowMethods && k != HeaderAllowHeaders && k != HeaderMaxAge ==> Kept(h, r3, k)
    requires forall k :: k != HeaderVary ==> Kept(r3, r, k)
    ensures forall k :: !PreflightHeader(k) ==> Kept(h, r, k)
    ensures Kept(h, r, HeaderAllowOrigin) && Kept(h, r, HeaderAllowCredentials)
    ensures Kept(r3, r, HeaderAllowMethods) && Kept(r3, r, HeaderAllowHeaders) && Kept(r3, r, HeaderMaxAge)
  {
    CorsHeadersDistinct();
    assert Kept(h, r3, HeaderAllowOrigin) && Kept(h, r3, HeaderAllowCredentials);
    assert Kept(r3, r, HeaderAllowOrigin) && Kept(r3, r, HeaderAllowCredentials);
    assert Kept(r3, r, HeaderAllowMethods) && Kept(r3, r, HeaderAllowHeaders) && Kept(r3, r, HeaderMaxAge);
    forall k | !PreflightHeader(k)
      ensures Kept(h, r, k)
    {
      assert Kept(h, r3, k) && Kept(r3, r, k);
    }
  }

  /** Two header maps whose Vary has the same pieces name the same values. */
  lemma VaryHasSameParts(a: map<string, string>, b: map<string, string>, v: string)
    requires VaryParts(a) == VaryParts(b)
    ensures VaryHas(a, v) == VaryHas(b, v)
  {
  }

  /** The header preparation for an allowed request that is not a preflight. */
  method AllowedSimple(p: Policy, req: CorsRequest, h: map<string, string>) returns (r: map<string, string>)
    requires !IsPreflight(req)
    ensures AllowedHeadersSet(p, req, h, r)
  {
    CorsHeadersDistinct();
    var r2 := SetOriginHeaders(p, req.origin, h);
    r := r2;
    if p.exposedCSV != "" {
      r := r2[HeaderExposeHeaders := p.exposedCSV];
      SetKeepsVary(r2, HeaderExposeHeaders, p.exposedCSV);
    }
    VaryHasSameParts(r2, r, HeaderOrigin);
    OriginHeadersKept(p, req.origin, h, r2, r);
    forall k | !SimpleHeader(k)
      ensures Kept(h, r, k)
    {
      assert Kept(h, r2, k);
    }
  }

  /**
   * The CORS middleware serving one request whose handler makes the calls
   * `next`. `handed` is the response as the middleware leaves it before
   * calling next or answering the preflight with 204. A request outside
   * CORS, or a simple request from an origin that is not allowed, passes
   * through untouched; a preflight from such an origin gets a bare 204;
   * an allowed request gets the headers AllowedHeadersSet describes.
   */
  method ServeCORS(p: Policy, req: CorsRequest, next: seq<Call>, w: Response)
    returns (out: Response, handed: Response, calledNext: bool)
    ensures calledNext ==> out == Play(handed, next)
    ensures !calledNext ==> out == HeaderWritten(handed, StatusNoContent)
    ensures handed.status == w.status && handed.body == w.body && handed.room == w.room
    ensures !Applies(p, req) ==> calledNext && handed == w
    ensures Applies(p, req) && !Allowed(p, req.origin) ==> handed == w && (calledNext <==> !IsPreflight(req))
    ensures Applies(p, req) && Allowed(p, req.origin) ==> (calledNext <==> !IsPreflight(req))
    ensures Applies(p, req) && Allowed(p, req.origin) ==> AllowedHeadersSet(p, req, w.header, handed.header)
  {
    if p.opts.allowedOrigins == [] || req.origin == "" {
      return Play(w, next), w, true;
    }
    var preflight := req.verb == MethodOptions && req.requestMethod != "";
    var ok := OriginAllowed(req.origin, p.opts.allowedOrigins);
    if !ok {
      if preflight {
        return HeaderWritten(w, StatusNoContent), w, false;
      }
      return Play(w, next), w, true;
    }
    if preflight {
      var h := AllowedPreflight(p, req, w.header);
      handed := w.(header := h);
      return HeaderWritten(handed, StatusNoContent), handed, false;
    }
    var h := AllowedSimple(p, req, w.header);
    handed := w.(header := h);
    out := Play(handed, next);
    calledNext := true;
  }
}
