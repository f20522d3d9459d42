/**
 * obs/wrap.go: the per-request metadata the observability hooks share with
 * the Wrap middleware, the byte counter it holds, and the writer that feeds
 * that counter. Go's int64 arithmetic wraps and is written out here; the
 * width of Go's `int` is a parameter (32 or 64 bits).
 */
module ObsWrap {
  import opened Wrappers
  import opened GoStrings
  import opened GoErrors
  import opened Context
  import opened HttpWriter
  import RequestIds

  const TwoTo64: int := 0x1_0000_0000_0000_0000
  const MinInt64: int := -0x8000_0000_0000_0000
  const MaxInt64: int := 0x7fff_ffff_ffff_ffff

  /** int64(x) of an exact sum: the two's-complement wrap into 64 bits. */
  function Wrap64(x: int): (r: int)
    ensures MinInt64 <= r <= MaxInt64
    ensures MinInt64 <= x <= MaxInt64 ==> r == x
  {
    (x - MinInt64) % TwoTo64 + MinInt64
  }

  /** Wrapping after each step is wrapping once at the end. */
  lemma WrapTwice(x: int, k: int)
    ensures Wrap64(Wrap64(x) + k) == Wrap64(x + k)
  {
    var t := (x - MinInt64) / TwoTo64;
    assert Wrap64(x) == x - TwoTo64 * t;
    ModShift(x + k - MinInt64, t);
  }

  /** Subtracting a multiple of 2^64 does not change the remainder. */
  lemma ModShift(y: int, t: int)
    ensures (y - TwoTo64 * t) % TwoTo64 == y % TwoTo64
  {
    var q, r := y / TwoTo64, y % TwoTo64;
    assert y == TwoTo64 * q + r;
    assert y - TwoTo64 * t == TwoTo64 * (q - t) + r;
  }

  /** Go's `int` on a platform with `bits`-bit integers: its largest value. */
  function MaxInt(bits: nat): (m: int)
    requires bits == 32 || bits == 64
    ensures bits == 64 ==> m == MaxInt64
    ensures bits == 32 ==> m == 0x7fff_ffff
  {
    if bits == 64 then MaxInt64 else 0x7fff_ffff
  }

  /** int(n) for an int64 `n`: unchanged on 64 bits, the low 32 bits as a signed value on 32. */
  function IntOf(n: int, bits: nat): (v: int)
    requires bits == 32 || bits == 64
    ensures -MaxInt(bits) - 1 <= v <= MaxInt(bits)
    ensures -MaxInt(bits) - 1 <= n <= MaxInt(bits) ==> v == n
  {
    if bits == 64 then Wrap64(n) else (n + 0x8000_0000) % 0x1_0000_0000 - 0x8000_0000
  }

  /** byteCounter: a shared int64 count. */
  class ByteCounter {
    var n: int

    /** The count is an int64. */
    predicate Valid()
      reads this
    {
      MinInt64 <= n <= MaxInt64
    }

    /** &byteCounter{} */
    constructor()
      ensures n == 0 && Valid()
    {
      n := 0;
    }
  }

  /** The count after Add(k): unchanged for k <= 0, else the int64 sum, wrapped; it never goes down short of an overflow. */
  function Added(n: int, k: int): (r: int)
    ensures MinInt64 <= n <= MaxInt64 ==> MinInt64 <= r <= MaxInt64
    ensures k <= 0 ==> r == n
    ensures MinInt64 <= n && k > 0 && n + k <= MaxInt64 ==> r == n + k && r > n
  {
    if k <= 0 then n else Wrap64(n + k)
  }

  /** (*byteCounter).Add: a nil counter and non-positive counts are ignored. */
  method Add(c: ByteCounter?, k: int)
    requires c != null ==> c.Valid()
    modifies c
    ensures c != null ==> c.n == Added(old(c.n), k) && c.Valid()
  {
    if c == null || k <= 0 {
      return;
    }
    c.n := Wrap64(c.n + k);
  }

  /**
   * (*byteCounter).Value: 0 for a nil counter; a count above the largest
   * `int` is clamped to it, anything else converted to `int`.
   */
  function CountValue(c: ByteCounter?, bits: nat): (v: int)
    requires bits == 32 || bits == 64
    requires c != null ==> c.Valid()
    reads c
    ensures c == null ==> v == 0
    ensures v <= MaxInt(bits)
    ensures c != null && 0 <= c.n <= MaxInt(bits) ==> v == c.n
    ensures c != null && c.n > MaxInt(bits) ==> v == MaxInt(bits)
  {
    if c == null then 0
    else if c.n > MaxInt(bits) then MaxInt(bits)
    else IntOf(c.n, bits)
  }

  /** reqMeta: when the request started (None: the zero time), its id, and its byte counter. */
  class ReqMeta {
    var start: Option<int>
    var reqID: string
    const bytes: ByteCounter?

    constructor(start: Option<int>, reqID: string, bytes: ByteCounter?)
      ensures this.start == start && this.reqID == reqID && this.bytes == bytes
    {
      this.start := start;
      this.reqID := reqID;
      this.bytes := bytes;
    }
  }

  /** getReqMeta: the *reqMeta stored under reqMetaKey, or nil. */
  function GetReqMeta(ctx: Ctx): (m: ReqMeta?)
    ensures m != null <==>
      (ctx.Ctx? && ReqMetaKey in ctx.values && ctx.values[ReqMetaKey].Ref? && ctx.values[ReqMetaKey].obj is ReqMeta)
    ensures m != null ==> ctx.values[ReqMetaKey] == Ref(m)
  {
    if ctx.NilCtx? then null
    else match Lookup(ctx, ReqMetaKey)
      case Some(Ref(o)) => if o is ReqMeta then o as ReqMeta else null
      case _ => null
  }

  /** (*reqMeta).bytesValue: 0 for a nil meta or a nil counter. */
  function BytesValue(m: ReqMeta?, bits: nat): (v: int)
    requires bits == 32 || bits == 64
    requires m != null && m.bytes != null ==> m.bytes.Valid()
    reads m, if m != null then {m.bytes} else {}
    ensures m == null || m.bytes == null ==> v == 0
    ensures m != null ==> v == CountValue(m.bytes, bits)
  {
    if m == null then 0 else CountValue(m.bytes, bits)
  }

  /** (*reqMeta).reqIDValue: "" for a nil meta. */
  function ReqIDValue(m: ReqMeta?): (id: string)
    reads m
    ensures m == null ==> id == ""
    ensures m != null ==> id == m.reqID
  {
    if m == null then "" else m.reqID
  }

  /** countingWriter: passes every call through and adds the bytes written to the counter. */
  class CountingWriter {
    var out: Response
    const counter: ByteCounter?

    constructor(w: Response, counter: ByteCounter?)
      ensures out == w && this.counter == counter
    {
      out := w;
      this.counter := counter;
    }

    /** Write: the inner write, then its count added. */
    method Write(p: seq<byte>) returns (n: nat, err: Option<Err>)
      requires counter != null ==> counter.Valid()
      modifies this, counter
      ensures Written(out, n, err) == BodyWritten(old(out), p)
      ensures counter != null ==> counter.n == Added(old(counter.n), n) && counter.Valid()
    {
      var r := BodyWritten(out, p);
      out, n, err := r.resp, r.n, r.err;
      Add(counter, n);
    }

    /** ReadFrom: the copy, then its count added. */
    method ReadFrom(src: Source) returns (n: nat, err: Option<Err>)
      requires counter != null ==> counter.Valid()
      modifies this, counter
      ensures Written(out, n, err) == Copied(old(out), src.chunks, src.end)
      ensures counter != null ==> counter.n == Added(old(counter.n), n) && counter.Valid()
    {
      var r := Copied(out, src.chunks, src.end);
      out, n, err := r.resp, r.n, r.err;
      Add(counter, n);
    }

    /** One call of a script; other calls pass straight through. */
    method Do(c: Call)
      requires counter != null ==> counter.Valid()
      modifies this, counter
      ensures out == Step(old(out), c)
      ensures counter != null ==> counter.Valid()
      ensures counter != null ==> counter.n == Wrap64(old(counter.n) + |out.body| - |old(out.body)|)
    {
      var before := out.body;
      match c {
        case Write(p) =>
          var n, _ := Write(p);
        case ReadFrom(src) =>
          var n, _ := ReadFrom(src);
        case _ =>
          out := Step(out, c);
      }
    }

    /** A whole script: the counter ends up advanced by exactly the bytes the body grew by, modulo 2^64. */
    method Run(calls: seq<Call>)
      requires counter != null ==> counter.Valid()
      modifies this, counter
      ensures out == Play(old(out), calls)
      ensures counter != null ==> counter.Valid()
      ensures counter != null ==> counter.n == Wrap64(old(counter.n) + |out.body| - |old(out.body)|)
    {
      var i := 0;
      while i < |calls|
        invariant 0 <= i <= |calls|
        invariant out == Play(old(out), calls[..i])
        invariant counter != null ==> counter.Valid()
        invariant counter != null ==> counter.n == Wrap64(old(counter.n) + |out.body| - |old(out.body)|)
      {
        ghost var mid := out.body;
        ghost var c0 := if counter != null then counter.n else 0;
        Do(calls[i]);
        PlaySnoc(old(out), calls[..i], calls[i]);
        assert calls[..i + 1] == calls[..i] + [calls[i]];
        if counter != null {
          WrapTwice(old(counter.n) + |mid| - |old(out.body)|, |out.body| - |mid|);
        }
        i := i + 1;
      }
      assert calls[..i] == calls;
    }
  }

  /** The *reqMeta of a context and its counter: what the middleware may update. */
  function MetaRefs(ctx: Ctx): set<object?> {
    var m := GetReqMeta(ctx);
    if m == null then {} else {m, m.bytes}
  }

  /** The request's *reqMeta, or a fresh one with a zero counter stored in the context. */
  method AcquireMeta(ctx: Ctx) returns (seen: Ctx, meta: ReqMeta)
    requires ctx.Ctx?
    ensures GetReqMeta(ctx) != null ==> meta == GetReqMeta(ctx) && seen == ctx
    ensures GetReqMeta(ctx) == null ==> fresh(meta) && fresh(meta.bytes) && meta.bytes != null
    ensures GetReqMeta(ctx) == null ==> meta.start.None? && meta.reqID == "" && meta.bytes.n == 0 && meta.bytes.Valid()
    ensures GetReqMeta(ctx) == null ==> seen == WithValue(ctx, ReqMetaKey, Ref(meta))
    ensures GetReqMeta(seen) == meta
  {
    var found := GetReqMeta(ctx);
    seen := ctx;
    if found != null {
      meta := found;
    } else {
      var counter := new ByteCounter();
      meta := new ReqMeta(None, "", counter);
      seen := WithValue(ctx, ReqMetaKey, Ref(meta));
    }
  }

  /**
   * Wrap(next) serving one request whose handler makes the calls `next`
   * (None: a nil handler, which does nothing). The request's *reqMeta is
   * reused or created and stored in the context; the handler writes through
   * a counting writer feeding the meta's counter; an empty request id is
   * filled from the context, and failing that, after the handler, from the
   * request header and then the response header.
   */
  method ServeWrap(next: Option<seq<Call>>, ctx: Ctx, requestHeaderID: string, w: Response)
    returns (out: Response, seen: Ctx, meta: ReqMeta?)
    requires ctx.Ctx?
    requires GetReqMeta(ctx) != null && GetReqMeta(ctx).bytes != null ==> GetReqMeta(ctx).bytes.Valid()
    modifies MetaRefs(ctx)
    ensures next.None? ==> out == w && seen == ctx && meta == null
    ensures next.Some? ==> meta != null && GetReqMeta(seen) == meta && out == Play(w, next.value)
    ensures next.Some? && GetReqMeta(ctx) != null ==> meta == GetReqMeta(ctx) && seen == ctx
    ensures next.Some? && GetReqMeta(ctx) == null ==>
      fresh(meta) && meta.start.None? && seen == WithValue(ctx, ReqMetaKey, Ref(meta))
    ensures next.Some? ==> meta.reqID == FirstNonEmpty([old(ReqIDValue(GetReqMeta(ctx))),
      RequestIds.GetRequestID(ctx), requestHeaderID, HeaderGet(out, RequestIds.RequestIdHeader)])
    ensures next.Some? && GetReqMeta(ctx) == null ==> meta.bytes != null && meta.bytes.n == Wrap64(|out.body| - |w.body|)
    ensures next.Some? && meta != null && meta.bytes != null && GetReqMeta(ctx) != null ==>
      meta.bytes.n == Wrap64(old(meta.bytes.n) + |out.body| - |w.body|)
  {
    if next.None? {
      return w, ctx, null;
    }
    seen, meta := AcquireMeta(ctx);
    ghost var id0 := meta.reqID;
    assert RequestIds.GetRequestID(seen) == RequestIds.GetRequestID(ctx);
    if meta.reqID == "" {
      meta.reqID := RequestIds.GetRequestID(seen);
    }
    var cw := new CountingWriter(w, meta.bytes);
    cw.Run(next.value);
    out := cw.out;
    if meta.reqID == "" {
      meta.reqID := requestHeaderID;
      if meta.reqID == "" {
        meta.reqID := HeaderGet(out, RequestIds.RequestIdHeader);
      }
    }
    FirstOfFour(id0, RequestIds.GetRequestID(ctx), requestHeaderID, HeaderGet(out, RequestIds.RequestIdHeader));
  }

  /** The fallback chain of four ids, read left to right. */
  lemma FirstOfFour(a: string, b: string, c: string, d: string)
    ensures FirstNonEmpty([a, b, c, d]) ==
      if a != "" then a else if b != "" then b else if c != "" then c else d
  {
    var s := [a, b, c, d];
    assert s[1..] == [b, c, d] && s[1..][1..] == [c, d] && s[1..][1..][1..] == [d];
    assert FirstNonEmpty(s) == if a != "" then a else FirstNonEmpty([b, c, d]);
    assert FirstNonEmpty([b, c, d]) == if b != "" then b else FirstNonEmpty([c, d]);
    assert FirstNonEmpty([c, d]) == if c != "" then c else FirstNonEmpty([d]);
    assert FirstNonEmpty([d]) == d;
  }
}
