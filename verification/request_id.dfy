/**
 * httpkit/middleware/request_id.go: choosing the request id, storing it in
 * the context and on the response, and reading it back. The random bytes
 * and the clock reading newReqID falls back to are inputs.
 */
module RequestIds {
  import opened Wrappers
  import opened GoStrings
  import opened Context
  import opened HttpWriter

  const RequestIdHeader := "X-Request-Id"

  /** ReqID: the string stored under the request-id key; "" for a nil context or any other value. */
  function ReqID(ctx: Ctx): (id: string)
    ensures ctx.NilCtx? ==> id == ""
    ensures ctx.Ctx? && (RequestIdKey !in ctx.values || !ctx.values[RequestIdKey].Text?) ==> id == ""
    ensures ctx.Ctx? && RequestIdKey in ctx.values && ctx.values[RequestIdKey].Text? ==> id == ctx.values[RequestIdKey].s
  {
    if ctx.NilCtx? then ""
    else match Lookup(ctx, RequestIdKey)
      case Some(Text(s)) => s
      case _ => ""
  }

  /** GetRequestID is ReqID under another name. */
  function GetRequestID(ctx: Ctx): (id: string)
    ensures id == ReqID(ctx)
  {
    ReqID(ctx)
  }

  /** A lower-case hex digit. */
  predicate IsHexDigit(c: char) {
    '0' <= c <= '9' || 'a' <= c <= 'f'
  }

  /** The lower-case hex digit for a value below 16. */
  function HexDigit(v: nat): (c: char)
    requires v < 16
    ensures IsHexDigit(c) && HexValue(c) == v
  {
    if v < 10 then ('0' as int + v) as char else ('a' as int + v - 10) as char
  }

  /** The value of one lower-case hex digit. */
  function HexValue(c: char): (v: nat)
    requires IsHexDigit(c)
    ensures v < 16
  {
    if c <= '9' then c as int - '0' as int else c as int - 'a' as int + 10
  }

  /** The two hex digits of one byte, high nibble first. */
  function HexByte(x: byte): (s: string)
    ensures |s| == 2 && IsHexDigit(s[0]) && IsHexDigit(s[1])
    ensures PairValue(s[0], s[1]) == x
  {
    [HexDigit(x / 16), HexDigit(x % 16)]
  }

  /** A string of lower-case hex digits. */
  predicate IsHex(s: string) {
    forall i :: 0 <= i < |s| ==> IsHexDigit(s[i])
  }

  /** hex.EncodeToString: two lower-case hex digits per byte. */
  function HexEncode(b: seq<byte>): (s: string)
    ensures |s| == 2 * |b|
    ensures IsHex(s)
  {
    if b == [] then "" else HexByte(b[0]) + HexEncode(b[1..])
  }

  /** hex.DecodeString on a string of lower-case hex digit pairs. */
  function HexDecode(s: string): seq<byte>
    requires |s| % 2 == 0 && IsHex(s)
  {
    if s == [] then [] else [PairValue(s[0], s[1])] + HexDecode(s[2..])
  }

  /** Hex text followed by hex text is hex text. */
  lemma HexConcat(h: string, t: string)
    requires IsHex(h) && IsHex(t)
    ensures IsHex(h + t)
  {
    forall i | 0 <= i < |h + t|
      ensures IsHexDigit((h + t)[i])
    {
      if i >= |h| {
        assert (h + t)[i] == t[i - |h|];
      }
    }
  }

  /** The byte a pair of hex digits stands for. */
  function PairValue(hi: char, lo: char): nat
    requires IsHexDigit(hi) && IsHexDigit(lo)
  {
    16 * HexValue(hi) + HexValue(lo)
  }

  /** Decoding reads one byte from the front of the text. */
  lemma DecodeFront(x: byte, t: string)
    requires |t| % 2 == 0 && IsHex(t)
    ensures IsHex(HexByte(x) + t)
    ensures HexDecode(HexByte(x) + t) == [x] + HexDecode(t)
  {
    var h := HexByte(x);
    var s := h + t;
    HexConcat(h, t);
    assert s[0] == h[0] && s[1] == h[1] && s[2..] == t;
    assert PairValue(s[0], s[1]) == x;
  }

  /** Decoding the hex text of some bytes gives those bytes back. */
  lemma {:induction false} HexRoundTrip(b: seq<byte>)
    ensures IsHex(HexEncode(b))
    ensures HexDecode(HexEncode(b)) == b
  {
    if b != [] {
      HexRoundTrip(b[1..]);
      DecodeFront(b[0], HexEncode(b[1..]));
    }
  }

  const TwoTo64: int := 0x1_0000_0000_0000_0000

  /** The golden-ratio constant the fallback mixes into the second half. */
  const Golden: int := 0x9e3779b97f4a7c15

  /** uint64(n): the two's-complement wrap of a Go int64. */
  function Uint64(n: int): (u: int)
    ensures 0 <= u < TwoTo64 && (u - n) % TwoTo64 == 0
  {
    n % TwoTo64
  }

  /** binary.LittleEndian.PutUint64: `count` bytes of `u`, least significant first. */
  function LittleEndian(u: nat, count: nat): (b: seq<byte>)
    ensures |b| == count
  {
    if count == 0 then [] else [u % 256] + LittleEndian(u / 256, count - 1)
  }

  /** Bitwise exclusive or of two 64-bit values. */
  function Xor64(a: int, b: int): (r: int)
    requires 0 <= a < TwoTo64 && 0 <= b < TwoTo64
    ensures 0 <= r < TwoTo64
  {
    ((a as bv64) ^ (b as bv64)) as int
  }

  /** What crypto/rand gave: 16 bytes, or a failure at a clock reading in nanoseconds. */
  datatype Entropy = Random(bytes: seq<byte>) | Failed(nowNanos: int)

  predicate WellFormed(e: Entropy) {
    e.Random? ==> |e.bytes| == 16
  }

  /** The 16 bytes newReqID encodes. */
  function IdBytes(e: Entropy): (b: seq<byte>)
    requires WellFormed(e)
    ensures |b| == 16
    ensures e.Random? ==> b == e.bytes
  {
    match e
    case Random(bytes) => bytes
    case Failed(now) =>
      var u := Uint64(now);
      LittleEndian(u, 8) + LittleEndian(Xor64(u, Golden), 8)
  }

  /** newReqID: 32 lower-case hex digits, the bytes it was made from readable back. */
  function NewReqID(e: Entropy): (id: string)
    requires WellFormed(e)
    ensures |id| == 32
    ensures IsHex(id)
    ensures HexDecode(id) == IdBytes(e)
  {
    HexRoundTrip(IdBytes(e));
    HexEncode(IdBytes(e))
  }

  /**
   * RequestID for one request: the incoming X-Request-Id header when it is
   * non-empty, a fresh id otherwise; the same id goes into the context the
   * next handler sees and onto the response header.
   */
  function RequestID(incoming: string, e: Entropy, ctx: Ctx, w: Response): (r: (string, Ctx, Response))
    requires WellFormed(e) && ctx.Ctx?
    ensures incoming != "" ==> r.0 == incoming
    ensures incoming == "" ==> r.0 == NewReqID(e)
    ensures r.0 != ""
    ensures ReqID(r.1) == r.0
    ensures RequestIdHeader in r.2.header && r.2.header[RequestIdHeader] == r.0
    ensures forall k :: k != RequestIdKey ==> Lookup(r.1, k) == Lookup(ctx, k)
    ensures r.2.status == w.status && r.2.body == w.body
  {
    var id := if incoming != "" then incoming else NewReqID(e);
    (id, WithValue(ctx, RequestIdKey, Text(id)), HeaderSet(w, RequestIdHeader, id))
  }
}
