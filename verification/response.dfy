/**
 * The net/http ResponseWriter at the bottom of every wrapper, and the
 * io.Reader a handler may stream from.
 *
 * A response sends its status once: the first WriteHeader wins and a Write
 * before any WriteHeader sends 200. The connection may take only `room`
 * more bytes; a write beyond that is cut short and fails.
 */
module HttpWriter {
  import opened Wrappers
  import opened GoStrings
  import opened GoErrors
  import opened Http

  const HeaderContentType := "Content-Type"
  const ContentTypeJSON := "application/json; charset=utf-8"

  /** The error a write past the end of the connection reports. */
  const ErrClosed: Err := Text("connection closed")

  /** A response as the handler sees it: the header map (which keeps changes made after the status was sent), the status (0 until sent), the body, and the room left (None: unlimited). */
  datatype Response = Response(header: map<string, string>, status: int, body: seq<byte>, room: Option<nat>)

  /** A response nothing has been written to yet. */
  function Blank(room: Option<nat>): (r: Response)
    ensures r.status == 0 && r.body == [] && r.header == map[]
  {
    Response(map[], 0, [], room)
  }

  /** The result of a write: the response afterwards, the byte count reported and the error. */
  datatype Written = Written(resp: Response, n: nat, err: Option<Err>)

  /**
   * A reader, as the sequence of its Read results: each chunk is returned by
   * one Read with a nil error, then Read returns 0 and `end` (EOF when the
   * stream simply ends).
   */
  datatype Source = Source(chunks: seq<seq<byte>>, end: Err)

  /** All the bytes of a sequence of chunks, in order. */
  function Flatten(chunks: seq<seq<byte>>): (all: seq<byte>)
    ensures chunks == [] ==> all == []
  {
    if chunks == [] then [] else chunks[0] + Flatten(chunks[1..])
  }

  /** Header().Set(name, value) */
  function HeaderSet(r: Response, name: string, value: string): (s: Response)
    ensures s.header == r.header[name := value]
    ensures s.status == r.status && s.body == r.body && s.room == r.room
  {
    r.(header := r.header[name := value])
  }

  /** Header().Get(name): "" when the header is absent. */
  function HeaderGet(r: Response, name: string): (v: string)
    ensures name in r.header ==> v == r.header[name]
    ensures name !in r.header ==> v == ""
  {
    if name in r.header then r.header[name] else ""
  }

  /** WriteHeader(code): sends the status unless one was already sent. */
  function HeaderWritten(r: Response, code: int): (s: Response)
    ensures r.status == 0 ==> s == r.(status := code)
    ensures r.status != 0 ==> s == r
  {
    if r.status == 0 then r.(status := code) else r
  }

  /**
   * Write(p): sends 200 first when no status was sent, then as much of `p`
   * as the connection takes; a short write fails.
   */
  function BodyWritten(r: Response, p: seq<byte>): (w: Written)
    ensures w.n <= |p| && w.resp.body == r.body + p[..w.n]
    ensures w.err.None? <==> w.n == |p|
    ensures r.room.None? ==> w.n == |p|
    ensures w.resp.status == (if r.status == 0 then StatusOK else r.status)
    ensures w.resp.header == r.header
  {
    var n := if r.room.None? || |p| <= r.room.value then |p| else r.room.value;
    var room := if r.room.None? then None else Some(r.room.value - n);
    var status := if r.status == 0 then StatusOK else r.status;
    Written(Response(r.header, status, r.body + p[..n], room), n, if n == |p| then None else Some(ErrClosed))
  }

  /** Adds `k` to the byte count of a write result. */
  function Shift(w: Written, k: nat): Written {
    w.(n := w.n + k)
  }

  /**
   * io.Copy(w, src) onto a response: each non-empty chunk is written in
   * turn; a failed write stops with its error, a short one with
   * io.ErrShortWrite; at the end EOF means success and any other error is
   * returned. The count is the number of bytes that reached the response.
   */
  function Copied(r: Response, chunks: seq<seq<byte>>, end: Err): (w: Written)
    ensures w.n <= |Flatten(chunks)|
    ensures w.resp.body == r.body + Flatten(chunks)[..w.n]
    ensures w.resp.header == r.header
    ensures w.err.None? ==> w.n == |Flatten(chunks)| && end == Sentinel(EOF)
    ensures end == Sentinel(EOF) && r.room.None? ==> w.err.None?
    decreases |chunks|
  {
    if chunks == [] then
      Written(r, 0, if end == Sentinel(EOF) then None else Some(end))
    else
      var c := chunks[0];
      var first := BodyWritten(r, c);
      if |c| == 0 then CopiedTail(r, chunks, end)
      else if first.err.Some? then first
      else CopiedTail(first.resp, chunks, end).(n := CopiedTail(first.resp, chunks, end).n + |c|)
  }

  /** The rest of a copy after its first chunk, written onto `r`. */
  function CopiedTail(r: Response, chunks: seq<seq<byte>>, end: Err): (w: Written)
    requires chunks != []
    ensures w.n <= |Flatten(chunks[1..])|
    ensures w.resp.body == r.body + Flatten(chunks[1..])[..w.n]
    ensures w.resp.header == r.header
    ensures w.err.None? ==> w.n == |Flatten(chunks[1..])| && end == Sentinel(EOF)
    ensures end == Sentinel(EOF) && r.room.None? ==> w.err.None?
    decreases |chunks|, 0
  {
    Copied(r, chunks[1..], end)
  }

  /** A copy loop's round over a non-empty chunk: a failed write ends the copy, a full one moves on. */
  lemma CopiedRound(r: Response, chunks: seq<seq<byte>>, i: nat, end: Err, total: nat, w: Written)
    requires i < |chunks| && |chunks[i]| > 0 && w == BodyWritten(r, chunks[i])
    ensures w.err.Some? ==> Shift(Copied(r, chunks[i..], end), total) == Written(w.resp, total + w.n, w.err)
    ensures w.err.None? ==> Shift(Copied(r, chunks[i..], end), total) == Shift(Copied(w.resp, chunks[i + 1..], end), total + w.n)
  {
    assert chunks[i..][0] == chunks[i] && chunks[i..][1..] == chunks[i + 1..];
  }

  /** A copy loop's round over an empty chunk writes nothing. */
  lemma CopiedSkip(r: Response, chunks: seq<seq<byte>>, i: nat, end: Err, total: nat)
    requires i < |chunks| && |chunks[i]| == 0
    ensures Shift(Copied(r, chunks[i..], end), total) == Shift(Copied(r, chunks[i + 1..], end), total)
  {
    assert chunks[i..][0] == chunks[i] && chunks[i..][1..] == chunks[i + 1..];
  }

  /** The calls a handler makes on its ResponseWriter. */
  datatype Call =
    | SetHeader(name: string, value: string)
    | WriteHeader(code: int)
    | Write(data: seq<byte>)
    | ReadFrom(src: Source)
    | SetErr(err: Option<Err>)   // only for writers that offer SetErr

  /** The call sends something: a status or body bytes. */
  predicate Sends(c: Call) {
    c.WriteHeader? || c.Write? || c.ReadFrom?
  }

  /** Some call of the script sends something. */
  predicate AnySends(calls: seq<Call>)
    decreases |calls|
  {
    calls != [] && (AnySends(calls[..|calls| - 1]) || Sends(calls[|calls| - 1]))
  }

  /** A script that sends nothing leaves the status and the body as they were. */
  lemma {:induction false} QuietScript(r: Response, calls: seq<Call>)
    requires !AnySends(calls)
    ensures Play(r, calls).status == r.status && Play(r, calls).body == r.body && Play(r, calls).room == r.room
    decreases |calls|
  {
    if calls != [] {
      var init := calls[..|calls| - 1];
      assert calls == init + [calls[|calls| - 1]];
      QuietScript(r, init);
      PlaySnoc(r, init, calls[|calls| - 1]);
    }
  }

  /** One call on the plain response; SetErr is not offered and does nothing. */
  function Step(r: Response, c: Call): Response {
    match c
    case SetHeader(k, v) => HeaderSet(r, k, v)
    case WriteHeader(code) => HeaderWritten(r, code)
    case Write(p) => BodyWritten(r, p).resp
    case ReadFrom(src) => Copied(r, src.chunks, src.end).resp
    case SetErr(_) => r
  }

  /** A script of calls on the plain response, in order. */
  function Play(r: Response, calls: seq<Call>): (s: Response)
    decreases |calls|
  {
    if calls == [] then r else Play(Step(r, calls[0]), calls[1..])
  }

  /** Playing two scripts one after the other is playing their concatenation. */
  lemma {:induction false} PlayConcat(r: Response, a: seq<Call>, b: seq<Call>)
    ensures Play(r, a + b) == Play(Play(r, a), b)
    decreases |a|
  {
    if a != [] {
      assert a + b != [];
      assert (a + b)[0] == a[0] && (a + b)[1..] == a[1..] + b;
      PlayConcat(Step(r, a[0]), a[1..], b);
    } else {
      assert a + b == b;
    }
  }

  /** A script is played one call at a time. */
  lemma PlaySnoc(r: Response, calls: seq<Call>, c: Call)
    ensures Play(r, calls + [c]) == Step(Play(r, calls), c)
  {
    PlayConcat(r, calls, [c]);
  }

  /** Once a status is sent, no later call changes it. */
  lemma {:induction false} StatusSticks(r: Response, calls: seq<Call>)
    requires r.status != 0
    ensures Play(r, calls).status == r.status
    decreases |calls|
  {
    if calls != [] {
      var s := Step(r, calls[0]);
      match calls[0] {
        case ReadFrom(src) => CopyKeepsStatus(r, src.chunks, src.end);
        case _ =>
      }
      StatusSticks(s, calls[1..]);
    }
  }

  /** A copy onto a response whose status is sent keeps that status. */
  lemma {:induction false} CopyKeepsStatus(r: Response, chunks: seq<seq<byte>>, end: Err)
    requires r.status != 0
    ensures Copied(r, chunks, end).resp.status == r.status
    decreases |chunks|
  {
    if chunks != [] {
      CopyKeepsStatus(BodyWritten(r, chunks[0]).resp, chunks[1..], end);
      CopyKeepsStatus(r, chunks[1..], end);
    }
  }

  /** The body only grows: every script leaves the earlier bytes in place. */
  lemma {:induction false} BodyGrows(r: Response, calls: seq<Call>)
    ensures r.body <= Play(r, calls).body
    decreases |calls|
  {
    if calls != [] {
      var s := Step(r, calls[0]);
      assert r.body <= s.body;
      BodyGrows(s, calls[1..]);
    }
  }
}
