/**
 * Go error values as the toolkit meets them: its own *AppError, the
 * package-level sentinels it compares against, the driver and library
 * errors it inspects, and errors wrapped around other errors with %w.
 * errors.Is and errors.As walk the tree of wrapped errors from the
 * outside in, depth first: an error made by errors.Join, or by fmt.Errorf
 * with several %w verbs, wraps a list of errors, searched in order.
 */
module GoErrors {
  import opened Wrappers
  import opened GoStrings

  const CodeInternal := "internal_error"
  const MsgInternal := "internal error"
  const CodeTimeout := "timeout"
  const MsgTimeout := "request timed out"

  /** A Go map[string]string: a reference, so two errors can share one. */
  class FieldMap {
    var entries: map<string, string>

    constructor(m: map<string, string>)
      ensures entries == m
    {
      entries := m;
    }
  }

  /** errors.AppError; `fields` is None for a nil map. */
  datatype AppError = AppError(
    status: int,
    code: string,
    message: string,
    fields: Option<FieldMap>,
    cause: Option<Err>)

  /** The package-level error values the toolkit compares against. */
  datatype Sentinel =
    | EOF               // io.EOF
    | ErrShortWrite     // io.ErrShortWrite
    | ErrNoRows         // sql.ErrNoRows
    | ErrTooManyRows    // dbkit.ErrTooManyRows
    | DeadlineExceeded  // context.DeadlineExceeded
    | Canceled          // context.Canceled

  /** A non-nil Go error value. */
  datatype Err =
    | App(app: AppError)                        // a non-nil *AppError
    | NilApp                                    // a nil *AppError stored in an error
    | Sentinel(s: Sentinel)
    | Text(msg: string)                         // errors.New(msg), or any error known only by its text
    | Wrapped(msg: string, inner: Err)          // fmt.Errorf with %w: the full text and the wrapped error
    | Joined(msg: string, errs: seq<Err>)       // errors.Join, or fmt.Errorf with several %w: the text and the wrapped errors
    | MySQL(number: int, msg: string)           // *mysql.MySQLError
    | SQLState(state: string, msg: string)      // a driver error with a SQLState() method
    | MaxBytes(limit: int)                      // *http.MaxBytesError
    | RowsAffected(expected: int, actual: int)  // dbkit.RowsAffectedError
    | HTTP(status: int, statusText: string, url: string, verb: string, body: seq<byte>) // *clientkit.HTTPError

  function SentinelText(s: Sentinel): string {
    match s
    case EOF => "EOF"
    case ErrShortWrite => "short write"
    case ErrNoRows => "sql: no rows in result set"
    case ErrTooManyRows => "dbkit: too many rows"
    case DeadlineExceeded => "context deadline exceeded"
    case Canceled => "context canceled"
  }

  /** (*AppError).Error(): "" on nil, else the message, else the code, else "internal error". */
  function AppErrorText(e: Option<AppError>): (s: string)
    ensures e.None? ==> s == ""
    ensures e.Some? && e.value.message != "" ==> s == e.value.message
    ensures e.Some? && e.value.message == "" && e.value.code != "" ==> s == e.value.code
    ensures e.Some? && e.value.message == "" && e.value.code == "" ==> s == MsgInternal
    ensures e.Some? ==> s != ""
  {
    match e
    case None => ""
    case Some(a) =>
      if a.message != "" then a.message
      else if a.code != "" then a.code
      else MsgInternal
  }

  /** err.Error() */
  function Message(e: Err): string {
    match e
    case App(a) => AppErrorText(Some(a))
    case NilApp => AppErrorText(None)
    case Sentinel(s) => SentinelText(s)
    case Text(m) => m
    case Wrapped(m, _) => m
    case Joined(m, _) => m
    case MySQL(_, m) => m
    case SQLState(_, m) => m
    case MaxBytes(_) => "http: request body too large"
    case RowsAffected(want, got) =>
      "dbkit: expected rows affected " + Itoa(want) + ", got " + Itoa(got)
    case HTTP(status, text, url, verb, _) =>
      "clientkit: http error " + Itoa(status) + " " + text + " " + verb + " " + url
  }

  /** errors.Is(e, s) for a sentinel: some error in the tree is `s`. */
  predicate Is(e: Err, s: Sentinel) {
    match e
    case Sentinel(t) => t == s
    case Wrapped(_, inner) => Is(inner, s)
    case Joined(_, errs) => exists i :: 0 <= i < |errs| && Is(errs[i], s)
    case _ => false
  }

  /** The first found value of a depth-first search over a list of wrapped errors. */
  function FirstSome<T>(xs: seq<Option<T>>): (r: Option<T>)
    ensures r.Some? <==> exists i :: 0 <= i < |xs| && xs[i].Some?
    ensures r.Some? ==> exists i :: 0 <= i < |xs| && xs[i] == r && forall j :: 0 <= j < i ==> xs[j].None?
  {
    if xs == [] then None else if xs[0].Some? then xs[0] else FirstSome(xs[1..])
  }

  /** errors.Is over a possibly nil error. */
  predicate IsErr(e: Option<Err>, s: Sentinel) {
    e.Some? && Is(e.value, s)
  }

  /**
   * errors.As(e, &app) with app a *AppError: the first *AppError in the
   * tree, Some(None) when it is a nil one, None when there is none.
   */
  function AsApp(e: Err): (r: Option<Option<AppError>>)
    ensures e.App? ==> r == Some(Some(e.app))
    ensures e.NilApp? ==> r == Some(None)
  {
    match e
    case App(a) => Some(Some(a))
    case NilApp => Some(None)
    case Wrapped(_, inner) => AsApp(inner)
    case Joined(_, errs) => FirstSome(seq(|errs|, i requires 0 <= i < |errs| => AsApp(errs[i])))
    case _ => None
  }

  /** errors.As(e, &app) && app != nil */
  function AppOf(e: Err): (r: Option<AppError>)
    ensures r.Some? <==> AsApp(e).Some? && AsApp(e).value.Some?
    ensures r.Some? ==> r == AsApp(e).value
  {
    match AsApp(e)
    case Some(Some(a)) => Some(a)
    case _ => None
  }

  /** errors.As(e, &my) with my a *mysql.MySQLError: its error number. */
  function AsMySQL(e: Err): Option<int> {
    match e
    case MySQL(n, _) => Some(n)
    case Wrapped(_, inner) => AsMySQL(inner)
    case Joined(_, errs) => FirstSome(seq(|errs|, i requires 0 <= i < |errs| => AsMySQL(errs[i])))
    case _ => None
  }

  /** errors.As(e, &pg) with pg an interface{ SQLState() string }: the state. */
  function AsSQLState(e: Err): Option<string> {
    match e
    case SQLState(st, _) => Some(st)
    case Wrapped(_, inner) => AsSQLState(inner)
    case Joined(_, errs) => FirstSome(seq(|errs|, i requires 0 <= i < |errs| => AsSQLState(errs[i])))
    case _ => None
  }

  /** errors.As(e, &maxErr) with maxErr a *http.MaxBytesError */
  predicate IsMaxBytes(e: Err) {
    match e
    case MaxBytes(_) => true
    case Wrapped(_, inner) => IsMaxBytes(inner)
    case Joined(_, errs) => exists i :: 0 <= i < |errs| && IsMaxBytes(errs[i])
    case _ => false
  }

  /** How a call ends: with a value, or with a panic carrying an error. */
  datatype Outcome<T> = Returns(value: T) | Panics(cause: Err)
}
