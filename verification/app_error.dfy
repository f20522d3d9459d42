/**
 * errors/app_error.go and errors/timeout.go: building *AppError values,
 * lifting other errors to them, and attaching client-visible fields.
 *
 * Go maps are references, so an AppError's Fields map is a FieldMap object
 * and the methods that fill one are imperative. CloneAppErrorAsWritten,
 * WithFieldAsWritten and WithFieldsAsWritten follow the code line by line;
 * CloneAppError, WithField and WithFields copy every non-nil map, which is
 * what the copy in cloneAppError is evidently for (see README, Findings).
 */
module AppErrors {
  import opened Wrappers
  import opened Http
  import opened GoErrors

  /** Status, code, message and cause: everything of an AppError but its map. */
  predicate SameHead(a: AppError, b: AppError) {
    a.status == b.status && a.code == b.code && a.message == b.message && a.cause == b.cause
  }

  /** The map object an AppError points at, if any. */
  function FieldsRef(a: AppError): set<FieldMap> {
    if a.fields.Some? then {a.fields.value} else {}
  }

  /** The entries an AppError carries; a nil map has none. */
  function Entries(a: AppError): (m: map<string, string>)
    reads FieldsRef(a)
    ensures a.fields.None? ==> m == map[]
  {
    if a.fields.Some? then a.fields.value.entries else map[]
  }

  /** E: an AppError with no fields and no cause. */
  function E(status: int, code: string, message: string): (r: AppError)
    ensures r.fields.None? && r.cause.None?
    ensures r.status == status && r.code == code && r.message == message
  {
    AppError(status, code, message, None, None)
  }

  /** Wrap: like E, but keeping a non-nil cause. */
  function Wrap(cause: Option<Err>, status: int, code: string, message: string): (r: AppError)
    ensures r.fields.None? && r.cause == cause
    ensures SameHead(r, E(status, code, message).(cause := cause))
  {
    if cause.None? then E(status, code, message)
    else AppError(status, code, message, None, cause)
  }

  /** Timeout: 504 with code "timeout" and message "request timed out". */
  function Timeout(): (r: AppError)
    ensures r.status == StatusGatewayTimeout && r.code == CodeTimeout && r.message == MsgTimeout
    ensures r.fields.None? && r.cause.None?
  {
    E(StatusGatewayTimeout, CodeTimeout, MsgTimeout)
  }

  /** The 500 internal_error the package falls back to, with an optional cause. */
  function Internal(cause: Option<Err>): (r: AppError)
    ensures r.status == StatusInternalServerError && r.code == CodeInternal && r.message == MsgInternal
    ensures r.fields.None? && r.cause == cause
  {
    AppError(StatusInternalServerError, CodeInternal, MsgInternal, None, cause)
  }

  /**
   * asAppError: the first non-nil *AppError in the error tree; any other error
   * (a nil *AppError included) becomes a 500 internal_error caused by it.
   */
  function AsAppError(e: Err): (r: AppError)
    ensures AppOf(e).Some? ==> r == AppOf(e).value
    ensures AppOf(e).None? ==> r == Internal(Some(e))
  {
    match AppOf(e)
    case Some(a) => a
    case None => Internal(Some(e))
  }

  /** Wrap with a nil cause is E. */
  lemma WrapNilIsE(status: int, code: string, message: string)
    ensures Wrap(None, status, code, message) == E(status, code, message)
  {
  }

  /** The text of Timeout() is its message, and lifting it changes nothing. */
  lemma TimeoutText()
    ensures AppErrorText(Some(Timeout())) == MsgTimeout
    ensures AsAppError(App(Timeout())) == Timeout()
  {
  }

  /** Lifting looks through %w wrapping: the wrapper and the wrapped error lift alike when the latter is an AppError. */
  lemma {:induction false} AsAppErrorThroughWrap(msg: string, inner: Err)
    requires AppOf(inner).Some?
    ensures AsAppError(Err.Wrapped(msg, inner)) == AsAppError(inner)
  {
    assert AsApp(Err.Wrapped(msg, inner)) == AsApp(inner);
  }

  /** A lifted error is never nil-like: its text is never empty. */
  lemma LiftedTextNonEmpty(e: Err)
    ensures AppErrorText(Some(AsAppError(e))) != ""
  {
  }

  /** Stores every entry of `fields` into `target`, one at a time, later keys overwriting nothing but their own. */
  method PutAll(target: FieldMap, fields: map<string, string>)
    modifies target
    ensures target.entries == old(target.entries) + fields
  {
    var todo := fields.Keys;
    while todo != {}
      invariant todo <= fields.Keys
      invariant target.entries == old(target.entries) + (fields - todo)
      decreases |todo|
    {
      var k :| k in todo;
      MergeStep(old(target.entries), fields, todo, k);
      target.entries := target.entries[k := fields[k]];
      todo := todo - {k};
    }
    assert fields - {} == fields;
  }

  /** Moving one key out of the pending set adds exactly that key's entry. */
  lemma MergeStep(base: map<string, string>, fields: map<string, string>, todo: set<string>, k: string)
    requires k in todo && todo <= fields.Keys
    ensures base + (fields - (todo - {k})) == (base + (fields - todo))[k := fields[k]]
  {
  }

  /** A fresh map holding a copy of `src`'s entries. */
  method CopyFields(src: FieldMap) returns (dst: FieldMap)
    ensures fresh(dst) && dst.entries == src.entries
  {
    dst := new FieldMap(map[]);
    PutAll(dst, src.entries);
  }

  /**
   * cloneAppError as written: nil becomes a 500 internal_error; otherwise a
   * copy of the struct whose map is copied only when it has entries, so an
   * empty non-nil map stays shared with the original.
   */
  method CloneAppErrorAsWritten(input: Option<AppError>) returns (out: AppError)
    ensures input.None? ==> out == Internal(None)
    ensures input.Some? ==> SameHead(out, input.value) && Entries(out) == Entries(input.value)
    ensures input.Some? && |Entries(input.value)| > 0 ==> out.fields.Some? && fresh(out.fields.value)
    ensures input.Some? && |Entries(input.value)| == 0 ==> out == input.value
  {
    if input.None? {
      return Internal(None);
    }
    out := input.value;
    if out.fields.Some? && |out.fields.value.entries| > 0 {
      var copy := CopyFields(out.fields.value);
      out := out.(fields := Some(copy));
    }
  }

  /** cloneAppError as intended: every non-nil map is copied, so the clone shares nothing. */
  method CloneAppError(input: Option<AppError>) returns (out: AppError)
    ensures input.None? ==> out == Internal(None)
    ensures input.Some? ==> SameHead(out, input.value) && Entries(out) == Entries(input.value)
    ensures input.Some? ==> (out.fields.Some? <==> input.value.fields.Some?)
    ensures out.fields.Some? ==> fresh(out.fields.value)
  {
    if input.None? {
      return Internal(None);
    }
    out := input.value;
    if out.fields.Some? {
      var copy := CopyFields(out.fields.value);
      out := out.(fields := Some(copy));
    }
  }

  /** The map an error would be cloned from, when it has one. */
  function SourceRefs(err: Option<Err>): set<FieldMap> {
    if err.Some? then FieldsRef(AsAppError(err.value)) else {}
  }

  /** An error whose AppError has a non-nil but empty map: cloning it as written shares the map. */
  predicate SharesOnClone(err: Option<Err>)
    reads SourceRefs(err)
  {
    err.Some? && AsAppError(err.value).fields.Some? && |Entries(AsAppError(err.value))| == 0
  }

  /**
   * WithField as written: nil stays nil; otherwise the lifted error's clone
   * with key set to val. When the original's map is empty but non-nil, that
   * very map receives the new entry; a nil or non-empty map is left as it was.
   */
  method WithFieldAsWritten(err: Option<Err>, key: string, val: string) returns (r: Option<Err>)
    modifies SourceRefs(err)
    ensures err.None? ==> r.None?
    ensures err.Some? ==> r.Some? && r.value.App? && SameHead(r.value.app, AsAppError(err.value))
    ensures err.Some? ==> Entries(r.value.app) == old(Entries(AsAppError(err.value)))[key := val]
    ensures old(SharesOnClone(err)) ==> r.value.app.fields == AsAppError(err.value).fields
    ensures !old(SharesOnClone(err)) ==> forall m :: m in SourceRefs(err) && old(allocated(m)) ==> m.entries == old(m.entries)
  {
    if err.None? {
      return None;
    }
    var base := AsAppError(err.value);
    ghost var before := Entries(base);
    var out := CloneAppErrorAsWritten(Some(base));
    if out.fields.None? {
      var m := new FieldMap(map[]);
      out := out.(fields := Some(m));
    }
    var target := out.fields.value;
    assert target.entries == before;
    target.entries := target.entries[key := val];
    r := Some(App(out));
  }

  /** WithField as intended: the same result, written into a map no other error holds. */
  method WithField(err: Option<Err>, key: string, val: string) returns (r: Option<Err>)
    ensures err.None? ==> r.None?
    ensures err.Some? ==> r.Some? && r.value.App? && SameHead(r.value.app, AsAppError(err.value))
    ensures err.Some? ==> Entries(r.value.app) == Entries(AsAppError(err.value))[key := val]
    ensures err.Some? ==> r.value.app.fields.Some? && fresh(r.value.app.fields.value)
  {
    if err.None? {
      return None;
    }
    var out := CloneAppError(Some(AsAppError(err.value)));
    if out.fields.None? {
      var m := new FieldMap(map[]);
      out := out.(fields := Some(m));
    }
    var target := out.fields.value;
    target.entries := target.entries[key := val];
    r := Some(App(out));
  }

  /**
   * WithFields as written: nil stays nil and an empty map returns the error
   * itself; otherwise the clone carries the old entries overridden by the new
   * ones, and an empty non-nil original map receives them too; a nil or
   * non-empty one is left as it was.
   */
  method WithFieldsAsWritten(err: Option<Err>, fields: map<string, string>) returns (r: Option<Err>)
    modifies SourceRefs(err)
    ensures err.None? ==> r.None?
    ensures err.Some? && fields == map[] ==> r == err
    ensures err.Some? && fields != map[] ==>
      r.Some? && r.value.App? && SameHead(r.value.app, AsAppError(err.value))
      && Entries(r.value.app) == old(Entries(AsAppError(err.value))) + fields
    ensures fields != map[] && old(SharesOnClone(err)) ==> r.value.app.fields == AsAppError(err.value).fields
    ensures !old(SharesOnClone(err)) ==> forall m :: m in SourceRefs(err) && old(allocated(m)) ==> m.entries == old(m.entries)
  {
    if err.None? {
      return None;
    }
    if fields == map[] {
      return err;
    }
    var base := AsAppError(err.value);
    ghost var before := Entries(base);
    var out := CloneAppErrorAsWritten(Some(base));
    if out.fields.None? {
      var m := new FieldMap(map[]);
      out := out.(fields := Some(m));
    }
    var target := out.fields.value;
    assert target.entries == before;
    PutAll(target, fields);
    r := Some(App(out));
  }

  /** WithFields as intended: the same result, written into a map no other error holds. */
  method WithFields(err: Option<Err>, fields: map<string, string>) returns (r: Option<Err>)
    ensures err.None? ==> r.None?
    ensures err.Some? && fields == map[] ==> r == err
    ensures err.Some? && fields != map[] ==>
      r.Some? && r.value.App? && SameHead(r.value.app, AsAppError(err.value))
      && Entries(r.value.app) == Entries(AsAppError(err.value)) + fields
      && r.value.app.fields.Some? && fresh(r.value.app.fields.value)
  {
    if err.None? {
      return None;
    }
    if fields == map[] {
      return err;
    }
    var base := AsAppError(err.value);
    var out := CloneAppError(Some(base));
    if out.fields.None? {
      var m := new FieldMap(map[]);
      out := out.(fields := Some(m));
    }
    var target := out.fields.value;
    assert target.entries == Entries(base);
    PutAll(target, fields);
    r := Some(App(out));
  }

  /**
   * An AppError created with an empty, non-nil field map: adding one field
   * through the code as written also adds it to the original error.
   */
  method SharedMapExample() returns (before: map<string, string>, after: map<string, string>)
    ensures before == map[] && after == map["id" := "1"]
  {
    var m := new FieldMap(map[]);
    var original := App(AppError(StatusBadRequest, "bad_request", "bad request", Some(m), None));
    before := m.entries;
    var _ := WithFieldAsWritten(Some(original), "id", "1");
    after := m.entries;
  }

  /** The same call through the intended clone leaves the original error's map empty. */
  method SeparateMapExample() returns (before: map<string, string>, after: map<string, string>, added: map<string, string>)
    ensures before == map[] && after == map[] && added == map["id" := "1"]
  {
    var m := new FieldMap(map[]);
    var original := App(AppError(StatusBadRequest, "bad_request", "bad request", Some(m), None));
    before := m.entries;
    var r := WithField(Some(original), "id", "1");
    after := m.entries;
    added := Entries(r.value.app);
  }
}
