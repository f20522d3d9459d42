/**
 * Go's context.Context as far as the toolkit uses it: a nil context, or a
 * context carrying values under keys. context.WithValue shadows an earlier
 * value for the same key, which a map update expresses directly.
 */
module Context {
  import opened Wrappers
  import opened Http

  /** The unexported key types the packages store values under. */
  datatype Key = ParamsKey | RequestIdKey | ReqMetaKey | AppKey(id: nat)

  /** What is stored: route parameters, a string, a pointer, or anything else. */
  datatype Value = ParamList(params: seq<RouteParam>) | Text(s: string) | Ref(obj: object) | Opaque(id: nat)

  datatype Ctx = NilCtx | Ctx(values: map<Key, Value>)

  /** context.Background() */
  function Background(): Ctx {
    Ctx(map[])
  }

  /** ctx.Value(key) on a non-nil context; None stands for a nil result. */
  function Lookup(c: Ctx, k: Key): (r: Option<Value>)
    requires c.Ctx?
    ensures r.Some? <==> k in c.values
  {
    if k in c.values then Some(c.values[k]) else None
  }

  /** context.WithValue: Go refuses a nil parent. */
  function WithValue(c: Ctx, k: Key, v: Value): (r: Ctx)
    requires c.Ctx?
    ensures r.Ctx? && Lookup(r, k) == Some(v)
    ensures forall other :: other != k ==> Lookup(r, other) == Lookup(c, other)
  {
    Ctx(c.values[k := v])
  }
}
