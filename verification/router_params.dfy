/**
 * router/params.go: route parameters travel in the request context under a
 * private key. A request that captured nothing carries no entry at all, and
 * reading the parameters of such a request gives the empty list.
 */
module RouteParams {
  import opened Wrappers
  import opened Http
  import opened Context

  /** Params: the list stored under the params key, or nothing when absent or of another type. */
  function Params(ctx: Ctx): (ps: seq<RouteParam>)
    requires ctx.Ctx?
    ensures ParamsKey !in ctx.values ==> ps == []
    ensures ParamsKey in ctx.values && ctx.values[ParamsKey].ParamList? ==> ps == ctx.values[ParamsKey].params
    ensures ParamsKey in ctx.values && !ctx.values[ParamsKey].ParamList? ==> ps == []
  {
    match Lookup(ctx, ParamsKey)
    case Some(ParamList(ps)) => ps
    case _ => []
  }

  /** withParams: stores the captured params, leaving the context alone when there are none. */
  function WithParams(ctx: Ctx, params: seq<RouteParam>): (r: Ctx)
    requires ctx.Ctx?
    ensures r.Ctx?
    ensures |params| == 0 ==> r == ctx
    ensures |params| > 0 ==> forall k :: k != ParamsKey ==> Lookup(r, k) == Lookup(ctx, k)
  {
    if |params| == 0 then ctx else WithValue(ctx, ParamsKey, ParamList(params))
  }

  /** What the router stores is what Params reads back; an empty capture leaves the old value visible. */
  lemma ParamsRoundTrip(ctx: Ctx, params: seq<RouteParam>)
    requires ctx.Ctx?
    ensures |params| > 0 ==> Params(WithParams(ctx, params)) == params
    ensures |params| == 0 ==> Params(WithParams(ctx, params)) == Params(ctx)
  {
    if |params| > 0 {
      assert Lookup(WithParams(ctx, params), ParamsKey) == Some(ParamList(params));
    }
  }

  /**
   * Param: the value of the first parameter named `key`, or "" when there is
   * none. A parameter captured with the empty value cannot be told apart
   * from a missing one; the router never captures empty values.
   */
  method Param(ctx: Ctx, key: string) returns (v: string)
    requires ctx.Ctx?
    ensures var ps := Params(ctx);
      || (exists i :: 0 <= i < |ps| && ps[i].key == key && v == ps[i].value
            && forall j :: 0 <= j < i ==> ps[j].key != key)
      || (v == "" && forall j :: 0 <= j < |ps| ==> ps[j].key != key)
  {
    var ps := Params(ctx);
    var i := 0;
    while i < |ps|
      invariant 0 <= i <= |ps|
      invariant forall j :: 0 <= j < i ==> ps[j].key != key
    {
      if ps[i].key == key {
        return ps[i].value;
      }
      i := i + 1;
    }
    return "";
  }
}
