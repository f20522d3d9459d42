/**
 * server/server.go: the route-builder facade over the router.
 *
 * Registration never panics here: every problem is recorded as the
 * server's build error, only the first one is kept, and Handler refuses to
 * build while one is recorded. Groups put a common prefix and their own
 * middleware in front of their routes. Middleware registered first ends up
 * outermost.
 */
module Server {
  import opened Wrappers
  import opened Http
  import opened GoStrings
  import opened AppConfig
  import opened RouteNode
  import opened RouteMatch
  import opened RouteMount
  import opened Routing

  /** The errors the facade records instead of panicking. */
  datatype BuildError =
    | ErrNilHandler
    | ErrInvalidPath
    | ErrInvalidPrefix
    | ErrTrailingPrefix
    | ErrInvalidRoute(cause: RegError)   // errInvalidRoute joined with the router's panic

  /** Preset values; any other value behaves as PresetMinimal. */
  const PresetMinimal: int := 0
  const PresetDefault: int := 1

  /** The request timeout PresetDefault installs. */
  const PresetTimeout: int := 5 * Second

  /** validatePrefix: the rule the router itself applies to mount prefixes. */
  function ValidatePrefix(prefix: string): (e: Option<BuildError>)
    ensures e.None? <==> ValidPrefix(prefix)
    ensures e == Some(ErrInvalidPrefix) <==> !HasPrefix(prefix, "/")
    ensures e.Some? ==> e.value == ErrInvalidPrefix || e.value == ErrTrailingPrefix
  {
    if prefix == "" || !HasPrefix(prefix, "/") then Some(ErrInvalidPrefix)
    else if prefix != "/" && HasSuffix(prefix, "/") then Some(ErrTrailingPrefix)
    else None
  }

  /** validatePath: a route path must start with '/'. */
  function ValidatePath(routePath: string): (e: Option<BuildError>)
    ensures e.None? <==> HasPrefix(routePath, "/")
    ensures e.Some? ==> e.value == ErrInvalidPath
  {
    if routePath == "" || !HasPrefix(routePath, "/") then Some(ErrInvalidPath) else None
  }

  /**
   * joinPaths: the full path of a route registered in a group, or the
   * first of the two validation errors.
   */
  function JoinPaths(prefix: string, routePath: string): (r: (string, Option<BuildError>))
    ensures ValidatePrefix(prefix).Some? ==> r == ("", ValidatePrefix(prefix))
    ensures ValidatePrefix(prefix).None? && ValidatePath(routePath).Some? ==> r == ("", ValidatePath(routePath))
    ensures r.1.None? <==> ValidPrefix(prefix) && HasPrefix(routePath, "/")
    ensures r.1.None? ==> HasPrefix(r.0, "/") && HasPrefix(r.0, prefix)
  {
    var e := ValidatePrefix(prefix);
    if e.Some? then ("", e)
    else
      var e2 := ValidatePath(routePath);
      if e2.Some? then ("", e2)
      else if prefix == "/" then (routePath, None)
      else if routePath == "/" then (prefix + "/", None)
      else (prefix + routePath, None)
  }

  /**
   * The joined path has the prefix's segments followed by the route's: the
   * root prefix adds none, and the route "/" adds one empty segment, so a
   * group's "/" route is the prefix with a trailing slash.
   */
  lemma JoinedSegments(prefix: string, routePath: string)
    requires ValidPrefix(prefix) && HasPrefix(routePath, "/")
    ensures var joined := JoinPaths(prefix, routePath).0;
      && (prefix == "/" ==> SplitPath(joined) == SplitPath(routePath))
      && (prefix != "/" && routePath != "/" ==> SplitPath(joined) == SplitPath(prefix) + SplitPath(routePath))
      && (prefix != "/" && routePath == "/" ==> SplitPath(joined) == SplitPath(prefix) + [""])
  {
    if prefix != "/" {
      var p := prefix[1..];
      var q := routePath[1..];
      assert prefix == "/" + p;
      assert routePath == "/" + q;
      var joined := JoinPaths(prefix, routePath).0;
      assert |joined| > 1;
      if routePath == "/" {
        assert joined == "/" + p + "/" + "";
        assert TrimPrefix(joined, "/") == p + ['/'] + "";
        SplitConcat(p, "", '/');
      } else {
        assert joined == "/" + (p + ['/'] + q);
        assert TrimPrefix(joined, "/") == p + ['/'] + q;
        SplitConcat(p, q, '/');
      }
    }
  }

  /** The non-nil middleware of `mws`, in order. */
  function Present(mws: seq<Option<Middleware>>): (r: seq<Middleware>)
    ensures |r| <= |mws|
    ensures forall m :: m in r <==> Some(m) in mws
    ensures (forall i :: 0 <= i < |mws| ==> mws[i].Some?) ==>
      |r| == |mws| && forall i :: 0 <= i < |mws| ==> r[i] == mws[i].value
  {
    if |mws| == 0 then []
    else
      var init := mws[..|mws| - 1];
      var last := mws[|mws| - 1];
      assert mws == init + [last];
      Present(init) + (if last.Some? then [last.value] else [])
  }

  /** The chain of middleware around a handler, outermost first. */
  function Layers(h: Handler): seq<Middleware> {
    if h.Wrapped? then [h.mw] + Layers(h.inner) else []
  }

  /** mws[0](mws[1](... mws[n-1](h))): the first middleware is the outermost. */
  function Compose(mws: seq<Middleware>, h: Handler): (r: Handler)
    ensures Layers(r) == mws + Layers(h)
    ensures |mws| > 0 ==> r.Wrapped? && r.mw == mws[0]
  {
    if |mws| == 0 then h else Wrapped(mws[0], Compose(mws[1..], h))
  }

  /** applyMiddleware: wraps from the last middleware to the first. */
  method ApplyMiddleware(h: Handler, mws: seq<Middleware>) returns (r: Handler)
    ensures r == Compose(mws, h)
    ensures Layers(r) == mws + Layers(h)
  {
    r := h;
    var i := |mws|;
    while i > 0
      invariant 0 <= i <= |mws|
      invariant r == Compose(mws[i..], h)
    {
      i := i - 1;
      assert mws[i..][1..] == mws[i + 1..];
      r := Wrapped(mws[i], r);
    }
  }

  /** The first error recorded wins; a nil error records nothing. */
  function FirstError(first: Option<BuildError>, next: Option<BuildError>): (r: Option<BuildError>)
    ensures first.Some? ==> r == first
    ensures first.None? ==> r == next
  {
    if first.Some? then first else next
  }

  /** The build error a router panic turns into. */
  function RouteError(e: Option<RegError>): (r: Option<BuildError>)
    ensures r.None? <==> e.None?
    ensures e.Some? ==> r == Some(ErrInvalidRoute(e.value))
  {
    match e
    case None => None
    case Some(c) => Some(ErrInvalidRoute(c))
  }

  /** What Handler builds: the router inside the global middleware, then health, then pprof. */
  function Assemble(mws: seq<Middleware>, health: bool, pprof: bool): (h: Handler)
    ensures pprof ==> h == WithPprof(Assemble(mws, health, false))
    ensures !pprof && health ==> h == WithHealth(Compose(mws, RouterRoot))
    ensures !pprof && !health ==> Layers(h) == mws
  {
    var inner := Compose(mws, RouterRoot);
    var withHealth := if health then WithHealth(inner) else inner;
    if pprof then WithPprof(withHealth) else withHealth
  }

  class Server {
    var addr: string
    const r: Router
    var cfg: Config
    var globalMiddleware: seq<Middleware>
    var enableHealthRoute: bool
    var enablePprofRoute: bool
    var buildErr: Option<BuildError>

    /** The address is never empty, in the server or in its config. */
    ghost predicate Valid()
      reads this, r
    {
      addr != "" && cfg.addr != "" && r.Valid()
    }

    /** New: NewWithPreset with the minimal preset. */
    constructor New(address: string)
      ensures Valid() && fresh(r)
      ensures addr == (if address != "" then address else DefaultAddr)
      ensures cfg == DefaultConfig().(addr := addr)
      ensures r.nodes == [NewNode()] && r.mounts == []
      ensures globalMiddleware == []
      ensures !enableHealthRoute && !enablePprofRoute && buildErr.None?
    {
      var c := DefaultConfig();
      if address != "" {
        c := c.(addr := address);
      }
      addr := c.addr;
      r := new Router();
      cfg := c;
      globalMiddleware := [];
      enableHealthRoute := false;
      enablePprofRoute := false;
      buildErr := None;
    }

    /**
     * NewWithPreset: the default config with the given address, when there
     * is one, an empty router, and the preset's middleware.
     */
    constructor NewWithPreset(address: string, preset: int)
      ensures Valid() && fresh(r)
      ensures addr == (if address != "" then address else DefaultAddr)
      ensures cfg == DefaultConfig().(addr := addr)
      ensures r.nodes == [NewNode()] && r.mounts == []
      ensures globalMiddleware ==
        (if preset == PresetDefault then [RecoverMw, RequestIdMw, TimeoutMw(PresetTimeout)] else [])
      ensures !enableHealthRoute && !enablePprofRoute && buildErr.None?
    {
      var c := DefaultConfig();
      if address != "" {
        c := c.(addr := address);
      }
      addr := c.addr;
      r := new Router();
      cfg := c;
      globalMiddleware := [];
      enableHealthRoute := false;
      enablePprofRoute := false;
      buildErr := None;
      new;
      ApplyPreset(preset);
    }

    /** applyPreset: PresetDefault adds Recover, RequestID and a 5s Timeout, in that order. */
    method ApplyPreset(preset: int)
      modifies this
      ensures globalMiddleware ==
        old(globalMiddleware) + (if preset == PresetDefault then [RecoverMw, RequestIdMw, TimeoutMw(PresetTimeout)] else [])
      ensures addr == old(addr) && cfg == old(cfg) && buildErr == old(buildErr)
      ensures enableHealthRoute == old(enableHealthRoute) && enablePprofRoute == old(enablePprofRoute)
    {
      if preset == PresetDefault {
        Use([Some(RecoverMw), Some(RequestIdMw), Some(TimeoutMw(PresetTimeout))]);
      }
    }

    /** Config */
    function CurrentConfig(): (c: Config)
      reads this, r
      requires Valid()
      ensures c.addr != ""
    {
      cfg
    }

    /** SetConfig: replaces the config; an empty address falls back to the server's own. */
    method SetConfig(c: Config)
      requires Valid()
      modifies this
      ensures Valid()
      ensures cfg == (if c.addr == "" then c.(addr := addr) else c)
      ensures addr == old(addr) && globalMiddleware == old(globalMiddleware) && buildErr == old(buildErr)
      ensures enableHealthRoute == old(enableHealthRoute) && enablePprofRoute == old(enablePprofRoute)
    {
      cfg := c;
      if cfg.addr == "" {
        cfg := cfg.(addr := addr);
      }
    }

    /** Use: appends the non-nil middleware, keeping their order. */
    method Use(mws: seq<Option<Middleware>>)
      modifies this
      ensures globalMiddleware == old(globalMiddleware) + Present(mws)
      ensures addr == old(addr) && cfg == old(cfg) && buildErr == old(buildErr)
      ensures enableHealthRoute == old(enableHealthRoute) && enablePprofRoute == old(enablePprofRoute)
    {
      var i := 0;
      while i < |mws|
        invariant 0 <= i <= |mws|
        invariant globalMiddleware == old(globalMiddleware) + Present(mws[..i])
        invariant addr == old(addr) && cfg == old(cfg) && buildErr == old(buildErr)
        invariant enableHealthRoute == old(enableHealthRoute) && enablePprofRoute == old(enablePprofRoute)
      {
        assert mws[..i + 1][..i] == mws[..i];
        if mws[i].Some? {
          globalMiddleware := globalMiddleware + [mws[i].value];
        }
        i := i + 1;
      }
      assert mws[..i] == mws;
    }

    /** EnableHealth */
    method EnableHealth()
      modifies this
      ensures enableHealthRoute
      ensures addr == old(addr) && cfg == old(cfg) && buildErr == old(buildErr)
      ensures globalMiddleware == old(globalMiddleware) && enablePprofRoute == old(enablePprofRoute)
    {
      enableHealthRoute := true;
    }

    /** EnablePprof */
    method EnablePprof()
      modifies this
      ensures enablePprofRoute
      ensures addr == old(addr) && cfg == old(cfg) && buildErr == old(buildErr)
      ensures globalMiddleware == old(globalMiddleware) && enableHealthRoute == old(enableHealthRoute)
    {
      enablePprofRoute := true;
    }

    /** setBuildErr: records `err` unless an error is already recorded. */
    method SetBuildErr(err: Option<BuildError>)
      modifies this
      ensures buildErr == FirstError(old(buildErr), err)
      ensures addr == old(addr) && cfg == old(cfg) && globalMiddleware == old(globalMiddleware)
      ensures enableHealthRoute == old(enableHealthRoute) && enablePprofRoute == old(enablePprofRoute)
    {
      if err.None? || buildErr.Some? {
        return;
      }
      buildErr := err;
    }

    /**
     * Group: a group under `prefix`. An invalid prefix is recorded as the
     * build error, and the group is returned all the same.
     */
    method Group(prefix: string) returns (g: Group)
      requires Valid()
      modifies this
      ensures Valid() && fresh(g)
      ensures g.s == this && g.prefix == prefix && g.mws == []
      ensures buildErr == FirstError(old(buildErr), ValidatePrefix(prefix))
      ensures addr == old(addr) && cfg == old(cfg) && globalMiddleware == old(globalMiddleware)
      ensures enableHealthRoute == old(enableHealthRoute) && enablePprofRoute == old(enablePprofRoute)
    {
      var e := ValidatePrefix(prefix);
      if e.Some? {
        SetBuildErr(e);
      }
      g := new Group(this, prefix);
    }

    /**
     * handle: refuses a nil handler and a path without a leading '/';
     * otherwise hands the adapted handler, wrapped in the local middleware,
     * to the router, and records what the router would have panicked with.
     */
    method Handle(verb: string, routePath: string, h: Option<nat>, local: seq<Middleware>)
      requires Valid()
      modifies this, r
      ensures Valid()
      ensures r.mounts == old(r.mounts)
      ensures addr == old(addr) && cfg == old(cfg) && globalMiddleware == old(globalMiddleware)
      ensures enableHealthRoute == old(enableHealthRoute) && enablePprofRoute == old(enablePprofRoute)
      ensures h.None? ==>
        buildErr == FirstError(old(buildErr), Some(ErrNilHandler)) && r.nodes == old(r.nodes)
      ensures h.Some? && !HasPrefix(routePath, "/") ==>
        buildErr == FirstError(old(buildErr), Some(ErrInvalidPath)) && r.nodes == old(r.nodes)
      ensures h.Some? && HasPrefix(routePath, "/") ==>
        var reg := Register(old(r.nodes), verb, routePath, Some(Compose(local, Adapted(h.value))));
        r.nodes == reg.nodes && buildErr == FirstError(old(buildErr), RouteError(reg.err))
    {
      if h.None? {
        SetBuildErr(Some(ErrNilHandler));
        return;
      }
      var e := ValidatePath(routePath);
      if e.Some? {
        SetBuildErr(e);
        return;
      }
      var handler := Adapted(h.value);
      if |local| > 0 {
        handler := ApplyMiddleware(handler, local);
      }
      var regErr := r.Handle(verb, routePath, Some(handler));
      if regErr.Some? {
        SetBuildErr(Some(ErrInvalidRoute(regErr.value)));
      }
    }

    /** Handler: the recorded build error, or the assembled handler. */
    method Handler() returns (h: Option<Handler>, err: Option<BuildError>)
      ensures buildErr.Some? ==> h.None? && err == buildErr
      ensures buildErr.None? ==> err.None? && h == Some(Assemble(globalMiddleware, enableHealthRoute, enablePprofRoute))
    {
      if buildErr.Some? {
        return None, buildErr;
      }
      var built := ApplyMiddleware(RouterRoot, globalMiddleware);
      if enableHealthRoute {
        built := WithHealth(built);
      }
      if enablePprofRoute {
        built := WithPprof(built);
      }
      return Some(built), None;
    }
  }

  class Group {
    const s: Server
    const prefix: string
    var mws: seq<Middleware>

    ghost predicate Valid()
      reads this, s, s.r
    {
      s.Valid()
    }

    constructor(server: Server, prefix: string)
      ensures s == server && this.prefix == prefix && mws == []
    {
      s := server;
      this.prefix := prefix;
      mws := [];
    }

    /** Use: appends the non-nil middleware to this group only. */
    method Use(more: seq<Option<Middleware>>)
      modifies this
      ensures mws == old(mws) + Present(more)
    {
      var i := 0;
      while i < |more|
        invariant 0 <= i <= |more|
        invariant mws == old(mws) + Present(more[..i])
      {
        assert more[..i + 1][..i] == more[..i];
        if more[i].Some? {
          mws := mws + [more[i].value];
        }
        i := i + 1;
      }
      assert more[..i] == more;
    }

    /**
     * handle: joins the group's prefix to the path, recording a join error
     * on the server, and registers through the server with the group's
     * middleware.
     */
    method Handle(verb: string, routePath: string, h: Option<nat>)
      requires Valid()
      modifies s, s.r
      ensures Valid()
      ensures s.r.mounts == old(s.r.mounts)
      ensures var j := JoinPaths(prefix, routePath);
        && (j.1.Some? ==> s.buildErr == FirstError(old(s.buildErr), j.1) && s.r.nodes == old(s.r.nodes))
        && (j.1.None? && h.None? ==>
              s.buildErr == FirstError(old(s.buildErr), Some(ErrNilHandler)) && s.r.nodes == old(s.r.nodes))
        && (j.1.None? && h.Some? ==>
              var reg := Register(old(s.r.nodes), verb, j.0, Some(Compose(mws, Adapted(h.value))));
              s.r.nodes == reg.nodes && s.buildErr == FirstError(old(s.buildErr), RouteError(reg.err)))
    {
      var (fullPath, err) := JoinPaths(prefix, routePath);
      if err.Some? {
        s.SetBuildErr(err);
        return;
      }
      s.Handle(verb, fullPath, h, mws);
    }
  }

  /**
   * A route registered in a group under a valid prefix, once the router
   * accepts it, is reached by the prefix's segments followed by the path's,
   * and runs the adapted handler inside the group's middleware.
   */
  lemma GroupRouteMatches(nodes: seq<Node>, verb: string, prefix: string, routePath: string,
                          fn: nat, local: seq<Middleware>)
    requires TrieValid(nodes) && |nodes| > 0
    requires ValidPrefix(prefix) && HasPrefix(routePath, "/") && routePath != "/"
    requires NoWildcard(SplitPath(prefix) + SplitPath(routePath))
    requires Register(nodes, verb, JoinPaths(prefix, routePath).0, Some(Compose(local, Adapted(fn)))).err.None?
    ensures var r := Register(nodes, verb, JoinPaths(prefix, routePath).0, Some(Compose(local, Adapted(fn))));
      && Wellformed(r.nodes) && |r.nodes| > 0
      && Walk(r.nodes, 0, SplitPath(prefix) + SplitPath(routePath)).Some?
      && var n := Walk(r.nodes, 0, SplitPath(prefix) + SplitPath(routePath)).value.node;
      && ToUpper(verb) in r.nodes[n].handlers
      && r.nodes[n].handlers[ToUpper(verb)] == Compose(local, Adapted(fn))
      && Layers(r.nodes[n].handlers[ToUpper(verb)]) == local
  {
    JoinedSegments(prefix, routePath);
    var joined := JoinPaths(prefix, routePath).0;
    if prefix == "/" {
      assert SplitPath(prefix) == [];
      assert SplitPath(prefix) + SplitPath(routePath) == SplitPath(routePath);
    }
    RegisteredRouteMatches(nodes, verb, joined, Compose(local, Adapted(fn)));
  }
}
