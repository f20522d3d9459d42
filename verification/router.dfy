/**
 * router/router.go: route registration and request dispatch.
 *
 * Registration walks the pattern's segments from the root, creating the
 * literal, param and wildcard children it needs, and installs the handler
 * for the upper-cased method at the node it ends on. Go reports a bad
 * registration with a panic; here it is an error result, and the trie keeps
 * whatever nodes were created before the offending segment, as it does in
 * Go.
 *
 * Dispatch tries the mounts first, then resolves the path in the trie and
 * answers 404, 405 (with an Allow header listing the registered methods in
 * sorted order) or runs the handler with the captured params in the context.
 */
module Routing {
  import opened Wrappers
  import opened Http
  import opened GoStrings
  import opened GoSort
  import opened Context
  import opened RouteNode
  import opened RouteMatch
  import opened RouteMount
  import opened RouteParams

  /** The panics of Handle. */
  datatype RegError =
    | NilHandler
    | UnsupportedMethod
    | BadPattern
    | EmptyWildcardName
    | WildcardNotLast
    | WildcardConflict
    | EmptyParamName

  /**
   * The trie after a registration, the node it ended on (where the handler
   * went, or where the offending segment was met) and the error, if any.
   */
  datatype Registration = Registration(nodes: seq<Node>, target: nat, err: Option<RegError>)

  /** isSupportedMethod: the five methods the router registers. OPTIONS is not one of them. */
  predicate IsSupportedMethod(m: string) {
    m == MethodGet || m == MethodPost || m == MethodPut || m == MethodPatch || m == MethodDelete
  }

  /** The handlers of node `k`; a node that does not exist yet has none. */
  function HandlersOf(nodes: seq<Node>, k: nat): map<string, Handler> {
    if k < |nodes| then nodes[k].handlers else map[]
  }

  /** Every node of `b` other than `t` has the handlers it had in `a`. */
  ghost predicate SameHandlersExcept(a: seq<Node>, b: seq<Node>, t: int) {
    forall k :: 0 <= k < |b| && k != t ==> b[k].handlers == HandlersOf(a, k)
  }

  lemma SameHandlersCompose(a: seq<Node>, b: seq<Node>, c: seq<Node>, t: int)
    requires |a| <= |b| && SameHandlersExcept(a, b, -1) && SameHandlersExcept(b, c, t)
    ensures SameHandlersExcept(a, c, t)
    ensures 0 <= t ==> HandlersOf(b, t) == HandlersOf(a, t)
  {
  }

  /** cur.handlers[verb] = h */
  function SetHandler(nodes: seq<Node>, k: nat, verb: string, h: Handler): (r: seq<Node>)
    requires Wellformed(nodes) && k < |nodes|
    ensures |r| == |nodes| && Wellformed(r) && Grows(nodes, r)
    ensures LiteralKeys(nodes) ==> LiteralKeys(r)
    ensures r[k].handlers == nodes[k].handlers[verb := h]
    ensures SameHandlersExcept(nodes, r, k)
  {
    nodes[k := nodes[k].(handlers := nodes[k].handlers[verb := h])]
  }

  /** cur.static[seg] = newNode() */
  function AddStatic(nodes: seq<Node>, cur: nat, seg: string): (r: seq<Node>)
    requires Wellformed(nodes) && cur < |nodes| && seg !in nodes[cur].statics
    ensures |r| == |nodes| + 1 && Wellformed(r) && Grows(nodes, r)
    ensures !HasPrefix(seg, ":") && !HasPrefix(seg, "*") && LiteralKeys(nodes) ==> LiteralKeys(r)
    ensures seg in r[cur].statics && r[cur].statics[seg] == |nodes|
    ensures SameHandlersExcept(nodes, r, -1) && r[|nodes|].handlers == map[]
  {
    nodes[cur := nodes[cur].(statics := nodes[cur].statics[seg := |nodes|])] + [NewNode()]
  }

  /** cur.param = newNode(); cur.param.paramName = name */
  function AddParam(nodes: seq<Node>, cur: nat, name: string): (r: seq<Node>)
    requires Wellformed(nodes) && cur < |nodes| && nodes[cur].param.None?
    ensures |r| == |nodes| + 1 && Wellformed(r) && Grows(nodes, r)
    ensures LiteralKeys(nodes) ==> LiteralKeys(r)
    ensures r[cur].param == Some(|nodes|) && r[|nodes|].paramName == name
    ensures SameHandlersExcept(nodes, r, -1) && r[|nodes|].handlers == map[]
  {
    nodes[cur := nodes[cur].(param := Some(|nodes|))] + [NewNode().(paramName := name)]
  }

  /** cur.wildcard = newNode(); cur.wcName = name */
  function AddWildcard(nodes: seq<Node>, cur: nat, name: string): (r: seq<Node>)
    requires Wellformed(nodes) && cur < |nodes| && nodes[cur].wildcard.None?
    ensures |r| == |nodes| + 1 && Wellformed(r) && Grows(nodes, r)
    ensures LiteralKeys(nodes) ==> LiteralKeys(r)
    ensures r[cur].wildcard == Some(|nodes|) && r[cur].wcName == name
    ensures SameHandlersExcept(nodes, r, -1) && r[|nodes|].handlers == map[]
  {
    nodes[cur := nodes[cur].(wildcard := Some(|nodes|), wcName := name)] + [NewNode()]
  }

  /**
   * One literal or param step of Handle: the child for `seg`, created when
   * missing. An existing param child is reused whatever its name.
   */
  function Descend(nodes: seq<Node>, cur: nat, seg: string): (r: (seq<Node>, nat))
    requires Wellformed(nodes) && cur < |nodes|
    ensures Wellformed(r.0) && Grows(nodes, r.0) && SameHandlersExcept(nodes, r.0, -1)
    ensures cur < r.1 < |r.0|
    ensures !HasPrefix(seg, "*") && LiteralKeys(nodes) ==> LiteralKeys(r.0)
    ensures HasPrefix(seg, ":") ==> r.0[cur].param == Some(r.1)
    ensures !HasPrefix(seg, ":") ==> seg in r.0[cur].statics && r.0[cur].statics[seg] == r.1
  {
    var n := nodes[cur];
    if HasPrefix(seg, ":") then
      var grown := if n.param.None? then AddParam(nodes, cur, seg[1..]) else nodes;
      (grown, grown[cur].param.value)
    else
      var grown := if seg in n.statics then nodes else AddStatic(nodes, cur, seg);
      (grown, grown[cur].statics[seg])
  }

  /** What Insert promises about the registration `r` it builds from `nodes`. */
  ghost predicate InsertPost(nodes: seq<Node>, r: Registration, verb: string, h: Handler) {
    && Wellformed(r.nodes) && Grows(nodes, r.nodes) && r.target < |r.nodes|
    && (LiteralKeys(nodes) ==> LiteralKeys(r.nodes))
    && (r.err.None? ==> r.nodes[r.target].handlers == HandlersOf(nodes, r.target)[verb := h])
    && (r.err.None? ==> SameHandlersExcept(nodes, r.nodes, r.target))
    && (r.err.Some? ==> SameHandlersExcept(nodes, r.nodes, -1))
  }

  /** A step that only adds nodes, followed by a registration, is a registration. */
  lemma InsertPostCompose(nodes: seq<Node>, grown: seq<Node>, r: Registration, verb: string, h: Handler)
    requires Grows(nodes, grown) && SameHandlersExcept(nodes, grown, -1)
    requires LiteralKeys(nodes) ==> LiteralKeys(grown)
    requires InsertPost(grown, r, verb, h)
    ensures InsertPost(nodes, r, verb, h)
  {
    GrowsTransitive(nodes, grown, r.nodes);
    SameHandlersCompose(nodes, grown, r.nodes, if r.err.None? then r.target else -1);
  }

  /**
   * The loop of Handle from node `cur` over the remaining segments `rest`:
   * what it builds, where it ends, and which panic stops it.
   */
  function Insert(nodes: seq<Node>, cur: nat, rest: seq<string>, verb: string, h: Handler): (r: Registration)
    requires Wellformed(nodes) && cur < |nodes|
    ensures r.err.Some? ==> r.err.value in {EmptyWildcardName, WildcardNotLast, WildcardConflict, EmptyParamName}
    decreases |rest|
  {
    if rest == [] then
      Registration(SetHandler(nodes, cur, verb, h), cur, None)
    else
      var seg := rest[0];
      var n := nodes[cur];
      if HasPrefix(seg, "*") then
        if |seg| == 1 then Registration(nodes, cur, Some(EmptyWildcardName))
        else if |rest| != 1 then Registration(nodes, cur, Some(WildcardNotLast))
        else if n.wildcard.Some? && n.wcName != seg[1..] then Registration(nodes, cur, Some(WildcardConflict))
        else
          var grown := if n.wildcard.None? then AddWildcard(nodes, cur, seg[1..]) else nodes;
          var w := grown[cur].wildcard.value;
          Registration(SetHandler(grown, w, verb, h), w, None)
      else if HasPrefix(seg, ":") && |seg| == 1 then
        Registration(nodes, cur, Some(EmptyParamName))
      else
        var (grown, next) := Descend(nodes, cur, seg);
        Insert(grown, next, rest[1..], verb, h)
  }

  /** A rejected step leaves the trie as it was. */
  lemma RejectedPost(nodes: seq<Node>, cur: nat, e: RegError, verb: string, h: Handler)
    requires Wellformed(nodes) && cur < |nodes|
    ensures InsertPost(nodes, Registration(nodes, cur, Some(e)), verb, h)
  {
    assert Grows(nodes, nodes);
  }

  /** Installing the handler at `k` is a successful registration ending at `k`. */
  lemma InstalledPost(nodes: seq<Node>, k: nat, verb: string, h: Handler)
    requires Wellformed(nodes) && k < |nodes|
    ensures InsertPost(nodes, Registration(SetHandler(nodes, k, verb, h), k, None), verb, h)
  {
  }

  /**
   * The wildcard branch of Insert keeps the trie, whichever way it ends. A
   * bare "*", a wildcard before the last segment and a second wildcard name
   * are refused at `cur` with the trie untouched; the same name reuses the
   * existing child, and a first wildcard creates it under its name.
   */
  lemma WildcardPost(nodes: seq<Node>, cur: nat, rest: seq<string>, verb: string, h: Handler)
    requires Wellformed(nodes) && cur < |nodes|
    requires rest != [] && HasPrefix(rest[0], "*")
    ensures InsertPost(nodes, Insert(nodes, cur, rest, verb, h), verb, h)
    ensures rest[0] == "*" ==> Insert(nodes, cur, rest, verb, h) == Registration(nodes, cur, Some(EmptyWildcardName))
    ensures |rest[0]| > 1 && |rest| > 1 ==>
      Insert(nodes, cur, rest, verb, h) == Registration(nodes, cur, Some(WildcardNotLast))
    ensures |rest[0]| > 1 && |rest| == 1 && nodes[cur].wildcard.Some? && nodes[cur].wcName != rest[0][1..] ==>
      Insert(nodes, cur, rest, verb, h) == Registration(nodes, cur, Some(WildcardConflict))
    ensures |rest[0]| > 1 && |rest| == 1 && nodes[cur].wildcard.Some? && nodes[cur].wcName == rest[0][1..] ==>
      var r := Insert(nodes, cur, rest, verb, h);
      r.err.None? && r.target == nodes[cur].wildcard.value && |r.nodes| == |nodes|
    ensures |rest[0]| > 1 && |rest| == 1 && nodes[cur].wildcard.None? ==>
      var r := Insert(nodes, cur, rest, verb, h);
      && r.err.None? && r.target == |nodes| && |r.nodes| == |nodes| + 1
      && r.nodes[cur].wildcard == Some(|nodes|) && r.nodes[cur].wcName == rest[0][1..]
  {
    var seg := rest[0];
    var n := nodes[cur];
    if |seg| == 1 {
      RejectedPost(nodes, cur, EmptyWildcardName, verb, h);
    } else if |rest| != 1 {
      RejectedPost(nodes, cur, WildcardNotLast, verb, h);
    } else if n.wildcard.Some? && n.wcName != seg[1..] {
      RejectedPost(nodes, cur, WildcardConflict, verb, h);
    } else {
      var grown := if n.wildcard.None? then AddWildcard(nodes, cur, seg[1..]) else nodes;
      var w := grown[cur].wildcard.value;
      InstalledPost(grown, w, verb, h);
      InsertPostCompose(nodes, grown, Registration(SetHandler(grown, w, verb, h), w, None), verb, h);
    }
  }

  /** A segment that stops the walk: a wildcard of any kind, or a bare ':'. */
  predicate Special(seg: string) {
    HasPrefix(seg, "*") || seg == ":"
  }

  /** The index of the first segment that stops the walk, or |rest| when none does. */
  function FirstSpecial(rest: seq<string>): (i: nat)
    ensures i <= |rest|
    ensures forall j :: 0 <= j < i ==> !Special(rest[j])
    ensures i < |rest| ==> Special(rest[i])
  {
    if rest == [] then 0
    else if Special(rest[0]) then 0
    else 1 + FirstSpecial(rest[1..])
  }

  /**
   * Which panic a pattern raises is decided by its first wildcard or bare ':'
   * segment: none means success; a bare ':' is an empty param name, a bare
   * '*' an empty wildcard name, a named wildcard before the last segment is
   * not last, and a named wildcard at the end succeeds unless it conflicts.
   */
  lemma {:induction false} InsertErrors(nodes: seq<Node>, cur: nat, rest: seq<string>, verb: string, h: Handler)
    requires Wellformed(nodes) && cur < |nodes|
    ensures var i, r := FirstSpecial(rest), Insert(nodes, cur, rest, verb, h);
      && (i == |rest| ==> r.err.None?)
      && (i < |rest| && rest[i] == ":" ==> r.err == Some(EmptyParamName))
      && (i < |rest| && rest[i] == "*" ==> r.err == Some(EmptyWildcardName))
      && (i < |rest| - 1 && rest[i] != "*" && HasPrefix(rest[i], "*") ==> r.err == Some(WildcardNotLast))
      && (i == |rest| - 1 && rest[i] != "*" && HasPrefix(rest[i], "*") ==> r.err.None? || r.err == Some(WildcardConflict))
    decreases |rest|
  {
    if rest == [] {
    } else if !Special(rest[0]) {
      var (grown, next) := Descend(nodes, cur, rest[0]);
      InsertErrors(grown, next, rest[1..], verb, h);
      assert FirstSpecial(rest) == 1 + FirstSpecial(rest[1..]);
    } else if rest[0] == ":" {
      assert rest[0][..1] == ":" != "*";
      assert Insert(nodes, cur, rest, verb, h).err == Some(EmptyParamName);
    } else {
      assert FirstSpecial(rest) == 0 && HasPrefix(rest[0], "*");
      WildcardPost(nodes, cur, rest, verb, h);
    }
  }

  /**
   * The trie only grows and keeps its invariant, and the only handler that
   * changes is the one for `verb` at the target node, and only on success.
   */
  lemma {:induction false} InsertKeepsTrie(nodes: seq<Node>, cur: nat, rest: seq<string>, verb: string, h: Handler)
    requires Wellformed(nodes) && cur < |nodes|
    ensures InsertPost(nodes, Insert(nodes, cur, rest, verb, h), verb, h)
    decreases |rest|
  {
    if rest == [] {
      InstalledPost(nodes, cur, verb, h);
    } else if HasPrefix(rest[0], "*") {
      WildcardPost(nodes, cur, rest, verb, h);
    } else if HasPrefix(rest[0], ":") && |rest[0]| == 1 {
      RejectedPost(nodes, cur, EmptyParamName, verb, h);
    } else {
      var (grown, next) := Descend(nodes, cur, rest[0]);
      InsertKeepsTrie(grown, next, rest[1..], verb, h);
      InsertPostCompose(nodes, grown, Insert(grown, next, rest[1..], verb, h), verb, h);
    }
  }

  /**
   * Handle, from the checks on its arguments to the installed handler. A
   * rejected call changes no handler; a call rejected because of a later
   * segment keeps the nodes created for the earlier ones.
   */
  function Register(nodes: seq<Node>, verb: string, pattern: string, h: Option<Handler>): (r: Registration)
    requires Wellformed(nodes) && |nodes| > 0
    ensures h.None? ==> r.err == Some(NilHandler) && r.nodes == nodes
    ensures h.Some? && !IsSupportedMethod(ToUpper(verb)) ==> r.err == Some(UnsupportedMethod) && r.nodes == nodes
    ensures h.Some? && IsSupportedMethod(ToUpper(verb)) && !HasPrefix(pattern, "/") ==>
      r.err == Some(BadPattern) && r.nodes == nodes
    ensures r.err.None? ==> h.Some? && IsSupportedMethod(ToUpper(verb)) && HasPrefix(pattern, "/")
  {
    if h.None? then Registration(nodes, 0, Some(NilHandler))
    else
      var m := ToUpper(verb);
      if !IsSupportedMethod(m) then Registration(nodes, 0, Some(UnsupportedMethod))
      else if pattern == "" || !HasPrefix(pattern, "/") then Registration(nodes, 0, Some(BadPattern))
      else Insert(nodes, 0, SplitPath(pattern), m, h.value)
  }

  /**
   * Every registration, accepted or not, keeps the trie valid and only adds
   * to it; an accepted one installs the handler for the upper-cased method
   * at its target and changes no other handler; a rejected one changes none.
   */
  lemma RegisterKeepsTrie(nodes: seq<Node>, verb: string, pattern: string, h: Option<Handler>)
    requires Wellformed(nodes) && |nodes| > 0
    ensures var r := Register(nodes, verb, pattern, h);
      && Wellformed(r.nodes) && Grows(nodes, r.nodes) && r.target < |r.nodes|
      && (LiteralKeys(nodes) ==> LiteralKeys(r.nodes))
      && (r.err.None? ==> r.nodes[r.target].handlers == HandlersOf(nodes, r.target)[ToUpper(verb) := h.value])
      && (r.err.None? ==> SameHandlersExcept(nodes, r.nodes, r.target))
      && (r.err.Some? ==> SameHandlersExcept(nodes, r.nodes, -1))
  {
    if h.Some? && IsSupportedMethod(ToUpper(verb)) && HasPrefix(pattern, "/") {
      InsertKeepsTrie(nodes, 0, SplitPath(pattern), ToUpper(verb), h.value);
    } else {
      assert Register(nodes, verb, pattern, h).nodes == nodes;
    }
  }

  /** No segment declares a wildcard. */
  predicate NoWildcard(segs: seq<string>) {
    forall j :: 0 <= j < |segs| ==> !HasPrefix(segs[j], "*")
  }

  /**
   * Inserting a pattern without a wildcard builds the path that matchPath
   * follows when given the pattern's own text: a literal segment is stored
   * as a literal child, and a ":name" segment, which is never a literal key,
   * is taken by the param child.
   */
  lemma {:induction false} InsertReaches(nodes: seq<Node>, cur: nat, rest: seq<string>, verb: string, h: Handler)
    requires TrieValid(nodes) && cur < |nodes|
    requires NoWildcard(rest)
    requires Insert(nodes, cur, rest, verb, h).err.None?
    ensures var r := Insert(nodes, cur, rest, verb, h);
      && InsertPost(nodes, r, verb, h)
      && Walk(r.nodes, cur, rest).Some? && Walk(r.nodes, cur, rest).value.node == r.target
    decreases |rest|
  {
    var r := Insert(nodes, cur, rest, verb, h);
    InsertKeepsTrie(nodes, cur, rest, verb, h);
    if rest != [] {
      var seg := rest[0];
      assert NoWildcard(rest[1..]) by {
        forall j | 0 <= j < |rest[1..]| ensures !HasPrefix(rest[1..][j], "*") {
          assert rest[1..][j] == rest[j + 1];
        }
      }
      assert !HasPrefix(seg, "*");
      var (grown, next) := Descend(nodes, cur, seg);
      InsertReaches(grown, next, rest[1..], verb, h);
      InsertKeepsTrie(grown, next, rest[1..], verb, h);
      assert KeepsEdges(grown[cur], r.nodes[cur]);
      if HasPrefix(seg, ":") {
        assert seg !in r.nodes[cur].statics;
        assert seg != "";
      }
      WalkStep(r.nodes, cur, seg, rest[1..]);
      assert [seg] + rest[1..] == rest;
    }
  }

  /**
   * After a successful registration of a pattern without a wildcard, the
   * pattern's own text resolves to the node that holds the new handler.
   */
  lemma RegisteredRouteMatches(nodes: seq<Node>, verb: string, pattern: string, h: Handler)
    requires TrieValid(nodes) && |nodes| > 0
    requires NoWildcard(SplitPath(pattern))
    requires Register(nodes, verb, pattern, Some(h)).err.None?
    ensures var r := Register(nodes, verb, pattern, Some(h));
      && Wellformed(r.nodes) && |r.nodes| > 0
      && Walk(r.nodes, 0, SplitPath(pattern)).Some?
      && var n := Walk(r.nodes, 0, SplitPath(pattern)).value.node;
      && ToUpper(verb) in r.nodes[n].handlers
      && r.nodes[n].handlers[ToUpper(verb)] == h
  {
    InsertReaches(nodes, 0, SplitPath(pattern), ToUpper(verb), h);
    InsertKeepsTrie(nodes, 0, SplitPath(pattern), ToUpper(verb), h);
  }

  /** What ServeHTTP does with a request. */
  datatype Outcome =
    | Mounted(handler: Handler, path: string)   // dispatchMount: the handler sees the rest of the path
    | Serve(handler: Handler, ctx: Ctx)         // the route's handler runs with the params in its context
    | Reject(status: int, allow: Option<string>) // an empty response with this status

  /** 404 for a supported verb, 405 otherwise, and no Allow header. */
  function NoRoute(verb: string): (o: Outcome)
    ensures o.Reject? && o.allow.None?
    ensures o.status == StatusNotFound <==> IsSupportedMethod(verb)
    ensures o.status == StatusMethodNotAllowed <==> !IsSupportedMethod(verb)
  {
    if IsSupportedMethod(verb) then Reject(StatusNotFound, None) else Reject(StatusMethodNotAllowed, None)
  }

  /** allowHeader: the registered methods, sorted, separated by ", ". */
  ghost function AllowOf(handlers: map<string, Handler>): string {
    Join(SortedOf(handlers.Keys), ", ")
  }

  /** The outcome ServeHTTP produces for a request on the router's current state. */
  ghost function Route(nodes: seq<Node>, mounts: seq<MountPoint>, verb: string, path: string, ctx: Ctx): Outcome
    requires Wellformed(nodes) && |nodes| > 0 && ctx.Ctx?
  {
    match BestMount(mounts, path)
    case Some(j) => Mounted(mounts[j].handler, MatchPrefix(path, mounts[j].prefix).1)
    case None =>
      match Walk(nodes, 0, SplitPath(path))
      case None => NoRoute(verb)
      case Some(m) =>
        var hs := nodes[m.node].handlers;
        if |hs| == 0 then NoRoute(verb)
        else if verb in hs then Serve(hs[verb], WithParams(ctx, m.params))
        else
          var allow := AllowOf(hs);
          Reject(StatusMethodNotAllowed, if allow != "" then Some(allow) else None)
  }

  /**
   * A mount that matches takes the request, whatever the routes say; the
   * handler sees the path below the prefix.
   */
  lemma MountWins(nodes: seq<Node>, mounts: seq<MountPoint>, verb: string, path: string, ctx: Ctx, j: nat)
    requires Wellformed(nodes) && |nodes| > 0 && ctx.Ctx?
    requires IsBestMount(mounts, path, j)
    ensures Route(nodes, mounts, verb, path, ctx) == Mounted(mounts[j].handler, MatchPrefix(path, mounts[j].prefix).1)
  {
    BestMountUnique(mounts, path, j, BestMount(mounts, path).value);
  }

  /**
   * A request with a verb the route does not have gets 405 and the Allow
   * header lists each registered verb exactly once, in increasing order.
   */
  lemma MethodNotAllowed(nodes: seq<Node>, mounts: seq<MountPoint>, verb: string, path: string, ctx: Ctx)
    requires Wellformed(nodes) && |nodes| > 0 && ctx.Ctx?
    requires BestMount(mounts, path).None?
    requires Walk(nodes, 0, SplitPath(path)).Some?
    requires var hs := nodes[Walk(nodes, 0, SplitPath(path)).value.node].handlers;
      |hs| > 0 && verb !in hs && forall k :: k in hs ==> k != ""
    ensures var hs := nodes[Walk(nodes, 0, SplitPath(path)).value.node].handlers;
      && Route(nodes, mounts, verb, path, ctx).Reject?
      && Route(nodes, mounts, verb, path, ctx).status == StatusMethodNotAllowed
      && Route(nodes, mounts, verb, path, ctx).allow == Some(Join(SortedOf(hs.Keys), ", "))
      && (forall k :: k in SortedOf(hs.Keys) <==> k in hs)
      && Increasing(SortedOf(hs.Keys))
  {
    var hs := nodes[Walk(nodes, 0, SplitPath(path)).value.node].handlers;
    var ms := SortedOf(hs.Keys);
    assert |ms| > 0;
    assert ms[0] in hs;
    JoinNonEmpty(ms, ", ");
  }

  /** Joining a list whose first element is not empty gives a non-empty text. */
  lemma JoinNonEmpty(parts: seq<string>, sep: string)
    requires |parts| > 0 && parts[0] != ""
    ensures Join(parts, sep) != ""
  {
    if |parts| > 1 {
      assert |Join(parts, sep)| >= |parts[0]|;
    }
  }

  /**
   * A route serves a request only for the exact verb text it was
   * registered under: Handle upper-cases, the lookup does not.
   */
  lemma ServeNeedsExactMethod(nodes: seq<Node>, mounts: seq<MountPoint>, verb: string, path: string, ctx: Ctx)
    requires Wellformed(nodes) && |nodes| > 0 && ctx.Ctx?
    requires Route(nodes, mounts, verb, path, ctx).Serve?
    requires BestMount(mounts, path).None?
    ensures Walk(nodes, 0, SplitPath(path)).Some?
    ensures verb in nodes[Walk(nodes, 0, SplitPath(path)).value.node].handlers
  {
  }

  /** The panics of Mount. */
  datatype MountError = MountNilHandler | PrefixWithoutSlash | PrefixEndsWithSlash

  /** The checks of Mount: a handler, and a prefix that ValidPrefix accepts. */
  function CheckMount(prefix: string, h: Option<Handler>): (e: Option<MountError>)
    ensures e.None? <==> h.Some? && ValidPrefix(prefix)
    ensures h.None? ==> e == Some(MountNilHandler)
    ensures h.Some? && !HasPrefix(prefix, "/") ==> e == Some(PrefixWithoutSlash)
  {
    if h.None? then Some(MountNilHandler)
    else if prefix == "" || !HasPrefix(prefix, "/") then Some(PrefixWithoutSlash)
    else if prefix != "/" && HasSuffix(prefix, "/") then Some(PrefixEndsWithSlash)
    else None
  }

  /**
   * allowHeader: collects the methods of the map in whatever order the map
   * yields them, sorts them and joins them with ", ".
   */
  method AllowHeader(handlers: map<string, Handler>) returns (allow: string)
    ensures allow == AllowOf(handlers)
  {
    if |handlers| == 0 {
      return "";
    }
    var methods: seq<string> := [];
    var left := handlers.Keys;
    while left != {}
      invariant left <= handlers.Keys
      invariant forall x :: x in methods <==> x in handlers.Keys && x !in left
      invariant forall i, j :: 0 <= i < j < |methods| ==> methods[i] != methods[j]
      decreases |left|
    {
      var k :| k in left;
      methods := methods + [k];
      left := left - {k};
    }
    var sorted := SortStrings(methods);
    forall x ensures x in sorted <==> x in SortedOf(handlers.Keys) {
      assert x in sorted <==> x in multiset(sorted);
      assert x in methods <==> x in multiset(methods);
    }
    IncreasingUnique(sorted, SortedOf(handlers.Keys));
    return Join(sorted, ", ");
  }

  /**
   * Every rejection is a 404 or a 405, and a 404 only ever answers a
   * supported method and carries no Allow header.
   */
  lemma RejectStatus(nodes: seq<Node>, mounts: seq<MountPoint>, verb: string, path: string, ctx: Ctx)
    requires Wellformed(nodes) && |nodes| > 0 && ctx.Ctx?
    requires Route(nodes, mounts, verb, path, ctx).Reject?
    ensures var o := Route(nodes, mounts, verb, path, ctx);
      || (o.status == StatusNotFound && IsSupportedMethod(verb) && o.allow.None?)
      || o.status == StatusMethodNotAllowed
  {
  }

  /** The trie a new router holds after registering GET "/assets/" + "*path" with handler `h`. */
  function AssetsTrie(h: Handler): seq<Node> {
    [ NewNode().(statics := map["assets" := 1]),
      NewNode().(wildcard := Some(2), wcName := "path"),
      NewNode().(handlers := map["GET" := h]) ]
  }

  lemma AssetsPatternSegments()
    ensures SplitPath("/assets/*path") == ["assets", "*path"]
  {
    var pattern := "/assets/*path";
    assert pattern != "/" && TrimPrefix(pattern, "/") == "assets" + ['/'] + "*path";
    SplitAround("assets", "*path", '/');
    SplitNoSeparator("*path", '/');
  }

  /** The literal step of "/assets/" + "*path" on a new trie. */
  lemma AssetsLiteralStep()
    ensures AddStatic([NewNode()], 0, "assets") == [NewNode().(statics := map["assets" := 1]), NewNode()]
  {
  }

  /** The wildcard child the second step adds. */
  lemma AssetsWildcardStep(n1: seq<Node>)
    requires n1 == [NewNode().(statics := map["assets" := 1]), NewNode()] && Wellformed(n1)
    ensures AddWildcard(n1, 1, "path") == [n1[0], NewNode().(wildcard := Some(2), wcName := "path"), NewNode()]
  {
  }

  /** The wildcard step of "/assets/" + "*path", on the trie after its literal step. */
  lemma InsertAssetsWildcard(h: Handler)
    ensures Insert(AddStatic([NewNode()], 0, "assets"), 1, ["*path"], "GET", h) == Registration(AssetsTrie(h), 2, None)
    ensures Wellformed(AssetsTrie(h))
  {
    var n1 := AddStatic([NewNode()], 0, "assets");
    AssetsLiteralStep();
    var seg := "*path";
    assert HasPrefix(seg, "*") && |seg| == 5 && seg[1..] == "path";
    assert n1[1].wildcard.None?;
    var n2 := AddWildcard(n1, 1, "path");
    AssetsWildcardStep(n1);
    assert Insert(n1, 1, [seg], "GET", h) == Registration(SetHandler(n2, 2, "GET", h), 2, None);
    assert SetHandler(n2, 2, "GET", h) == AssetsTrie(h);
  }

  /** The literal step of "/assets/" + "*path" descends into a new child 1. */
  lemma AssetsDescend()
    ensures !HasPrefix("assets", "*") && !HasPrefix("assets", ":")
    ensures Descend([NewNode()], 0, "assets") == (AddStatic([NewNode()], 0, "assets"), 1)
  {
    assert "assets"[..1] == ['a'];
  }

  lemma InsertAssets(h: Handler)
    ensures Wellformed(AssetsTrie(h))
    ensures Insert([NewNode()], 0, ["assets", "*path"], "GET", h) == Registration(AssetsTrie(h), 2, None)
  {
    var segs := ["assets", "*path"];
    assert segs[0] == "assets" && segs[1..] == ["*path"];
    AssetsDescend();
    InsertAssetsWildcard(h);
  }

  lemma RegisterAssets(h: Handler)
    ensures Wellformed(AssetsTrie(h))
    ensures Register([NewNode()], "GET", "/assets/*path", Some(h)) == Registration(AssetsTrie(h), 2, None)
  {
    assert ToUpper("GET") == "GET";
    AssetsPatternSegments();
    InsertAssets(h);
  }

  /** A path below "/assets/" splits into "assets" and the pieces of the rest. */
  lemma AssetsPathSegments(tail: string)
    ensures SplitPath("/assets/" + tail) == ["assets"] + Split(tail, '/')
  {
    var path := "/assets/" + tail;
    assert path[..1] == "/" && path[1..] == "assets" + ['/'] + tail;
    SplitAround("assets", tail, '/');
  }

  lemma WalkAssets(h: Handler, tail: string)
    requires Wellformed(AssetsTrie(h))
    ensures Walk(AssetsTrie(h), 0, SplitPath("/assets/" + tail)).None?
  {
    var built := AssetsTrie(h);
    var rest := Split(tail, '/');
    AssetsPathSegments(tail);
    assert built[1].statics == map[] && built[1].param.None?;
    assert rest == [rest[0]] + rest[1..];
    WalkStep(built, 1, rest[0], rest[1..]);
    assert built[0].statics["assets"] == 1;
    WalkStep(built, 0, "assets", rest);
  }

  /**
   * The wildcard gap: a new router on which only GET "/assets/" + "*path"
   * was registered answers every GET below "/assets/" with 404, because
   * matchPath never follows a wildcard child.
   */
  lemma WildcardRouteUnreachable(h: Handler, tail: string, ctx: Ctx)
    requires ctx.Ctx?
    ensures var r := Register([NewNode()], "GET", "/assets/*path", Some(h));
      && r.err.None? && Wellformed(r.nodes) && r.target < |r.nodes|
      && r.nodes[r.target].handlers == map["GET" := h]
      && Route(r.nodes, [], "GET", "/assets/" + tail, ctx) == Reject(StatusNotFound, None)
  {
    RegisterAssets(h);
    WalkAssets(h, tail);
  }

  /**
   * The segment loop of Handle: walks from the root, creating the children
   * the pattern needs, and installs the handler where the walk ends. Go
   * mutates the nodes it walks; here the arena is threaded through.
   */
  method Grow(start: seq<Node>, segments: seq<string>, verb: string, h: Handler) returns (nodes: seq<Node>, err: Option<RegError>)
    requires TrieValid(start) && |start| > 0
    ensures TrieValid(nodes) && |nodes| > 0
    ensures nodes == Insert(start, 0, segments, verb, h).nodes
    ensures err == Insert(start, 0, segments, verb, h).err
  {
    nodes := start;
    var cur: nat := 0;
    ghost var goal := Insert(nodes, 0, segments, verb, h);
    var i := 0;
    assert segments[0..] == segments;
    while i < |segments|
      invariant 0 <= i <= |segments| && cur < |nodes| && TrieValid(nodes)
      invariant Insert(nodes, cur, segments[i..], verb, h) == goal
    {
      var seg := segments[i];
      assert segments[i..][0] == seg && segments[i..][1..] == segments[i + 1..];
      if HasPrefix(seg, "*") {
        nodes, err := GrowWildcard(nodes, cur, segments[i..], verb, h);
        return;
      }
      if HasPrefix(seg, ":") && |seg| == 1 {
        return nodes, Some(EmptyParamName);
      }
      nodes, cur := GrowStep(nodes, cur, seg);
      i := i + 1;
    }
    nodes := SetHandler(nodes, cur, verb, h);
    return nodes, None;
  }

  /** The param or literal branch of the segment loop: Descend, done in place. */
  method GrowStep(start: seq<Node>, cur: nat, seg: string) returns (nodes: seq<Node>, next: nat)
    requires TrieValid(start) && cur < |start| && !HasPrefix(seg, "*")
    ensures (nodes, next) == Descend(start, cur, seg)
    ensures TrieValid(nodes) && next < |nodes|
  {
    nodes := start;
    if HasPrefix(seg, ":") {
      if nodes[cur].param.None? {
        nodes := AddParam(nodes, cur, seg[1..]);
      }
      next := nodes[cur].param.value;
    } else {
      if seg !in nodes[cur].statics {
        nodes := AddStatic(nodes, cur, seg);
      }
      next := nodes[cur].statics[seg];
    }
  }

  /** The wildcard branch of the segment loop, which always ends it. */
  method GrowWildcard(start: seq<Node>, cur: nat, rest: seq<string>, verb: string, h: Handler)
    returns (nodes: seq<Node>, err: Option<RegError>)
    requires TrieValid(start) && cur < |start| && |start| > 0
    requires rest != [] && HasPrefix(rest[0], "*")
    ensures TrieValid(nodes) && |nodes| > 0
    ensures nodes == Insert(start, cur, rest, verb, h).nodes
    ensures err == Insert(start, cur, rest, verb, h).err
  {
    nodes := start;
    var seg := rest[0];
    if |seg| == 1 {
      return nodes, Some(EmptyWildcardName);
    }
    if |rest| != 1 {
      return nodes, Some(WildcardNotLast);
    }
    if nodes[cur].wildcard.Some? && nodes[cur].wcName != seg[1..] {
      return nodes, Some(WildcardConflict);
    }
    if nodes[cur].wildcard.None? {
      nodes := AddWildcard(nodes, cur, seg[1..]);
    }
    var w := nodes[cur].wildcard.value;
    nodes := SetHandler(nodes, w, verb, h);
    return nodes, None;
  }

  /**
   * The router: the root of the trie (index 0 of the arena) and the mounts
   * in the order they were added.
   */
  class Router {
    var nodes: seq<Node>
    var mounts: seq<MountPoint>

    ghost predicate Valid()
      reads this
    {
      && |nodes| > 0 && TrieValid(nodes)
      && forall i :: 0 <= i < |mounts| ==> ValidPrefix(mounts[i].prefix)
    }

    /** New: an empty root and no mounts. */
    constructor()
      ensures Valid()
      ensures nodes == [NewNode()] && mounts == []
    {
      nodes := [NewNode()];
      mounts := [];
    }

    /** Handle: registers `h` for `verb` and `pattern`, as Register describes. */
    method Handle(verb: string, pattern: string, h: Option<Handler>) returns (err: Option<RegError>)
      requires Valid()
      modifies this
      ensures Valid()
      ensures nodes == Register(old(nodes), verb, pattern, h).nodes
      ensures err == Register(old(nodes), verb, pattern, h).err
      ensures mounts == old(mounts)
    {
      if h.None? {
        return Some(NilHandler);
      }
      var m := ToUpper(verb);
      if !IsSupportedMethod(m) {
        return Some(UnsupportedMethod);
      }
      if pattern == "" || !HasPrefix(pattern, "/") {
        return Some(BadPattern);
      }
      nodes, err := Grow(nodes, SplitPath(pattern), m, h.value);
    }

    /** Mount: adds a sub-handler under `prefix`, or refuses as CheckMount says. */
    method Mount(prefix: string, h: Option<Handler>) returns (err: Option<MountError>)
      requires Valid()
      modifies this
      ensures Valid()
      ensures err == CheckMount(prefix, h)
      ensures err.None? ==> mounts == old(mounts) + [MountPoint(prefix, h.value)]
      ensures err.Some? ==> mounts == old(mounts)
      ensures nodes == old(nodes)
    {
      if h.None? {
        return Some(MountNilHandler);
      }
      if prefix == "" || !HasPrefix(prefix, "/") {
        return Some(PrefixWithoutSlash);
      }
      if prefix != "/" && HasSuffix(prefix, "/") {
        return Some(PrefixEndsWithSlash);
      }
      mounts := mounts + [MountPoint(prefix, h.value)];
      return None;
    }

    /** ServeHTTP: mounts first, then the trie, as Route describes. */
    method ServeHTTP(verb: string, path: string, ctx: Ctx) returns (out: Outcome)
      requires Valid() && ctx.Ctx?
      ensures out == Route(nodes, mounts, verb, path, ctx)
    {
      var m, rest, ok := MatchMount(mounts, path);
      if ok {
        return Mounted(m.handler, rest);
      }
      var found := MatchPath(nodes, path);
      if found.None? || |nodes[found.value.node].handlers| == 0 {
        if !IsSupportedMethod(verb) {
          return Reject(StatusMethodNotAllowed, None);
        }
        return Reject(StatusNotFound, None);
      }
      var hs := nodes[found.value.node].handlers;
      if verb in hs {
        return Serve(hs[verb], WithParams(ctx, found.value.params));
      }
      var allow := AllowHeader(hs);
      if allow != "" {
        return Reject(StatusMethodNotAllowed, Some(allow));
      }
      return Reject(StatusMethodNotAllowed, None);
    }
  }
}
