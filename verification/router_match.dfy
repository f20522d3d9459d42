/**
 * router/match.go: splitting a request path into segments and resolving it
 * against the trie. The resolution is greedy: at every segment an existing
 * literal child is taken, otherwise the param child when the segment is not
 * empty, otherwise the whole match fails. Wildcard children are never
 * consulted and nothing is retried.
 */
module RouteMatch {
  import opened Wrappers
  import opened Http
  import opened GoStrings
  import opened RouteNode

  /** splitPath: "/" has no segments; any other path is cut at '/' after its leading slash. */
  function SplitPath(path: string): (segs: seq<string>)
    ensures path == "/" <==> segs == []
    ensures forall i :: 0 <= i < |segs| ==> '/' !in segs[i]
  {
    if path == "/" then [] else Split(TrimPrefix(path, "/"), '/')
  }

  /** A path that starts with '/' is its leading slash followed by its segments joined by '/'. */
  lemma SplitPathRoundTrip(path: string)
    requires HasPrefix(path, "/")
    ensures "/" + Join(SplitPath(path), "/") == path
  {
    if path != "/" {
      JoinSplit(path[1..], '/');
      assert path == "/" + path[1..];
    }
  }

  /** A trailing slash yields a final empty segment: "/a/" gives ["a", ""]. */
  lemma SplitPathTrailingSlash(seg: string)
    requires '/' !in seg
    ensures SplitPath("/" + seg + "/") == [seg, ""]
  {
    var p := "/" + seg + "/";
    assert p != "/" by { assert |p| == |seg| + 2; }
    assert TrimPrefix(p, "/") == seg + ['/'] + "";
    SplitAround(seg, "", '/');
  }

  /** A successful resolution: the node reached and the params captured on the way. */
  datatype Match = Match(node: nat, params: seq<RouteParam>)

  /**
   * The resolution that matchPath performs, starting at node `cur`.
   * A param step captures the segment under the param node's own name.
   */
  function Walk(nodes: seq<Node>, cur: nat, segs: seq<string>): (r: Option<Match>)
    requires Wellformed(nodes) && cur < |nodes|
    ensures r.Some? ==> r.value.node < |nodes| && |r.value.params| <= |segs|
    ensures r.Some? ==> forall j :: 0 <= j < |r.value.params| ==> r.value.params[j].value != ""
    decreases |segs|
  {
    if segs == [] then Some(Match(cur, []))
    else
      var seg := segs[0];
      var n := nodes[cur];
      if seg in n.statics then Walk(nodes, n.statics[seg], segs[1..])
      else if n.param.Some? && seg != "" then
        var p := n.param.value;
        match Walk(nodes, p, segs[1..])
        case None => None
        case Some(m) => Some(Match(m.node, [RouteParam(nodes[p].paramName, seg)] + m.params))
      else None
  }

  /** Prepends params captured earlier to a later resolution. */
  function After(earlier: seq<RouteParam>, later: Option<Match>): Option<Match> {
    match later
    case None => None
    case Some(m) => Some(Match(m.node, earlier + m.params))
  }

  /**
   * Resolution is compositional: resolving `a + b` resolves `a`, then
   * resolves `b` from where `a` ended, and the params of `a` come first.
   */
  lemma {:induction false} WalkAppend(nodes: seq<Node>, cur: nat, a: seq<string>, b: seq<string>)
    requires Wellformed(nodes) && cur < |nodes|
    ensures Walk(nodes, cur, a + b) ==
      match Walk(nodes, cur, a)
      case None => None
      case Some(m) => After(m.params, Walk(nodes, m.node, b))
    decreases |a|
  {
    if a != [] {
      assert (a + b)[0] == a[0] && (a + b)[1..] == a[1..] + b;
      var n := nodes[cur];
      if a[0] in n.statics {
        WalkAppend(nodes, n.statics[a[0]], a[1..], b);
      } else if n.param.Some? && a[0] != "" {
        WalkAppend(nodes, n.param.value, a[1..], b);
        match Walk(nodes, n.param.value, a[1..])
        case None =>
        case Some(m) =>
          match Walk(nodes, m.node, b)
          case None =>
          case Some(m2) =>
            var p := RouteParam(nodes[n.param.value].paramName, a[0]);
            assert [p] + (m.params + m2.params) == ([p] + m.params) + m2.params;
      }
    } else {
      assert a + b == b;
      match Walk(nodes, cur, b)
      case None =>
      case Some(m) => assert [] + m.params == m.params;
    }
  }

  /**
   * One step of resolution. An existing literal child is always taken, and
   * when what follows fails from there the whole resolution fails, even if
   * the param child would have matched: there is no backtracking.
   */
  lemma {:induction false} WalkStep(nodes: seq<Node>, cur: nat, seg: string, rest: seq<string>)
    requires Wellformed(nodes) && cur < |nodes|
    ensures seg in nodes[cur].statics ==>
      Walk(nodes, cur, [seg] + rest) == Walk(nodes, nodes[cur].statics[seg], rest)
    ensures seg !in nodes[cur].statics && nodes[cur].param.Some? && seg != "" ==>
      Walk(nodes, cur, [seg] + rest) ==
        After([RouteParam(nodes[nodes[cur].param.value].paramName, seg)], Walk(nodes, nodes[cur].param.value, rest))
    ensures seg !in nodes[cur].statics && (nodes[cur].param.None? || seg == "") ==>
      Walk(nodes, cur, [seg] + rest).None?
  {
    assert ([seg] + rest)[0] == seg && ([seg] + rest)[1..] == rest;
  }

  /**
   * Captured params line up with the segments taken by param steps: the
   * number of params never exceeds the segments consumed, and the whole
   * capture sequence of a longer path extends that of its prefix.
   */
  lemma {:induction false} WalkParamsPrefix(nodes: seq<Node>, cur: nat, a: seq<string>, b: seq<string>)
    requires Wellformed(nodes) && cur < |nodes|
    requires Walk(nodes, cur, a + b).Some?
    ensures Walk(nodes, cur, a).Some?
    ensures Walk(nodes, cur, a).value.params <= Walk(nodes, cur, a + b).value.params
  {
    WalkAppend(nodes, cur, a, b);
  }

  /**
   * matchPath: resolves `path` from the root (index 0); an empty arena plays
   * the part of a nil root and fails.
   */
  method MatchPath(nodes: seq<Node>, path: string) returns (r: Option<Match>)
    requires Wellformed(nodes)
    ensures |nodes| == 0 ==> r.None?
    ensures |nodes| > 0 ==> r == Walk(nodes, 0, SplitPath(path))
  {
    var segments := SplitPath(path);
    if |nodes| == 0 {
      return None;
    }
    var cur: nat := 0;
    var params: seq<RouteParam> := [];
    var i := 0;
    assert segments[0..] == segments;
    match Walk(nodes, 0, segments) {
      case None =>
      case Some(m) => assert [] + m.params == m.params;
    }
    while i < |segments|
      invariant 0 <= i <= |segments| && cur < |nodes|
      invariant Walk(nodes, 0, segments) == After(params, Walk(nodes, cur, segments[i..]))
    {
      var seg := segments[i];
      assert segments[i..] == [seg] + segments[i + 1..];
      WalkStep(nodes, cur, seg, segments[i + 1..]);
      if seg in nodes[cur].statics {
        cur := nodes[cur].statics[seg];
        i := i + 1;
        continue;
      }
      if nodes[cur].param.Some? && seg != "" {
        var p := nodes[cur].param.value;
        var captured := RouteParam(nodes[p].paramName, seg);
        match Walk(nodes, p, segments[i + 1..]) {
          case None =>
          case Some(m) => assert (params + [captured]) + m.params == params + ([captured] + m.params);
        }
        params := params + [captured];
        cur := p;
        i := i + 1;
        continue;
      }
      return None;
    }
    assert segments[i..] == [];
    assert params + [] == params;
    return Some(Match(cur, params));
  }
}
