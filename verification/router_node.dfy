/**
 * router/node.go: a node of the route trie. The trie lives in an arena, a
 * sequence of nodes whose index 0 is the root; a child pointer is the index
 * of the child. Nodes are only ever appended, so a child always has a larger
 * index than its parent, which is what makes the trie a finite tree.
 */
module RouteNode {
  import opened Wrappers
  import opened Http
  import opened GoStrings

  datatype Node = Node(
    statics: map<string, nat>,         // literal segment -> child
    param: Option<nat>,               // the ":name" child
    paramName: string,                // this node's name when it is a param child
    wildcard: Option<nat>,            // the "*name" child
    wcName: string,                   // the name of that wildcard child
    handlers: map<string, Handler>)   // method -> handler

  /** newNode(): no children and no handlers. */
  function NewNode(): (n: Node)
    ensures n.statics == map[] && n.param.None? && n.wildcard.None? && n.handlers == map[]
  {
    Node(map[], None, "", None, "", map[])
  }

  /** Every child pointer names a later node of the arena, so the trie is a finite tree. */
  ghost predicate Wellformed(nodes: seq<Node>) {
    && (forall k, s :: 0 <= k < |nodes| && s in nodes[k].statics ==> k < nodes[k].statics[s] < |nodes|)
    && (forall k :: 0 <= k < |nodes| && nodes[k].param.Some? ==> k < nodes[k].param.value < |nodes|)
    && (forall k :: 0 <= k < |nodes| && nodes[k].wildcard.Some? ==> k < nodes[k].wildcard.value < |nodes|)
  }

  /**
   * Registration never stores a segment that starts with ':' or '*' as a
   * literal, so such a segment can only ever be taken by a param child.
   */
  ghost predicate LiteralKeys(nodes: seq<Node>) {
    forall k, s :: 0 <= k < |nodes| && s in nodes[k].statics ==> !HasPrefix(s, ":") && !HasPrefix(s, "*")
  }

  /** The invariant of every trie the router builds. */
  ghost predicate TrieValid(nodes: seq<Node>) {
    Wellformed(nodes) && LiteralKeys(nodes)
  }

  /** `b` keeps every edge and every name of `a`; it may add edges and change handlers. */
  ghost predicate KeepsEdges(a: Node, b: Node) {
    && (forall s :: s in a.statics ==> s in b.statics && b.statics[s] == a.statics[s])
    && (a.param.Some? ==> b.param == a.param)
    && a.paramName == b.paramName
    && (a.wildcard.Some? ==> b.wildcard == a.wildcard && b.wcName == a.wcName)
  }

  /** The arena `b` extends `a` without removing or redirecting anything. */
  ghost predicate Grows(a: seq<Node>, b: seq<Node>) {
    |a| <= |b| && forall k :: 0 <= k < |a| ==> KeepsEdges(a[k], b[k])
  }

  lemma GrowsTransitive(a: seq<Node>, b: seq<Node>, c: seq<Node>)
    requires Grows(a, b) && Grows(b, c)
    ensures Grows(a, c)
  {
    forall k | 0 <= k < |a| ensures KeepsEdges(a[k], c[k]) {
      assert KeepsEdges(a[k], b[k]) && KeepsEdges(b[k], c[k]);
    }
  }
}
