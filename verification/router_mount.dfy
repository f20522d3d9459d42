/**
 * router/mount.go: sub-handlers mounted under a path prefix. The longest
 * matching prefix wins; among mounts with equally long prefixes the one
 * mounted first wins. The mounted handler sees the path with the prefix cut
 * off, and that remainder always starts with '/'.
 */
module RouteMount {
  import opened Wrappers
  import opened Http
  import opened GoStrings

  datatype MountPoint = MountPoint(prefix: string, handler: Handler)

  /**
   * matchPrefix: whether `path` lies under `prefix` and what remains of it.
   * "/" takes every path that starts with '/', unchanged; any other prefix
   * takes itself (leaving "/") and the paths that continue it with '/'.
   */
  function MatchPrefix(path: string, prefix: string): (r: (bool, string))
    ensures prefix == "/" ==> (r.0 <==> HasPrefix(path, "/"))
    ensures prefix != "/" ==> (r.0 <==> path == prefix || HasPrefix(path, prefix + "/"))
    ensures r.0 && prefix == "/" ==> r.1 == path
    ensures r.0 && prefix != "/" ==> (path == prefix && r.1 == "/") || (path == prefix + r.1 && path != prefix)
    ensures r.0 ==> HasPrefix(r.1, "/")
    ensures !r.0 ==> r.1 == ""
  {
    if prefix == "/" then
      if HasPrefix(path, "/") then (true, path) else (false, "")
    else
      HasPrefixExtend(path, prefix, '/');
      if !HasPrefix(path, prefix) then (false, "")
      else if |path| == |prefix| then (true, "/")
      else if path[|prefix|] != '/' then (false, "")
      else
        assert path == prefix + path[|prefix|..];
        (true, path[|prefix|..])
  }

  /** A text starts with `p + [c]` exactly when it starts with `p` and `c` comes next. */
  lemma HasPrefixExtend(s: string, p: string, c: char)
    ensures HasPrefix(s, p + [c]) <==> HasPrefix(s, p) && |s| > |p| && s[|p|] == c
  {
    if |s| > |p| {
      assert s[..|p| + 1] == s[..|p|] + [s[|p|]];
    }
  }

  predicate Matches(m: MountPoint, path: string) {
    MatchPrefix(path, m.prefix).0
  }

  /**
   * Mount `j` is the one matchMount picks: it matches, no matching mount has
   * a longer prefix, and every earlier matching mount has a shorter one.
   */
  predicate IsBestMount(mounts: seq<MountPoint>, path: string, j: nat) {
    && j < |mounts|
    && Matches(mounts[j], path)
    && (forall k :: 0 <= k < |mounts| && Matches(mounts[k], path) ==> |mounts[k].prefix| <= |mounts[j].prefix|)
    && (forall k :: 0 <= k < j && Matches(mounts[k], path) ==> |mounts[k].prefix| < |mounts[j].prefix|)
  }

  /** At most one mount is the best. */
  lemma BestMountUnique(mounts: seq<MountPoint>, path: string, j: nat, k: nat)
    requires IsBestMount(mounts, path, j) && IsBestMount(mounts, path, k)
    ensures j == k
  {
  }

  /** The index of the best mount, if any mount matches. */
  function BestMount(mounts: seq<MountPoint>, path: string): (r: Option<nat>)
    ensures r.Some? ==> IsBestMount(mounts, path, r.value)
    ensures r.None? <==> forall j :: 0 <= j < |mounts| ==> !Matches(mounts[j], path)
  {
    if |mounts| == 0 then None
    else
      var prev := BestMount(mounts[..|mounts| - 1], path);
      BestMountExtend(mounts, path, prev);
      var last := |mounts| - 1;
      if Matches(mounts[last], path) && (prev.None? || |mounts[prev.value].prefix| < |mounts[last].prefix|) then
        Some(last)
      else
        prev
  }

  /** One more mount: it becomes the best exactly when it matches with a strictly longer prefix. */
  lemma BestMountExtend(mounts: seq<MountPoint>, path: string, prev: Option<nat>)
    requires |mounts| > 0
    requires prev.Some? ==> IsBestMount(mounts[..|mounts| - 1], path, prev.value)
    requires prev.None? <==> forall j :: 0 <= j < |mounts| - 1 ==> !Matches(mounts[j], path)
    ensures var last := |mounts| - 1;
      if Matches(mounts[last], path) && (prev.None? || |mounts[prev.value].prefix| < |mounts[last].prefix|)
      then IsBestMount(mounts, path, last)
      else
        && (prev.Some? ==> IsBestMount(mounts, path, prev.value))
        && (prev.None? <==> forall j :: 0 <= j < |mounts| ==> !Matches(mounts[j], path))
  {
    var last := |mounts| - 1;
    if Matches(mounts[last], path) && (prev.None? || |mounts[prev.value].prefix| < |mounts[last].prefix|) {
      LastBecomesBest(mounts, path, prev);
    } else {
      PrevStaysBest(mounts, path, prev);
    }
  }

  /** A last mount that matches with a strictly longer prefix than the best so far is the best. */
  lemma LastBecomesBest(mounts: seq<MountPoint>, path: string, prev: Option<nat>)
    requires |mounts| > 0
    requires prev.Some? ==> IsBestMount(mounts[..|mounts| - 1], path, prev.value)
    requires prev.None? ==> forall j :: 0 <= j < |mounts| - 1 ==> !Matches(mounts[j], path)
    requires Matches(mounts[|mounts| - 1], path)
    requires prev.None? || |mounts[prev.value].prefix| < |mounts[|mounts| - 1].prefix|
    ensures IsBestMount(mounts, path, |mounts| - 1)
  {
    var init := mounts[..|mounts| - 1];
    var last := |mounts| - 1;
    forall k | 0 <= k < last && Matches(mounts[k], path)
      ensures |mounts[k].prefix| < |mounts[last].prefix|
    {
      assert init[k] == mounts[k];
      assert Matches(init[k], path);
    }
  }

  /** Otherwise the best so far stays the best, and no mount matches when none matched before. */
  lemma PrevStaysBest(mounts: seq<MountPoint>, path: string, prev: Option<nat>)
    requires |mounts| > 0
    requires prev.Some? ==> IsBestMount(mounts[..|mounts| - 1], path, prev.value)
    requires prev.None? <==> forall j :: 0 <= j < |mounts| - 1 ==> !Matches(mounts[j], path)
    requires !(Matches(mounts[|mounts| - 1], path) && (prev.None? || |mounts[prev.value].prefix| < |mounts[|mounts| - 1].prefix|))
    ensures prev.Some? ==> IsBestMount(mounts, path, prev.value)
    ensures prev.None? <==> forall j :: 0 <= j < |mounts| ==> !Matches(mounts[j], path)
  {
    var init := mounts[..|mounts| - 1];
    var last := |mounts| - 1;
    if prev.Some? {
      var p := prev.value;
      assert init[p] == mounts[p];
      forall k | 0 <= k < |mounts| && Matches(mounts[k], path)
        ensures |mounts[k].prefix| <= |mounts[p].prefix|
      {
        if k < last {
          assert init[k] == mounts[k];
          assert Matches(init[k], path);
        }
      }
      forall k | 0 <= k < p && Matches(mounts[k], path)
        ensures |mounts[k].prefix| < |mounts[p].prefix|
      {
        assert init[k] == mounts[k];
      }
    } else {
      forall j | 0 <= j < last
        ensures !Matches(mounts[j], path)
      {
        assert init[j] == mounts[j];
      }
    }
  }

  /**
   * matchMount: scans the mounts in order and keeps a later one only when its
   * prefix is strictly longer than the best so far.
   */
  method MatchMount(mounts: seq<MountPoint>, path: string) returns (best: MountPoint, rest: string, ok: bool)
    ensures ok <==> BestMount(mounts, path).Some?
    ensures ok ==> best == mounts[BestMount(mounts, path).value]
    ensures ok ==> rest == MatchPrefix(path, best.prefix).1
    ensures !ok ==> rest == ""
  {
    best := MountPoint("", Noop);
    var bestLen := -1;
    rest := "";
    ghost var bestIdx: Option<nat> := None;
    var i := 0;
    while i < |mounts|
      invariant 0 <= i <= |mounts|
      invariant bestIdx == BestMount(mounts[..i], path)
      invariant bestIdx.None? ==> bestLen == -1 && rest == ""
      invariant bestIdx.Some? ==>
        bestIdx.value < i && best == mounts[bestIdx.value] && bestLen == |best.prefix|
        && rest == MatchPrefix(path, best.prefix).1
    {
      BestMountStep(mounts, path, i);
      var m := mounts[i];
      var (matched, next) := MatchPrefix(path, m.prefix);
      if matched && |m.prefix| > bestLen {
        bestLen := |m.prefix|;
        best := m;
        rest := next;
        bestIdx := Some(i);
      }
      i := i + 1;
    }
    assert mounts[..i] == mounts;
    if bestLen == -1 {
      return MountPoint("", Noop), "", false;
    }
    ok := true;
  }

  /** BestMount over the first i + 1 mounts, from BestMount over the first i. */
  lemma BestMountStep(mounts: seq<MountPoint>, path: string, i: nat)
    requires i < |mounts|
    ensures var prev := BestMount(mounts[..i], path);
      BestMount(mounts[..i + 1], path) ==
        if Matches(mounts[i], path) && (prev.None? || |mounts[prev.value].prefix| < |mounts[i].prefix|)
        then Some(i) else prev
  {
    var pre := mounts[..i + 1];
    assert pre[..|pre| - 1] == mounts[..i];
    assert pre[|pre| - 1] == mounts[i];
    var prev := BestMount(mounts[..i], path);
    if prev.Some? {
      assert pre[prev.value] == mounts[prev.value];
    }
  }

  /** A prefix Mount accepts: it starts with '/' and only "/" itself ends with '/'. */
  predicate ValidPrefix(prefix: string) {
    prefix != "" && HasPrefix(prefix, "/") && (prefix == "/" || !HasSuffix(prefix, "/"))
  }

  /** A mount at "/" takes every path that starts with '/', and hands it on unchanged. */
  lemma {:induction false} RootMountTakesAll(mounts: seq<MountPoint>, path: string, j: nat)
    requires j < |mounts| && mounts[j].prefix == "/" && HasPrefix(path, "/")
    ensures BestMount(mounts, path).Some?
  {
    assert Matches(mounts[j], path);
  }

  /**
   * A mounted prefix never matches a path that only shares characters with
   * it: "/api" does not take "/apix".
   */
  lemma SegmentBoundary(prefix: string, extra: string)
    requires prefix != "/" && extra != [] && extra[0] != '/'
    ensures !MatchPrefix(prefix + extra, prefix).0
  {
    var path := prefix + extra;
    HasPrefixExtend(path, prefix, '/');
    assert path[|prefix|] == extra[0];
    assert path != prefix by { assert |path| > |prefix|; }
  }
}
