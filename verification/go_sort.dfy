/**
 * Go's sort.Strings, which orders strings byte by byte. For UTF-8 text
 * byte order and code point order agree, so comparing characters is the
 * same order.
 */
module GoSort {

  /** a < b in lexicographic order. */
  predicate StrLess(a: string, b: string) {
    if |a| == 0 then |b| > 0
    else if |b| == 0 then false
    else if a[0] != b[0] then a[0] < b[0]
    else StrLess(a[1..], b[1..])
  }

  lemma {:induction false} StrLessIrreflexive(a: string)
    ensures !StrLess(a, a)
  {
    if |a| > 0 {
      StrLessIrreflexive(a[1..]);
    }
  }

  lemma {:induction false} StrLessTransitive(a: string, b: string, c: string)
    requires StrLess(a, b) && StrLess(b, c)
    ensures StrLess(a, c)
  {
    if |a| > 0 && |b| > 0 && |c| > 0 && a[0] == b[0] && b[0] == c[0] {
      StrLessTransitive(a[1..], b[1..], c[1..]);
    }
  }

  /** Two different strings are ordered one way or the other, and never both. */
  lemma {:induction false} StrLessTotal(a: string, b: string)
    ensures a != b <==> (StrLess(a, b) || StrLess(b, a))
    ensures !(StrLess(a, b) && StrLess(b, a))
  {
    if |a| > 0 && |b| > 0 && a[0] == b[0] {
      StrLessTotal(a[1..], b[1..]);
      assert a == [a[0]] + a[1..] && b == [b[0]] + b[1..];
    } else if a == b {
      StrLessIrreflexive(a);
    }
  }

  /** Strictly increasing, hence also free of duplicates. */
  predicate Increasing(s: seq<string>) {
    forall i, j :: 0 <= i < j < |s| ==> StrLess(s[i], s[j])
  }

  /** Places `x` into an increasing sequence that does not hold it. */
  function InsertSorted(s: seq<string>, x: string): (r: seq<string>)
    requires Increasing(s) && x !in s
    ensures Increasing(r)
    ensures multiset(r) == multiset(s) + multiset{x}
    decreases |s|
  {
    if |s| == 0 then [x]
    else
      StrLessTotal(x, s[0]);
      if StrLess(x, s[0]) then
        forall j | 0 < j < |s| ensures StrLess(x, s[j]) {
          StrLessTransitive(x, s[0], s[j]);
        }
        [x] + s
      else
        var tail := InsertSorted(s[1..], x);
        assert s == [s[0]] + s[1..];
        forall j | 0 <= j < |tail| ensures StrLess(s[0], tail[j]) {
          assert tail[j] in multiset(tail);
          assert tail[j] == x || tail[j] in multiset(s[1..]);
        }
        [s[0]] + tail
  }

  /** sort.Strings on a list of distinct strings. */
  function SortStrings(s: seq<string>): (r: seq<string>)
    requires forall i, j :: 0 <= i < j < |s| ==> s[i] != s[j]
    ensures Increasing(r)
    ensures multiset(r) == multiset(s)
  {
    if |s| == 0 then []
    else
      var init := s[..|s| - 1];
      assert s == init + [s[|s| - 1]];
      var sorted := SortStrings(init);
      assert s[|s| - 1] !in init;
      assert s[|s| - 1] !in multiset(sorted);
      InsertSorted(sorted, s[|s| - 1])
  }

  /** Some element of a non-empty set comes before every other one. */
  lemma {:induction false} LeastExists(keys: set<string>)
    requires keys != {}
    ensures exists m :: m in keys && forall x :: x in keys && x != m ==> StrLess(m, x)
    decreases |keys|
  {
    var y :| y in keys;
    if keys - {y} == {} {
      assert keys == {y};
    } else {
      LeastExists(keys - {y});
      var m :| m in keys - {y} && forall x :: x in keys - {y} && x != m ==> StrLess(m, x);
      StrLessTotal(m, y);
      if StrLess(m, y) {
        assert forall x :: x in keys && x != m ==> StrLess(m, x);
      } else {
        forall x | x in keys && x != y ensures StrLess(y, x) {
          if x != m {
            StrLessTransitive(y, m, x);
          }
        }
      }
    }
  }

  /** The members of `keys` in increasing order: the only such listing. */
  ghost function SortedOf(keys: set<string>): (r: seq<string>)
    ensures Increasing(r) && |r| == |keys|
    ensures forall x :: x in r <==> x in keys
    decreases |keys|
  {
    if keys == {} then []
    else
      LeastExists(keys);
      var m :| m in keys && forall x :: x in keys && x != m ==> StrLess(m, x);
      var tail := SortedOf(keys - {m});
      assert forall j :: 0 <= j < |tail| ==> tail[j] in keys - {m};
      [m] + tail
  }

  /** The first element of an increasing sequence comes before all the others. */
  lemma LeastOfIncreasing(s: seq<string>, x: string)
    requires Increasing(s) && x in s
    ensures x == s[0] || StrLess(s[0], x)
  {
    var i :| 0 <= i < |s| && s[i] == x;
  }

  /** Two increasing sequences with the same members are equal. */
  lemma {:induction false} IncreasingUnique(a: seq<string>, b: seq<string>)
    requires Increasing(a) && Increasing(b)
    requires forall x :: x in a <==> x in b
    ensures a == b
    decreases |a|
  {
    assert |b| > 0 ==> b[0] in a;
    assert |a| > 0 ==> a[0] in b;
    if |a| > 0 {
      LeastOfIncreasing(a, b[0]);
      LeastOfIncreasing(b, a[0]);
      StrLessTotal(a[0], b[0]);
      forall x ensures x in a[1..] <==> x in b[1..] {
        StrLessTotal(a[0], x);
        if x in a[1..] {
          var i :| 1 <= i < |a| && a[i] == x;
        }
        if x in b[1..] {
          var i :| 1 <= i < |b| && b[i] == x;
        }
        if x in a {
          LeastOfIncreasing(a, x);
          LeastOfIncreasing(b, x);
        }
      }
      IncreasingUnique(a[1..], b[1..]);
      assert a == [a[0]] + a[1..] && b == [b[0]] + b[1..];
    }
  }
}
