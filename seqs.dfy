/** Filtering and ordering of the row lists a query returns. */
module Seqs {

  /** The elements of `s` that `keep` accepts, in their order in `s`
      (`Array.prototype.filter`, and a `WHERE` clause over a table). */
  function Filter<T(!new)>(s: seq<T>, keep: T -> bool): (r: seq<T>)
    ensures |r| <= |s|
    ensures forall x :: x in r <==> x in s && keep(x)
    decreases |s|
  {
    if s == [] then []
    else Filter(s[..|s| - 1], keep) + (if keep(s[|s| - 1]) then [s[|s| - 1]] else [])
  }

  /** Every element comes `before` every later one. */
  ghost predicate Ordered<T(!new)>(s: seq<T>, before: (T, T) -> bool) {
    forall i, j :: 0 <= i < j < |s| ==> before(s[i], s[j])
  }

  /** Filtering keeps the relative order of what it keeps. */
  lemma {:induction false} FilterOrdered<T(!new)>(s: seq<T>, keep: T -> bool, before: (T, T) -> bool)
    requires Ordered(s, before)
    ensures Ordered(Filter(s, keep), before)
    decreases |s|
  {
    if s != [] {
      var p := s[..|s| - 1];
      var last := s[|s| - 1];
      assert Ordered(p, before);
      FilterOrdered(p, keep, before);
      var fp := Filter(p, keep);
      if keep(last) {
        var r := fp + [last];
        forall i, j | 0 <= i < j < |r| ensures before(r[i], r[j]) {
          if j == |r| - 1 {
            assert r[i] in fp;
            assert r[i] in p;
            var k :| 0 <= k < |p| && p[k] == r[i];
            assert s[k] == r[i];
          } else {
            assert r[i] == fp[i] && r[j] == fp[j];
          }
        }
        assert Filter(s, keep) == r;
      } else {
        assert Filter(s, keep) == fp;
      }
    }
  }

  /** The elements of `s` last first (`ORDER BY ... DESC` over a table kept
      in ascending order). */
  function Reverse<T(!new)>(s: seq<T>): (r: seq<T>)
    ensures |r| == |s|
    ensures forall i :: 0 <= i < |s| ==> r[i] == s[|s| - 1 - i]
    decreases |s|
  {
    if s == [] then [] else [s[|s| - 1]] + Reverse(s[..|s| - 1])
  }

  lemma ReverseMembers<T(!new)>(s: seq<T>)
    ensures forall x :: x in Reverse(s) <==> x in s
  {
    var r := Reverse(s);
    forall x | x in s ensures x in r {
      var k :| 0 <= k < |s| && s[k] == x;
      assert r[|s| - 1 - k] == x;
    }
  }

  /** Reversing a list ordered by `before` orders it by `after`, when `after`
      is `before` with its arguments swapped. */
  lemma ReverseOrdered<T(!new)>(s: seq<T>, before: (T, T) -> bool, after: (T, T) -> bool)
    requires Ordered(s, before)
    requires forall a, b :: before(a, b) ==> after(b, a)
    ensures Ordered(Reverse(s), after)
  {
    var r := Reverse(s);
    forall i, j | 0 <= i < j < |r| ensures after(r[i], r[j]) {
      assert before(s[|s| - 1 - j], s[|s| - 1 - i]);
    }
  }
}
