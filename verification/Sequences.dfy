/** The end of a sequence; filtering a sequence, and what filtering keeps. */
module Sequences {

  /** The last n elements, or all of them if there are fewer. */
  function Last<T>(s: seq<T>, n: nat): seq<T> {
    if |s| <= n then s else s[|s| - n..]
  }

  /** It is an end of the sequence, and no shorter than it has to be. */
  lemma LastIsTheEnd<T>(s: seq<T>, n: nat)
    ensures |Last(s, n)| == if |s| < n then |s| else n
    ensures s == s[..|s| - |Last(s, n)|] + Last(s, n)
  {
  }

  function Filter<T>(s: seq<T>, keep: T -> bool): (kept: seq<T>)
    ensures |kept| <= |s|
  {
    if s == [] then []
    else
      var kept := Filter(s[..|s| - 1], keep);
      if keep(s[|s| - 1]) then kept + [s[|s| - 1]] else kept
  }

  lemma {:induction false} FilterIsExact<T>(s: seq<T>, keep: T -> bool)
    ensures forall x :: x in Filter(s, keep) <==> x in s && keep(x)
  {
    if s != [] {
      var n := |s| - 1;
      FilterIsExact(s[..n], keep);
      assert s == s[..n] + [s[n]];
    }
  }

  lemma FilterAppend<T>(s: seq<T>, x: T, keep: T -> bool)
    ensures Filter(s + [x], keep) == if keep(x) then Filter(s, keep) + [x] else Filter(s, keep)
  {
    assert (s + [x])[..|s|] == s;
  }

  lemma {:induction false} FilterAll<T>(s: seq<T>, keep: T -> bool)
    requires forall x <- s :: keep(x)
    ensures Filter(s, keep) == s
  {
    if s != [] {
      var n := |s| - 1;
      FilterAll(s[..n], keep);
      assert s == s[..n] + [s[n]];
    }
  }

  /** `related` holds of every element and every later one. */
  predicate Pairwise<T>(s: seq<T>, related: (T, T) -> bool) {
    forall i, j :: 0 <= i < j < |s| ==> related(s[i], s[j])
  }

  /** Where an element kept at `i` comes from. */
  lemma {:induction false} FilterIsFrom<T>(s: seq<T>, keep: T -> bool, i: nat) returns (j: nat)
    requires i < |Filter(s, keep)|
    ensures j < |s| && s[j] == Filter(s, keep)[i]
  {
    var n := |s| - 1;
    if i < |Filter(s[..n], keep)| {
      j := FilterIsFrom(s[..n], keep, i);
    } else {
      j := n;
    }
  }

  lemma {:induction false} FilterKeepsPairwise<T>(s: seq<T>, keep: T -> bool, related: (T, T) -> bool)
    requires Pairwise(s, related)
    ensures Pairwise(Filter(s, keep), related)
  {
    if s != [] {
      var n := |s| - 1;
      FilterKeepsPairwise(s[..n], keep, related);
      var kept := Filter(s[..n], keep);
      forall i | 0 <= i < |kept|
        ensures related(kept[i], s[n])
      {
        var j := FilterIsFrom(s[..n], keep, i);
        assert related(s[j], s[n]);
      }
    }
  }

  // ---- Interleavings ------------------------------------------------------------------------------

  /** `ms` has the elements of both sequences, each in its own order. */
  predicate IsMerge<T(==)>(ms: seq<T>, a: seq<T>, b: seq<T>)
    decreases |ms|
  {
    if ms == [] then a == [] && b == []
    else
      || (a != [] && ms[0] == a[0] && IsMerge(ms[1..], a[1..], b))
      || (b != [] && ms[0] == b[0] && IsMerge(ms[1..], a, b[1..]))
  }

  lemma {:induction false} MergeIsSymmetric<T>(ms: seq<T>, a: seq<T>, b: seq<T>)
    requires IsMerge(ms, a, b)
    ensures IsMerge(ms, b, a)
    decreases |ms|
  {
    if ms != [] {
      if a != [] && ms[0] == a[0] && IsMerge(ms[1..], a[1..], b) {
        MergeIsSymmetric(ms[1..], a[1..], b);
      } else {
        MergeIsSymmetric(ms[1..], a, b[1..]);
      }
    }
  }

  lemma {:induction false} MergeWithNothing<T>(ms: seq<T>, a: seq<T>)
    ensures IsMerge(ms, a, []) <==> ms == a
    decreases |ms|
  {
    if ms != [] && a != [] {
      MergeWithNothing(ms[1..], a[1..]);
      assert ms == [ms[0]] + ms[1..] && a == [a[0]] + a[1..];
    }
  }

  /** Where the second sequence begins in a merge, and what the first one has left by then. */
  lemma {:induction false} SecondBegins<T>(ms: seq<T>, a: seq<T>, b: seq<T>)
    returns (before: seq<T>, after: seq<T>, left: seq<T>)
    requires IsMerge(ms, a, b) && b != []
    ensures ms == before + [b[0]] + after && a == before + left && IsMerge(after, left, b[1..])
    decreases |ms|
  {
    if a != [] && ms[0] == a[0] && IsMerge(ms[1..], a[1..], b) {
      before, after, left := SecondBegins(ms[1..], a[1..], b);
      before := [ms[0]] + before;
    } else {
      before, after, left := [], ms[1..], a;
    }
  }

  /** Elements of the first sequence may all come first. */
  lemma {:induction false} MergeAfter<T>(front: seq<T>, ms: seq<T>, a: seq<T>, b: seq<T>)
    requires IsMerge(ms, a, b)
    ensures IsMerge(front + ms, front + a, b)
  {
    if front == [] {
      assert front + ms == ms && front + a == a;
    } else {
      MergeAfter(front[1..], ms, a, b);
      assert (front + ms)[1..] == front[1..] + ms && (front + a)[1..] == front[1..] + a;
    }
  }

  /** A merge has no elements but those of the two. */
  lemma {:induction false} MergeHasOnlyTheirs<T>(ms: seq<T>, a: seq<T>, b: seq<T>, x: T)
    requires IsMerge(ms, a, b) && x in ms
    ensures x in a || x in b
    decreases |ms|
  {
    if x != ms[0] {
      if a != [] && ms[0] == a[0] && IsMerge(ms[1..], a[1..], b) {
        MergeHasOnlyTheirs(ms[1..], a[1..], b, x);
      } else {
        MergeHasOnlyTheirs(ms[1..], a, b[1..], x);
      }
    }
  }
}
