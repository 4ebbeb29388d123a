/** `Array.prototype.filter` and the facts about it that the dashboard and the
    slug rules rely on. */
module Seqs {

  /** The order-preserving subsequence of `s` whose elements satisfy `keep`. */
  function Filter<T>(keep: T -> bool, s: seq<T>): (r: seq<T>)
    ensures |r| <= |s|
    ensures forall i :: 0 <= i < |r| ==> keep(r[i])
    ensures multiset(r) <= multiset(s)
  {
    if s == [] then []
    else
      assert s == [s[0]] + s[1..];
      (if keep(s[0]) then [s[0]] else []) + Filter(keep, s[1..])
  }

  /** An element is kept exactly when it is in `s` and satisfies `keep`. */
  lemma {:induction false} FilterMembers<T>(keep: T -> bool, s: seq<T>, x: T)
    ensures x in Filter(keep, s) <==> x in s && keep(x)
  {
    if s != [] {
      FilterMembers(keep, s[1..], x);
      assert s == [s[0]] + s[1..];
    }
  }

  /** Filtering a concatenation filters each part. */
  lemma {:induction false} FilterConcat<T>(keep: T -> bool, a: seq<T>, b: seq<T>)
    ensures Filter(keep, a + b) == Filter(keep, a) + Filter(keep, b)
  {
    if a == [] {
      assert a + b == b;
    } else {
      assert (a + b)[1..] == a[1..] + b;
      FilterConcat(keep, a[1..], b);
    }
  }

  /** When every element satisfies `keep`, nothing is dropped. */
  lemma {:induction false} FilterKeepsAll<T>(keep: T -> bool, s: seq<T>)
    requires forall i :: 0 <= i < |s| ==> keep(s[i])
    ensures Filter(keep, s) == s
  {
    if s != [] {
      FilterKeepsAll(keep, s[1..]);
    }
  }

  /** The elements kept by `keep` and those kept by its negation together
      account for the whole sequence. */
  lemma {:induction false} FilterPartition<T>(keep: T -> bool, drop: T -> bool, s: seq<T>)
    requires forall i :: 0 <= i < |s| ==> (drop(s[i]) <==> !keep(s[i]))
    ensures |Filter(keep, s)| + |Filter(drop, s)| == |s|
  {
    if s != [] {
      FilterPartition(keep, drop, s[1..]);
    }
  }

  /** Sequences without repeated elements. */
  predicate NoDuplicates<T(==)>(s: seq<T>)
  {
    forall i, j :: 0 <= i < j < |s| ==> s[i] != s[j]
  }

  /** Filtering cannot introduce repetitions. */
  lemma {:induction false} FilterNoDuplicates<T>(keep: T -> bool, s: seq<T>)
    requires NoDuplicates(s)
    ensures NoDuplicates(Filter(keep, s))
  {
    if s != [] {
      FilterNoDuplicates(keep, s[1..]);
      var rest := Filter(keep, s[1..]);
      FilterMembers(keep, s[1..], s[0]);
      assert s[0] !in s[1..];
    }
  }

  /** Dropping a last element that `keep` rejects does not change the result. */
  lemma {:induction false} FilterDropLast<T>(keep: T -> bool, s: seq<T>)
    requires s != [] && !keep(s[|s| - 1])
    ensures Filter(keep, s[..|s| - 1]) == Filter(keep, s)
  {
    if |s| == 1 {
      assert s[..0] == [];
    } else {
      var t := s[1..];
      FilterDropLast(keep, t);
      assert t[..|t| - 1] == s[..|s| - 1][1..];
      assert s[..|s| - 1][0] == s[0];
    }
  }

  /** Dropping a first element that `keep` rejects does not change the result. */
  lemma FilterDropFirst<T>(keep: T -> bool, s: seq<T>)
    requires s != [] && !keep(s[0])
    ensures Filter(keep, s[1..]) == Filter(keep, s)
  {
  }
}
