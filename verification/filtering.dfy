/** Row selection that keeps the surviving rows in their original order. */
module Filtering {

  /** `a` is `b` with some elements removed, the rest in their original order. */
  ghost predicate IsSubsequence<T(!new)>(a: seq<T>, b: seq<T>)
    decreases |b|
  {
    |a| == 0 || (|b| > 0 && ((a[0] == b[0] && IsSubsequence(a[1..], b[1..])) || IsSubsequence(a, b[1..])))
  }

  /**
   * The rows of `s` for which `keep` holds. The result is an order-preserving
   * subsequence of `s`, and every row occurs in it exactly as often as in `s`
   * when `keep` holds of it, and not at all otherwise.
   */
  function Filter<T(!new)>(keep: T -> bool, s: seq<T>): (r: seq<T>)
    ensures |r| <= |s|
    ensures forall i :: 0 <= i < |r| ==> keep(r[i])
    ensures forall x :: multiset(r)[x] == (if keep(x) then multiset(s)[x] else 0)
    ensures IsSubsequence(r, s)
  {
    if |s| == 0 then []
    else
      var rest := Filter(keep, s[1..]);
      assert s == [s[0]] + s[1..];
      if keep(s[0]) then
        assert ([s[0]] + rest)[1..] == rest;
        [s[0]] + rest
      else rest
  }

  /** A row is in the result exactly when it is in the input and passes. */
  lemma FilterMembership<T(!new)>(keep: T -> bool, s: seq<T>, x: T)
    ensures x in Filter(keep, s) <==> x in s && keep(x)
  {
    var r := Filter(keep, s);
    assert x in r <==> multiset(r)[x] > 0;
    assert x in s <==> multiset(s)[x] > 0;
  }

  /** When every row passes, nothing is removed. */
  lemma {:induction false} FilterAllPass<T(!new)>(keep: T -> bool, s: seq<T>)
    requires forall i :: 0 <= i < |s| ==> keep(s[i])
    ensures Filter(keep, s) == s
  {
    if |s| > 0 {
      FilterAllPass(keep, s[1..]);
      assert s == [s[0]] + s[1..];
    }
  }

  /** Filtering a second time with the same predicate changes nothing. */
  lemma FilterIdempotent<T(!new)>(keep: T -> bool, s: seq<T>)
    ensures Filter(keep, Filter(keep, s)) == Filter(keep, s)
  {
    FilterAllPass(keep, Filter(keep, s));
  }
}
