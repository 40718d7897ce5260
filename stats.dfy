/**
 * The order statistics the consensus engine relies on: the median of a
 * non-empty list of reals (the two middle values averaged for an even
 * length, as pandas' `Series.median` does) and the median absolute
 * deviation built from it.
 */
module Stats {
  import opened Wrappers

  predicate SortedAsc(s: seq<real>)
  {
    forall i, j :: 0 <= i < j < |s| ==> s[i] <= s[j]
  }

  /** Insert `x` into an ascending list. */
  function Insert(x: real, s: seq<real>): (r: seq<real>)
    requires SortedAsc(s)
    ensures SortedAsc(r)
    ensures |r| == |s| + 1
    ensures forall y :: y in r <==> y == x || y in s
  {
    if s == [] || x <= s[0] then
      [x] + s
    else
      var t := Insert(x, s[1..]);
      assert forall k :: 0 <= k < |t| ==> t[k] in t;
      assert forall y :: y in s[1..] ==> s[0] <= y;
      [s[0]] + t
  }

  /** The ascending rearrangement of `s`. */
  function Sort(s: seq<real>): (r: seq<real>)
    ensures SortedAsc(r)
    ensures |r| == |s|
    ensures forall y :: y in r <==> y in s
  {
    if s == [] then [] else Insert(s[0], Sort(s[1..]))
  }

  /** Inserting adds exactly one occurrence of `x`. */
  lemma {:induction false} InsertCounts(x: real, s: seq<real>)
    requires SortedAsc(s)
    ensures multiset(Insert(x, s)) == multiset(s) + multiset{x}
  {
    if s != [] && x > s[0] {
      InsertCounts(x, s[1..]);
      assert s == [s[0]] + s[1..];
    }
  }

  /** Sorting rearranges: every value keeps its number of occurrences. */
  lemma {:induction false} SortIsPermutation(s: seq<real>)
    ensures multiset(Sort(s)) == multiset(s)
  {
    if s != [] {
      SortIsPermutation(s[1..]);
      InsertCounts(s[0], Sort(s[1..]));
      assert s == [s[0]] + s[1..];
    }
  }

  /** The middle of an ascending list: the middle value, or the mean of the two middle values. */
  function Middle(s: seq<real>): real
    requires |s| > 0
  {
    var n := |s|;
    if n % 2 == 1 then s[n / 2] else (s[n / 2 - 1] + s[n / 2]) / 2.0
  }

  /** The median of a non-empty list; it lies between two of the list's values. */
  function Median(v: seq<real>): (m: real)
    requires |v| > 0
    ensures exists i :: 0 <= i < |v| && v[i] <= m
    ensures exists j :: 0 <= j < |v| && m <= v[j]
  {
    var s := Sort(v);
    assert s[0] <= Middle(s) <= s[|s| - 1];
    assert s[0] in v && s[|s| - 1] in v;
    Middle(s)
  }

  /** The absolute deviations of `v` from `m`, in order. */
  function Deviations(v: seq<real>, m: real): (d: seq<real>)
    ensures |d| == |v|
    ensures forall k :: 0 <= k < |v| ==> d[k] == Abs(v[k] - m)
  {
    seq(|v|, k requires 0 <= k < |v| => Abs(v[k] - m))
  }

  /** Median absolute deviation: the median of the deviations from the median. */
  function Mad(v: seq<real>): (d: real)
    requires |v| > 0
  {
    Median(Deviations(v, Median(v)))
  }

  /** A median of values confined to [lo, hi] stays in [lo, hi]. */
  lemma MedianWithin(v: seq<real>, lo: real, hi: real)
    requires |v| > 0
    requires forall k :: 0 <= k < |v| ==> lo <= v[k] <= hi
    ensures lo <= Median(v) <= hi
  {
  }

  /** The median of a list of equal values is that value. */
  lemma MedianOfConstant(v: seq<real>, c: real)
    requires |v| > 0
    requires forall k :: 0 <= k < |v| ==> v[k] == c
    ensures Median(v) == c
  {
  }

  /** The median absolute deviation is never negative. */
  lemma MadNonNegative(v: seq<real>)
    requires |v| > 0
    ensures Mad(v) >= 0.0
  {
    var d := Deviations(v, Median(v));
    var j :| 0 <= j < |d| && d[j] <= Median(d);
  }

  /** A list of equal values (in particular a single value) has zero MAD. */
  lemma MadOfConstant(v: seq<real>, c: real)
    requires |v| > 0
    requires forall k :: 0 <= k < |v| ==> v[k] == c
    ensures Mad(v) == 0.0
  {
    MedianOfConstant(v, c);
    var d := Deviations(v, c);
    MedianOfConstant(d, 0.0);
  }

  /** The median and MAD of three values, computed by hand. */
  lemma MedianOfThree(a: real, b: real, c: real)
    requires a <= b <= c
    ensures Median([a, b, c]) == b
  {
    assert [a, b, c][1..] == [b, c] && [b, c][1..] == [c];
    assert Sort([c]) == [c];
    assert Sort([b, c]) == Insert(b, [c]) == [b, c];
    assert Sort([a, b, c]) == Insert(a, [b, c]) == [a, b, c];
  }
}
