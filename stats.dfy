/** Column statistics that pandas computes: min, max and median of a column of reals. */
module Stats {

  predicate SortedAsc(s: seq<real>) {
    forall i, j :: 0 <= i < j < |s| ==> s[i] <= s[j]
  }

  /** The smallest value (pandas `Series.min`), folded from the back. */
  function SeqMin(s: seq<real>): (m: real)
    requires |s| > 0
    ensures m in s
    ensures forall i :: 0 <= i < |s| ==> m <= s[i]
  {
    if |s| == 1 then s[0]
    else
      var rest := SeqMin(s[..|s| - 1]);
      if s[|s| - 1] < rest then s[|s| - 1] else rest
  }

  /** The largest value (pandas `Series.max`), folded from the back. */
  function SeqMax(s: seq<real>): (m: real)
    requires |s| > 0
    ensures m in s
    ensures forall i :: 0 <= i < |s| ==> s[i] <= m
  {
    if |s| == 1 then s[0]
    else
      var rest := SeqMax(s[..|s| - 1]);
      if s[|s| - 1] > rest then s[|s| - 1] else rest
  }

  function InsertAsc(x: real, s: seq<real>): (r: seq<real>)
    requires SortedAsc(s)
    ensures |r| == |s| + 1
    ensures SortedAsc(r)
    ensures multiset(r) == multiset(s) + multiset{x}
  {
    if s == [] || x <= s[0] then [x] + s
    else
      var rest := InsertAsc(x, s[1..]);
      assert s == [s[0]] + s[1..];
      HeadBelowInsert(x, s, rest);
      ConsAsc(s[0], rest);
      [s[0]] + rest
  }

  /** The head of a sorted list stays below everything the rest and a larger x become. */
  lemma HeadBelowInsert(x: real, s: seq<real>, rest: seq<real>)
    requires |s| > 0 && SortedAsc(s) && s[0] < x
    requires multiset(rest) == multiset(s[1..]) + multiset{x}
    ensures forall i :: 0 <= i < |rest| ==> s[0] <= rest[i]
  {
    forall i | 0 <= i < |rest| ensures s[0] <= rest[i] {
      assert rest[i] in multiset(rest);
    }
  }

  /** A head no larger than any element keeps a sorted list sorted. */
  lemma ConsAsc(h: real, rest: seq<real>)
    requires SortedAsc(rest) && forall i :: 0 <= i < |rest| ==> h <= rest[i]
    ensures SortedAsc([h] + rest)
  {
    var r := [h] + rest;
    forall i, j | 0 <= i < j < |r| ensures r[i] <= r[j] {
      assert r[j] == rest[j - 1];
      if i > 0 { assert r[i] == rest[i - 1]; }
    }
  }

  /** Ascending order of the values, as pandas sorts before taking a median. */
  function SortAsc(s: seq<real>): (r: seq<real>)
    ensures |r| == |s|
    ensures SortedAsc(r)
    ensures multiset(r) == multiset(s)
  {
    if s == [] then []
    else
      assert s == [s[0]] + s[1..];
      InsertAsc(s[0], SortAsc(s[1..]))
  }

  /**
   * pandas `Series.median` of the present values: the middle element, or
   * the mean of the two middle elements. pandas gives NaN for no values;
   * that case is 0.0 here and no caller observes it.
   */
  function Median(s: seq<real>): (m: real)
    ensures |s| > 0 ==> SeqMin(s) <= m <= SeqMax(s)
    ensures |s| % 2 == 1 ==> m in s
  {
    if |s| == 0 then 0.0
    else
      var t := SortAsc(s);
      var n := |t|;
      assert |t| == |multiset(t)| == |multiset(s)| == |s|;
      forall i | 0 <= i < n ensures SeqMin(s) <= t[i] <= SeqMax(s) {
        assert t[i] in multiset(s);
      }
      if n % 2 == 1 then
        assert t[n / 2] in multiset(s);
        t[n / 2]
      else (t[n / 2 - 1] + t[n / 2]) / 2.0
  }

  /** Every value in [lo, hi] keeps the median in [lo, hi]. */
  lemma MedianWithin(s: seq<real>, lo: real, hi: real)
    requires |s| > 0
    requires forall i :: 0 <= i < |s| ==> lo <= s[i] <= hi
    ensures lo <= Median(s) <= hi
  {
    var m1, m2 := SeqMin(s), SeqMax(s);
  }
}
