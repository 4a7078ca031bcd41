/**
Medians of finite lists of reals, as `numpy.median` and `statistics.median`
compute them: the middle of the sorted list, or the mean of the two middle values.
*/
module Medians {
  import opened Reals
  import opened Sorting

  function AtMost(): (real, real) -> bool {
    (x, y) => x <= y
  }

  function Sort(s: seq<real>): (r: seq<real>)
    ensures |r| == |s|
  {
    SortBy(s, AtMost())
  }

  ghost predicate Sorted(s: seq<real>) {
    forall i, j :: 0 <= i < j < |s| ==> s[i] <= s[j]
  }

  lemma SortIsSorted(s: seq<real>)
    ensures Sorted(Sort(s))
  {
    SortSorted(s, AtMost());
    var t := Sort(s);
    forall i, j | 0 <= i < j < |t| ensures t[i] <= t[j] {
      assert AtMost()(t[i], t[j]);
    }
  }

  function Median(s: seq<real>): (m: real)
    requires |s| > 0
  {
    Middle(Sort(s))
  }

  lemma MedianPermutation(s: seq<real>, t: seq<real>)
    requires |s| > 0 && multiset(s) == multiset(t)
    ensures |t| == |s| && Median(s) == Median(t)
  {
    assert |s| == |multiset(s)| == |multiset(t)| == |t|;
    SortPermutation(s, t, AtMost());
  }

  // How many entries lie in the closed interval [lo, hi].
  function CountIn(s: seq<real>, lo: real, hi: real): (n: nat)
    ensures n <= |s|
  {
    if s == [] then 0 else (if lo <= s[0] <= hi then 1 else 0) + CountIn(s[1..], lo, hi)
  }

  lemma {:induction false} CountInConcat(s: seq<real>, t: seq<real>, lo: real, hi: real)
    ensures CountIn(s + t, lo, hi) == CountIn(s, lo, hi) + CountIn(t, lo, hi)
  {
    if s == [] {
      assert s + t == t;
    } else {
      assert (s + t)[1..] == s[1..] + t;
      CountInConcat(s[1..], t, lo, hi);
    }
  }

  lemma {:induction false} CountInInsert(x: real, s: seq<real>, lo: real, hi: real)
    ensures CountIn(InsertBy(x, s, AtMost()), lo, hi) == CountIn(s, lo, hi) + (if lo <= x <= hi then 1 else 0)
  {
    if s == [] {
    } else if x <= s[0] {
      assert ([x] + s)[1..] == s;
    } else {
      CountInInsert(x, s[1..], lo, hi);
      var r := InsertBy(x, s[1..], AtMost());
      assert ([s[0]] + r)[1..] == r;
    }
  }

  lemma {:induction false} CountInSort(s: seq<real>, lo: real, hi: real)
    ensures CountIn(Sort(s), lo, hi) == CountIn(s, lo, hi)
  {
    if s == [] {
    } else {
      CountInSort(s[1..], lo, hi);
      CountInInsert(s[0], Sort(s[1..]), lo, hi);
    }
  }

  lemma {:induction false} CountInNone(s: seq<real>, lo: real, hi: real)
    requires forall i :: 0 <= i < |s| ==> s[i] < lo || hi < s[i]
    ensures CountIn(s, lo, hi) == 0
  {
    if s == [] {
    } else {
      CountInNone(s[1..], lo, hi);
    }
  }

  lemma {:induction false} CountInAll(s: seq<real>, lo: real, hi: real)
    requires forall i :: 0 <= i < |s| ==> lo <= s[i] <= hi
    ensures CountIn(s, lo, hi) == |s|
  {
    if s == [] {
    } else {
      CountInAll(s[1..], lo, hi);
    }
  }

  // In a sorted list, an entry above hi leaves room for few entries in [lo, hi]; dually for lo.
  lemma CountBelowEntry(t: seq<real>, k: nat, lo: real, hi: real)
    requires Sorted(t) && k < |t| && t[k] > hi
    ensures CountIn(t, lo, hi) <= k
  {
    assert t == t[..k] + t[k..];
    CountInConcat(t[..k], t[k..], lo, hi);
    CountInNone(t[k..], lo, hi);
  }

  lemma CountAboveEntry(t: seq<real>, k: nat, lo: real, hi: real)
    requires Sorted(t) && k < |t| && t[k] < lo
    ensures CountIn(t, lo, hi) <= |t| - k - 1
  {
    assert t == t[..k + 1] + t[k + 1..];
    CountInConcat(t[..k + 1], t[k + 1..], lo, hi);
    CountInNone(t[..k + 1], lo, hi);
  }

  function Middle(t: seq<real>): (m: real)
    requires |t| > 0
  {
    if |t| % 2 == 1 then t[|t| / 2] else (t[|t| / 2 - 1] + t[|t| / 2]) / 2.0
  }

  lemma MiddleBetween(t: seq<real>)
    requires Sorted(t) && |t| > 0
    ensures t[(|t| - 1) / 2] <= Middle(t) <= t[|t| / 2]
  {
    var i, j := (|t| - 1) / 2, |t| / 2;
    if |t| % 2 == 0 {
      assert i == j - 1;
      assert t[i] <= t[j];
    } else {
      assert i == j;
    }
  }

  // A strict majority pins the median: whatever the minority holds, it cannot leave [lo, hi].
  lemma MajorityPinsMedian(s: seq<real>, lo: real, hi: real)
    requires 2 * CountIn(s, lo, hi) > |s|
    ensures |s| > 0 && lo <= Median(s) <= hi
  {
    hide SortBy, CountIn;
    var t, n := Sort(s), |s|;
    SortIsSorted(s);
    CountInSort(s, lo, hi);
    MiddleBetween(Sort(s));
    if t[n / 2] > hi { CountBelowEntry(t, n / 2, lo, hi); }
    if t[(n - 1) / 2] < lo { CountAboveEntry(t, (n - 1) / 2, lo, hi); }
  }

  lemma MedianWithin(s: seq<real>, lo: real, hi: real)
    requires |s| > 0
    requires forall i :: 0 <= i < |s| ==> lo <= s[i] <= hi
    ensures lo <= Median(s) <= hi
  {
    CountInAll(s, lo, hi);
    MajorityPinsMedian(s, lo, hi);
  }

  // At least half of the entries are at most the median.
  lemma HalfAtMostMedian(s: seq<real>, lo: real)
    requires |s| > 0
    requires forall i :: 0 <= i < |s| ==> lo <= s[i]
    ensures 2 * CountIn(s, lo, Median(s)) >= |s|
  {
    hide SortBy, CountIn, AtMost;
    var t, m, j := Sort(s), Median(s), (|s| - 1) / 2 + 1;
    SortIsSorted(s);
    SortKeeps(s, AtMost(), x => lo <= x);
    CountInSort(s, lo, m);
    MiddleBetween(Sort(s));
    assert t == t[..j] + t[j..];
    CountInConcat(t[..j], t[j..], lo, m);
    CountInAll(t[..j], lo, m);
  }

  // Half of the values lie in [a, b] and half in [c, d], further right.
  ghost predicate EvenSplit(cs: seq<real>, a: real, b: real, c: real, d: real) {
    && cs != [] && a <= b < c <= d
    && 2 * CountIn(cs, a, b) == |cs| == 2 * CountIn(cs, c, d)
    && forall i :: 0 <= i < |cs| ==> a <= cs[i] <= b || c <= cs[i] <= d
  }

  lemma MedianOfEvenSplit(cs: seq<real>, a: real, b: real, c: real, d: real)
    requires EvenSplit(cs, a, b, c, d)
    ensures (a + c) / 2.0 <= Median(cs) <= (b + d) / 2.0
  {
    var t, n := Sort(cs), |cs| / 2;
    SortIsSorted(cs);
    CountInSort(cs, a, b);
    CountInSort(cs, c, d);
    SortKeeps(cs, AtMost(), x => a <= x <= b || c <= x <= d);
    if t[n - 1] > b { CountBelowEntry(t, n - 1, a, b); }
    if t[n] < c { CountAboveEntry(t, n, c, d); }
  }

  function Map(s: seq<real>, f: real -> real): (r: seq<real>)
    ensures |r| == |s| && forall i :: 0 <= i < |s| ==> r[i] == f(s[i])
  {
    if s == [] then [] else [f(s[0])] + Map(s[1..], f)
  }

  ghost predicate StrictlyIncreasing(f: real -> real) {
    forall x, y :: f(x) <= f(y) <==> x <= y
  }

  lemma {:induction false} InsertMap(x: real, s: seq<real>, f: real -> real)
    requires StrictlyIncreasing(f)
    ensures InsertBy(f(x), Map(s, f), AtMost()) == Map(InsertBy(x, s, AtMost()), f)
  {
    if s == [] {
    } else {
      assert Map(s, f)[1..] == Map(s[1..], f);
      assert f(x) <= f(s[0]) <==> x <= s[0];
      if x <= s[0] {
        assert ([x] + s)[1..] == s;
      } else {
        InsertMap(x, s[1..], f);
        var r := InsertBy(x, s[1..], AtMost());
        assert ([s[0]] + r)[1..] == r;
      }
    }
  }

  // Sorting commutes with every strictly increasing map.
  lemma {:induction false} SortMap(s: seq<real>, f: real -> real)
    requires StrictlyIncreasing(f)
    ensures Sort(Map(s, f)) == Map(Sort(s), f)
  {
    if s == [] {
    } else {
      SortMap(s[1..], f);
      InsertMap(s[0], Sort(s[1..]), f);
      assert Map(s, f)[1..] == Map(s[1..], f);
    }
  }

  // The map x -> c*x + d, which for c > 0 is strictly increasing.
  function Affine(c: real, d: real): real -> real {
    x => c * x + d
  }

  lemma AffineIncreasing(c: real, d: real)
    requires c > 0.0
    ensures StrictlyIncreasing(Affine(c, d))
  {
    hide Affine;
    forall x, y ensures Affine(c, d)(x) <= Affine(c, d)(y) <==> x <= y {
      AffineAt(c, d, x);
      AffineAt(c, d, y);
      AffineOrder(c, d, x, y);
    }
  }

  lemma AffineAt(c: real, d: real, x: real)
    ensures Affine(c, d)(x) == c * x + d
  {
  }

  ghost predicate KeepsMean(f: real -> real, x: real, y: real) {
    (f(x) + f(y)) / 2.0 == f((x + y) / 2.0)
  }

  lemma AffineKeepsMean(c: real, d: real, x: real, y: real)
    ensures KeepsMean(Affine(c, d), x, y)
  {
    assert c * ((x + y) / 2.0) == (c * x + c * y) / 2.0;
  }

  lemma MiddleMap(t: seq<real>, f: real -> real)
    requires |t| > 0
    requires |t| % 2 == 0 ==> KeepsMean(f, t[|t| / 2 - 1], t[|t| / 2])
    ensures Middle(Map(t, f)) == f(Middle(t))
  {
    hide Map;
  }

  lemma MedianAffine(s: seq<real>, c: real, d: real)
    requires c > 0.0 && |s| > 0
    ensures Median(Map(s, Affine(c, d))) == Affine(c, d)(Median(s))
  {
    var f, t := Affine(c, d), Sort(s);
    assert Sort(Map(s, f)) == Map(t, f) by {
      AffineIncreasing(c, d);
      SortMap(s, f);
    }
    assert |t| % 2 == 0 ==> KeepsMean(f, t[|t| / 2 - 1], t[|t| / 2]) by {
      if |t| % 2 == 0 { AffineKeepsMean(c, d, t[|t| / 2 - 1], t[|t| / 2]); }
    }
    MiddleMap(t, f);
  }
}
