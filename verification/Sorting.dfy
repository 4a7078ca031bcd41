/** Stable insertion sort, the order `sorted` and `numpy.sort` produce, and what determines its result. */
module Sorting {
  import opened Sequences
  import opened Wrappers

  ghost predicate TotalPreorder<T(!new)>(le: (T, T) -> bool) {
    && (forall x, y :: le(x, y) || le(y, x))
    && (forall x, y, z :: le(x, y) && le(y, z) ==> le(x, z))
  }

  ghost predicate SortedBy<T>(s: seq<T>, le: (T, T) -> bool) {
    forall i, j :: 0 <= i < j < |s| ==> le(s[i], s[j])
  }

  function InsertBy<T>(x: T, s: seq<T>, le: (T, T) -> bool): (r: seq<T>)
    ensures |r| == |s| + 1
  {
    if s == [] then [x]
    else if le(x, s[0]) then [x] + s
    else [s[0]] + InsertBy(x, s[1..], le)
  }

  function SortBy<T>(s: seq<T>, le: (T, T) -> bool): (r: seq<T>)
    ensures |r| == |s|
  {
    if s == [] then [] else InsertBy(s[0], SortBy(s[1..], le), le)
  }

  lemma {:induction false} InsertContents<T>(x: T, s: seq<T>, le: (T, T) -> bool)
    ensures multiset(InsertBy(x, s, le)) == multiset(s) + multiset{x}
  {
    if s == [] {
    } else {
      assert s == [s[0]] + s[1..];
      if !le(x, s[0]) { InsertContents(x, s[1..], le); }
    }
  }

  lemma {:induction false} InsertKeeps<T>(x: T, s: seq<T>, le: (T, T) -> bool, p: T -> bool)
    requires p(x) && forall i :: 0 <= i < |s| ==> p(s[i])
    ensures forall i :: 0 <= i < |s| + 1 ==> p(InsertBy(x, s, le)[i])
  {
    if s == [] {
    } else if !le(x, s[0]) {
      InsertKeeps(x, s[1..], le, p);
    }
  }

  lemma {:induction false} InsertSorted<T(!new)>(x: T, s: seq<T>, le: (T, T) -> bool)
    requires TotalPreorder(le) && SortedBy(s, le)
    ensures SortedBy(InsertBy(x, s, le), le)
  {
    if s == [] {
    } else {
      if le(x, s[0]) {
        forall j | 0 <= j < |s| ensures le(x, s[j]) {
          if j > 0 { assert le(s[0], s[j]); }
        }
      } else {
        InsertSorted(x, s[1..], le);
        InsertKeeps(x, s[1..], le, y => le(s[0], y));
      }
    }
  }

  lemma {:induction false} SortSorted<T(!new)>(s: seq<T>, le: (T, T) -> bool)
    requires TotalPreorder(le)
    ensures SortedBy(SortBy(s, le), le)
  {
    if s == [] {
    } else {
      SortSorted(s[1..], le);
      InsertSorted(s[0], SortBy(s[1..], le), le);
    }
  }

  lemma {:induction false} SortKeeps<T>(s: seq<T>, le: (T, T) -> bool, p: T -> bool)
    requires forall i :: 0 <= i < |s| ==> p(s[i])
    ensures forall i :: 0 <= i < |s| ==> p(SortBy(s, le)[i])
  {
    if s == [] {
    } else {
      SortKeeps(s[1..], le, p);
      InsertKeeps(s[0], SortBy(s[1..], le), le, p);
    }
  }

  lemma {:induction false} SortContents<T>(s: seq<T>, le: (T, T) -> bool)
    ensures multiset(SortBy(s, le)) == multiset(s)
  {
    if s == [] {
    } else {
      SortContents(s[1..], le);
      InsertContents(s[0], SortBy(s[1..], le), le);
      assert s == [s[0]] + s[1..];
    }
  }

  // The order separates the elements of s.
  ghost predicate Antisymmetric<T>(s: seq<T>, le: (T, T) -> bool) {
    forall x, y :: x in s && y in s && le(x, y) && le(y, x) ==> x == y
  }

  lemma SortedHead<T>(s: seq<T>, t: seq<T>, le: (T, T) -> bool)
    requires s != [] && t != [] && multiset(s) == multiset(t)
    requires SortedBy(s, le) && le(t[0], t[0])
    ensures le(s[0], t[0])
  {
    assert t[0] in multiset(s);
    var i :| 0 <= i < |s| && s[i] == t[0];
    if i > 0 { assert le(s[0], s[i]); }
  }

  lemma SortedTail<T>(s: seq<T>, le: (T, T) -> bool)
    requires s != [] && SortedBy(s, le)
    ensures SortedBy(s[1..], le)
  {
    forall i, j | 0 <= i < j < |s| - 1 ensures le(s[1..][i], s[1..][j]) {
      assert le(s[i + 1], s[j + 1]);
    }
  }

  // Under an order that separates its elements, a sorted list is determined by its contents.
  lemma {:induction false} SortedUnique<T(!new)>(s: seq<T>, t: seq<T>, le: (T, T) -> bool)
    requires TotalPreorder(le) && Antisymmetric(s, le)
    requires SortedBy(s, le) && SortedBy(t, le)
    requires multiset(s) == multiset(t)
    ensures s == t
    decreases |s|
  {
    assert |s| == |multiset(s)| == |multiset(t)| == |t|;
    if s == [] {
    } else {
      assert le(s[0], s[0]) && le(t[0], t[0]);
      SortedHead(s, t, le);
      SortedHead(t, s, le);
      assert t[0] in multiset(s);
      assert s[0] == t[0];
      RemoveSame(s, t, 0);
      assert t[..0] + t[1..] == t[1..];
      SortedTail(s, le);
      SortedTail(t, le);
      SortedUnique(s[1..], t[1..], le);
    }
  }

  // Hence sorting forgets the order of arrival.
  lemma SortPermutation<T(!new)>(s: seq<T>, t: seq<T>, le: (T, T) -> bool)
    requires TotalPreorder(le) && Antisymmetric(s, le)
    requires multiset(s) == multiset(t)
    ensures SortBy(s, le) == SortBy(t, le)
  {
    SortSorted(s, le);
    SortSorted(t, le);
    SortContents(s, le);
    SortContents(t, le);
    var r := SortBy(s, le);
    forall x, y | x in r && y in r && le(x, y) && le(y, x) ensures x == y {
      assert x in multiset(r) && y in multiset(r);
      assert x in multiset(s) && y in multiset(s);
    }
    SortedUnique(r, SortBy(t, le), le);
  }

  // Stability: elements that are all tied with one another keep their order.
  lemma {:induction false} InsertTied<T, B>(x: T, s: seq<T>, le: (T, T) -> bool, f: T -> Option<B>)
    requires f(x).Some? ==> forall y :: y in s && f(y).Some? ==> le(x, y)
    ensures Collect(InsertBy(x, s, le), f) == (if f(x).Some? then [f(x).value] else []) + Collect(s, f)
  {
    if s != [] && !le(x, s[0]) {
      InsertTied(x, s[1..], le, f);
      assert [s[0]] + InsertBy(x, s[1..], le) == InsertBy(x, s, le);
      assert InsertBy(x, s, le)[1..] == InsertBy(x, s[1..], le);
      assert f(x).Some? ==> f(s[0]).None?;
    } else {
      assert ([x] + s)[1..] == s;
    }
  }

  lemma {:induction false} SortStable<T, B>(s: seq<T>, le: (T, T) -> bool, f: T -> Option<B>)
    requires forall x, y :: x in s && y in s && f(x).Some? && f(y).Some? ==> le(x, y)
    ensures Collect(SortBy(s, le), f) == Collect(s, f)
  {
    if s == [] {
    } else {
      var sorted := SortBy(s[1..], le);
      SortStable(s[1..], le, f);
      SortContents(s[1..], le);
      forall y | y in sorted ensures y in s { assert y in multiset(sorted); assert y in multiset(s[1..]); }
      InsertTied(s[0], sorted, le, f);
    }
  }

  // The last of its ties comes out after everything it does not precede.
  lemma {:induction false} SortLast<T(!new)>(s: seq<T>, x: T, le: (T, T) -> bool)
    returns (before: seq<T>, after: seq<T>)
    requires TotalPreorder(le)
    ensures SortBy(s + [x], le) == before + [x] + after
    ensures (forall y :: y in before ==> le(y, x)) && (forall y :: y in after ==> !le(y, x))
  {
    if s == [] {
      before, after := [], [];
      assert s + [x] == [x] && [x][1..] == [];
    } else {
      before, after := SortLast(s[1..], x, le);
      assert (s + [x])[1..] == s[1..] + [x] && (s + [x])[0] == s[0];
      before, after := InsertAround(s[0], before, x, after, le);
    }
  }

  lemma {:induction false} InsertAround<T(!new)>(z: T, left: seq<T>, x: T, right: seq<T>, le: (T, T) -> bool)
    returns (before: seq<T>, after: seq<T>)
    requires TotalPreorder(le)
    requires (forall y :: y in left ==> le(y, x)) && (forall y :: y in right ==> !le(y, x))
    ensures InsertBy(z, left + [x] + right, le) == before + [x] + after
    ensures (forall y :: y in before ==> le(y, x)) && (forall y :: y in after ==> !le(y, x))
  {
    var s := left + [x] + right;
    if le(z, s[0]) {
      assert le(s[0], x);
      before, after := [z] + left, right;
      assert [z] + s == before + [x] + after;
    } else if left == [] {
      assert s[1..] == right;
      before, after := [], InsertBy(z, right, le);
      InsertMembers(z, right, le);
      assert [x] + after == [] + [x] + after;
    } else {
      assert s[1..] == left[1..] + [x] + right;
      var b, a := InsertAround(z, left[1..], x, right, le);
      before, after := [left[0]] + b, a;
      assert [left[0]] + (b + [x] + a) == before + [x] + after;
    }
  }

  lemma InsertMembers<T>(z: T, s: seq<T>, le: (T, T) -> bool)
    ensures forall y :: y in InsertBy(z, s, le) <==> y == z || y in s
  {
    InsertContents(z, s, le);
    forall y ensures y in InsertBy(z, s, le) <==> y == z || y in s {
      assert y in multiset(InsertBy(z, s, le)) <==> y in multiset(s) + multiset{z};
    }
  }
}
