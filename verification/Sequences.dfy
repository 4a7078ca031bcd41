/**
Sequence facts shared by the components: a filter-and-map (`Collect`), its
permutation invariance, and the reversal used by the two-ended paging model.
*/
module Sequences {
  import opened Wrappers

  // The list comprehension `[f(x) for x in s if ...]`: keeps the Some results, in order.
  function Collect<A, B>(s: seq<A>, f: A -> Option<B>): (r: seq<B>)
    ensures |r| <= |s|
  {
    if s == [] then []
    else
      var rest := Collect(s[1..], f);
      match f(s[0])
      case Some(b) => [b] + rest
      case None => rest
  }

  lemma {:induction false} CollectConcat<A, B>(s: seq<A>, t: seq<A>, f: A -> Option<B>)
    ensures Collect(s + t, f) == Collect(s, f) + Collect(t, f)
  {
    if s == [] {
      assert s + t == t;
    } else {
      assert (s + t)[1..] == s[1..] + t;
      CollectConcat(s[1..], t, f);
    }
  }

  lemma {:induction false} CollectAll<A, B>(s: seq<A>, f: A -> Option<B>)
    requires forall a :: a in s ==> f(a).Some?
    ensures |Collect(s, f)| == |s|
    ensures forall i :: 0 <= i < |s| ==> f(s[i]) == Some(Collect(s, f)[i])
  {
    if s == [] {
    } else {
      CollectAll(s[1..], f);
      var r := Collect(s, f);
      forall i | 0 <= i < |s| ensures f(s[i]) == Some(r[i]) {
        if i > 0 { assert s[i] == s[1..][i - 1]; }
      }
    }
  }

  lemma {:induction false} CollectNone<A, B>(s: seq<A>, f: A -> Option<B>)
    requires forall i :: 0 <= i < |s| ==> f(s[i]).None?
    ensures Collect(s, f) == []
  {
    if s == [] {
    } else {
      CollectNone(s[1..], f);
    }
  }

  lemma {:induction false} CollectSome<A, B>(s: seq<A>, f: A -> Option<B>, i: nat)
    requires i < |s| && f(s[i]).Some?
    ensures Collect(s, f) != []
  {
    if i == 0 {
    } else {
      CollectSome(s[1..], f, i - 1);
    }
  }

  // Every collected value comes from some element.
  lemma {:induction false} CollectFrom<A, B>(s: seq<A>, f: A -> Option<B>, i: nat) returns (k: nat)
    requires i < |Collect(s, f)|
    ensures k < |s| && f(s[k]) == Some(Collect(s, f)[i])
  {
    if f(s[0]).Some? && i == 0 {
      k := 0;
    } else {
      k := CollectFrom(s[1..], f, if f(s[0]).Some? then i - 1 else i);
      k := k + 1;
    }
  }

  lemma CollectedAt<A, B>(s: seq<A>, f: A -> Option<B>, b: B) returns (k: nat)
    requires b in Collect(s, f)
    ensures k < |s| && f(s[k]) == Some(b)
  {
    var i :| 0 <= i < |Collect(s, f)| && Collect(s, f)[i] == b;
    k := CollectFrom(s, f, i);
  }

  // Two filters that agree on the elements collect the same.
  lemma {:induction false} CollectSame<A, B>(s: seq<A>, f: A -> Option<B>, g: A -> Option<B>)
    requires forall x :: x in s ==> f(x) == g(x)
    ensures Collect(s, f) == Collect(s, g)
  {
    if s == [] {
    } else {
      assert s[0] in s;
      CollectSame(s[1..], f, g);
    }
  }

  // at lists indices of elements that pass, in order, and all of them.
  ghost predicate PassAt<A, B>(s: seq<A>, f: A -> Option<B>, at: seq<nat>) {
    && (forall j, k :: 0 <= j < k < |at| ==> at[j] < at[k])
    && (forall k :: 0 <= k < |at| ==> at[k] < |s| && f(s[at[k]]).Some?)
  }

  ghost predicate PassOnlyAt<A, B>(s: seq<A>, f: A -> Option<B>, at: seq<nat>) {
    forall i :: 0 <= i < |s| && f(s[i]).Some? ==> i in at
  }

  // Where the collected values come from.
  lemma {:induction false} CollectPositions<A, B>(s: seq<A>, f: A -> Option<B>) returns (at: seq<nat>)
    ensures PassAt(s, f, at) && PassOnlyAt(s, f, at) && |at| == |Collect(s, f)|
    ensures forall k :: 0 <= k < |at| ==> at[k] < |s| && f(s[at[k]]) == Some(Collect(s, f)[k])
  {
    hide PassAt, PassOnlyAt;
    if s == [] {
      at := [];
      NothingPasses(f);
    } else {
      var front, last := s[..|s| - 1], s[|s| - 1];
      at := CollectPositions(front, f);
      assert s == front + [last];
      PassAtNext(front, last, f, at);
      PassOnlyAtNext(front, last, f, at);
      at := CollectedNext(front, last, f, at);
    }
  }

  lemma NothingPasses<A, B>(f: A -> Option<B>)
    ensures PassAt([], f, []) && PassOnlyAt([], f, [])
  {
  }

  lemma PassAtNext<A, B>(s: seq<A>, x: A, f: A -> Option<B>, at: seq<nat>)
    requires PassAt(s, f, at)
    ensures PassAt(s + [x], f, if f(x).Some? then at + [|s|] else at)
  {
  }

  lemma PassOnlyAtNext<A, B>(s: seq<A>, x: A, f: A -> Option<B>, at: seq<nat>)
    requires PassOnlyAt(s, f, at)
    ensures PassOnlyAt(s + [x], f, if f(x).Some? then at + [|s|] else at)
  {
    var next := if f(x).Some? then at + [|s|] else at;
    forall i | 0 <= i < |s| + 1 && f((s + [x])[i]).Some? ensures i in next {
      if i < |s| { assert i in at; } else { assert next[|at|] == |s|; }
    }
  }

  lemma CollectedNext<A, B>(s: seq<A>, x: A, f: A -> Option<B>, at: seq<nat>) returns (next: seq<nat>)
    requires |at| == |Collect(s, f)|
    requires forall k :: 0 <= k < |at| ==> at[k] < |s| && f(s[at[k]]) == Some(Collect(s, f)[k])
    ensures next == if f(x).Some? then at + [|s|] else at
    ensures |next| == |Collect(s + [x], f)|
    ensures forall k :: 0 <= k < |next| ==> next[k] < |s| + 1 && f((s + [x])[next[k]]) == Some(Collect(s + [x], f)[k])
  {
    next := if f(x).Some? then at + [|s|] else at;
    CollectAppend(s, x, f);
    hide Collect;
    forall k | 0 <= k < |next|
      ensures next[k] < |s| + 1 && f((s + [x])[next[k]]) == Some(Collect(s + [x], f)[k])
    {
      if k < |at| { assert (s + [x])[at[k]] == s[at[k]]; }
    }
  }

  lemma MultisetMiddle<T>(left: seq<T>, middle: seq<T>, right: seq<T>)
    ensures multiset(left + middle + right) == multiset(left + right) + multiset(middle)
  {
  }

  lemma CollectOne<A, B>(a: A, f: A -> Option<B>)
    ensures Collect([a], f) == if f(a).Some? then [f(a).value] else []
  {
  }

  lemma CollectAppend<A, B>(s: seq<A>, a: A, f: A -> Option<B>)
    ensures Collect(s + [a], f) == Collect(s, f) + (if f(a).Some? then [f(a).value] else [])
  {
    CollectConcat(s, [a], f);
    CollectOne(a, f);
  }

  lemma CollectAround<A, B>(left: seq<A>, a: A, right: seq<A>, f: A -> Option<B>)
    ensures Collect(left + [a] + right, f) ==
            Collect(left, f) + (if f(a).Some? then [f(a).value] else []) + Collect(right, f)
  {
    CollectConcat(left + [a], right, f);
    CollectAppend(left, a, f);
  }

  // Exactly one element passes.
  lemma CollectUnique<A, B>(s: seq<A>, f: A -> Option<B>, i: nat)
    requires i < |s| && f(s[i]).Some?
    requires forall j :: 0 <= j < |s| && j != i ==> f(s[j]).None?
    ensures Collect(s, f) == [f(s[i]).value]
  {
    CollectNone(s[..i], f);
    CollectNone(s[i + 1..], f);
    CollectAround(s[..i], s[i], s[i + 1..], f);
    assert s == s[..i] + [s[i]] + s[i + 1..];
  }

  // Membership in a collected list.
  lemma {:induction false} CollectMember<A, B>(s: seq<A>, f: A -> Option<B>, a: A)
    requires a in s && f(a).Some?
    ensures f(a).value in Collect(s, f)
  {
    if a != s[0] { CollectMember(s[1..], f, a); }
  }

  lemma CollectTwo<A, B>(a: A, b: A, f: A -> Option<B>)
    ensures Collect([a, b], f) ==
            (if f(a).Some? then [f(a).value] else []) + (if f(b).Some? then [f(b).value] else [])
  {
    assert [a, b][1..] == [b] && [b][1..] == [];
  }

  lemma CollectMiddle<A, B>(left: seq<A>, middle: seq<A>, right: seq<A>, f: A -> Option<B>)
    ensures multiset(Collect(left + middle + right, f)) ==
            multiset(Collect(left + right, f)) + multiset(Collect(middle, f))
  {
    CollectConcat(left + middle, right, f);
    CollectConcat(left, middle, f);
    CollectConcat(left, right, f);
    MultisetMiddle(Collect(left, f), Collect(middle, f), Collect(right, f));
  }

  // Removing the same element from two lists with equal contents leaves equal contents.
  lemma RemoveSame<T>(s: seq<T>, t: seq<T>, i: nat)
    requires multiset(s) == multiset(t)
    requires s != [] && i < |t| && t[i] == s[0]
    ensures multiset(s[1..]) == multiset(t[..i] + t[i + 1..])
    ensures s == [s[0]] + s[1..] && t == t[..i] + [s[0]] + t[i + 1..]
  {
    var x := s[0];
    assert s == [x] + s[1..];
    assert multiset(s) == multiset{x} + multiset(s[1..]);
    assert t == t[..i] + [x] + t[i + 1..];
    assert multiset(t) == multiset(t[..i]) + multiset{x} + multiset(t[i + 1..]);
    assert multiset(s[1..]) == multiset(s) - multiset{x};
    assert multiset(t[..i] + t[i + 1..]) == multiset(t) - multiset{x};
  }

  // Collecting sees a list only through its contents, not through its order.
  lemma {:induction false} CollectPermutation<A, B>(s: seq<A>, t: seq<A>, f: A -> Option<B>)
    requires multiset(s) == multiset(t)
    ensures multiset(Collect(s, f)) == multiset(Collect(t, f))
    decreases |s|
  {
    if s == [] {
      assert |t| == |multiset(t)| == |multiset(s)| == 0;
    } else {
      assert s[0] in multiset(t);
      var i :| 0 <= i < |t| && t[i] == s[0];
      var left, one, right := t[..i], [s[0]], t[i + 1..];
      RemoveSame(s, t, i);
      CollectPermutation(s[1..], left + right, f);
      CollectMiddle(left, one, right, f);
      CollectConcat(one, s[1..], f);
    }
  }

  function Reverse<T>(s: seq<T>): (r: seq<T>)
    ensures |r| == |s|
    ensures forall i :: 0 <= i < |s| ==> r[i] == s[|s| - 1 - i]
  {
    seq(|s|, i requires 0 <= i < |s| => s[|s| - 1 - i])
  }

  lemma {:induction false} ReverseContents<T>(s: seq<T>)
    ensures multiset(Reverse(s)) == multiset(s)
  {
    if s == [] {
    } else {
      ReverseContents(s[1..]);
      assert Reverse(s) == Reverse(s[1..]) + [s[0]];
      assert s == [s[0]] + s[1..];
    }
  }

  // A list without repetitions has as many members as entries.
  ghost predicate NoRepeats<T>(s: seq<T>) {
    forall i, j :: 0 <= i < j < |s| ==> s[i] != s[j]
  }

  ghost function Members<T>(s: seq<T>): set<T> {
    set x | x in s
  }

  lemma {:induction false} MembersCount<T>(s: seq<T>)
    requires NoRepeats(s)
    ensures |Members(s)| == |s|
  {
    if s == [] {
    } else {
      MembersCount(s[1..]);
      assert s == [s[0]] + s[1..];
      assert Members(s) == Members(s[1..]) + {s[0]};
      assert s[0] !in s[1..];
    }
  }

  // Two sublists that overlap nowhere and leave an element out cannot fill the list.
  lemma OverlapOrMiss<T>(whole: seq<T>, a: seq<T>, b: seq<T>, missed: T) returns (x: T)
    requires NoRepeats(whole) && NoRepeats(a) && NoRepeats(b)
    requires (forall y :: y in a ==> y in whole) && (forall y :: y in b ==> y in whole)
    requires missed in whole && missed !in a && missed !in b
    requires |whole| <= |a| + |b|
    ensures x in a && x in b
  {
    MembersCount(whole);
    MembersCount(a);
    MembersCount(b);
    if Members(a) !! Members(b) {
      var u := Members(a) + Members(b);
      assert |u| == |a| + |b|;
      SubsetSize(u, Members(whole) - {missed});
      assert false;
    }
    x :| x in Members(a) && x in Members(b);
  }

  lemma {:induction false} SubsetSize<T>(a: set<T>, b: set<T>)
    requires a <= b
    ensures |a| <= |b|
  {
    if a == {} {
    } else {
      var x :| x in a;
      SubsetSize(a - {x}, b - {x});
    }
  }

  lemma OccursOnce<T>(s: seq<T>, i: nat)
    requires NoRepeats(s) && i < |s|
    ensures multiset(s)[s[i]] == 1
  {
    assert s == s[..i] + [s[i]] + s[i + 1..];
    assert s[i] !in s[..i] && s[i] !in s[i + 1..];
  }

  lemma OccursTwice<T>(s: seq<T>, i: nat, j: nat)
    requires i < j < |s| && s[i] == s[j]
    ensures multiset(s)[s[i]] >= 2
  {
    assert s == s[..j] + [s[j]] + s[j + 1..];
    assert s[i] == s[..j][i];
  }

  lemma SameContentsSameMembers<T>(s: seq<T>, t: seq<T>)
    requires multiset(s) == multiset(t)
    ensures |s| == |t| && forall x :: x in s <==> x in t
  {
    assert |s| == |multiset(s)| == |multiset(t)| == |t|;
    forall x ensures x in s <==> x in t {
      assert x in multiset(s) <==> x in multiset(t);
    }
  }

  // Having no repetition is a matter of contents only.
  lemma NoRepeatsByContents<T>(s: seq<T>, t: seq<T>)
    requires NoRepeats(s) && multiset(s) == multiset(t)
    ensures NoRepeats(t)
  {
    SameContentsSameMembers(s, t);
    forall i, j | 0 <= i < j < |t| ensures t[i] != t[j] {
      assert t[i] in s;
      var a :| 0 <= a < |s| && s[a] == t[i];
      OccursOnce(s, a);
      if t[i] == t[j] { OccursTwice(t, i, j); }
    }
  }

  // Lists without repetitions have the same contents when they have the same members.
  lemma ContentsByMembers<T>(s: seq<T>, t: seq<T>)
    requires NoRepeats(s) && NoRepeats(t) && forall x :: x in s <==> x in t
    ensures multiset(s) == multiset(t)
  {
    forall x ensures multiset(s)[x] == multiset(t)[x] {
      assert x in s <==> x in multiset(s);
      assert x in t <==> x in multiset(t);
      if x in s {
        var i :| 0 <= i < |s| && s[i] == x;
        var j :| 0 <= j < |t| && t[j] == x;
        OccursOnce(s, i);
        OccursOnce(t, j);
      }
    }
  }

  // A filter keeps a list free of repetitions.
  lemma {:induction false} FilterNoRepeats<T>(s: seq<T>, f: T -> Option<T>)
    requires NoRepeats(s) && forall x :: f(x).Some? ==> f(x).value == x
    ensures NoRepeats(Collect(s, f))
    ensures forall x :: x in Collect(s, f) <==> x in s && f(x).Some?
  {
    if s == [] {
    } else {
      FilterNoRepeats(s[1..], f);
      assert s == [s[0]] + s[1..];
      assert s[0] !in s[1..];
    }
  }

  lemma NoRepeatsConcat<T>(s: seq<T>, t: seq<T>)
    requires NoRepeats(s) && NoRepeats(t) && forall x :: x in t ==> x !in s
    ensures NoRepeats(s + t)
  {
    forall i, j | 0 <= i < j < |s + t| ensures (s + t)[i] != (s + t)[j] {
      assert (s + t)[j] in (if j < |s| then s else t);
    }
  }

  // As many elements pass a filter as there are indices at which one does.
  ghost function Passing<A, B>(s: seq<A>, f: A -> Option<B>): set<int> {
    set i | 0 <= i < |s| && f(s[i]).Some?
  }

  lemma {:induction false} PassingCount<A, B>(s: seq<A>, f: A -> Option<B>)
    ensures |Passing(s, f)| == |Collect(s, f)|
  {
    if s == [] {
    } else {
      var front, last := s[..|s| - 1], |s| - 1;
      PassingCount(front, f);
      assert s == front + [s[last]];
      CollectAppend(front, s[last], f);
      assert Passing(s, f) == Passing(front, f) + (if f(s[last]).Some? then {last} else {});
    }
  }

  lemma {:induction false} InjectionSize<A, B>(a: set<A>, b: set<B>, f: A -> B)
    requires forall x :: x in a ==> f(x) in b
    requires forall x, y :: x in a && y in a && f(x) == f(y) ==> x == y
    ensures |a| <= |b|
  {
    if a == {} {
    } else {
      var x :| x in a;
      InjectionSize(a - {x}, b - {f(x)}, f);
    }
  }
}
