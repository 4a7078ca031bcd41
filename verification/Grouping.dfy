/** Grouping a list by key, as `dict.setdefault(key, []).append(x)` in a loop does it. */
module Grouping {
  import opened Sequences
  import opened Wrappers

  function Keyed<T, K(==)>(key: T -> Option<K>, k: K): T -> Option<T> {
    x => if key(x) == Some(k) then Some(x) else None
  }

  // The elements with the given key, in order; elements without a key belong to no group.
  function WithKey<T, K(==)>(s: seq<T>, key: T -> Option<K>, k: K): (r: seq<T>) {
    Collect(s, Keyed(key, k))
  }

  // The keys of the list, each once, in order of first appearance.
  function Keys<T, K(==)>(s: seq<T>, key: T -> Option<K>): (r: seq<K>) {
    if s == [] then []
    else
      var rest, last := Keys(s[..|s| - 1], key), key(s[|s| - 1]);
      if last.None? || last.value in rest then rest else rest + [last.value]
  }

  lemma WithKeyAppend<T, K>(s: seq<T>, x: T, key: T -> Option<K>, k: K)
    ensures WithKey(s + [x], key, k) == if key(x) == Some(k) then WithKey(s, key, k) + [x] else WithKey(s, key, k)
  {
    CollectAppend(s, x, Keyed(key, k));
  }

  lemma NothingWithKey<T, K>(key: T -> Option<K>, k: K)
    ensures WithKey([], key, k) == []
  {
  }

  lemma WithKeyConcat<T, K>(s: seq<T>, t: seq<T>, key: T -> Option<K>, k: K)
    ensures WithKey(s + t, key, k) == WithKey(s, key, k) + WithKey(t, key, k)
  {
    CollectConcat(s, t, Keyed(key, k));
  }

  lemma {:induction false} KeysMember<T, K>(s: seq<T>, key: T -> Option<K>, k: K)
    ensures k in Keys(s, key) <==> WithKey(s, key, k) != []
  {
    if s == [] {
    } else {
      var rest, last := s[..|s| - 1], s[|s| - 1];
      KeysMember(rest, key, k);
      WithKeyAppend(rest, last, key, k);
      assert s == rest + [last];
    }
  }

  lemma {:induction false} KeysDistinct<T, K>(s: seq<T>, key: T -> Option<K>)
    ensures NoRepeats(Keys(s, key))
  {
    if s == [] {
    } else {
      KeysDistinct(s[..|s| - 1], key);
    }
  }

  lemma {:induction false} WithKeyHasKey<T, K>(s: seq<T>, key: T -> Option<K>, k: K)
    ensures forall x :: x in WithKey(s, key, k) <==> x in s && key(x) == Some(k)
  {
    if s == [] {
    } else {
      WithKeyHasKey(s[1..], key, k);
      assert s == [s[0]] + s[1..];
    }
  }

  method GroupBy<T, K(==)>(s: seq<T>, key: T -> Option<K>) returns (groups: map<K, seq<T>>, keys: seq<K>)
    ensures keys == Keys(s, key)
    ensures forall k :: k in groups <==> k in keys
    ensures forall k :: k in groups ==> groups[k] == WithKey(s, key, k)
  {
    hide Keyed, WithKey;
    groups, keys := map[], [];
    for i := 0 to |s|
      invariant keys == Keys(s[..i], key)
      invariant forall k :: k in groups <==> k in keys
      invariant forall k :: k in groups ==> groups[k] == WithKey(s[..i], key, k)
    {
      var x := s[i];
      assert s[..i + 1] == s[..i] + [x];
      assert s[..i + 1][..i] == s[..i];
      forall k ensures WithKey(s[..i + 1], key, k) ==
                       if key(x) == Some(k) then WithKey(s[..i], key, k) + [x] else WithKey(s[..i], key, k)
      {
        WithKeyAppend(s[..i], x, key, k);
      }
      if key(x).Some? {
        var k := key(x).value;
        KeysMember(s[..i], key, k);
        if k !in groups {
          keys := keys + [k];
          groups := groups[k := []];
        }
        assert groups[k] == WithKey(s[..i], key, k);
        groups := groups[k := groups[k] + [x]];
      }
    }
    assert s[..|s|] == s;
  }

  // Splitting a list into its groups loses nothing and invents nothing.
  function Regrouped<T, K(==)>(s: seq<T>, key: T -> Option<K>, keys: seq<K>): (r: seq<T>) {
    if keys == [] then [] else Regrouped(s, key, keys[..|keys| - 1]) + WithKey(s, key, keys[|keys| - 1])
  }

  lemma {:induction false} RegroupedAppend<T, K>(s: seq<T>, x: T, key: T -> Option<K>, keys: seq<K>)
    requires NoRepeats(keys)
    ensures multiset(Regrouped(s + [x], key, keys)) ==
            multiset(Regrouped(s, key, keys)) +
            (if key(x).Some? && key(x).value in keys then multiset{x} else multiset{})
  {
    hide WithKey;
    if keys == [] {
    } else {
      var front, last := keys[..|keys| - 1], keys[|keys| - 1];
      assert keys == front + [last];
      assert last !in front;
      RegroupedAppend(s, x, key, front);
      WithKeyAppend(s, x, key, last);
      assert multiset(WithKey(s + [x], key, last)) ==
             multiset(WithKey(s, key, last)) + (if key(x) == Some(last) then multiset{x} else multiset{});
    }
  }

  lemma {:induction false} RegroupedIsAll<T, K>(s: seq<T>, key: T -> Option<K>, keys: seq<K>)
    requires NoRepeats(keys)
    requires forall x :: x in s ==> key(x).Some? && key(x).value in keys
    ensures multiset(Regrouped(s, key, keys)) == multiset(s)
  {
    if s == [] {
      RegroupedEmpty(key, keys);
    } else {
      var rest, last := s[..|s| - 1], s[|s| - 1];
      assert s == rest + [last];
      RegroupedIsAll(rest, key, keys);
      RegroupedAppend(rest, last, key, keys);
    }
  }

  lemma {:induction false} RegroupedEmpty<T, K>(key: T -> Option<K>, keys: seq<K>)
    ensures Regrouped([], key, keys) == []
  {
    if keys == [] {
    } else {
      RegroupedEmpty(key, keys[..|keys| - 1]);
    }
  }
}
