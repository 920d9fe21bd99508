/**
 * `Array.prototype.sort` with a numeric comparator `(a, b) => key(a) - key(b)`,
 * which the language requires to be stable: the elements come out in
 * ascending key order and elements with equal keys keep their original order.
 */
module Sorting {

  predicate SortedBy<T>(s: seq<T>, key: T -> int) {
    forall i, j :: 0 <= i < j < |s| ==> key(s[i]) <= key(s[j])
  }

  /** The elements of `s` whose key is `k`, in their order in `s`. */
  function WithKey<T>(s: seq<T>, key: T -> int, k: int): seq<T> {
    if s == [] then []
    else WithKey(s[..|s| - 1], key, k) + (if key(s[|s| - 1]) == k then [s[|s| - 1]] else [])
  }

  /** Puts `x` after every element whose key is at most its own. */
  function Insert<T>(x: T, t: seq<T>, key: T -> int): seq<T> {
    if t == [] then [x]
    else if key(t[0]) <= key(x) then [t[0]] + Insert(x, t[1..], key)
    else [x] + t
  }

  function SortBy<T>(s: seq<T>, key: T -> int): seq<T> {
    if s == [] then [] else Insert(s[|s| - 1], SortBy(s[..|s| - 1], key), key)
  }

  lemma {:induction false} InsertLowerBound<T>(x: T, t: seq<T>, key: T -> int, b: int)
    requires key(x) >= b && forall i :: 0 <= i < |t| ==> key(t[i]) >= b
    ensures forall i :: 0 <= i < |Insert(x, t, key)| ==> key(Insert(x, t, key)[i]) >= b
    decreases |t|
  {
    if t != [] && key(t[0]) <= key(x) {
      InsertLowerBound(x, t[1..], key, b);
    }
  }

  lemma {:induction false} InsertSorted<T>(x: T, t: seq<T>, key: T -> int)
    requires SortedBy(t, key)
    ensures SortedBy(Insert(x, t, key), key)
    decreases |t|
  {
    if t != [] && key(t[0]) <= key(x) {
      InsertSorted(x, t[1..], key);
      InsertLowerBound(x, t[1..], key, key(t[0]));
    }
  }

  lemma {:induction false} InsertMultiset<T>(x: T, t: seq<T>, key: T -> int)
    ensures multiset(Insert(x, t, key)) == multiset(t) + multiset{x}
    decreases |t|
  {
    if t != [] && key(t[0]) <= key(x) {
      InsertMultiset(x, t[1..], key);
      assert t == [t[0]] + t[1..];
    }
  }

  lemma {:induction false} InsertWithKey<T>(x: T, t: seq<T>, key: T -> int, k: int)
    requires SortedBy(t, key)
    ensures WithKey(Insert(x, t, key), key, k) == WithKey(t, key, k) + (if key(x) == k then [x] else [])
    decreases |t|
  {
    if t == [] {
      assert [x][..0] == [];
    } else if key(t[0]) <= key(x) {
      InsertWithKey(x, t[1..], key, k);
      assert t == [t[0]] + t[1..];
      WithKeyConcat([t[0]], Insert(x, t[1..], key), key, k);
      WithKeyConcat([t[0]], t[1..], key, k);
    } else {
      WithKeyConcat([x], t, key, k);
      assert [x][..0] == [];
      if key(x) == k {
        WithKeyAbove(t, key, k);
      }
    }
  }

  lemma {:induction false} WithKeyConcat<T>(a: seq<T>, b: seq<T>, key: T -> int, k: int)
    ensures WithKey(a + b, key, k) == WithKey(a, key, k) + WithKey(b, key, k)
    decreases |b|
  {
    if b == [] {
      assert a + b == a;
    } else {
      WithKeyConcat(a, b[..|b| - 1], key, k);
      assert (a + b)[..|a + b| - 1] == a + b[..|b| - 1];
    }
  }

  lemma {:induction false} WithKeyAbove<T>(t: seq<T>, key: T -> int, k: int)
    requires forall i :: 0 <= i < |t| ==> key(t[i]) > k
    ensures WithKey(t, key, k) == []
    decreases |t|
  {
    if t != [] {
      WithKeyAbove(t[..|t| - 1], key, k);
    }
  }

  /**
   * The sort puts the elements in ascending key order, is a permutation, and
   * is stable: the elements sharing any one key keep their relative order.
   */
  lemma {:induction false} SortByProperties<T>(s: seq<T>, key: T -> int)
    ensures SortedBy(SortBy(s, key), key)
    ensures multiset(SortBy(s, key)) == multiset(s)
    ensures forall k :: WithKey(SortBy(s, key), key, k) == WithKey(s, key, k)
    decreases |s|
  {
    if s != [] {
      var init := s[..|s| - 1];
      SortByProperties(init, key);
      var x, t := s[|s| - 1], SortBy(init, key);
      InsertSorted(x, t, key);
      InsertMultiset(x, t, key);
      forall k ensures WithKey(SortBy(s, key), key, k) == WithKey(s, key, k) {
        InsertWithKey(x, t, key, k);
      }
      assert s == init + [x];
    }
  }

  predicate Distinct<T(==)>(s: seq<T>) {
    forall i, j :: 0 <= i < j < |s| ==> s[i] != s[j]
  }

  lemma {:induction false} InsertDistinct<T>(x: T, t: seq<T>, key: T -> int)
    requires Distinct(t) && x !in t
    ensures Distinct(Insert(x, t, key))
    decreases |t|
  {
    if t != [] && key(t[0]) <= key(x) {
      InsertDistinct(x, t[1..], key);
      InsertMultiset(x, t[1..], key);
      var r := Insert(x, t[1..], key);
      assert t[0] !in multiset(t[1..]);
      assert t[0] !in r by {
        assert t[0] !in multiset(r);
      }
      forall j | 1 <= j < |r| + 1 ensures ([t[0]] + r)[0] != ([t[0]] + r)[j] {
        assert ([t[0]] + r)[j] == r[j - 1];
      }
    }
  }

  /** Sorting a sequence without repeated elements gives one without repeated elements. */
  lemma {:induction false} SortByDistinct<T>(s: seq<T>, key: T -> int)
    requires Distinct(s)
    ensures Distinct(SortBy(s, key))
    decreases |s|
  {
    if s != [] {
      var init := s[..|s| - 1];
      SortByDistinct(init, key);
      SortByProperties(init, key);
      var x := s[|s| - 1];
      assert x !in init;
      assert x !in multiset(SortBy(init, key));
      InsertDistinct(x, SortBy(init, key), key);
    }
  }
}
