/**
 * Python's `list.sort(key=...)` and `sorted(..., key=..., reverse=True)` as a
 * stable insertion sort on an integer key.  Python's sort is stable in both
 * directions, so a descending sort is the ascending sort on the negated key.
 */
module Sorting {

  /** No element occurs twice. */
  predicate Distinct<T(==)>(s: seq<T>)
  {
    forall i, j :: 0 <= i < j < |s| ==> s[i] != s[j]
  }

  predicate SortedBy<T>(s: seq<T>, key: T -> int)
  {
    forall i, j :: 0 <= i < j < |s| ==> key(s[i]) <= key(s[j])
  }

  /** The elements of `s` whose key is `k`, in the order `s` holds them. */
  function WithKey<T>(s: seq<T>, key: T -> int, k: int): seq<T>
  {
    if s == [] then [] else (if key(s[0]) == k then [s[0]] else []) + WithKey(s[1..], key, k)
  }

  /** Insert `x` in front of the first element whose key is not smaller. */
  function InsertBy<T>(x: T, s: seq<T>, key: T -> int): (r: seq<T>)
    ensures |r| == |s| + 1
    ensures multiset(r) == multiset(s) + multiset{x}
  {
    if s == [] || key(x) <= key(s[0]) then [x] + s
    else
      assert s == [s[0]] + s[1..];
      [s[0]] + InsertBy(x, s[1..], key)
  }

  /** The stable sort of `s` by `key`. */
  function SortBy<T>(s: seq<T>, key: T -> int): (r: seq<T>)
    ensures |r| == |s|
    ensures multiset(r) == multiset(s)
  {
    if s == [] then []
    else
      assert s == [s[0]] + s[1..];
      InsertBy(s[0], SortBy(s[1..], key), key)
  }

  /** A lower bound of `x` and of every element of `s` bounds every element after insertion. */
  lemma {:induction false} InsertByBounded<T>(x: T, s: seq<T>, key: T -> int, b: int)
    requires b <= key(x) && forall i :: 0 <= i < |s| ==> b <= key(s[i])
    ensures forall i :: 0 <= i < |InsertBy(x, s, key)| ==> b <= key(InsertBy(x, s, key)[i])
  {
    if s != [] && key(s[0]) < key(x) {
      InsertByBounded(x, s[1..], key, b);
      assert InsertBy(x, s, key) == [s[0]] + InsertBy(x, s[1..], key);
    }
  }

  /** A sorted list stays sorted with a smallest element put in front. */
  lemma ConsSorted<T>(a: T, t: seq<T>, key: T -> int)
    requires SortedBy(t, key) && forall i :: 0 <= i < |t| ==> key(a) <= key(t[i])
    ensures SortedBy([a] + t, key)
  {
    var r := [a] + t;
    forall i, j | 0 <= i < j < |r| ensures key(r[i]) <= key(r[j]) {
      assert r[j] == t[j - 1];
      if i > 0 {
        assert r[i] == t[i - 1];
      }
    }
  }

  lemma {:induction false} InsertBySorted<T>(x: T, s: seq<T>, key: T -> int)
    requires SortedBy(s, key)
    ensures SortedBy(InsertBy(x, s, key), key)
    ensures InsertBy(x, s, key)[0] == if s == [] || key(x) <= key(s[0]) then x else s[0]
  {
    if s == [] || key(x) <= key(s[0]) {
      ConsSorted(x, s, key);
    } else {
      var rest := s[1..];
      assert SortedBy(rest, key);
      InsertBySorted(x, rest, key);
      InsertByBounded(x, rest, key, key(s[0]));
      ConsSorted(s[0], InsertBy(x, rest, key), key);
    }
  }

  lemma {:induction false} SortBySorted<T>(s: seq<T>, key: T -> int)
    ensures SortedBy(SortBy(s, key), key)
  {
    if s != [] {
      SortBySorted(s[1..], key);
      InsertBySorted(s[0], SortBy(s[1..], key), key);
    }
  }

  lemma WithKeyCons<T>(a: T, t: seq<T>, key: T -> int, k: int)
    ensures WithKey([a] + t, key, k) == (if key(a) == k then [a] else []) + WithKey(t, key, k)
  {
    assert ([a] + t)[1..] == t;
  }

  lemma {:induction false} InsertByStable<T>(x: T, s: seq<T>, key: T -> int, k: int)
    ensures WithKey(InsertBy(x, s, key), key, k)
         == (if key(x) == k then [x] else []) + WithKey(s, key, k)
  {
    if s == [] || key(x) <= key(s[0]) {
      WithKeyCons(x, s, key, k);
    } else {
      var rest := s[1..];
      var own: seq<T> := if key(x) == k then [x] else [];
      var head: seq<T> := if key(s[0]) == k then [s[0]] else [];
      assert s == [s[0]] + rest;
      assert InsertBy(x, s, key) == [s[0]] + InsertBy(x, rest, key);
      InsertByStable(x, rest, key, k);
      WithKeyCons(s[0], InsertBy(x, rest, key), key, k);
      WithKeyCons(s[0], rest, key, k);
      assert head == [] || own == [];
      assert head + (own + WithKey(rest, key, k)) == own + (head + WithKey(rest, key, k));
    }
  }

  /**
   * Stability: the elements sharing any one key keep their input order, so
   * of two elements with equal keys the earlier one in the input comes first.
   */
  lemma {:induction false} SortByStable<T>(s: seq<T>, key: T -> int, k: int)
    ensures WithKey(SortBy(s, key), key, k) == WithKey(s, key, k)
  {
    if s != [] {
      SortByStable(s[1..], key, k);
      InsertByStable(s[0], SortBy(s[1..], key), key, k);
    }
  }

  lemma {:induction false} WithKeyHead<T>(s: seq<T>, key: T -> int, k: int)
    requires WithKey(s, key, k) != []
    ensures exists i :: 0 <= i < |s| && key(s[i]) == k && WithKey(s, key, k)[0] == s[i] &&
                        forall j :: 0 <= j < i ==> key(s[j]) != k
  {
    if key(s[0]) != k {
      WithKeyHead(s[1..], key, k);
      var i :| 0 <= i < |s[1..]| && key(s[1..][i]) == k && WithKey(s[1..], key, k)[0] == s[1..][i] &&
        forall j :: 0 <= j < i ==> key(s[1..][j]) != k;
      assert forall j :: 0 <= j < i + 1 ==> key(s[j]) != k by {
        forall j | 0 <= j < i + 1 ensures key(s[j]) != k {
          if j > 0 { assert s[j] == s[1..][j - 1]; }
        }
      }
    }
  }

  /** The head of the sorted list has the smallest key of the input. */
  lemma SortByHeadMinimal<T>(s: seq<T>, key: T -> int)
    requires s != []
    ensures forall j :: 0 <= j < |s| ==> key(SortBy(s, key)[0]) <= key(s[j])
  {
    var sorted := SortBy(s, key);
    SortBySorted(s, key);
    forall j | 0 <= j < |s| ensures key(sorted[0]) <= key(s[j]) {
      assert s[j] in multiset(sorted);
      var t :| 0 <= t < |sorted| && sorted[t] == s[j];
    }
  }

  /**
   * The head of the sorted list is the first element of the input that has
   * its key: ties go to the element that came first.
   */
  lemma SortByHeadEarliest<T>(s: seq<T>, key: T -> int)
    requires s != []
    ensures exists i :: 0 <= i < |s| && SortBy(s, key)[0] == s[i] &&
                        forall j :: 0 <= j < i ==> key(s[j]) != key(s[i])
  {
    var sorted := SortBy(s, key);
    var k := key(sorted[0]);
    SortByStable(s, key, k);
    assert WithKey(sorted, key, k)[0] == sorted[0];
    WithKeyHead(s, key, k);
  }
}
