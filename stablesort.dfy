/**
 Sorting by a numeric key, largest first, keeping equal-key elements in their
 original order: what `sorted(xs, key=k, reverse=True)` does (its sort is
 stable, and `reverse=True` keeps ties in input order).
 */
module StableSort {

  /** Keys never increase along `s`. */
  predicate SortedDesc<T>(s: seq<T>, key: T -> nat) {
    forall i, j :: 0 <= i < j < |s| ==> key(s[i]) >= key(s[j])
  }

  /** The elements of `s` whose key is `m`, in their order in `s`. */
  function WithKey<T>(s: seq<T>, key: T -> nat, m: nat): seq<T> {
    if s == [] then [] else (if key(s[0]) == m then [s[0]] else []) + WithKey(s[1..], key, m)
  }

  /** Puts `x` in front of the first element whose key is not larger. */
  function Insert<T>(x: T, s: seq<T>, key: T -> nat): (r: seq<T>)
    ensures |r| == |s| + 1
  {
    if s == [] || key(s[0]) <= key(x) then [x] + s else [s[0]] + Insert(x, s[1..], key)
  }

  /** Insertion sort, largest key first. */
  function SortDesc<T>(s: seq<T>, key: T -> nat): (r: seq<T>)
    ensures |r| == |s|
  {
    if s == [] then [] else Insert(s[0], SortDesc(s[1..], key), key)
  }

  /** Every key of `s` is at most `b`. */
  predicate AllAtMost<T>(s: seq<T>, key: T -> nat, b: nat) {
    forall i :: 0 <= i < |s| ==> key(s[i]) <= b
  }

  lemma {:induction false} InsertAtMost<T>(x: T, s: seq<T>, key: T -> nat, b: nat)
    requires AllAtMost(s, key, b) && key(x) <= b
    ensures AllAtMost(Insert(x, s, key), key, b)
  {
    if s != [] && key(s[0]) > key(x) {
      InsertAtMost(x, s[1..], key, b);
    }
  }

  /** Insertion keeps a sorted sequence sorted. */
  lemma {:induction false} InsertSorted<T>(x: T, s: seq<T>, key: T -> nat)
    requires SortedDesc(s, key)
    ensures SortedDesc(Insert(x, s, key), key)
  {
    if s != [] && key(s[0]) > key(x) {
      var t := Insert(x, s[1..], key);
      InsertSorted(x, s[1..], key);
      InsertAtMost(x, s[1..], key, key(s[0]));
      assert Insert(x, s, key) == [s[0]] + t;
    }
  }

  /** Insertion adds exactly `x`. */
  lemma {:induction false} InsertPermutes<T>(x: T, s: seq<T>, key: T -> nat)
    ensures multiset(Insert(x, s, key)) == multiset(s) + multiset{x}
  {
    if s != [] && key(s[0]) > key(x) {
      InsertPermutes(x, s[1..], key);
      assert s == [s[0]] + s[1..];
    }
  }

  /** Into a sorted sequence, `x` goes before every element with its key. */
  lemma {:induction false} InsertWithKey<T>(x: T, s: seq<T>, key: T -> nat, m: nat)
    requires SortedDesc(s, key)
    ensures WithKey(Insert(x, s, key), key, m) ==
            (if key(x) == m then [x] + WithKey(s, key, m) else WithKey(s, key, m))
  {
    if s == [] || key(s[0]) <= key(x) {
      assert Insert(x, s, key) == [x] + s;
      WithKeyCons(x, s, key, m);
    } else {
      var t := Insert(x, s[1..], key);
      assert Insert(x, s, key) == [s[0]] + t;
      WithKeyCons(s[0], t, key, m);
      assert s == [s[0]] + s[1..];
      WithKeyCons(s[0], s[1..], key, m);
      assert SortedDesc(s[1..], key);
      InsertWithKey(x, s[1..], key, m);
    }
  }

  lemma WithKeyCons<T>(y: T, s: seq<T>, key: T -> nat, m: nat)
    ensures WithKey([y] + s, key, m) == (if key(y) == m then [y] else []) + WithKey(s, key, m)
  {
    assert ([y] + s)[0] == y && ([y] + s)[1..] == s;
  }

  /** The result is sorted largest key first. */
  lemma {:induction false} SortDescSorted<T>(s: seq<T>, key: T -> nat)
    ensures SortedDesc(SortDesc(s, key), key)
  {
    if s != [] {
      SortDescSorted(s[1..], key);
      InsertSorted(s[0], SortDesc(s[1..], key), key);
    }
  }

  /** The result is a permutation of the input. */
  lemma {:induction false} SortDescPermutes<T>(s: seq<T>, key: T -> nat)
    ensures multiset(SortDesc(s, key)) == multiset(s)
  {
    if s != [] {
      SortDescPermutes(s[1..], key);
      InsertPermutes(s[0], SortDesc(s[1..], key), key);
      assert s == [s[0]] + s[1..];
    }
  }

  /** Equal-key elements keep their relative order (the sort is stable). */
  lemma {:induction false} SortDescStable<T>(s: seq<T>, key: T -> nat, m: nat)
    ensures WithKey(SortDesc(s, key), key, m) == WithKey(s, key, m)
  {
    if s != [] {
      SortDescSorted(s[1..], key);
      SortDescStable(s[1..], key, m);
      InsertWithKey(s[0], SortDesc(s[1..], key), key, m);
    }
  }

  /** Sorted, permuted and stable pin the result down: any sequence with
      these three properties is the sort's result. */
  lemma {:induction false} SortDescUnique<T>(s: seq<T>, t: seq<T>, key: T -> nat)
    requires SortedDesc(t, key)
    requires forall m :: WithKey(t, key, m) == WithKey(s, key, m)
    ensures t == SortDesc(s, key)
  {
    var u := SortDesc(s, key);
    SortDescSorted(s, key);
    forall m ensures WithKey(t, key, m) == WithKey(u, key, m) {
      SortDescStable(s, key, m);
    }
    SortedSameClassesEqual(t, u, key);
  }

  lemma {:induction false} WithKeyLength<T>(s: seq<T>, key: T -> nat, m: nat)
    ensures |WithKey(s, key, m)| <= |s|
    ensures s != [] && key(s[0]) == m ==> |WithKey(s, key, m)| > 0 && WithKey(s, key, m)[0] == s[0]
  {
    if s != [] {
      WithKeyLength(s[1..], key, m);
    }
  }

  /** In a sorted sequence, no element after the head has a larger key. */
  lemma {:induction false} WithKeyOfSmallerAbsent<T>(s: seq<T>, key: T -> nat, m: nat)
    requires SortedDesc(s, key)
    requires s != [] && m > key(s[0])
    ensures WithKey(s, key, m) == []
  {
    if |s| > 1 {
      assert SortedDesc(s[1..], key);
      WithKeyOfSmallerAbsent(s[1..], key, m);
    }
  }

  /** Two sorted sequences with the same key classes are equal. */
  lemma {:induction false} SortedSameClassesEqual<T>(t: seq<T>, u: seq<T>, key: T -> nat)
    requires SortedDesc(t, key) && SortedDesc(u, key)
    requires forall m :: WithKey(t, key, m) == WithKey(u, key, m)
    ensures t == u
    decreases |t| + |u|
  {
    if t == [] && u == [] {
    } else if t == [] {
      WithKeyLength(u, key, key(u[0]));
    } else if u == [] {
      WithKeyLength(t, key, key(t[0]));
    } else {
      var a, b := key(t[0]), key(u[0]);
      if a < b {
        WithKeyOfSmallerAbsent(t, key, b);
        WithKeyLength(u, key, b);
      } else if b < a {
        WithKeyOfSmallerAbsent(u, key, a);
        WithKeyLength(t, key, a);
      } else {
        assert t[0] == u[0] by {
          WithKeyLength(t, key, a);
          WithKeyLength(u, key, a);
        }
        assert SortedDesc(t[1..], key) && SortedDesc(u[1..], key);
        forall m ensures WithKey(t[1..], key, m) == WithKey(u[1..], key, m) {
          assert WithKey(t, key, m) == WithKey(u, key, m);
          if a == m {
            assert WithKey(t, key, m) == [t[0]] + WithKey(t[1..], key, m);
            assert WithKey(u, key, m) == [u[0]] + WithKey(u[1..], key, m);
            assert WithKey(t[1..], key, m) == WithKey(t, key, m)[1..];
            assert WithKey(u[1..], key, m) == WithKey(u, key, m)[1..];
          } else {
            assert WithKey(t, key, m) == WithKey(t[1..], key, m);
            assert WithKey(u, key, m) == WithKey(u[1..], key, m);
          }
        }
        SortedSameClassesEqual(t[1..], u[1..], key);
        assert t == [t[0]] + t[1..] && u == [u[0]] + u[1..];
      }
    }
  }

  /** No element occurs twice. */
  predicate Distinct<T(==)>(s: seq<T>) {
    forall i, j :: 0 <= i < j < |s| ==> s[i] != s[j]
  }

  lemma {:induction false} DistinctCountsOnce<T>(s: seq<T>, x: T)
    requires Distinct(s)
    ensures multiset(s)[x] <= 1
  {
    if s != [] {
      assert s == [s[0]] + s[1..];
      assert Distinct(s[1..]);
      DistinctCountsOnce(s[1..], x);
      if x == s[0] {
        assert x !in s[1..];
      }
    }
  }

  /** A permutation of a duplicate-free sequence is duplicate-free. */
  lemma DistinctPermutation<T>(s: seq<T>, t: seq<T>)
    requires Distinct(s) && multiset(t) == multiset(s)
    ensures Distinct(t)
  {
    forall i, j | 0 <= i < j < |t| ensures t[i] != t[j] {
      if t[i] == t[j] {
        var x := t[i];
        assert t == t[..i] + [x] + t[i + 1..j] + [x] + t[j + 1..];
        assert multiset(t)[x] >= 2;
        DistinctCountsOnce(s, x);
      }
    }
  }
}
