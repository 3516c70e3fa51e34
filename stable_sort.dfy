/**
 * Go's sort.SliceStable, modelled as an in-place insertion sort.
 *
 * sort.SliceStable demands that its `less` be a strict weak order; here that
 * demand is written as "less agrees with `KeyLess` on some key function". For
 * such an order the stable sort of a sequence is unique, so the functional
 * insertion sort `InsertionSort` below is its specification whatever algorithm
 * the library uses internally.
 */
module StableSort {
  import opened Keys

  /** Every element is "not after" each later one. */
  ghost predicate SortedBy<T>(key: T -> Key, s: seq<T>) {
    forall i, j :: 0 <= i < j < |s| ==> !KeyLess(key(s[j]), key(s[i]))
  }

  /** The elements of `s` whose key is `k`, in their order in `s`. */
  function WithKey<T>(key: T -> Key, s: seq<T>, k: Key): seq<T> {
    if s == [] then []
    else WithKey(key, s[..|s| - 1], k) + (if key(s[|s| - 1]) == k then [s[|s| - 1]] else [])
  }

  /** Stability: for every key, the records with that key keep their relative order. */
  ghost predicate StableFrom<T>(key: T -> Key, s: seq<T>, r: seq<T>) {
    forall k :: WithKey(key, r, k) == WithKey(key, s, k)
  }

  /** Puts `x` after the last element of `t` that is not after it. */
  function Insert<T>(key: T -> Key, t: seq<T>, x: T): seq<T> {
    if t == [] || !KeyLess(key(x), key(t[|t| - 1])) then t + [x]
    else Insert(key, t[..|t| - 1], x) + [t[|t| - 1]]
  }

  function InsertionSort<T>(key: T -> Key, s: seq<T>): seq<T> {
    if s == [] then [] else Insert(key, InsertionSort(key, s[..|s| - 1]), s[|s| - 1])
  }

  lemma {:induction false} WithKeyAppend<T>(key: T -> Key, a: seq<T>, b: seq<T>, k: Key)
    ensures WithKey(key, a + b, k) == WithKey(key, a, k) + WithKey(key, b, k)
  {
    if b != [] {
      assert (a + b)[..|a + b| - 1] == a + b[..|b| - 1];
      WithKeyAppend(key, a, b[..|b| - 1], k);
    } else {
      assert a + b == a;
    }
  }

  lemma {:induction false} InsertPermutes<T>(key: T -> Key, t: seq<T>, x: T)
    ensures multiset(Insert(key, t, x)) == multiset(t) + multiset{x}
  {
    if !(t == [] || !KeyLess(key(x), key(t[|t| - 1]))) {
      assert t == t[..|t| - 1] + [t[|t| - 1]];
      InsertPermutes(key, t[..|t| - 1], x);
    }
  }

  lemma {:induction false} InsertSorted<T>(key: T -> Key, t: seq<T>, x: T)
    requires SortedBy(key, t)
    ensures SortedBy(key, Insert(key, t, x))
  {
    if t == [] || !KeyLess(key(x), key(t[|t| - 1])) {
      forall i | 0 <= i < |t|
        ensures !KeyLess(key(x), key(t[i]))
      {
        if i < |t| - 1 {
          KeyNotLessTransitive(key(t[i]), key(t[|t| - 1]), key(x));
        }
      }
    } else {
      var init, last := t[..|t| - 1], t[|t| - 1];
      assert SortedBy(key, init);
      InsertSorted(key, init, x);
      InsertPermutes(key, init, x);
      var u := Insert(key, init, x);
      forall i | 0 <= i < |u|
        ensures !KeyLess(key(last), key(u[i]))
      {
        assert u[i] in multiset(u);
        if u[i] != x {
          assert u[i] in multiset(init);
          var m :| 0 <= m < |init| && init[m] == u[i];
          assert t[m] == init[m];
        } else {
          KeyLessAsymmetric(key(x), key(last));
        }
      }
    }
  }

  lemma {:induction false} InsertStable<T>(key: T -> Key, t: seq<T>, x: T, k: Key)
    ensures WithKey(key, Insert(key, t, x), k) == WithKey(key, t, k) + WithKey(key, [x], k)
  {
    if t == [] || !KeyLess(key(x), key(t[|t| - 1])) {
      WithKeyAppend(key, t, [x], k);
    } else {
      var init, last := t[..|t| - 1], t[|t| - 1];
      assert t == init + [last];
      InsertStable(key, init, x, k);
      var u := Insert(key, init, x);
      WithKeyAppend(key, u, [last], k);
      WithKeyAppend(key, init, [last], k);
      if key(x) == k {
        KeyLessIrreflexive(k);
      }
    }
  }

  /** The insertion sort is sorted, a permutation of its input, and stable. */
  lemma {:induction false} InsertionSortCorrect<T>(key: T -> Key, s: seq<T>)
    ensures SortedBy(key, InsertionSort(key, s))
    ensures multiset(InsertionSort(key, s)) == multiset(s)
    ensures StableFrom(key, s, InsertionSort(key, s))
  {
    if s != [] {
      var init, last := s[..|s| - 1], s[|s| - 1];
      assert s == init + [last];
      InsertionSortCorrect(key, init);
      InsertPermutes(key, InsertionSort(key, init), last);
      InsertSorted(key, InsertionSort(key, init), last);
      forall k ensures WithKey(key, InsertionSort(key, s), k) == WithKey(key, s, k) {
        InsertStable(key, InsertionSort(key, init), last, k);
        WithKeyAppend(key, init, [last], k);
      }
    }
  }

  /** sort.SliceStable(a, less): sorts `a` in place. */
  method SliceStable<T(!new)>(a: array<T>, less: (T, T) -> bool, ghost key: T -> Key)
    requires forall x, y :: less(x, y) == KeyLess(key(x), key(y))
    modifies a
    ensures a[..] == InsertionSort(key, old(a[..]))
  {
    ghost var orig := a[..];
    var i := 0;
    while i < a.Length
      invariant 0 <= i <= a.Length
      invariant a[..i] == InsertionSort(key, orig[..i])
      invariant a[i..] == orig[i..]
      invariant forall x, y :: less(x, y) == KeyLess(key(x), key(y))
    {
      assert orig[..i + 1] == orig[..i] + [orig[i]];
      InsertLast(a, i, less, key);
      i := i + 1;
    }
    assert orig[..a.Length] == orig;
  }

  /** Copies `s` into a slice, sorts it with sort.SliceStable and hands it back. */
  method SortedSlice<T(!new)>(s: seq<T>, less: (T, T) -> bool, ghost key: T -> Key) returns (r: seq<T>)
    requires forall x, y :: less(x, y) == KeyLess(key(x), key(y))
    ensures r == InsertionSort(key, s)
    ensures SortedBy(key, r) && multiset(r) == multiset(s) && StableFrom(key, s, r)
  {
    var a := new T[|s|](i requires 0 <= i < |s| => s[i]);
    assert a[..] == s;
    SliceStable(a, less, key);
    r := a[..];
    InsertionSortCorrect(key, s);
  }

  /** One step of the insertion sort: moves `a[i]` into the sorted prefix `a[..i]`. */
  method InsertLast<T(!new)>(a: array<T>, i: nat, less: (T, T) -> bool, ghost key: T -> Key)
    requires i < a.Length
    requires forall x, y :: less(x, y) == KeyLess(key(x), key(y))
    modifies a
    ensures a[..i + 1] == Insert(key, old(a[..i]), old(a[i]))
    ensures a[i + 1..] == old(a[i + 1..])
  {
    var x := a[i];
    ghost var t := a[..i];
    var j := i;
    while j > 0 && less(x, a[j - 1])
      invariant 0 <= j <= i
      invariant a[..j] == t[..j]
      invariant a[j + 1..i + 1] == t[j..]
      invariant a[i + 1..] == old(a[i + 1..])
      invariant Insert(key, t, x) == Insert(key, t[..j], x) + t[j..]
    {
      assert t[..j][..j - 1] == t[..j - 1];
      assert t[j - 1..] == [t[j - 1]] + t[j..];
      a[j] := a[j - 1];
      j := j - 1;
    }
    assert Insert(key, t[..j], x) == t[..j] + [x];
    a[j] := x;
    assert a[..i + 1] == t[..j] + [x] + t[j..];
  }
}
