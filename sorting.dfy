/** Ordering by a numeric key, largest first: the comparator shape
    `(a, b) => key(b) - key(a)` that the client passes to `Array.prototype.sort`
    and the `sort({ field: -1 })` the server asks of the database.
    `Array.prototype.sort` is stable, so elements with equal keys keep their
    relative order; the sort here is too. */
module Sorting {
  import opened Common

  /** Non-increasing in `key`. */
  ghost predicate SortedDesc<T>(s: seq<T>, key: T -> real) {
    forall i, j :: 0 <= i < j < |s| ==> key(s[i]) >= key(s[j])
  }

  /** `t` holds the same elements as `s`, each as often. */
  ghost predicate Permutation<T>(s: seq<T>, t: seq<T>) {
    multiset(s) == multiset(t)
  }

  /** The elements of `s` whose key is `v`, in the order `s` lists them. */
  function WithKey<T>(s: seq<T>, key: T -> real, v: real): seq<T> {
    if s == [] then []
    else WithKey(s[..|s| - 1], key, v) + (if key(s[|s| - 1]) == v then [s[|s| - 1]] else [])
  }

  lemma WithKeySnoc<T>(s: seq<T>, y: T, key: T -> real, v: real)
    ensures WithKey(s + [y], key, v) == WithKey(s, key, v) + (if key(y) == v then [y] else [])
  {
    assert (s + [y])[..|s|] == s;
  }

  /** `t` lists the elements of every key in the order `s` lists them. */
  ghost predicate Stable<T>(t: seq<T>, s: seq<T>, key: T -> real) {
    forall v :: WithKey(t, key, v) == WithKey(s, key, v)
  }

  /** Inserts `x` into `t` scanning from the back: `x` moves left past every
      element whose key is smaller than its own and stops behind the first
      one whose key is at least its own. */
  function InsertStable<T>(x: T, t: seq<T>, key: T -> real): seq<T> {
    if t == [] || key(t[|t| - 1]) >= key(x) then t + [x]
    else InsertStable(x, t[..|t| - 1], key) + [t[|t| - 1]]
  }

  lemma {:induction false} InsertShape<T>(x: T, t: seq<T>, key: T -> real)
    ensures multiset(InsertStable(x, t, key)) == multiset(t) + multiset{x}
    ensures var r := InsertStable(x, t, key);
      |r| == |t| + 1 && (r[|r| - 1] == x || (t != [] && r[|r| - 1] == t[|t| - 1]))
  {
    if t != [] && key(t[|t| - 1]) < key(x) {
      var init := t[..|t| - 1];
      InsertShape(x, init, key);
      assert t == init + [t[|t| - 1]];
    }
  }

  /** Appending an element no larger than the last keeps a sequence sorted. */
  lemma AppendSorted<T>(t: seq<T>, y: T, key: T -> real)
    requires SortedDesc(t, key) && (t != [] ==> key(t[|t| - 1]) >= key(y))
    ensures SortedDesc(t + [y], key)
  {
    var r := t + [y];
    forall i, j | 0 <= i < j < |r| ensures key(r[i]) >= key(r[j]) {
      assert r[i] == t[i];
      if j < |t| {
        assert r[j] == t[j];
      } else {
        assert key(t[i]) >= key(t[|t| - 1]);
      }
    }
  }

  lemma {:induction false} InsertSorted<T>(x: T, t: seq<T>, key: T -> real)
    requires SortedDesc(t, key)
    ensures SortedDesc(InsertStable(x, t, key), key)
  {
    if t == [] || key(t[|t| - 1]) >= key(x) {
      AppendSorted(t, x, key);
    } else {
      var init := t[..|t| - 1];
      var last := t[|t| - 1];
      assert SortedDesc(init, key);
      InsertSorted(x, init, key);
      InsertShape(x, init, key);
      var r := InsertStable(x, init, key);
      assert init != [] ==> key(init[|init| - 1]) >= key(last);
      AppendSorted(r, last, key);
    }
  }

  /** Moving `x` past elements with other keys does not change the order
      within any one key. */
  lemma {:induction false} InsertKeepsKeyOrder<T>(x: T, t: seq<T>, key: T -> real, v: real)
    ensures WithKey(InsertStable(x, t, key), key, v) == WithKey(t + [x], key, v)
  {
    if t != [] && key(t[|t| - 1]) < key(x) {
      var init := t[..|t| - 1];
      var last := t[|t| - 1];
      var xs := if key(x) == v then [x] else [];
      var ls := if key(last) == v then [last] else [];
      assert xs == [] || ls == [];
      assert t == init + [last];
      InsertKeepsKeyOrder(x, init, key, v);
      WithKeySnoc(InsertStable(x, init, key), last, key, v);
      WithKeySnoc(init, x, key, v);
      WithKeySnoc(init, last, key, v);
      WithKeySnoc(t, x, key, v);
      calc {
        WithKey(InsertStable(x, t, key), key, v);
        WithKey(InsertStable(x, init, key) + [last], key, v);
        WithKey(init, key, v) + xs + ls;
        WithKey(init, key, v) + ls + xs;
        WithKey(t + [x], key, v);
      }
    }
  }

  /** One step of the sort: inserting the last element into the sorted
      rest. */
  lemma SortStep<T>(s: seq<T>, rest: seq<T>, key: T -> real)
    requires s != []
    requires Stable(rest, s[..|s| - 1], key)
    ensures Stable(InsertStable(s[|s| - 1], rest, key), s, key)
  {
    var init := s[..|s| - 1];
    var x := s[|s| - 1];
    assert s == init + [x];
    forall v ensures WithKey(InsertStable(x, rest, key), key, v) == WithKey(s, key, v) {
      InsertKeepsKeyOrder(x, rest, key, v);
      WithKeySnoc(rest, x, key, v);
      WithKeySnoc(init, x, key, v);
    }
  }

  /** The sequence ordered by `key`, largest first, with equal keys in their
      original order: insertion sort, each element inserted into the sorted
      elements before it. */
  function SortDesc<T>(s: seq<T>, key: T -> real): (r: seq<T>)
    ensures SortedDesc(r, key)
    ensures Permutation(r, s)
  {
    if s == [] then []
    else
      var init := s[..|s| - 1];
      var rest := SortDesc(init, key);
      InsertSorted(s[|s| - 1], rest, key);
      InsertShape(s[|s| - 1], rest, key);
      assert s == init + [s[|s| - 1]];
      InsertStable(s[|s| - 1], rest, key)
  }

  /** The sort is stable: elements with equal keys keep their relative
      order. */
  lemma {:induction false} SortDescStable<T>(s: seq<T>, key: T -> real)
    ensures Stable(SortDesc(s, key), s, key)
  {
    if s != [] {
      SortDescStable(s[..|s| - 1], key);
      SortStep(s, SortDesc(s[..|s| - 1], key), key);
    }
  }

  /** `j` is where `x` stops when it moves left through `t`: every element
      from `j` on has a smaller key, and the one before `j`, if any, does not. */
  ghost predicate StopsAt<T>(x: T, t: seq<T>, j: int, key: T -> real) {
    && 0 <= j <= |t|
    && (j == 0 || key(t[j - 1]) >= key(x))
    && forall k :: j <= k < |t| ==> key(t[k]) < key(x)
  }

  lemma {:induction false} InsertAt<T>(x: T, t: seq<T>, j: int, key: T -> real)
    requires StopsAt(x, t, j, key)
    ensures InsertStable(x, t, key) == t[..j] + [x] + t[j..]
    decreases |t|
  {
    if j < |t| {
      var init := t[..|t| - 1];
      assert StopsAt(x, init, j, key);
      InsertAt(x, init, j, key);
      assert init[..j] == t[..j];
      assert t[j..] == init[j..] + [t[|t| - 1]];
    }
  }

  /** One pass of insertion sort: moves `a[i]` left past the elements with a
      smaller key, so that `a[..i + 1]` becomes the sorted prefix with `a[i]`
      inserted. */
  method InsertLeft<T>(a: array<T>, i: int, key: T -> real)
    requires 0 <= i < a.Length
    modifies a
    ensures a[..i + 1] == InsertStable(old(a[i]), old(a[..i]), key)
    ensures a[i + 1..] == old(a[i + 1..])
  {
    ghost var x := a[i];
    ghost var t := a[..i];
    var j := i;
    while j > 0 && key(a[j - 1]) < key(a[j])
      invariant 0 <= j <= i
      invariant forall k :: 0 <= k < j ==> a[k] == t[k]
      invariant a[j] == x
      invariant forall k :: j < k <= i ==> a[k] == t[k - 1]
      invariant forall k :: j <= k < i ==> key(t[k]) < key(x)
      invariant a[i + 1..] == old(a[i + 1..])
    {
      a[j - 1], a[j] := a[j], a[j - 1];
      j := j - 1;
    }
    assert StopsAt(x, t, j, key);
    InsertAt(x, t, j, key);
    var r := t[..j] + [x] + t[j..];
    forall k | 0 <= k <= i ensures a[k] == r[k] {
      if k < j {
        assert r[k] == t[k];
      } else if j < k {
        assert r[k] == t[k - 1];
      }
    }
    assert a[..i + 1] == r;
  }

  /** Sorting one more element of `s` inserts it into the sorted prefix. */
  lemma SortPrefixStep<T>(s: seq<T>, i: int, key: T -> real)
    requires 0 <= i < |s|
    ensures SortDesc(s[..i + 1], key) == InsertStable(s[i], SortDesc(s[..i], key), key)
  {
    assert s[..i + 1][..i] == s[..i];
  }

  /** `a.sort((x, y) => key(y) - key(x))`: reorders the array in place into
      the stable descending order; `SortDesc`'s contract says what that order
      is (sorted, a permutation, equal keys in their old order). */
  method SortInPlaceDesc<T>(a: array<T>, key: T -> real)
    modifies a
    ensures a[..] == SortDesc(old(a[..]), key)
  {
    ghost var s := a[..];
    var i := 0;
    while i < a.Length
      invariant 0 <= i <= a.Length
      invariant a[..i] == SortDesc(s[..i], key)
      invariant a[i..] == s[i..]
    {
      ghost var sorted := a[..i];
      assert a[i] == s[i];
      InsertLeft(a, i, key);
      assert a[..i + 1] == InsertStable(s[i], sorted, key);
      SortPrefixStep(s, i, key);
      assert a[i + 1..] == s[i + 1..];
      i := i + 1;
    }
    assert a[..a.Length] == a[..];
    assert s[..a.Length] == s;
  }

  /** A prefix of a sorted sequence is sorted. */
  lemma SortedPrefix<T>(s: seq<T>, n: nat, key: T -> real)
    requires SortedDesc(s, key) && n <= |s|
    ensures SortedDesc(s[..n], key)
  {
  }

  /** On a sorted sequence, no element left out of a prefix has a larger key
      than an element kept: the prefix holds the top `n` keys. */
  lemma SortedPrefixIsTop<T>(s: seq<T>, n: nat, key: T -> real)
    requires SortedDesc(s, key) && n <= |s|
    ensures forall i, j :: 0 <= i < n <= j < |s| ==> key(s[i]) >= key(s[j])
  {
  }
}
