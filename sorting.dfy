/**
 * Python's `list.sort()`: a stable sort, done in place. Both sorts of the
 * core use it: the next-occurrence dates of the available weekdays
 * (ascending) and the matched conditions (by score, `reverse=True`, which in
 * Python stays stable). The order is given as `le(x, y)`: "x may stand
 * before y".
 */
module Sorting {

  ghost predicate TotalPreorder<T(!new)>(le: (T, T) -> bool) {
    && (forall x, y :: le(x, y) || le(y, x))
    && (forall x, y, z :: le(x, y) && le(y, z) ==> le(x, z))
  }

  predicate Sorted<T>(s: seq<T>, le: (T, T) -> bool) {
    forall i, j :: 0 <= i < j < |s| ==> le(s[i], s[j])
  }

  /** Neither of `x` and `y` has to precede the other: a stable sort keeps such elements in their original order. */
  predicate Equivalent<T>(le: (T, T) -> bool, x: T, y: T) {
    le(x, y) && le(y, x)
  }

  /** The elements of `s` equivalent to `z`, in their order in `s`. */
  function Class<T>(s: seq<T>, z: T, le: (T, T) -> bool): seq<T> {
    if s == [] then []
    else Class(s[..|s| - 1], z, le) + (if Equivalent(le, s[|s| - 1], z) then [s[|s| - 1]] else [])
  }

  /** No two elements of `s` share a key. */
  predicate DistinctBy<T, K(==)>(s: seq<T>, key: T -> K) {
    forall i, j :: 0 <= i < j < |s| ==> key(s[i]) != key(s[j])
  }

  /** Put `x` after `t`, then move it left past every element that must not precede it. */
  function Insert<T>(x: T, t: seq<T>, le: (T, T) -> bool): (r: seq<T>)
    ensures |r| == |t| + 1
  {
    if t == [] || le(t[|t| - 1], x) then t + [x]
    else Insert(x, t[..|t| - 1], le) + [t[|t| - 1]]
  }

  /** Insertion sort: insert the elements one by one, left to right. */
  function Sort<T>(s: seq<T>, le: (T, T) -> bool): (r: seq<T>)
    ensures |r| == |s|
  {
    if s == [] then [] else Insert(s[|s| - 1], Sort(s[..|s| - 1], le), le)
  }

  lemma {:induction false} InsertPermutes<T>(x: T, t: seq<T>, le: (T, T) -> bool)
    ensures multiset(Insert(x, t, le)) == multiset(t) + multiset{x}
  {
    if t != [] && !le(t[|t| - 1], x) {
      InsertPermutes(x, t[..|t| - 1], le);
      assert t == t[..|t| - 1] + [t[|t| - 1]];
    }
  }

  /** The sort returns a permutation of its input. */
  lemma {:induction false} SortPermutes<T>(s: seq<T>, le: (T, T) -> bool)
    ensures multiset(Sort(s, le)) == multiset(s)
  {
    if s != [] {
      SortPermutes(s[..|s| - 1], le);
      InsertPermutes(s[|s| - 1], Sort(s[..|s| - 1], le), le);
      assert s == s[..|s| - 1] + [s[|s| - 1]];
    }
  }

  lemma InsertMembers<T>(x: T, t: seq<T>, le: (T, T) -> bool)
    ensures forall y :: y in Insert(x, t, le) <==> y == x || y in t
  {
    InsertPermutes(x, t, le);
    forall y ensures y in Insert(x, t, le) <==> y == x || y in t {
      assert y in Insert(x, t, le) <==> y in multiset(Insert(x, t, le));
      assert y in t <==> y in multiset(t);
    }
  }

  lemma {:induction false} InsertSorted<T(!new)>(x: T, t: seq<T>, le: (T, T) -> bool)
    requires TotalPreorder(le) && Sorted(t, le)
    ensures Sorted(Insert(x, t, le), le)
  {
    if t != [] && !le(t[|t| - 1], x) {
      var n := |t| - 1;
      InsertSorted(x, t[..n], le);
      InsertMembers(x, t[..n], le);
      var r := Insert(x, t[..n], le);
      forall i | 0 <= i < |r| ensures le(r[i], t[n]) {
        assert r[i] in r;
        if r[i] != x {
          var k :| 0 <= k < n && t[..n][k] == r[i];
        }
      }
    }
  }

  /** The sort's output is ordered. */
  lemma {:induction false} SortSorted<T(!new)>(s: seq<T>, le: (T, T) -> bool)
    requires TotalPreorder(le)
    ensures Sorted(Sort(s, le), le)
  {
    if s != [] {
      SortSorted(s[..|s| - 1], le);
      InsertSorted(s[|s| - 1], Sort(s[..|s| - 1], le), le);
    }
  }

  lemma ClassAppend<T>(t: seq<T>, y: T, z: T, le: (T, T) -> bool)
    ensures Class(t + [y], z, le) == Class(t, z, le) + (if Equivalent(le, y, z) then [y] else [])
  {
    assert (t + [y])[..|t|] == t;
  }

  lemma {:induction false} InsertClass<T(!new)>(x: T, t: seq<T>, z: T, le: (T, T) -> bool)
    requires TotalPreorder(le)
    ensures Class(Insert(x, t, le), z, le) == Class(t, z, le) + (if Equivalent(le, x, z) then [x] else [])
  {
    if t == [] || le(t[|t| - 1], x) {
      ClassAppend(t, x, z, le);
    } else {
      var n := |t| - 1;
      InsertClass(x, t[..n], z, le);
      ClassAppend(Insert(x, t[..n], le), t[n], z, le);
      assert t == t[..n] + [t[n]];
      ClassAppend(t[..n], t[n], z, le);
    }
  }

  /** Stability: the elements of each equivalence class leave the sort in the order they entered it. */
  lemma {:induction false} SortStable<T(!new)>(s: seq<T>, z: T, le: (T, T) -> bool)
    requires TotalPreorder(le)
    ensures Class(Sort(s, le), z, le) == Class(s, z, le)
  {
    if s != [] {
      var n := |s| - 1;
      SortStable(s[..n], z, le);
      InsertClass(s[n], Sort(s[..n], le), z, le);
    }
  }

  /** Sorting cannot make two elements share a key. */
  lemma {:induction false} SortKeepsDistinct<T(!new), K>(s: seq<T>, key: T -> K, le: (T, T) -> bool)
    requires DistinctBy(s, key)
    ensures DistinctBy(Sort(s, le), key)
  {
    if s != [] {
      var n := |s| - 1;
      SortKeepsDistinct(s[..n], key, le);
      SortPermutes(s[..n], le);
      forall y | y in Sort(s[..n], le) ensures key(y) != key(s[n]) {
        assert y in multiset(Sort(s[..n], le));
        assert y in s[..n];
        var k :| 0 <= k < n && s[..n][k] == y;
      }
      InsertKeepsDistinct(s[n], Sort(s[..n], le), key, le);
    }
  }

  lemma {:induction false} InsertKeepsDistinct<T(!new), K>(x: T, t: seq<T>, key: T -> K, le: (T, T) -> bool)
    requires DistinctBy(t, key)
    requires forall y :: y in t ==> key(y) != key(x)
    ensures DistinctBy(Insert(x, t, le), key)
  {
    if t != [] && !le(t[|t| - 1], x) {
      var n := |t| - 1;
      InsertKeepsDistinct(x, t[..n], key, le);
      InsertMembers(x, t[..n], le);
      var r := Insert(x, t[..n], le);
      forall i | 0 <= i < |r| ensures key(r[i]) != key(t[n]) {
        assert r[i] in r;
        assert r[i] == x || r[i] in t[..n];
        if r[i] != x {
          var k :| 0 <= k < n && t[..n][k] == r[i];
        }
      }
    }
  }

  /** One step of the inner scan: `x` moves left past an element that must not precede it. */
  lemma InsertStep<T>(x: T, sorted: seq<T>, j: nat, le: (T, T) -> bool)
    requires 0 < j <= |sorted| && !le(sorted[j - 1], x)
    ensures Insert(x, sorted[..j], le) + sorted[j..] == Insert(x, sorted[..j - 1], le) + sorted[j - 1..]
  {
    assert sorted[..j][..j - 1] == sorted[..j - 1];
    assert sorted[j - 1..] == [sorted[j - 1]] + sorted[j..];
  }

  /** Inserts `a[i]` into the sorted prefix `a[..i]`, shifting the larger elements one place right. */
  method InsertInPlace<T>(a: array<T>, i: nat, le: (T, T) -> bool)
    requires i < a.Length
    modifies a
    ensures a[..i + 1] == Insert(old(a[i]), old(a[..i]), le)
    ensures a[i + 1..] == old(a[i + 1..])
  {
    var x := a[i];
    ghost var sorted := a[..i];
    var j := i;
    while j > 0 && !le(a[j - 1], x)
      invariant 0 <= j <= i
      invariant a[..j] == sorted[..j]
      invariant a[j + 1..i + 1] == sorted[j..]
      invariant a[i + 1..] == old(a[i + 1..])
      invariant Insert(x, sorted, le) == Insert(x, sorted[..j], le) + sorted[j..]
    {
      InsertStep(x, sorted, j, le);
      a[j] := a[j - 1];
      j := j - 1;
    }
    a[j] := x;
    assert a[..i + 1] == sorted[..j] + [x] + sorted[j..];
  }

  /** Sorts `a` in place; afterwards `a` holds what `Sort` computes from its old contents. */
  method InsertionSort<T>(a: array<T>, le: (T, T) -> bool)
    modifies a
    ensures a[..] == Sort(old(a[..]), le)
  {
    ghost var input := a[..];
    var i := 0;
    while i < a.Length
      invariant 0 <= i <= a.Length
      invariant a[..i] == Sort(input[..i], le)
      invariant a[i..] == input[i..]
    {
      assert input[..i + 1] == input[..i] + [input[i]];
      assert Sort(input[..i + 1], le) == Insert(input[i], Sort(input[..i], le), le);
      InsertInPlace(a, i, le);
      i := i + 1;
    }
    assert a[..] == a[..a.Length] && input == input[..a.Length];
  }
}
