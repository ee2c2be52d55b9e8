/**
 * A stable sort by a numeric key, the behaviour of `Array.prototype.sort`
 * with a comparator of the form `(a, b) => key(a) - key(b)`: the result is
 * ordered by key and elements with equal keys keep their input order.
 * `SortBy` is the reference definition; `SortInPlace` reorders an array.
 */
module StableSort {

  /** Inserts `x` before the first element whose key is not smaller than its own. */
  function Insert<T>(key: T -> real, x: T, t: seq<T>): (r: seq<T>)
    ensures |r| == |t| + 1
  {
    if |t| == 0 || key(x) <= key(t[0]) then [x] + t
    else [t[0]] + Insert(key, x, t[1..])
  }

  function SortBy<T>(key: T -> real, s: seq<T>): (r: seq<T>)
    ensures |r| == |s|
  {
    if |s| == 0 then [] else Insert(key, s[0], SortBy(key, s[1..]))
  }

  ghost predicate Sorted<T>(key: T -> real, s: seq<T>)
  {
    forall i, j :: 0 <= i < j < |s| ==> key(s[i]) <= key(s[j])
  }

  /** The elements of `s` whose key is `k`, in their order in `s`. */
  function WithKey<T>(key: T -> real, k: real, s: seq<T>): seq<T>
  {
    if |s| == 0 then [] else (if key(s[0]) == k then [s[0]] else []) + WithKey(key, k, s[1..])
  }

  /** `s[i]` has the least key in `s` and no earlier element shares it. */
  ghost predicate IsFirstLeast<T>(key: T -> real, s: seq<T>, i: int)
  {
    && 0 <= i < |s|
    && (forall j :: 0 <= j < |s| ==> key(s[i]) <= key(s[j]))
    && (forall j :: 0 <= j < i ==> key(s[i]) < key(s[j]))
  }

  lemma {:induction false} InsertPermutes<T>(key: T -> real, x: T, t: seq<T>)
    ensures multiset(Insert(key, x, t)) == multiset(t) + multiset{x}
    decreases |t|
  {
    if |t| > 0 && key(x) > key(t[0]) {
      InsertPermutes(key, x, t[1..]);
      assert t == [t[0]] + t[1..];
    }
  }

  /** `SortBy` only reorders: the result is a permutation of its input. */
  lemma {:induction false} SortByPermutes<T>(key: T -> real, s: seq<T>)
    ensures multiset(SortBy(key, s)) == multiset(s)
    decreases |s|
  {
    if |s| > 0 {
      SortByPermutes(key, s[1..]);
      InsertPermutes(key, s[0], SortBy(key, s[1..]));
      assert s == [s[0]] + s[1..];
    }
  }

  /** Every element of `s` has key at least `b`. */
  ghost predicate AllAtLeast<T>(key: T -> real, s: seq<T>, b: real)
  {
    forall i :: 0 <= i < |s| ==> b <= key(s[i])
  }

  lemma {:induction false} InsertAtLeast<T>(key: T -> real, x: T, t: seq<T>, b: real)
    requires AllAtLeast(key, t, b) && b <= key(x)
    ensures AllAtLeast(key, Insert(key, x, t), b)
    decreases |t|
  {
    if |t| > 0 && key(x) > key(t[0]) {
      InsertAtLeast(key, x, t[1..], b);
      var r := Insert(key, x, t);
      assert r == [t[0]] + Insert(key, x, t[1..]);
    }
  }

  lemma ConsSorted<T>(key: T -> real, y: T, r: seq<T>)
    requires Sorted(key, r) && AllAtLeast(key, r, key(y))
    ensures Sorted(key, [y] + r)
  {
    var s := [y] + r;
    forall i, j | 0 <= i < j < |s| ensures key(s[i]) <= key(s[j]) {
      assert s[j] == r[j - 1];
      if i > 0 {
        assert s[i] == r[i - 1];
      }
    }
  }

  lemma {:induction false} InsertSorted<T>(key: T -> real, x: T, t: seq<T>)
    requires Sorted(key, t)
    ensures Sorted(key, Insert(key, x, t))
    decreases |t|
  {
    if |t| == 0 || key(x) <= key(t[0]) {
      assert AllAtLeast(key, t, key(x));
      ConsSorted(key, x, t);
    } else {
      var tail := t[1..];
      assert Sorted(key, tail);
      assert AllAtLeast(key, tail, key(t[0]));
      InsertSorted(key, x, tail);
      InsertAtLeast(key, x, tail, key(t[0]));
      ConsSorted(key, t[0], Insert(key, x, tail));
    }
  }

  /** The result of `SortBy` is ordered by key. */
  lemma {:induction false} SortBySorted<T>(key: T -> real, s: seq<T>)
    ensures Sorted(key, SortBy(key, s))
    decreases |s|
  {
    if |s| > 0 {
      SortBySorted(key, s[1..]);
      InsertSorted(key, s[0], SortBy(key, s[1..]));
    }
  }

  lemma {:induction false} WithKeyAppend<T>(key: T -> real, k: real, a: seq<T>, b: seq<T>)
    ensures WithKey(key, k, a + b) == WithKey(key, k, a) + WithKey(key, k, b)
    decreases |a|
  {
    if |a| > 0 {
      assert (a + b)[1..] == a[1..] + b;
      WithKeyAppend(key, k, a[1..], b);
    } else {
      assert a + b == b;
    }
  }

  lemma {:induction false} WithKeyInsert<T>(key: T -> real, k: real, x: T, t: seq<T>)
    ensures WithKey(key, k, Insert(key, x, t)) == WithKey(key, k, [x]) + WithKey(key, k, t)
    decreases |t|
  {
    if |t| == 0 || key(x) <= key(t[0]) {
      WithKeyAppend(key, k, [x], t);
    } else {
      WithKeyInsert(key, k, x, t[1..]);
      WithKeyAppend(key, k, [t[0]], Insert(key, x, t[1..]));
      WithKeyAppend(key, k, [t[0]], t[1..]);
      assert [t[0]] + t[1..] == t;
      assert WithKey(key, k, [t[0]]) + WithKey(key, k, [x]) == WithKey(key, k, [x]) + WithKey(key, k, [t[0]]) by {
        assert WithKey(key, k, [t[0]]) == (if key(t[0]) == k then [t[0]] else []) + WithKey(key, k, []);
        assert WithKey(key, k, [x]) == (if key(x) == k then [x] else []) + WithKey(key, k, []);
      }
    }
  }

  /** Stability: for every key value, `SortBy` keeps those elements in their input order. */
  lemma {:induction false} SortByStable<T>(key: T -> real, k: real, s: seq<T>)
    ensures WithKey(key, k, SortBy(key, s)) == WithKey(key, k, s)
    decreases |s|
  {
    if |s| > 0 {
      SortByStable(key, k, s[1..]);
      WithKeyInsert(key, k, s[0], SortBy(key, s[1..]));
      WithKeyAppend(key, k, [s[0]], s[1..]);
      assert [s[0]] + s[1..] == s;
    }
  }

  /** The head of the sorted sequence is the earliest element with the least key. */
  lemma {:induction false} SortByHead<T>(key: T -> real, s: seq<T>)
    requires |s| > 0
    ensures exists i :: IsFirstLeast(key, s, i) && SortBy(key, s)[0] == s[i]
    decreases |s|
  {
    if |s| == 1 {
      assert IsFirstLeast(key, s, 0);
    } else {
      var tail := s[1..];
      SortByHead(key, tail);
      var i' :| IsFirstLeast(key, tail, i') && SortBy(key, tail)[0] == tail[i'];
      if key(s[0]) <= key(tail[i']) {
        forall j | 0 <= j < |s| ensures key(s[0]) <= key(s[j]) {
          if j > 0 { assert s[j] == tail[j - 1]; }
        }
        assert IsFirstLeast(key, s, 0);
      } else {
        forall j | 0 <= j < |s| ensures key(s[i' + 1]) <= key(s[j]) {
          if j > 0 { assert s[j] == tail[j - 1]; }
        }
        forall j | 0 <= j < i' + 1 ensures key(s[i' + 1]) < key(s[j]) {
          if j > 0 { assert s[j] == tail[j - 1]; }
        }
        assert IsFirstLeast(key, s, i' + 1);
      }
    }
  }

  /** One step of `Insert`: `x` passes over an element with a smaller key. */
  lemma InsertPastSmaller<T>(key: T -> real, x: T, t: seq<T>, n: nat)
    requires n < |t| && key(t[n]) < key(x)
    ensures t[..n] + Insert(key, x, t[n..]) == t[..n + 1] + Insert(key, x, t[n + 1..])
  {
    assert t[n..][1..] == t[n + 1..];
    assert t[..n + 1] == t[..n] + [t[n]];
  }

  /** `Insert` stops in front of the first element whose key is not smaller. */
  lemma InsertStops<T>(key: T -> real, x: T, t: seq<T>, n: nat)
    requires n <= |t| && (n == |t| || key(x) <= key(t[n]))
    ensures Insert(key, x, t[n..]) == [x] + t[n..]
  {
  }

  /** Slots `i` to `j - 1` of `b` hold the start of `t` and the slots after `j` its rest. */
  ghost predicate ShiftedAround<T>(b: seq<T>, t: seq<T>, i: nat, j: nat)
  {
    && (forall k :: i <= k < j && k < |b| && k - i < |t| ==> b[k] == t[k - i])
    && (forall k :: j < k < |b| && 0 <= k - i - 1 < |t| ==> b[k] == t[k - i - 1])
  }

  /** Moving the element after the gap into the gap moves the gap one slot right. */
  lemma ShiftStep<T>(b: seq<T>, t: seq<T>, i: nat, j: nat)
    requires i <= j && j + 1 < |b| && |t| == |b| - i - 1 && ShiftedAround(b, t, i, j)
    ensures ShiftedAround(b[j := b[j + 1]], t, i, j + 1)
    ensures b[j := b[j + 1]][..i] == b[..i]
  {
  }

  /** Writing `x` into the gap at `j` of `b`, whose slots after `i` hold `t` around the gap, gives `t` with `x` spliced in. */
  lemma Splice<T>(b: seq<T>, x: T, t: seq<T>, i: nat, j: nat)
    requires i <= j < |b| && |t| == |b| - i - 1 && ShiftedAround(b, t, i, j)
    ensures b[j := x][i..] == t[..j - i] + [x] + t[j - i..]
  {
    var r := t[..j - i] + [x] + t[j - i..];
    var c := b[j := x][i..];
    assert |c| == |r|;
    forall m | 0 <= m < |c| ensures c[m] == r[m] {
      if m < j - i {
        assert r[m] == t[m];
      } else if m > j - i {
        assert r[m] == t[m - 1];
      }
    }
  }

  /**
   * Shifts the elements after `i` whose key is smaller than that of `x`
   * (which is `a[i]`) one slot to the left, and returns the slot left free:
   * the place `Insert` gives `x`.
   */
  method ShiftSmaller<T>(a: array<T>, key: T -> real, i: nat, x: T, ghost t: seq<T>) returns (j: nat)
    requires i < a.Length && a[i] == x && a[i + 1..] == t
    modifies a
    ensures i <= j < a.Length
    ensures a[..i] == old(a[..i])
    ensures ShiftedAround(a[..], t, i, j)
    ensures Insert(key, x, t) == t[..j - i] + [x] + t[j - i..]
  {
    j := i;
    while j + 1 < a.Length && key(a[j + 1]) < key(x)
      invariant i <= j < a.Length
      invariant a[..i] == old(a[..i])
      invariant ShiftedAround(a[..], t, i, j)
      invariant Insert(key, x, t) == t[..j - i] + Insert(key, x, t[j - i..])
    {
      InsertPastSmaller(key, x, t, j - i);
      ghost var b := a[..];
      a[j] := a[j + 1];
      ShiftStep(b, t, i, j);
      assert a[..] == b[j := b[j + 1]];
      j := j + 1;
    }
    InsertStops(key, x, t, j - i);
    assert t[..j - i] + ([x] + t[j - i..]) == t[..j - i] + [x] + t[j - i..];
  }

  /**
   * Moves `a[i]` rightwards past the already sorted `a[i + 1..]` to the place
   * `Insert` gives it, shifting the smaller elements one slot to the left.
   */
  method InsertAt<T>(a: array<T>, key: T -> real, i: nat)
    requires i < a.Length
    modifies a
    ensures a[..i] == old(a[..i])
    ensures a[i..] == Insert(key, old(a[i]), old(a[i + 1..]))
  {
    var x := a[i];
    ghost var t := a[i + 1..];
    var j := ShiftSmaller(a, key, i, x, t);
    ghost var b := a[..];
    a[j] := x;
    ghost var c := a[..];
    assert c == b[j := x];
    Splice(b, x, t, i, j);
    assert c[i..] == Insert(key, x, t);
    assert c[..i] == b[..i];
  }

  /** Sorts `a` in place; the result is `SortBy` of the original contents. */
  method SortInPlace<T>(a: array<T>, key: T -> real)
    modifies a
    ensures a[..] == SortBy(key, old(a[..]))
  {
    ghost var s := a[..];
    var i := a.Length;
    while i > 0
      invariant 0 <= i <= a.Length
      invariant a[..i] == s[..i]
      invariant a[i..] == SortBy(key, s[i..])
    {
      i := i - 1;
      assert s[i..][1..] == s[i + 1..];
      InsertAt(a, key, i);
    }
    assert s[0..] == s;
  }
}
