/** Sorting debtor and creditor records by descending amount. The source sorts
    with the comparator `(a, b) => b.amount - a.amount`, and JavaScript's sort is
    stable, so equal amounts keep their relative order. The model sorts by
    insertion; StableSortIsUnique shows that every stable descending sort gives
    the same sequence, whatever algorithm the engine uses. */
module StableSort {
  import opened Records

  /** Non-increasing in amount. */
  predicate NonIncreasing(s: seq<Entry>)
  {
    forall i, j :: 0 <= i < j < |s| ==> s[i].amount >= s[j].amount
  }

  /** Places `x` after every element of `t`, scanning from the right and
      stepping over the elements whose amount is smaller than `x`'s. */
  function Insert(t: seq<Entry>, x: Entry): (r: seq<Entry>)
    ensures |r| == |t| + 1
    decreases |t|
  {
    if t == [] || t[|t| - 1].amount >= x.amount then t + [x]
    else Insert(t[..|t| - 1], x) + [t[|t| - 1]]
  }

  /** Insertion sort, descending by amount, elements taken left to right. */
  function SortDesc(s: seq<Entry>): (r: seq<Entry>)
    ensures |r| == |s|
    decreases |s|
  {
    if s == [] then []
    else Insert(SortDesc(s[..|s| - 1]), s[|s| - 1])
  }

  /** Inserting adds `x` and loses nothing. */
  lemma {:induction false} InsertPermutes(t: seq<Entry>, x: Entry)
    ensures multiset(Insert(t, x)) == multiset(t) + multiset{x}
    decreases |t|
  {
    if t != [] && t[|t| - 1].amount < x.amount {
      var t', last := t[..|t| - 1], t[|t| - 1];
      InsertPermutes(t', x);
      assert t == t' + [last];
    }
  }

  /** The sorted sequence is a permutation of the input. */
  lemma {:induction false} SortDescPermutes(s: seq<Entry>)
    ensures multiset(SortDesc(s)) == multiset(s)
    decreases |s|
  {
    if s != [] {
      var p, last := s[..|s| - 1], s[|s| - 1];
      SortDescPermutes(p);
      InsertPermutes(SortDesc(p), last);
      assert s == p + [last];
    }
  }

  /** The elements of `s` whose amount is `v`, in their order in `s`. */
  function WithAmount(s: seq<Entry>, v: real): (r: seq<Entry>)
    decreases |s|
  {
    if s == [] then []
    else (if s[0].amount == v then [s[0]] else []) + WithAmount(s[1..], v)
  }

  lemma {:induction false} WithAmountMembers(s: seq<Entry>, v: real, x: Entry)
    ensures x in WithAmount(s, v) <==> x in s && x.amount == v
    decreases |s|
  {
    if s != [] {
      WithAmountMembers(s[1..], v, x);
      assert s == [s[0]] + s[1..];
    }
  }

  lemma {:induction false} WithAmountConcat(a: seq<Entry>, b: seq<Entry>, v: real)
    ensures WithAmount(a + b, v) == WithAmount(a, v) + WithAmount(b, v)
    decreases |a|
  {
    if a == [] {
      assert a + b == b;
    } else {
      var h := if a[0].amount == v then [a[0]] else [];
      assert (a + b)[0] == a[0];
      assert (a + b)[1..] == a[1..] + b;
      assert WithAmount(a + b, v) == h + WithAmount(a[1..] + b, v);
      WithAmountConcat(a[1..], b, v);
      assert h + (WithAmount(a[1..], v) + WithAmount(b, v)) == (h + WithAmount(a[1..], v)) + WithAmount(b, v);
    }
  }

  /** Every element of `t` and `x` itself is at least `bound`, so every
      element of the insertion is. */
  lemma InsertBounded(t: seq<Entry>, x: Entry, bound: real)
    requires forall k :: 0 <= k < |t| ==> t[k].amount >= bound
    requires x.amount >= bound
    ensures forall y :: y in Insert(t, x) ==> y.amount >= bound
  {
    InsertPermutes(t, x);
    forall y | y in Insert(t, x) ensures y.amount >= bound {
      assert y in multiset(Insert(t, x));
      if y != x {
        assert y in multiset(t);
      }
    }
  }

  lemma {:induction false} InsertNonIncreasing(t: seq<Entry>, x: Entry)
    requires NonIncreasing(t)
    ensures NonIncreasing(Insert(t, x))
    decreases |t|
  {
    if t != [] && t[|t| - 1].amount < x.amount {
      var t', last := t[..|t| - 1], t[|t| - 1];
      InsertNonIncreasing(t', x);
      var r' := Insert(t', x);
      InsertBounded(t', x, last.amount);
      AppendSmallest(r', last);
    }
  }

  /** Appending an element no larger than any other keeps the order. */
  lemma AppendSmallest(r: seq<Entry>, last: Entry)
    requires NonIncreasing(r)
    requires forall y :: y in r ==> y.amount >= last.amount
    ensures NonIncreasing(r + [last])
  {
    var s := r + [last];
    forall i, j | 0 <= i < j < |s| ensures s[i].amount >= s[j].amount {
      if j == |s| - 1 {
        assert s[i] in r;
      } else {
        assert s[i] == r[i] && s[j] == r[j];
      }
    }
  }

  /** The sorted sequence is non-increasing. */
  lemma {:induction false} SortDescNonIncreasing(s: seq<Entry>)
    ensures NonIncreasing(SortDesc(s))
    decreases |s|
  {
    if s != [] {
      SortDescNonIncreasing(s[..|s| - 1]);
      InsertNonIncreasing(SortDesc(s[..|s| - 1]), s[|s| - 1]);
    }
  }

  lemma {:induction false} InsertStable(t: seq<Entry>, x: Entry, v: real)
    ensures WithAmount(Insert(t, x), v) == WithAmount(t, v) + WithAmount([x], v)
    decreases |t|
  {
    if t == [] || t[|t| - 1].amount >= x.amount {
      WithAmountConcat(t, [x], v);
    } else {
      var t', last := t[..|t| - 1], t[|t| - 1];
      InsertStable(t', x, v);
      WithAmountConcat(Insert(t', x), [last], v);
      WithAmountConcat(t', [last], v);
      assert t == t' + [last];
      if last.amount == v {
        assert x.amount != v;
        assert WithAmount([x], v) == [];
      }
    }
  }

  /** Stability: among elements of equal amount the order is unchanged. */
  lemma {:induction false} SortDescStable(s: seq<Entry>, v: real)
    ensures WithAmount(SortDesc(s), v) == WithAmount(s, v)
    decreases |s|
  {
    if s != [] {
      var p, last := s[..|s| - 1], s[|s| - 1];
      SortDescStable(p, v);
      InsertStable(SortDesc(p), last, v);
      WithAmountConcat(p, [last], v);
      assert s == p + [last];
    }
  }

  lemma {:induction false} WithAmountTail(s: seq<Entry>, v: real)
    requires s != []
    ensures WithAmount(s[1..], v)
            == if s[0].amount == v then WithAmount(s, v)[1..] else WithAmount(s, v)
  {
  }

  lemma NonEmptyHasClass(s: seq<Entry>)
    requires s != []
    ensures WithAmount(s, s[0].amount) != []
  {
  }

  lemma SameHead(t: seq<Entry>, u: seq<Entry>)
    requires t != [] && u != []
    requires NonIncreasing(t) && NonIncreasing(u)
    requires forall v :: WithAmount(t, v) == WithAmount(u, v)
    ensures t[0] == u[0]
  {
    var a, b := t[0].amount, u[0].amount;
    assert t[0] in WithAmount(t, a);
    WithAmountMembers(u, a, t[0]);
    var k :| 0 <= k < |u| && u[k] == t[0];
    assert a <= b;
    assert u[0] in WithAmount(u, b);
    WithAmountMembers(t, b, u[0]);
    var m :| 0 <= m < |t| && t[m] == u[0];
    assert b <= a;
    assert WithAmount(t, a)[0] == t[0];
    assert WithAmount(u, a)[0] == u[0];
  }

  lemma SameTailClasses(t: seq<Entry>, u: seq<Entry>)
    requires t != [] && u != [] && t[0] == u[0]
    requires forall v :: WithAmount(t, v) == WithAmount(u, v)
    ensures forall v :: WithAmount(t[1..], v) == WithAmount(u[1..], v)
  {
    forall v ensures WithAmount(t[1..], v) == WithAmount(u[1..], v) {
      WithAmountTail(t, v);
      WithAmountTail(u, v);
    }
  }

  /** Two non-increasing sequences that agree on every amount class are
      equal. */
  lemma {:induction false} SortedByClassesEqual(t: seq<Entry>, u: seq<Entry>)
    requires NonIncreasing(t) && NonIncreasing(u)
    requires forall v :: WithAmount(t, v) == WithAmount(u, v)
    ensures t == u
    decreases |t|
  {
    if t == [] && u == [] {
    } else if t == [] || u == [] {
      if t == [] {
        NonEmptyHasClass(u);
      } else {
        NonEmptyHasClass(t);
      }
      assert false;
    } else {
      SameHead(t, u);
      SameTailClasses(t, u);
      SortedByClassesEqual(t[1..], u[1..]);
      assert t == [t[0]] + t[1..] && u == [u[0]] + u[1..];
    }
  }

  /** Any stable descending sort of `s` is SortDesc(s): the result of the
      source's sort does not depend on the sorting algorithm. */
  lemma StableSortIsUnique(s: seq<Entry>, t: seq<Entry>)
    requires NonIncreasing(t)
    requires forall v :: WithAmount(t, v) == WithAmount(s, v)
    ensures t == SortDesc(s)
  {
    SortDescNonIncreasing(s);
    forall v ensures WithAmount(t, v) == WithAmount(SortDesc(s), v) {
      SortDescStable(s, v);
    }
    SortedByClassesEqual(t, SortDesc(s));
  }

  lemma DropLast(t: seq<Entry>, j: nat)
    requires j < |t|
    ensures t[..|t| - 1][..j] == t[..j]
    ensures t[..|t| - 1][j..] + [t[|t| - 1]] == t[j..]
  {
  }

  lemma {:induction false} InsertAt(t: seq<Entry>, x: Entry, j: nat)
    requires j <= |t|
    requires j == 0 || t[j - 1].amount >= x.amount
    requires forall k :: j <= k < |t| ==> t[k].amount < x.amount
    ensures Insert(t, x) == t[..j] + [x] + t[j..]
    decreases |t| - j
  {
    if j < |t| {
      var t', last := t[..|t| - 1], t[|t| - 1];
      assert last.amount < x.amount;
      assert Insert(t, x) == Insert(t', x) + [last];
      assert j == 0 || t'[j - 1].amount >= x.amount;
      assert forall k :: j <= k < |t'| ==> t'[k].amount < x.amount;
      InsertAt(t', x, j);
      DropLast(t, j);
    } else {
      assert t[..j] == t;
    }
  }

  /** In-place stable insertion sort, descending by amount. */
  method SortInPlace(a: array<Entry>)
    modifies a
    ensures a[..] == SortDesc(old(a[..]))
  {
    ghost var s0 := a[..];
    var i := 0;
    while i < a.Length
      invariant 0 <= i <= a.Length
      invariant a[..i] == SortDesc(s0[..i])
      invariant forall k :: i <= k < a.Length ==> a[k] == s0[k]
    {
      ghost var sorted, next := a[..i], a[i];
      InsertNext(a, i);
      SortDescStep(s0, i);
      assert a[..i + 1] == Insert(sorted, next);
      i := i + 1;
    }
    assert a[..] == a[..a.Length];
    assert s0 == s0[..a.Length];
  }

  lemma SortDescStep(s: seq<Entry>, i: nat)
    requires i < |s|
    ensures SortDesc(s[..i + 1]) == Insert(SortDesc(s[..i]), s[i])
  {
    assert s[..i + 1][..i] == s[..i];
  }

  /** One pass of insertion sort: shifts the smaller elements of the sorted
      prefix `a[..i]` one place right and drops `a[i]` into the gap. */
  method InsertNext(a: array<Entry>, i: nat)
    requires i < a.Length
    modifies a
    ensures a[..i + 1] == Insert(old(a[..i]), old(a[i]))
    ensures forall k :: i < k < a.Length ==> a[k] == old(a[k])
  {
    var x := a[i];
    ghost var t := a[..i];
    var j := i;
    while j > 0 && a[j - 1].amount < x.amount
      invariant 0 <= j <= i
      invariant forall k :: 0 <= k < j ==> a[k] == t[k]
      invariant forall k :: j < k <= i ==> a[k] == t[k - 1]
      invariant forall k :: j <= k < i ==> t[k].amount < x.amount
      invariant forall k :: i < k < a.Length ==> a[k] == old(a[k])
      decreases j
    {
      a[j] := a[j - 1];
      j := j - 1;
    }
    a[j] := x;
    InsertAt(t, x, j);
    ghost var r := t[..j] + [x] + t[j..];
    assert a[..i + 1] == r by {
      forall k | 0 <= k < i + 1 ensures a[..i + 1][k] == r[k] {
        if k < j {
          assert r[k] == t[k];
        } else if k > j {
          assert r[k] == t[k - 1];
        }
      }
    }
  }
}
