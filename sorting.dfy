/**
 * Rust's `slice::sort_by`: a stable sort under a caller-supplied comparator
 * that must be a total preorder. `Sort` is a stable insertion sort, `SortBy`
 * the same algorithm in place on an array. `SortUnique` shows that every
 * sorted arrangement keeping the input order of each tie class is `Sort`,
 * so any stable algorithm yields the same result.
 */
module Sorting {
  import opened Text

  /** What `sort_by` demands of its comparator. */
  ghost predicate TotalPreorder<T(!new)>(cmp: (T, T) -> Ordering)
  {
    && (forall a, b :: cmp(b, a) == Flip(cmp(a, b)))
    && (forall a, b, c :: cmp(a, b) != Greater && cmp(b, c) != Greater ==> cmp(a, c) != Greater)
  }

  /** `a` may stand before `b`. */
  predicate Le<T>(cmp: (T, T) -> Ordering, a: T, b: T)
  {
    cmp(a, b) != Greater
  }

  ghost predicate Sorted<T>(cmp: (T, T) -> Ordering, s: seq<T>)
  {
    forall i, j :: 0 <= i < j < |s| ==> Le(cmp, s[i], s[j])
  }

  /** Inserts `x` before the first element that ranks strictly after it. */
  function Insert<T>(cmp: (T, T) -> Ordering, x: T, r: seq<T>): seq<T>
  {
    if r == [] then [x]
    else if cmp(r[0], x) == Greater then [x] + r
    else [r[0]] + Insert(cmp, x, r[1..])
  }

  /** The stable sort: each element is inserted after the ones equal to it. */
  function Sort<T>(cmp: (T, T) -> Ordering, s: seq<T>): seq<T>
  {
    if s == [] then [] else Insert(cmp, s[|s| - 1], Sort(cmp, s[..|s| - 1]))
  }

  /** Where `Insert` places `x`: after every element that may precede it. */
  lemma {:induction false} InsertAt<T>(cmp: (T, T) -> Ordering, x: T, r: seq<T>, k: nat)
    requires k <= |r|
    requires forall i :: 0 <= i < k ==> Le(cmp, r[i], x)
    requires forall i :: k <= i < |r| ==> cmp(r[i], x) == Greater
    ensures Insert(cmp, x, r) == r[..k] + [x] + r[k..]
  {
    if r != [] && k > 0 {
      InsertAt(cmp, x, r[1..], k - 1);
      assert r[..k] == [r[0]] + r[1..][..k - 1];
      assert r[k..] == r[1..][k - 1..];
    }
  }

  lemma {:induction false} InsertPermutation<T>(cmp: (T, T) -> Ordering, x: T, r: seq<T>)
    ensures multiset(Insert(cmp, x, r)) == multiset(r) + multiset{x}
  {
    if r == [] {
      assert Insert(cmp, x, r) == [x];
    } else if cmp(r[0], x) == Greater {
      assert Insert(cmp, x, r) == [x] + r;
    } else {
      InsertPermutation(cmp, x, r[1..]);
      assert Insert(cmp, x, r) == [r[0]] + Insert(cmp, x, r[1..]);
      assert r == [r[0]] + r[1..];
    }
  }

  /** Sorting never drops or duplicates an element. */
  lemma {:induction false} SortPermutation<T>(cmp: (T, T) -> Ordering, s: seq<T>)
    ensures |Sort(cmp, s)| == |s|
    ensures multiset(Sort(cmp, s)) == multiset(s)
  {
    if s != [] {
      var init := s[..|s| - 1];
      SortPermutation(cmp, init);
      InsertPermutation(cmp, s[|s| - 1], Sort(cmp, init));
      assert s == init + [s[|s| - 1]];
      assert |multiset(Sort(cmp, s))| == |multiset(s)|;
    }
  }

  lemma SortedTail<T>(cmp: (T, T) -> Ordering, r: seq<T>)
    requires Sorted(cmp, r) && r != []
    ensures Sorted(cmp, r[1..])
  {
    forall i, j | 0 <= i < j < |r| - 1
      ensures Le(cmp, r[1..][i], r[1..][j])
    {
      assert Le(cmp, r[i + 1], r[j + 1]);
    }
  }

  /** A sorted sequence stays sorted behind an element that may precede all of it. */
  lemma SortedCons<T>(cmp: (T, T) -> Ordering, y: T, t: seq<T>)
    requires Sorted(cmp, t)
    requires forall j :: 0 <= j < |t| ==> Le(cmp, y, t[j])
    ensures Sorted(cmp, [y] + t)
  {
    var u := [y] + t;
    forall i, j | 0 <= i < j < |u|
      ensures Le(cmp, u[i], u[j])
    {
      if i > 0 {
        assert u[i] == t[i - 1] && u[j] == t[j - 1];
      }
    }
  }

  /** A lower bound of `r` and of `x` bounds `Insert(cmp, x, r)`. */
  lemma InsertLowerBound<T>(cmp: (T, T) -> Ordering, y: T, x: T, r: seq<T>)
    requires Le(cmp, y, x)
    requires forall j :: 0 <= j < |r| ==> Le(cmp, y, r[j])
    ensures forall j :: 0 <= j < |Insert(cmp, x, r)| ==> Le(cmp, y, Insert(cmp, x, r)[j])
  {
    var t := Insert(cmp, x, r);
    InsertPermutation(cmp, x, r);
    forall j | 0 <= j < |t|
      ensures Le(cmp, y, t[j])
    {
      assert t[j] in multiset(t);
      if t[j] != x {
        assert t[j] in multiset(r);
        var m :| 0 <= m < |r| && r[m] == t[j];
      }
    }
  }

  lemma {:induction false} InsertSorted<T(!new)>(cmp: (T, T) -> Ordering, x: T, r: seq<T>)
    requires TotalPreorder(cmp)
    requires Sorted(cmp, r)
    ensures Sorted(cmp, Insert(cmp, x, r))
  {
    if r == [] {
    } else if cmp(r[0], x) == Greater {
      forall j | 0 <= j < |r|
        ensures Le(cmp, x, r[j])
      {
        assert cmp(x, r[0]) == Flip(cmp(r[0], x));
        assert j == 0 || Le(cmp, r[0], r[j]);
      }
      SortedCons(cmp, x, r);
    } else {
      SortedTail(cmp, r);
      InsertSorted(cmp, x, r[1..]);
      forall j | 0 <= j < |r| - 1
        ensures Le(cmp, r[0], r[1..][j])
      {
        assert Le(cmp, r[0], r[j + 1]);
      }
      InsertLowerBound(cmp, r[0], x, r[1..]);
      SortedCons(cmp, r[0], Insert(cmp, x, r[1..]));
    }
  }

  lemma {:induction false} SortSorted<T(!new)>(cmp: (T, T) -> Ordering, s: seq<T>)
    requires TotalPreorder(cmp)
    ensures Sorted(cmp, Sort(cmp, s))
  {
    if s != [] {
      SortSorted(cmp, s[..|s| - 1]);
      InsertSorted(cmp, s[|s| - 1], Sort(cmp, s[..|s| - 1]));
    }
  }

  // ---------------------------------------------------------------------
  // Stability: elements the comparator ties keep their input order
  // ---------------------------------------------------------------------

  /** The elements of `s` tied with `k`, in the order `s` has them. */
  function TiedWith<T>(cmp: (T, T) -> Ordering, s: seq<T>, k: T): seq<T>
  {
    if s == [] then []
    else (if cmp(s[0], k) == Equal then [s[0]] else []) + TiedWith(cmp, s[1..], k)
  }

  lemma {:induction false} TiedWithAppend<T>(cmp: (T, T) -> Ordering, a: seq<T>, b: seq<T>, k: T)
    ensures TiedWith(cmp, a + b, k) == TiedWith(cmp, a, k) + TiedWith(cmp, b, k)
  {
    if a == [] {
      assert a + b == b;
    } else {
      var h := if cmp(a[0], k) == Equal then [a[0]] else [];
      assert (a + b)[0] == a[0] && (a + b)[1..] == a[1..] + b;
      assert TiedWith(cmp, a + b, k) == h + TiedWith(cmp, a[1..] + b, k);
      TiedWithAppend(cmp, a[1..], b, k);
      assert TiedWith(cmp, a, k) == h + TiedWith(cmp, a[1..], k);
    }
  }

  lemma {:induction false} TiedWithMember<T>(cmp: (T, T) -> Ordering, s: seq<T>, k: T, x: T)
    ensures x in TiedWith(cmp, s, k) <==> x in s && cmp(x, k) == Equal
  {
    if s != [] {
      TiedWithMember(cmp, s[1..], k, x);
      assert s == [s[0]] + s[1..];
    }
  }

  lemma {:induction false} TiedWithNone<T>(cmp: (T, T) -> Ordering, s: seq<T>, k: T)
    requires forall i :: 0 <= i < |s| ==> cmp(s[i], k) != Equal
    ensures TiedWith(cmp, s, k) == []
  {
    if s != [] {
      TiedWithNone(cmp, s[1..], k);
    }
  }

  lemma {:induction false} InsertTiedWith<T(!new)>(cmp: (T, T) -> Ordering, x: T, r: seq<T>, k: T)
    requires TotalPreorder(cmp)
    requires Sorted(cmp, r)
    ensures TiedWith(cmp, Insert(cmp, x, r), k) == TiedWith(cmp, r, k) + TiedWith(cmp, [x], k)
  {
    if r == [] {
      assert Insert(cmp, x, r) == [x];
    } else if cmp(r[0], x) == Greater {
      assert Insert(cmp, x, r) == [x] + r;
      InsertFrontTiedWith(cmp, x, r, k);
    } else {
      var t := Insert(cmp, x, r[1..]);
      assert Insert(cmp, x, r) == [r[0]] + t;
      SortedTail(cmp, r);
      InsertTiedWith(cmp, x, r[1..], k);
      TiedWithAppend(cmp, [r[0]], t, k);
      TiedWithAppend(cmp, [r[0]], r[1..], k);
      assert r == [r[0]] + r[1..];
    }
  }

  /** `x` placed in front of `r` joins the tie classes as if it came last. */
  lemma InsertFrontTiedWith<T(!new)>(cmp: (T, T) -> Ordering, x: T, r: seq<T>, k: T)
    requires TotalPreorder(cmp)
    requires Sorted(cmp, r) && r != [] && cmp(r[0], x) == Greater
    ensures TiedWith(cmp, [x] + r, k) == TiedWith(cmp, r, k) + TiedWith(cmp, [x], k)
  {
    TiedWithAppend(cmp, [x], r, k);
    assert [x][1..] == [];
    if cmp(x, k) == Equal {
      NoneTiedAfter(cmp, x, r, k);
    }
  }

  /** When `x` goes in front of `r`, nothing in `r` is tied with anything tied with `x`. */
  lemma NoneTiedAfter<T(!new)>(cmp: (T, T) -> Ordering, x: T, r: seq<T>, k: T)
    requires TotalPreorder(cmp)
    requires Sorted(cmp, r) && r != [] && cmp(r[0], x) == Greater
    requires cmp(x, k) == Equal
    ensures TiedWith(cmp, r, k) == []
  {
    // every r[i] ranks after r[0], hence after x, hence is not tied with k
    forall i | 0 <= i < |r|
      ensures cmp(r[i], k) != Equal
    {
      assert i == 0 || Le(cmp, r[0], r[i]);
      assert cmp(r[i], x) == Greater;
      assert cmp(k, x) == Flip(cmp(x, k));
    }
    TiedWithNone(cmp, r, k);
  }

  /** Elements that compare equal keep their input order. */
  lemma {:induction false} SortStable<T(!new)>(cmp: (T, T) -> Ordering, s: seq<T>, k: T)
    requires TotalPreorder(cmp)
    ensures TiedWith(cmp, Sort(cmp, s), k) == TiedWith(cmp, s, k)
  {
    if s != [] {
      var init, x := s[..|s| - 1], s[|s| - 1];
      SortStable(cmp, init, k);
      SortSorted(cmp, init);
      InsertTiedWith(cmp, x, Sort(cmp, init), k);
      TiedWithAppend(cmp, init, [x], k);
      assert s == init + [x];
    }
  }

  /** Two sorted arrangements that agree on the order of every tie class are equal. */
  lemma {:induction false} SortedStableUnique<T(!new)>(cmp: (T, T) -> Ordering, t: seq<T>, u: seq<T>)
    requires TotalPreorder(cmp)
    requires Sorted(cmp, t) && Sorted(cmp, u)
    requires forall k :: TiedWith(cmp, t, k) == TiedWith(cmp, u, k)
    ensures t == u
    decreases |t|
  {
    if t == [] || u == [] {
      var v := if t == [] then u else t;
      if v != [] {
        TiedWithMember(cmp, v, v[0], v[0]);
        assert false;
      }
    } else {
      SameHead(cmp, t, u);
      SameTailTies(cmp, t, u);
      SortedTail(cmp, t);
      SortedTail(cmp, u);
      SortedStableUnique(cmp, t[1..], u[1..]);
      assert t == [t[0]] + t[1..] && u == [u[0]] + u[1..];
    }
  }

  /** Two such arrangements start with the same element. */
  lemma SameHead<T(!new)>(cmp: (T, T) -> Ordering, t: seq<T>, u: seq<T>)
    requires TotalPreorder(cmp)
    requires Sorted(cmp, t) && Sorted(cmp, u) && t != [] && u != []
    requires forall k :: TiedWith(cmp, t, k) == TiedWith(cmp, u, k)
    ensures t[0] == u[0]
  {
    var a, b := t[0], u[0];
    assert cmp(a, a) == Flip(cmp(a, a)) && cmp(b, b) == Flip(cmp(b, b));
    TiedWithMember(cmp, u, b, b);
    TiedWithMember(cmp, t, b, b);
    TiedWithMember(cmp, t, a, a);
    TiedWithMember(cmp, u, a, a);
    var m :| 0 <= m < |t| && t[m] == b;
    var n :| 0 <= n < |u| && u[n] == a;
    assert Le(cmp, a, b) && Le(cmp, b, a);
    assert cmp(b, a) == Equal;
    assert TiedWith(cmp, t, a)[0] == a;
    assert TiedWith(cmp, u, a)[0] == b;
    assert TiedWith(cmp, t, a) == TiedWith(cmp, u, a);
  }

  /** Dropping a common head keeps every tie class in agreement. */
  lemma SameTailTies<T>(cmp: (T, T) -> Ordering, t: seq<T>, u: seq<T>)
    requires t != [] && u != [] && t[0] == u[0]
    requires forall k :: TiedWith(cmp, t, k) == TiedWith(cmp, u, k)
    ensures forall k :: TiedWith(cmp, t[1..], k) == TiedWith(cmp, u[1..], k)
  {
    forall k
      ensures TiedWith(cmp, t[1..], k) == TiedWith(cmp, u[1..], k)
    {
      var tk, uk := TiedWith(cmp, t, k), TiedWith(cmp, u, k);
      assert tk == uk;
      if cmp(t[0], k) == Equal {
        assert tk == [t[0]] + TiedWith(cmp, t[1..], k);
        assert uk == [t[0]] + TiedWith(cmp, u[1..], k);
        assert tk[1..] == TiedWith(cmp, t[1..], k);
        assert uk[1..] == TiedWith(cmp, u[1..], k);
      } else {
        assert tk == TiedWith(cmp, t[1..], k);
        assert uk == TiedWith(cmp, u[1..], k);
      }
    }
  }

  /**
   * `Sort` is the one stable sort by `cmp`: any arrangement that is sorted
   * and keeps the input order of every tie class equals it.
   */
  lemma SortUnique<T(!new)>(cmp: (T, T) -> Ordering, s: seq<T>, t: seq<T>)
    requires TotalPreorder(cmp)
    requires Sorted(cmp, t)
    requires forall k :: TiedWith(cmp, t, k) == TiedWith(cmp, s, k)
    ensures t == Sort(cmp, s)
  {
    SortSorted(cmp, s);
    forall k
      ensures TiedWith(cmp, t, k) == TiedWith(cmp, Sort(cmp, s), k)
    {
      SortStable(cmp, s, k);
    }
    SortedStableUnique(cmp, t, Sort(cmp, s));
  }

  // ---------------------------------------------------------------------
  // The in-place sort
  // ---------------------------------------------------------------------

  /** `v.sort_by(cmp)`, as an insertion sort in place. */
  method SortBy<T(!new)>(a: array<T>, cmp: (T, T) -> Ordering)
    requires TotalPreorder(cmp)
    modifies a
    ensures a[..] == Sort(cmp, old(a[..]))
  {
    ghost var input := a[..];
    var i := 0;
    while i < a.Length
      invariant 0 <= i <= a.Length
      invariant a[..i] == Sort(cmp, input[..i])
      invariant a[i..] == input[i..]
    {
      SortSorted(cmp, input[..i]);
      InsertInPlace(a, i, cmp);
      assert input[..i + 1][..i] == input[..i];
      i := i + 1;
    }
    assert a[..] == a[..a.Length] && input == input[..a.Length];
  }

  /** One pass of the insertion sort: moves `a[i]` into the sorted prefix `a[..i]`. */
  method InsertInPlace<T(!new)>(a: array<T>, i: nat, cmp: (T, T) -> Ordering)
    requires TotalPreorder(cmp)
    requires i < a.Length && Sorted(cmp, a[..i])
    modifies a
    ensures a[..i + 1] == Insert(cmp, old(a[i]), old(a[..i]))
    ensures a[i + 1..] == old(a[i + 1..])
  {
    ghost var r := a[..i];
    var x := a[i];
    var j := i;
    while j > 0 && cmp(a[j - 1], x) == Greater
      invariant 0 <= j <= i
      invariant forall m :: 0 <= m < j ==> a[m] == r[m]
      invariant forall m :: j < m <= i ==> a[m] == r[m - 1]
      invariant forall m :: i < m < a.Length ==> a[m] == old(a[m])
      invariant forall m :: j <= m < i ==> cmp(r[m], x) == Greater
    {
      a[j] := a[j - 1];
      j := j - 1;
    }
    a[j] := x;
    ShiftedIsInsert(cmp, x, r, j, a[..i + 1]);
  }

  /** The array after the shifting loop of `InsertInPlace` holds `Insert(cmp, x, r)`. */
  lemma ShiftedIsInsert<T(!new)>(cmp: (T, T) -> Ordering, x: T, r: seq<T>, j: nat, b: seq<T>)
    requires TotalPreorder(cmp) && Sorted(cmp, r)
    requires j <= |r| && |b| == |r| + 1
    requires forall m :: 0 <= m < j ==> b[m] == r[m]
    requires b[j] == x
    requires forall m :: j < m <= |r| ==> b[m] == r[m - 1]
    requires forall m :: j <= m < |r| ==> cmp(r[m], x) == Greater
    requires j > 0 ==> cmp(r[j - 1], x) != Greater
    ensures b == Insert(cmp, x, r)
  {
    if j > 0 {
      BelowLast(cmp, x, r[..j]);
    }
    InsertAt(cmp, x, r, j);
    var c := r[..j] + [x] + r[j..];
    forall m | 0 <= m < |b|
      ensures b[m] == c[m]
    {
      if m > j {
        assert c[m] == r[m - 1];
      }
    }
    assert b == c;
  }

  /** Everything in a sorted sequence whose last element may precede `x` may precede `x`. */
  lemma BelowLast<T(!new)>(cmp: (T, T) -> Ordering, x: T, p: seq<T>)
    requires TotalPreorder(cmp) && Sorted(cmp, p)
    requires p != [] && cmp(p[|p| - 1], x) != Greater
    ensures forall m :: 0 <= m < |p| ==> Le(cmp, p[m], x)
  {
    forall m | 0 <= m < |p| - 1
      ensures Le(cmp, p[m], x)
    {
      assert Le(cmp, p[m], p[|p| - 1]);
    }
  }
}
