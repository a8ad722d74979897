/** The in-place quicksort of tables. */
module LuaSort {

  type Order<!T> = (T, T) -> bool

  /** "Less than", given by the caller, is a strict weak order: `x` is not greater than `y` is total and
      transitive, and nothing is less than itself. */
  ghost predicate WeakOrder<T(!new)>(lt: Order<T>) {
    && (forall x, y :: lt(x, y) ==> !lt(y, x))
    && (forall x, y, z :: !lt(y, x) && !lt(z, y) ==> !lt(z, x))
  }

  /** In slots `l` to `u` no value is less than one before it. */
  ghost predicate Sorted<T>(s: seq<T>, lt: Order<T>, l: int, u: int)
    requires 0 <= l && u < |s|
  {
    forall p, q | l <= p < q <= u :: !lt(s[q], s[p])
  }

  /** Only the values in slots `l` to `u` have changed places. */
  ghost predicate Shuffled<T>(s: seq<T>, t: seq<T>, l: int, u: int)
    requires 0 <= l <= u + 1 <= |s|
  {
    && |t| == |s| && t[..l] == s[..l] && t[u + 1..] == s[u + 1..]
    && multiset(t[l..u + 1]) == multiset(s[l..u + 1])
  }

  lemma ShuffledTrans<T>(s: seq<T>, t: seq<T>, r: seq<T>, l: int, u: int, l': int, u': int)
    requires 0 <= l <= l' <= u' + 1 && u' <= u < |s|
    requires Shuffled(s, t, l, u) && Shuffled(t, r, l', u')
    ensures Shuffled(s, r, l, u)
  {
    assert r[..l] == t[..l] by { assert r[..l] == r[..l'][..l] && t[..l] == t[..l'][..l]; }
    assert r[u + 1..] == t[u + 1..] by {
      assert r[u + 1..] == r[u' + 1..][u - u'..] && t[u + 1..] == t[u' + 1..][u - u'..];
    }
    Middle(t, l, u, l', u');
    Middle(r, l, u, l', u');
    assert r[l..l'] == t[l..l'] by { assert r[l..l'] == r[..l'][l..] && t[l..l'] == t[..l'][l..]; }
    assert r[u' + 1..u + 1] == t[u' + 1..u + 1] by {
      assert r[u' + 1..u + 1] == r[u' + 1..][..u - u'] && t[u' + 1..u + 1] == t[u' + 1..][..u - u'];
    }
  }

  lemma Middle<T>(s: seq<T>, l: int, u: int, l': int, u': int)
    requires 0 <= l <= l' <= u' + 1 && u' <= u < |s|
    ensures multiset(s[l..u + 1]) == multiset(s[l..l']) + multiset(s[l'..u' + 1]) + multiset(s[u' + 1..u + 1])
  {
    assert s[l..u + 1] == s[l..l'] + s[l'..u' + 1] + s[u' + 1..u + 1];
  }

  /** A value that is in the range afterwards was there before. */
  lemma WasThere<T>(s: seq<T>, t: seq<T>, l: int, u: int, q: int)
    requires 0 <= l <= q <= u < |s| && Shuffled(s, t, l, u)
    ensures exists k :: l <= k <= u && s[k] == t[q]
  {
    assert t[l..u + 1][q - l] == t[q];
    assert t[q] in multiset(t[l..u + 1]);
    assert t[q] in s[l..u + 1];
    var k :| 0 <= k < |s[l..u + 1]| && s[l..u + 1][k] == t[q];
    assert s[l + k] == t[q];
  }

  lemma Outside<T>(s: seq<T>, t: seq<T>, l: int, u: int, k: int)
    requires 0 <= l <= u + 1 <= |s| && Shuffled(s, t, l, u) && 0 <= k < |s| && !(l <= k <= u)
    ensures t[k] == s[k]
  {
    if k < l { assert t[k] == t[..l][k] && s[k] == s[..l][k]; }
    else { assert t[k] == t[u + 1..][k - (u + 1)] && s[k] == s[u + 1..][k - (u + 1)]; }
  }

  /** Two values are exchanged. */
  method Set2<T(==)>(a: array<T>, i: int, j: int, ghost l: int, ghost u: int)
    requires 0 <= l <= i <= u < a.Length && l <= j <= u
    modifies a
    ensures Shuffled(old(a[..]), a[..], l, u)
    ensures a[..] == old(a[..])[i := old(a[j])][j := old(a[i])]
  {
    ghost var s := a[..];
    a[i], a[j] := a[j], a[i];
    Swapped(s, a[..], i, j, l, u);
  }

  lemma Swapped<T>(s: seq<T>, t: seq<T>, i: int, j: int, l: int, u: int)
    requires 0 <= l <= i <= u < |s| && l <= j <= u && t == s[i := s[j]][j := s[i]]
    ensures Shuffled(s, t, l, u)
  {
    var x, y := s[l..u + 1], t[l..u + 1];
    assert y == x[i - l := x[j - l]][j - l := x[i - l]];
    assert t[..l] == s[..l] && t[u + 1..] == s[u + 1..];
  }

  /** The values in slots `l` to `i` are not greater than the pivot. */
  ghost predicate Low<T>(s: seq<T>, lt: Order<T>, l: int, i: int, p: T)
    requires 0 <= l && i < |s|
  {
    forall k | l <= k <= i :: !lt(p, s[k])
  }

  ghost predicate High<T>(s: seq<T>, lt: Order<T>, j: int, u: int, p: T)
    requires 0 <= j && u < |s|
  {
    forall k | j <= k <= u :: !lt(s[k], p)
  }

  /** Orders the first, the middle and the last value; at most three values are sorted by that. */
  method Median<T(!new, ==)>(a: array<T>, l: int, u: int, lt: Order<T>) returns (i: int)
    requires 0 <= l < u < a.Length
    modifies a
    ensures Shuffled(old(a[..]), a[..], l, u)
    ensures u - l > 1 ==> i == (l + u) / 2
    ensures WeakOrder(lt) ==> u - l == 1 ==> !lt(a[u], a[l])
    ensures WeakOrder(lt) ==> u - l > 1 ==> !lt(a[i], a[l]) && !lt(a[u], a[i]) && !lt(a[u], a[l])
  {
    ghost var s := a[..];
    i := l;
    Unchanged(s, l, u);
    if lt(a[u], a[l]) {
      Set2(a, l, u, l, u);
    }
    if u - l == 1 {
      return;
    }
    i := (l + u) / 2;
    ghost var t := a[..];
    if lt(a[i], a[l]) {
      Set2(a, i, l, l, u);
      ShuffledTrans(s, t, a[..], l, u, l, u);
    } else if lt(a[u], a[i]) {
      Set2(a, i, u, l, u);
      ShuffledTrans(s, t, a[..], l, u, l, u);
    }
  }

  lemma Unchanged<T>(s: seq<T>, l: int, u: int)
    requires 0 <= l <= u + 1 <= |s|
    ensures Shuffled(s, s, l, u)
  {
  }

  /** Moves `i` up to a value that is not less than the pivot; an error if the order is not valid. */
  method ScanUp<T(!new, ==)>(a: array<T>, l: int, u: int, i0: int, p: T, lt: Order<T>) returns (ok: bool, i: int)
    requires 0 <= l <= i0 < u < a.Length
    ensures l <= i0 < i <= u
    ensures ok ==> !lt(a[i], p)
    ensures WeakOrder(lt) && Low(a[..], lt, l, i0, p) ==> Low(a[..], lt, l, i - 1, p)
    ensures WeakOrder(lt) && a[u - 1] == p && i0 < u - 1 ==> ok && i <= u - 1
  {
    i := i0 + 1;
    while lt(a[i], p)
      invariant i0 < i <= u
      invariant WeakOrder(lt) && Low(a[..], lt, l, i0, p) ==> Low(a[..], lt, l, i - 1, p)
      invariant WeakOrder(lt) && a[u - 1] == p && i0 < u - 1 ==> i <= u - 1
      decreases u - i
    {
      if i >= u {
        return false, i;
      }
      i := i + 1;
    }
    return true, i;
  }

  method ScanDown<T(!new, ==)>(a: array<T>, l: int, u: int, j0: int, p: T, lt: Order<T>) returns (ok: bool, j: int)
    requires 0 <= l < j0 <= u < a.Length
    ensures l <= j < j0
    ensures ok ==> !lt(p, a[j])
    ensures WeakOrder(lt) && High(a[..], lt, j0, u, p) ==> High(a[..], lt, j + 1, u, p)
    ensures !lt(p, a[l]) ==> ok
  {
    j := j0 - 1;
    while lt(p, a[j])
      invariant l <= j < j0
      invariant WeakOrder(lt) && High(a[..], lt, j0, u, p) ==> High(a[..], lt, j + 1, u, p)
      decreases j - l
    {
      if j <= l {
        return false, j;
      }
      j := j - 1;
    }
    return true, j;
  }

  /** Two values on the wrong sides have been exchanged. */
  lemma Exchanged<T>(s: seq<T>, t: seq<T>, lt: Order<T>, l: int, u: int, i: int, j: int, p: T)
    requires 0 <= l <= i <= j <= u < |s| && t == s[i := s[j]][j := s[i]]
    requires Low(s, lt, l, i - 1, p) && High(s, lt, j + 1, u, p) && !lt(s[i], p) && !lt(p, s[j])
    ensures Low(t, lt, l, i, p) && High(t, lt, j, u, p)
  {
  }

  /** The pivot has been put between the two sides. */
  lemma PivotPlaced<T>(s: seq<T>, t: seq<T>, lt: Order<T>, l: int, u: int, i: int, j: int, p: T)
    requires 0 <= l < i < u < |s| && l <= j < i && s[u - 1] == p && t == s[u - 1 := s[i]][i := s[u - 1]]
    requires Low(s, lt, l, i - 1, p) && High(s, lt, j + 1, u, p) && !lt(s[i], p)
    ensures t[i] == p && Low(t, lt, l, i - 1, t[i]) && High(t, lt, i + 1, u, t[i])
  {
  }

  lemma Sides<T(!new)>(s: seq<T>, t: seq<T>, lt: Order<T>, l: int, u: int, m: int)
    requires 0 <= l < m < u - 1 < u < |s| && WeakOrder(lt) && !lt(s[m], s[l]) && !lt(s[u], s[m])
    requires t == s[m := s[u - 1]][u - 1 := s[m]]
    ensures Low(t, lt, l, l, s[m]) && High(t, lt, u - 1, u, s[m])
  {
  }

  /** Exchanges values on the wrong sides until the two scans meet. */
  method Meet<T(!new, ==)>(a: array<T>, l: int, u: int, p: T, lt: Order<T>) returns (ok: bool, i: int, ghost j: int)
    requires 0 <= l && u < a.Length && u - l > 2
    modifies a
    ensures Shuffled(old(a[..]), a[..], l, u) && l < i <= u && (ok ==> l <= j < i)
    ensures old(WeakOrder(lt) && a[u - 1] == p && Low(a[..], lt, l, l, p) && High(a[..], lt, u - 1, u, p)) ==>
              && ok && i < u && a[u - 1] == p && !lt(a[i], p)
              && Low(a[..], lt, l, i - 1, p) && High(a[..], lt, j + 1, u, p)
  {
    hide Shuffled, WeakOrder, High;
    ghost var s := a[..];
    ghost var good := WeakOrder(lt) && a[u - 1] == p && Low(s, lt, l, l, p) && High(s, lt, u - 1, u, p);
    Unchanged(s, l, u);
    i, j := l, u - 1;
    var k := u - 1;
    while true
      invariant l <= i < u && l < k <= u - 1 && Shuffled(s, a[..], l, u)
      invariant good ==> a[u - 1] == p && i < u - 1 && Low(a[..], lt, l, i, p) && High(a[..], lt, k, u, p)
      decreases u - i
    {
      ok, i := ScanUp(a, l, u, i, p, lt);
      if !ok { return; }
      ok, k := ScanDown(a, l, u, k, p, lt);
      if !ok { return; }
      if k < i {
        j := k;
        return;
      }
      ghost var t := a[..];
      Set2(a, i, k, l, u);
      if good { Exchanged(t, a[..], lt, l, u, i, k, p); }
      ShuffledTrans(s, t, a[..], l, u, l, u);
    }
  }

  /** Splits the range at a value: none before it is greater and none after it is less. */
  method Partition<T(!new, ==)>(a: array<T>, l: int, u: int, m: int, lt: Order<T>) returns (ok: bool, i: int)
    requires 0 <= l && u < a.Length && u - l > 2 && m == (l + u) / 2
    modifies a
    ensures Shuffled(old(a[..]), a[..], l, u) && l < i <= u
    ensures old(WeakOrder(lt) && !lt(a[m], a[l]) && !lt(a[u], a[m])) ==>
              ok && i < u && Low(a[..], lt, l, i - 1, a[i]) && High(a[..], lt, i + 1, u, a[i])
  {
    hide Shuffled, WeakOrder, Low, High;
    ghost var s := a[..];
    var p := a[m];
    Set2(a, m, u - 1, l, u);
    if WeakOrder(lt) && !lt(s[m], s[l]) && !lt(s[u], s[m]) { Sides(s, a[..], lt, l, u, m); }
    ghost var t := a[..];
    ghost var j;
    ok, i, j := Meet(a, l, u, p, lt);
    ShuffledTrans(s, t, a[..], l, u, l, u);
    if !ok { return; }
    t := a[..];
    Set2(a, u - 1, i, l, u);
    ShuffledTrans(s, t, a[..], l, u, l, u);
    if WeakOrder(lt) && !lt(s[m], s[l]) && !lt(s[u], s[m]) { PivotPlaced(t, a[..], lt, l, u, i, j, p); }
  }

  // ---------- the whole range ----------

  /** Of two values in slots `l0` to `u0`, not both in slots `l` to `u`, the later is not less. */
  ghost predicate Around<T>(s: seq<T>, lt: Order<T>, l0: int, u0: int, l: int, u: int)
    requires 0 <= l0 && u0 < |s|
  {
    forall p, q | l0 <= p < q <= u0 && !(l <= p && q <= u) :: !lt(s[q], s[p])
  }

  lemma AroundShuffled<T>(s: seq<T>, t: seq<T>, lt: Order<T>, l0: int, u0: int, l: int, u: int)
    requires 0 <= l0 <= l <= u + 1 && u <= u0 < |s| && Around(s, lt, l0, u0, l, u) && Shuffled(s, t, l, u)
    ensures Around(t, lt, l0, u0, l, u)
  {
    forall p, q | l0 <= p < q <= u0 && !(l <= p && q <= u) ensures !lt(t[q], t[p]) {
      if l <= p <= u { WasThere(s, t, l, u, p); } else { Outside(s, t, l, u, p); }
      if l <= q <= u { WasThere(s, t, l, u, q); } else { Outside(s, t, l, u, q); }
    }
  }

  /** After the split at `i` the two parts can be sorted on their own. */
  lemma SplitAround<T(!new)>(s: seq<T>, lt: Order<T>, l: int, u: int, i: int, left: bool)
    requires 0 <= l < i < u < |s| && WeakOrder(lt)
    requires Low(s, lt, l, i - 1, s[i]) && High(s, lt, i + 1, u, s[i])
    requires Sorted(s, lt, if left then l else i + 1, if left then i - 1 else u)
    ensures if left then Around(s, lt, l, u, i + 1, u) else Around(s, lt, l, u, l, i - 1)
  {
    forall p, q | l <= p < q <= u && !((if left then i + 1 else l) <= p && q <= (if left then u else i - 1))
      ensures !lt(s[q], s[p])
    {
      if p < i < q {
        assert !lt(s[i], s[p]) && !lt(s[q], s[i]);
      }
    }
  }

  /** Splitting keeps its bounds when one of the parts is sorted. */
  lemma BoundsShuffled<T(!new)>(s: seq<T>, t: seq<T>, lt: Order<T>, l: int, u: int, i: int, left: bool)
    requires 0 <= l < i < u < |s| && Low(s, lt, l, i - 1, s[i]) && High(s, lt, i + 1, u, s[i])
    requires Shuffled(s, t, if left then l else i + 1, if left then i - 1 else u)
    ensures t[i] == s[i] && Low(t, lt, l, i - 1, t[i]) && High(t, lt, i + 1, u, t[i])
  {
    var l', u' := if left then l else i + 1, if left then i - 1 else u;
    Outside(s, t, l', u', i);
    forall k | l <= k <= u && k != i ensures if k < i then !lt(s[i], t[k]) else !lt(t[k], s[i]) {
      if l' <= k <= u' { WasThere(s, t, l', u', k); } else { Outside(s, t, l', u', k); }
    }
  }

  function Pow2(n: nat): nat { if n == 0 then 1 else 2 * Pow2(n - 1) }

  /** What remains to be sorted of the inner range remains of the outer one. */
  lemma AroundTrans<T>(s: seq<T>, lt: Order<T>, l0: int, u0: int, l: int, u: int, l': int, u': int)
    requires 0 <= l0 <= l && u <= u0 < |s| && l <= l' && u' <= u
    requires Around(s, lt, l0, u0, l, u) && Around(s, lt, l, u, l', u')
    ensures Around(s, lt, l0, u0, l', u')
  {
  }

  lemma Deeper(d: nat, m: nat, n: nat)
    requires d == 0 || Pow2(d) <= m
    requires 2 * m <= n && n >= 2
    ensures Pow2(d + 1) <= n
  {
  }

  /** One round: the range is split, the smaller part is sorted by a nested call, and the larger part,
      slots `l` to `u`, is left for the next round. */
  method Round<T(!new, ==)>(a: array<T>, l0: int, u0: int, lt: Order<T>)
    returns (ok: bool, l: int, u: int, ghost depth: nat)
    requires 0 <= l0 < u0 < a.Length
    modifies a
    ensures Shuffled(old(a[..]), a[..], l0, u0) && l0 <= l <= u + 1 && u <= u0 && u - l < u0 - l0
    ensures WeakOrder(lt) ==> ok && Around(a[..], lt, l0, u0, l, u)
    ensures depth == 0 || Pow2(depth) <= u0 - l0 + 1
    decreases u0 - l0, 1
  {
    hide Low, High, Shuffled, Sorted, Around, WeakOrder, Pow2;
    l, u, depth := l0, l0, 0;
    ghost var s := a[..];
    var m := Median(a, l0, u0, lt);
    if u0 - l0 <= 2 {
      if WeakOrder(lt) { FewSorted(a[..], lt, l0, u0, m); }
      return true, l, u, depth;
    }
    ghost var t := a[..];
    var i;
    ok, i := Partition(a, l0, u0, m, lt);
    ShuffledTrans(s, t, a[..], l0, u0, l0, u0);
    if !ok {
      return;
    }
    t := a[..];
    ok, l, u, depth := SortSmaller(a, l0, u0, i, lt);
    ShuffledTrans(s, t, a[..], l0, u0, l0, u0);
  }

  /** Sorts the smaller of the two parts; `l` to `u` is the larger one. */
  method SortSmaller<T(!new, ==)>(a: array<T>, l0: int, u0: int, i: int, lt: Order<T>)
    returns (ok: bool, l: int, u: int, ghost depth: nat)
    requires 0 <= l0 < i <= u0 < a.Length && u0 - l0 > 2
    requires WeakOrder(lt) ==> i < u0 && Low(a[..], lt, l0, i - 1, a[i]) && High(a[..], lt, i + 1, u0, a[i])
    modifies a
    ensures Shuffled(old(a[..]), a[..], l0, u0) && l0 <= l <= u + 1 && u <= u0 && u - l < u0 - l0
    ensures WeakOrder(lt) ==> ok && Around(a[..], lt, l0, u0, l, u)
    ensures depth == 0 || Pow2(depth) <= u0 - l0 + 1
    decreases u0 - l0, 0
  {
    hide Low, High, Shuffled, Sorted, Around, WeakOrder, Pow2;
    ghost var s := a[..];
    Unchanged(s, l0, u0);
    if i - l0 < u0 - i {
      l, u := i + 1, u0;
      ok, depth := AuxSort(a, l0, i - 1, lt);
      ShuffledTrans(s, s, a[..], l0, u0, l0, i - 1);
      Deeper(depth, i - l0, u0 - l0 + 1);
    } else {
      l, u := l0, i - 1;
      ok, depth := AuxSort(a, i + 1, u0, lt);
      ShuffledTrans(s, s, a[..], l0, u0, i + 1, u0);
      Deeper(depth, u0 - i, u0 - l0 + 1);
    }
    depth := depth + 1;
    if WeakOrder(lt) {
      BoundsShuffled(s, a[..], lt, l0, u0, i, i - l0 < u0 - i);
      SplitAround(a[..], lt, l0, u0, i, i - l0 < u0 - i);
    }
  }

  lemma FewSorted<T(!new)>(s: seq<T>, lt: Order<T>, l: int, u: int, m: int)
    requires 0 <= l < u < |s| && u - l <= 2
    requires u - l == 1 ==> !lt(s[u], s[l])
    requires u - l == 2 ==> m == (l + u) / 2 && !lt(s[m], s[l]) && !lt(s[u], s[m]) && !lt(s[u], s[l])
    ensures Around(s, lt, l, u, l, l)
  {
  }

  /** Sorts slots `l0` to `u0`.  The result is a permutation whatever the order; with a weak order it is
      sorted and no error is raised.  `depth` is the number of nested calls, at most the logarithm of the
      number of values. */
  method AuxSort<T(!new, ==)>(a: array<T>, l0: int, u0: int, lt: Order<T>) returns (ok: bool, ghost depth: nat)
    requires 0 <= l0 <= u0 + 1 <= a.Length
    modifies a
    ensures Shuffled(old(a[..]), a[..], l0, u0)
    ensures WeakOrder(lt) ==> ok && Sorted(a[..], lt, l0, u0)
    ensures depth == 0 || Pow2(depth) <= u0 - l0 + 1
    decreases u0 - l0, 2
  {
    hide Shuffled, WeakOrder;
    var l, u := l0, u0;
    ghost var s := a[..];
    depth := 0;
    Unchanged(s, l, u);
    while l < u
      invariant l0 <= l <= u + 1 && u <= u0 && Shuffled(s, a[..], l0, u0)
      invariant WeakOrder(lt) ==> Around(a[..], lt, l0, u0, l, u)
      invariant depth == 0 || Pow2(depth) <= u0 - l0 + 1
      decreases u - l
    {
      ghost var t, l1, u1 := a[..], l, u;
      ghost var d;
      ok, l, u, d := Round(a, l, u, lt);
      depth := if d > depth then d else depth;
      ShuffledTrans(s, t, a[..], l0, u0, l1, u1);
      if !ok {
        return;
      }
      if WeakOrder(lt) {
        AroundShuffled(t, a[..], lt, l0, u0, l1, u1);
        AroundTrans(a[..], lt, l0, u0, l1, u1, l, u);
      }
    }
    return true, depth;
  }

  /** Sorts a list, whose values are in slots 1 to `n`. */
  method Sort<T(!new, ==)>(a: array<T>, n: nat, lt: Order<T>) returns (ok: bool)
    requires n < a.Length
    modifies a
    ensures Shuffled(old(a[..]), a[..], 1, n)
    ensures WeakOrder(lt) ==> ok && Sorted(a[..], lt, 1, n)
  {
    ghost var d;
    ok, d := AuxSort(a, 1, n, lt);
  }
}
