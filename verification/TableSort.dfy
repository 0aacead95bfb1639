/** The quicksort behind `table.sort` (lua-5.1/ltablib.c:164-245), on elements numbered from 0. */
module TableSort {

  type Less<!T> = (T, T) -> bool

  /** A strict weak order: what the comparison must be for the result to be sorted. */
  ghost predicate StrictWeak<T(!new)>(less: Less<T>) {
    && (forall x :: !less(x, x))
    && (forall x, y, z :: less(x, y) && less(y, z) ==> less(x, z))
    && (forall x, y, z :: !less(x, y) && !less(y, z) ==> !less(x, z))
  }

  ghost predicate Sorted<T>(less: Less<T>, s: seq<T>, l: int, u: int)
    requires 0 <= l && u < |s|
  {
    forall i, j :: l <= i < j <= u ==> !less(s[j], s[i])
  }

  /** `t` is `s` with the elements from `l` to `u` in some other order. */
  ghost predicate Rearranged<T>(s: seq<T>, t: seq<T>, l: int, u: int)
    requires 0 <= l <= u + 1 && u < |s|
  {
    && |t| == |s| && t[..l] == s[..l] && t[u + 1..] == s[u + 1..]
    && multiset(t[l..u + 1]) == multiset(s[l..u + 1])
  }

  function Swapped<T>(s: seq<T>, i: int, j: int): seq<T>
    requires 0 <= i < |s| && 0 <= j < |s|
  {
    s[i := s[j]][j := s[i]]
  }

  lemma SwappedRearranges<T>(s: seq<T>, i: int, j: int, l: int, u: int)
    requires 0 <= l <= i <= u < |s| && l <= j <= u
    ensures Rearranged(s, Swapped(s, i, j), l, u)
  {
    var t := Swapped(s, i, j);
    assert t[l..u + 1] == s[l..u + 1][i - l := s[j]][j - l := s[i]];
  }

  lemma RearrangedTwice<T>(r: seq<T>, s: seq<T>, t: seq<T>, l: int, u: int)
    requires 0 <= l <= u + 1 && u < |r| && Rearranged(r, s, l, u) && Rearranged(s, t, l, u)
    ensures Rearranged(r, t, l, u)
  {
  }

  lemma Wider<T>(s: seq<T>, t: seq<T>, l: int, u: int, l0: int, u0: int)
    requires 0 <= l0 <= l <= u + 1 && u <= u0 < |s| && Rearranged(s, t, l, u)
    ensures Rearranged(s, t, l0, u0)
  {
    assert s[l0..u0 + 1] == s[l0..l] + s[l..u + 1] + s[u + 1..u0 + 1];
    assert t[l0..u0 + 1] == t[l0..l] + t[l..u + 1] + t[u + 1..u0 + 1];
    assert t[l0..l] == t[..l][l0..] && s[l0..l] == s[..l][l0..];
    assert t[u + 1..u0 + 1] == t[u + 1..][..u0 - u] && s[u + 1..u0 + 1] == s[u + 1..][..u0 - u];
    assert t[..l0] == t[..l][..l0] && s[..l0] == s[..l][..l0];
    assert t[u0 + 1..] == t[u + 1..][u0 - u..] && s[u0 + 1..] == s[u + 1..][u0 - u..];
  }

  /** Every element within was within before. */
  lemma Origin<T>(s: seq<T>, t: seq<T>, l: int, u: int, i: int) returns (k: int)
    requires 0 <= l <= i <= u < |s| && Rearranged(s, t, l, u)
    ensures l <= k <= u && s[k] == t[i]
  {
    assert t[l..u + 1][i - l] in multiset(t[l..u + 1]);
    assert t[i] in s[l..u + 1];
    k :| l <= k <= u && s[k] == t[i];
  }

  lemma Outside<T>(s: seq<T>, t: seq<T>, l: int, u: int, i: int)
    requires 0 <= l <= u + 1 && u < |s| && 0 <= i < |s| && !(l <= i <= u) && Rearranged(s, t, l, u)
    ensures t[i] == s[i]
  {
    if i < l {
      assert t[i] == t[..l][i] && s[i] == s[..l][i];
    } else {
      assert t[i] == t[u + 1..][i - u - 1] && s[i] == s[u + 1..][i - u - 1];
    }
  }

  /** From `l0` to `u0` only elements that both lie from `l` to `u` may be in the wrong order. */
  ghost predicate SortedBut<T>(less: Less<T>, s: seq<T>, l0: int, u0: int, l: int, u: int)
    requires 0 <= l0 && u0 < |s|
  {
    forall i, j :: l0 <= i < j <= u0 && !(l <= i && j <= u) ==> !less(s[j], s[i])
  }

  lemma StillSortedBut<T>(less: Less<T>, s: seq<T>, t: seq<T>, l0: int, u0: int, l: int, u: int)
    requires 0 <= l0 <= l <= u + 1 && u <= u0 < |s|
    requires SortedBut(less, s, l0, u0, l, u) && Rearranged(s, t, l, u)
    ensures SortedBut(less, t, l0, u0, l, u)
  {
    forall i, j | l0 <= i < j <= u0 && !(l <= i && j <= u)
      ensures !less(t[j], t[i])
    {
      var i', j' := i, j;
      if l <= i <= u { i' := Origin(s, t, l, u, i); } else { Outside(s, t, l, u, i); }
      if l <= j <= u { j' := Origin(s, t, l, u, j); } else { Outside(s, t, l, u, j); }
    }
  }

  /** Everything from `l` to before `p` is at most `s[p]`, and everything after it up to `u` at least. */
  ghost predicate Parted<T>(less: Less<T>, s: seq<T>, l: int, p: int, u: int)
    requires 0 <= l <= p <= u < |s|
  {
    (forall i :: l <= i < p ==> !less(s[p], s[i])) && (forall i :: p < i <= u ==> !less(s[i], s[p]))
  }

  /** Once the part from `j` to `i` on one side of the pivot is sorted, the other is left. */
  lemma OneSide<T(!new)>(less: Less<T>, s: seq<T>, t: seq<T>, l0: int, u0: int, l: int, p: int, u: int, j: int, i: int)
    requires 0 <= l0 <= l <= p <= u <= u0 < |s| && StrictWeak(less)
    requires SortedBut(less, s, l0, u0, l, u) && Parted(less, s, l, p, u)
    requires (j == l && i == p - 1) || (j == p + 1 && i == u)
    requires Rearranged(s, t, j, i) && Sorted(less, t, j, i)
    ensures if j == l && i == p - 1 then SortedBut(less, t, l0, u0, p + 1, u) else SortedBut(less, t, l0, u0, l, p - 1)
  {
    Wider(s, t, j, i, l, u);
    StillSortedBut(less, s, t, l0, u0, l, u);
    Outside(s, t, j, i, p);
    forall k | l <= k <= u && k != p
      ensures if k < p then !less(t[p], t[k]) else !less(t[k], t[p])
    {
      if j <= k <= i {
        var k' := Origin(s, t, j, i, k);
      } else {
        Outside(s, t, j, i, k);
      }
    }
  }

  function Pow2(n: nat): nat {
    if n == 0 then 1 else 2 * Pow2(n - 1)
  }

  /** `set2`: after the two elements have been pushed, they are stored the other way round. */
  method Swap<T>(a: array<T>, i: int, j: int, ghost l: int, ghost u: int)
    requires 0 <= l <= i <= u < a.Length && l <= j <= u
    modifies a
    ensures Rearranged(old(a[..]), a[..], l, u)
    ensures a[i] == old(a[j]) && a[j] == old(a[i])
    ensures forall k :: 0 <= k < a.Length && k != i && k != j ==> a[k] == old(a[k])
  {
    SwappedRearranges(a[..], i, j, l, u);
    ghost var s := a[..];
    a[i], a[j] := a[j], a[i];
    assert a[..] == Swapped(s, i, j);
  }

  /** Puts the first, the middle and the last element in order. */
  method OrderThree<T(!new)>(a: array<T>, less: Less<T>, l: int, u: int) returns (i: int)
    requires 0 <= l < u < a.Length && StrictWeak(less)
    modifies a
    ensures Rearranged(old(a[..]), a[..], l, u) && i == (l + u) / 2
    ensures !less(a[u], a[l]) && (u - l >= 2 ==> !less(a[i], a[l]) && !less(a[u], a[i]))
  {
    hide Rearranged;
    i := (l + u) / 2;
    Same(a[..], l, u);
    if less(a[u], a[l]) { Swap(a, l, u, l, u); }
    if u - l == 1 { return; }
    ghost var s := a[..];
    if less(a[i], a[l]) {
      Swap(a, i, l, l, u);
      RearrangedTwice(old(a[..]), s, a[..], l, u);
    } else if less(a[u], a[i]) {
      Swap(a, i, u, l, u);
      RearrangedTwice(old(a[..]), s, a[..], l, u);
    }
  }

  /** Divides the part by the pivot at `u - 1`. Both scans stop within it, so that the error for
      a comparison that is no order is not raised. */
  method Divide<T(!new)>(a: array<T>, less: Less<T>, l: int, u: int) returns (i: int)
    requires 0 <= l && l + 3 <= u < a.Length && StrictWeak(less)
    requires !less(a[u - 1], a[l]) && !less(a[u], a[u - 1])
    modifies a
    ensures l < i < u && Rearranged(old(a[..]), a[..], l, u) && Parted(less, a[..], l, i, u)
  {
    hide Rearranged;
    var p := a[u - 1];
    Same(a[..], l, u);
    i := l;
    var j := u - 1;
    while true
      invariant l <= i <= j <= u - 1 && i < u - 1 && l < j && a[u - 1] == p
      invariant forall k :: l <= k <= i ==> !less(p, a[k])
      invariant forall k :: j <= k <= u ==> !less(a[k], p)
      invariant Rearranged(old(a[..]), a[..], l, u)
      decreases j - i
    {
      i := i + 1;
      while less(a[i], p)
        invariant l < i <= j + 1 && i <= u - 1 && forall k :: l <= k < i ==> !less(p, a[k])
        decreases u - i
      {
        i := i + 1;
      }
      j := j - 1;
      while less(p, a[j])
        invariant l <= j < u - 1 && i - 2 <= j && forall k :: j < k <= u ==> !less(a[k], p)
        decreases j
      {
        j := j - 1;
      }
      if j < i { break; }
      ghost var s := a[..];
      Swap(a, i, j, l, u);
      RearrangedTwice(old(a[..]), s, a[..], l, u);
    }
    ghost var s := a[..];
    Swap(a, u - 1, i, l, u);
    RearrangedTwice(old(a[..]), s, a[..], l, u);
  }

  lemma Same<T>(s: seq<T>, l: int, u: int)
    requires 0 <= l <= u + 1 && u < |s|
    ensures Rearranged(s, s, l, u)
  {
  }

  /** What sorting the part from `l` to `u` of the elements from `l0` to `u0` starts from. */
  ghost predicate Sorting<T>(less: Less<T>, s0: seq<T>, s: seq<T>, l0: int, u0: int, l: int, u: int)
    requires 0 <= l0 <= u0 + 1 && u0 < |s0|
  {
    Rearranged(s0, s, l0, u0) && SortedBut(less, s, l0, u0, l, u)
  }

  lemma SortingOn<T>(less: Less<T>, s0: seq<T>, s: seq<T>, t: seq<T>, l0: int, u0: int, l: int, u: int)
    requires 0 <= l0 <= l <= u + 1 && u <= u0 < |s0|
    requires Sorting(less, s0, s, l0, u0, l, u) && |s| == |s0| && Rearranged(s, t, l, u)
    ensures Sorting(less, s0, t, l0, u0, l, u)
  {
    hide Rearranged, SortedBut;
    StillSortedBut(less, s, t, l0, u0, l, u);
    Wider(s, t, l, u, l0, u0);
    RearrangedTwice(s0, s, t, l0, u0);
  }

  lemma SortingSide<T(!new)>(less: Less<T>, s0: seq<T>, s: seq<T>, t: seq<T>, l0: int, u0: int, l: int, p: int, u: int,
                             j: int, i: int)
    requires 0 <= l0 <= l <= p <= u <= u0 < |s0| == |s| && StrictWeak(less)
    requires Sorting(less, s0, s, l0, u0, l, u) && Parted(less, s, l, p, u)
    requires (j == l && i == p - 1) || (j == p + 1 && i == u)
    requires Rearranged(s, t, j, i) && Sorted(less, t, j, i)
    ensures
      if j == l && i == p - 1 then Sorting(less, s0, t, l0, u0, p + 1, u) else Sorting(less, s0, t, l0, u0, l, p - 1)
  {
    hide Rearranged, SortedBut, Sorted, Parted;
    OneSide(less, s, t, l0, u0, l, p, u, j, i);
    Wider(s, t, j, i, l0, u0);
    RearrangedTwice(s0, s, t, l0, u0);
  }

  /** The elements at both ends and in the middle are put in order, and the middle one divides the rest. */
  method Part<T(!new)>(a: array<T>, less: Less<T>, l: int, u: int, i: int) returns (p: int)
    requires 0 <= l && l + 3 <= u < a.Length && i == (l + u) / 2 && StrictWeak(less)
    requires !less(a[i], a[l]) && !less(a[u], a[i])
    modifies a
    ensures l < p < u && Rearranged(old(a[..]), a[..], l, u) && Parted(less, a[..], l, p, u)
  {
    hide Rearranged, Parted;
    Swap(a, i, u - 1, l, u);
    ghost var s := a[..];
    p := Divide(a, less, l, u);
    RearrangedTwice(old(a[..]), s, a[..], l, u);
  }

  /** `auxsort`. Only the smaller part is sorted by a nested call, so that calls are nested at
      most as deep as the logarithm of the number of elements. */
  method AuxSort<T(!new)>(a: array<T>, less: Less<T>, l0: int, u0: int) returns (ghost depth: nat)
    requires 0 <= l0 <= u0 + 1 && u0 < a.Length && StrictWeak(less)
    modifies a
    ensures Rearranged(old(a[..]), a[..], l0, u0) && Sorted(less, a[..], l0, u0)
    ensures Pow2(depth) <= if l0 < u0 then u0 - l0 + 1 else 1
    decreases u0 - l0
  {
    hide Rearranged, Sorted, Parted, Sorting;
    var l, u := l0, u0;
    depth := 0;
    ghost var s0 := a[..];
    Start(less, s0, l0, u0);
    while l < u
      invariant l0 <= l <= u + 1 && u <= u0
      invariant Sorting(less, s0, a[..], l0, u0, l, u)
      invariant Pow2(depth) <= if l0 < u0 then u0 - l0 + 1 else 1
      decreases u - l
    {
      ghost var s := a[..];
      var i := OrderThree(a, less, l, u);
      SortingOn(less, s0, s, a[..], l0, u0, l, u);
      if u - l <= 2 {
        Finish(less, s0, a[..], l0, u0, l, u);
        return;
      }
      s := a[..];
      i := Part(a, less, l, u, i);
      SortingOn(less, s0, s, a[..], l0, u0, l, u);
      s := a[..];
      var j;
      ghost var l1, p, u1 := l, i, u;
      if i - l < u - i {
        j, i, l := l, i - 1, i + 1;
      } else {
        j, i, u := i + 1, u, i - 1;
      }
      var inner := AuxSort(a, less, j, i);
      SortingSide(less, s0, s, a[..], l0, u0, l1, p, u1, j, i);
      if depth < inner + 1 { depth := inner + 1; }
    }
    Finish(less, s0, a[..], l0, u0, l, u);
  }

  lemma Start<T>(less: Less<T>, s: seq<T>, l0: int, u0: int)
    requires 0 <= l0 <= u0 + 1 && u0 < |s|
    ensures Sorting(less, s, s, l0, u0, l0, u0)
  {
  }

  lemma Finish<T>(less: Less<T>, s0: seq<T>, s: seq<T>, l0: int, u0: int, l: int, u: int)
    requires 0 <= l0 <= l <= u + 1 && u <= u0 < |s| == |s0| && Sorting(less, s0, s, l0, u0, l, u)
    requires u - l <= 2
    requires l < u ==> !less(s[u], s[l])
    requires u - l == 2 ==> !less(s[l + 1], s[l]) && !less(s[u], s[l + 1])
    ensures Rearranged(s0, s, l0, u0) && Sorted(less, s, l0, u0)
  {
  }

  /** `sort`: the whole array is sorted, whatever the order of equal elements. */
  method Sort<T(!new)>(a: array<T>, less: Less<T>) returns (ghost depth: nat)
    requires StrictWeak(less)
    modifies a
    ensures multiset(a[..]) == multiset(old(a[..])) && Sorted(less, a[..], 0, a.Length - 1)
    ensures Pow2(depth) <= if a.Length > 1 then a.Length else 1
  {
    ghost var s := a[..];
    depth := AuxSort(a, less, 0, a.Length - 1);
    assert s[0..a.Length] == s && a[..][0..a.Length] == a[..];
  }
}
