/** Counting keys for a rehash: how many integer keys each power-of-two slice holds
    and how large the array part should be (lua-5.1/ltable.c:189-260,
    lua-5.1/lobject.c:54-69). */
module TableCounts {
  import opened HashNodes

  const MAXBITS: nat := 26
  const MAXASIZE: nat := 0x400_0000

  function Pow2(n: nat): (p: nat)
    ensures p > 0
  {
    if n == 0 then 1 else 2 * Pow2(n - 1)
  }

  lemma {:induction false} Pow2Monotone(a: nat, b: nat)
    requires a <= b
    ensures Pow2(a) <= Pow2(b) && (a < b ==> 2 * Pow2(a) <= Pow2(b))
    decreases b - a
  {
    if a < b { Pow2Monotone(a + 1, b); }
  }

  // ----- the logarithm -----

  /** The table `log_2` of `luaO_log2`: 1 + floor of the logarithm, and 0 for 0. */
  function Log2Entry(x: nat): nat
    requires x < 256
  {
    if x < 1 then 0 else if x < 2 then 1 else if x < 4 then 2 else if x < 8 then 3
    else if x < 16 then 4 else if x < 32 then 5 else if x < 64 then 6 else if x < 128 then 7 else 8
  }

  /** The floor of the logarithm, -1 for 0. */
  function FloorLog2(x: nat): (l: int)
    ensures l >= -1
  {
    if x == 0 then -1 else 1 + FloorLog2(x / 2)
  }

  lemma {:induction false} FloorLog2Bounds(x: nat)
    requires x > 0
    ensures FloorLog2(x) >= 0 && Pow2(FloorLog2(x)) <= x < 2 * Pow2(FloorLog2(x))
  {
    if x > 1 { FloorLog2Bounds(x / 2); } else { assert FloorLog2(1) == 1 + FloorLog2(0); }
  }

  lemma FloorLog2Byte(x: nat)
    requires x >= 256
    ensures FloorLog2(x) == 8 + FloorLog2(x / 256)
  {
    FloorLog2Nibble(x);
    FloorLog2Nibble(x / 16);
    assert x / 256 == (x / 16) / 16;
  }

  lemma FloorLog2Nibble(x: nat)
    requires x >= 16
    ensures FloorLog2(x) == 4 + FloorLog2(x / 16)
  {
    FloorLog2Half(x, x / 2);
    FloorLog2Half(x / 2, x / 4);
    FloorLog2Half(x / 4, x / 8);
    FloorLog2Half(x / 8, x / 16);
  }

  lemma FloorLog2Half(x: nat, y: nat)
    requires x > 0 && y == x / 2
    ensures FloorLog2(x) == 1 + FloorLog2(y)
  {
  }

  lemma Log2EntryOk(x: nat)
    requires x < 256
    ensures Log2Entry(x) - 1 == FloorLog2(x)
  {
    if x > 0 {
      FloorLog2Bounds(x);
      var l, e := FloorLog2(x), Log2Entry(x) - 1;
      assert Pow2(0) == 1 && Pow2(1) == 2 && Pow2(2) == 4 && Pow2(3) == 8 && Pow2(4) == 16;
      assert Pow2(5) == 32 && Pow2(6) == 64 && Pow2(7) == 128 && Pow2(8) == 256;
      SameLog(l, e, x);
    }
  }

  lemma SameLog(a: nat, b: nat, x: nat)
    requires Pow2(a) <= x < 2 * Pow2(a) && Pow2(b) <= x < 2 * Pow2(b)
    ensures a == b
  {
    if a < b { Pow2Monotone(a, b); }
    if b < a { Pow2Monotone(b, a); }
  }

  /** `luaO_log2`. */
  method Log2(x: nat) returns (l: int)
    ensures l == FloorLog2(x)
  {
    var y := x;
    l := -1;
    while y >= 256
      invariant FloorLog2(x) == l + 1 + FloorLog2(y)
    {
      FloorLog2Byte(y);
      l := l + 8;
      y := y / 256;
    }
    Log2EntryOk(y);
    l := l + Log2Entry(y);
  }

  /** The slice of the integers a key belongs to: 2^(c-1) < x <= 2^c. */
  ghost predicate InSlice(x: nat, c: nat) {
    x <= Pow2(c) && (c > 0 ==> Pow2(c - 1) < x)
  }

  /** The macro `ceillog2`. */
  method CeilLog2(x: nat) returns (c: nat)
    requires x > 0
    ensures InSlice(x, c)
  {
    var l := Log2(x - 1);
    c := l + 1;
    if x > 1 { FloorLog2Bounds(x - 1); }
  }

  // ----- counting integer keys by slice -----

  /** The integer keys 1..m of a set of keys. */
  ghost function UpTo(keys: set<Key>, m: nat): set<Key> {
    set k | k in keys && k.Integer? && 1 <= k.n <= m
  }

  ghost function Slice(keys: set<Key>, b: nat): set<Key> {
    set k | k in keys && k.Integer? && k.n >= 1 && InSlice(k.n, b)
  }

  /** `nums[b]` counts the integer keys of slice `b`. */
  ghost predicate NumsOk(nums: seq<nat>, keys: set<Key>) {
    |nums| == MAXBITS + 1 && forall b :: 0 <= b <= MAXBITS ==> nums[b] == |Slice(keys, b)|
  }

  ghost function PrefixSum(nums: seq<nat>, n: nat): nat
    requires n <= |nums|
  {
    if n == 0 then 0 else PrefixSum(nums, n - 1) + nums[n - 1]
  }

  lemma {:induction false} UpToBound(keys: set<Key>, m: nat)
    ensures |UpTo(keys, m)| <= m
  {
    if m == 0 {
      assert UpTo(keys, 0) == {};
    } else {
      UpToBound(keys, m - 1);
      assert UpTo(keys, m) <= UpTo(keys, m - 1) + {Integer(m)};
      SubsetSize(UpTo(keys, m), UpTo(keys, m - 1) + {Integer(m)});
    }
  }

  lemma {:induction false} SubsetSize<T>(a: set<T>, b: set<T>)
    requires a <= b
    ensures |a| <= |b|
  {
    assert b == a + (b - a);
  }

  /** The sum of the first slices is the number of keys up to a power of two. */
  lemma {:induction false} PrefixIsUpTo(nums: seq<nat>, keys: set<Key>, b: nat)
    requires NumsOk(nums, keys) && b <= MAXBITS
    ensures PrefixSum(nums, b + 1) == |UpTo(keys, Pow2(b))|
  {
    if b == 0 {
      assert Slice(keys, 0) == UpTo(keys, 1);
      assert PrefixSum(nums, 1) == PrefixSum(nums, 0) + nums[0];
    } else {
      PrefixIsUpTo(nums, keys, b - 1);
      Pow2Monotone(b - 1, b);
      assert UpTo(keys, Pow2(b)) == UpTo(keys, Pow2(b - 1)) + Slice(keys, b);
      assert UpTo(keys, Pow2(b - 1)) !! Slice(keys, b);
    }
  }

  /** Counting one more key. */
  lemma AddInteger(nums: seq<nat>, keys: set<Key>, k: Key, c: nat)
    requires NumsOk(nums, keys) && k !in keys && k.Integer? && 1 <= k.n && InSlice(k.n, c) && c <= MAXBITS
    ensures NumsOk(nums[c := nums[c] + 1], keys + {k})
  {
    forall b | 0 <= b <= MAXBITS
      ensures nums[c := nums[c] + 1][b] == |Slice(keys + {k}, b)|
    {
      if b == c {
        assert Slice(keys + {k}, b) == Slice(keys, b) + {k};
      } else {
        if InSlice(k.n, b) { SliceUnique(k.n, b, c); }
        assert Slice(keys + {k}, b) == Slice(keys, b);
      }
    }
  }

  lemma SliceUnique(x: nat, b: nat, c: nat)
    requires InSlice(x, b) && InSlice(x, c) && x > 0
    ensures b == c
  {
    if b < c { Pow2Monotone(b, c - 1); }
    if c < b { Pow2Monotone(c, b - 1); }
  }

  lemma AddOther(nums: seq<nat>, keys: set<Key>, k: Key)
    requires NumsOk(nums, keys) && !(k.Integer? && 0 < k.n <= MAXASIZE)
    ensures NumsOk(nums, keys + {k})
  {
    forall b | 0 <= b <= MAXBITS
      ensures nums[b] == |Slice(keys + {k}, b)|
    {
      Pow2Max();
      Pow2Monotone(b, MAXBITS);
      assert Slice(keys + {k}, b) == Slice(keys, b);
    }
  }

  lemma Pow2Max()
    ensures Pow2(MAXBITS) == MAXASIZE && Pow2(0) == 1
  {
    Pow2Eight(0); Pow2Eight(8); Pow2Eight(16);
    assert Pow2(26) == 2 * Pow2(25) == 4 * Pow2(24);
  }

  lemma Pow2Eight(n: nat)
    ensures Pow2(n + 8) == 256 * Pow2(n)
  {
    assert Pow2(n + 8) == 2 * Pow2(n + 7) == 4 * Pow2(n + 6) == 8 * Pow2(n + 5) == 16 * Pow2(n + 4);
    assert Pow2(n + 4) == 2 * Pow2(n + 3) == 4 * Pow2(n + 2) == 8 * Pow2(n + 1) == 16 * Pow2(n);
  }

  /** `countint`: counts a key that could live in the array part. */
  method CountInt(k: Key, nums: array<nat>, ghost keys: set<Key>) returns (c: nat)
    requires NumsOk(nums[..], keys) && k !in keys
    modifies nums
    ensures NumsOk(nums[..], keys + {k})
    ensures c == if k.Integer? && 0 < k.n <= MAXASIZE then 1 else 0
  {
    if k.Integer? && 0 < k.n <= MAXASIZE {
      var b := CeilLog2(k.n);
      Pow2Max();
      if b > MAXBITS { Pow2Monotone(MAXBITS, b - 1); }
      AddInteger(nums[..], keys, k, b);
      nums[b] := nums[b] + 1;
      c := 1;
    } else {
      AddOther(nums[..], keys, k);
      c := 0;
    }
  }

  // ----- the size of the array part -----

  /** `size` is the largest power of two more than half of whose slots would be in use,
      or 0; `na` is how many keys it takes. */
  ghost predicate BestSize(keys: set<Key>, size: nat, na: nat) {
    && na == |UpTo(keys, size)|
    && (size == 0 || (2 * na > size && exists b :: 0 <= b <= MAXBITS && size == Pow2(b)))
    && forall b :: 0 <= b <= MAXBITS && 2 * |UpTo(keys, Pow2(b))| > Pow2(b) ==> Pow2(b) <= size
  }

  /** The best size among the first `n` powers of two. */
  ghost predicate BestBelow(keys: set<Key>, size: nat, na: nat, n: nat) {
    && na == |UpTo(keys, size)| && na <= size
    && (size == 0 || (2 * na > size && exists b :: 0 <= b < n && size == Pow2(b)))
    && forall b :: 0 <= b < n && 2 * |UpTo(keys, Pow2(b))| > Pow2(b) ==> Pow2(b) <= size
  }

  lemma BestTaken(keys: set<Key>, size: nat, na: nat, i: nat)
    requires BestBelow(keys, size, na, i) && 2 * |UpTo(keys, Pow2(i))| > Pow2(i)
    ensures BestBelow(keys, Pow2(i), |UpTo(keys, Pow2(i))|, i + 1)
  {
    UpToBound(keys, Pow2(i));
    forall b | 0 <= b < i + 1
      ensures Pow2(b) <= Pow2(i)
    {
      Pow2Monotone(b, i);
    }
  }

  lemma BestKept(keys: set<Key>, size: nat, na: nat, i: nat)
    requires BestBelow(keys, size, na, i) && 2 * |UpTo(keys, Pow2(i))| <= Pow2(i)
    ensures BestBelow(keys, size, na, i + 1)
  {
  }

  /** A slice without keys does not make a power of two better than half full. */
  lemma EmptySlice(nums: seq<nat>, keys: set<Key>, i: nat)
    requires NumsOk(nums, keys) && i <= MAXBITS && nums[i] == 0
    ensures 2 * |UpTo(keys, Pow2(i))| <= Pow2(i)
  {
    PrefixIsUpTo(nums, keys, i);
    if i > 0 {
      PrefixIsUpTo(nums, keys, i - 1);
      UpToBound(keys, Pow2(i - 1));
    }
  }

  lemma UpToMonotone(keys: set<Key>, a: nat, b: nat)
    requires a <= b
    ensures |UpTo(keys, a)| <= |UpTo(keys, b)|
  {
    SubsetSize(UpTo(keys, a), UpTo(keys, b));
  }

  /** No larger power of two can do better once half of it is all the keys there are. */
  lemma BestDone(keys: set<Key>, size: nat, na: nat, i: nat, narray: nat)
    requires BestBelow(keys, size, na, i) && i <= MAXBITS + 1 && narray == |UpTo(keys, MAXASIZE)|
    requires 2 * narray <= Pow2(i) || (i == 0 && narray == 0)
    ensures BestSize(keys, size, na)
  {
    Pow2Max();
    forall b | i <= b <= MAXBITS
      ensures 2 * |UpTo(keys, Pow2(b))| <= Pow2(b)
    {
      Pow2Monotone(i, b);
      Pow2Monotone(b, MAXBITS);
      UpToMonotone(keys, Pow2(b), MAXASIZE);
    }
  }

  lemma BestBounded(keys: set<Key>, size: nat, na: nat)
    requires BestSize(keys, size, na)
    ensures size <= MAXASIZE && na == |UpTo(keys, size)| <= size
  {
    Pow2Max();
    UpToBound(keys, size);
    if b :| 0 <= b <= MAXBITS && size == Pow2(b) { Pow2Monotone(b, MAXBITS); }
  }

  /** `computesizes`. */
  method ComputeSizes(nums: array<nat>, narray: nat, ghost keys: set<Key>) returns (size: nat, na: nat)
    requires NumsOk(nums[..], keys) && narray == |UpTo(keys, MAXASIZE)|
    ensures BestSize(keys, size, na) && size <= MAXASIZE && na == |UpTo(keys, size)| <= size
  {
    hide UpTo, Slice, NumsOk, BestBelow, BestSize;
    var i, twotoi, a := 0, 1, 0;
    size, na := 0, 0;
    assert BestBelow(keys, 0, 0, 0) by { UpToBound(keys, 0); BestStart(keys); }
    Pow2Max();
    assert nums.Length == MAXBITS + 1 by { NumsLength(nums[..], keys); }
    PrefixIsUpTo(nums[..], keys, MAXBITS);
    while twotoi / 2 < narray
      invariant 0 <= i <= MAXBITS && twotoi == Pow2(i) && a == PrefixSum(nums[..], i)
      invariant BestBelow(keys, size, na, i)
      decreases MAXBITS - i
    {
      PrefixIsUpTo(nums[..], keys, i);
      if nums[i] > 0 {
        a := a + nums[i];
        if a > twotoi / 2 {
          BestTaken(keys, size, na, i);
          size := twotoi;
          na := a;
        } else {
          BestKept(keys, size, na, i);
        }
      } else {
        EmptySlice(nums[..], keys, i);
        BestKept(keys, size, na, i);
      }
      UpToBound(keys, twotoi);
      if a == narray {
        BestDone(keys, size, na, i + 1, narray);
        break;
      }
      i, twotoi := i + 1, twotoi * 2;
    }
    if twotoi / 2 >= narray { BestDone(keys, size, na, i, narray); }
    BestBounded(keys, size, na);
  }

  lemma BestStart(keys: set<Key>)
    ensures BestBelow(keys, 0, 0, 0)
  {
    assert UpTo(keys, 0) == {};
  }

  lemma NumsLength(nums: seq<nat>, keys: set<Key>)
    requires NumsOk(nums, keys)
    ensures |nums| == MAXBITS + 1
  {
  }
}
