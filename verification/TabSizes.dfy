/** The sizes that a rehash chooses: counting the integer keys in slices between powers of two, and from
    the counts the largest array that would be more than half full. */
module TabSizes {

  import opened TabModel

  const MAXBITS: nat := 30
  const MAXASIZE: nat := 0x4000_0000

  function Pow2(i: nat): (p: nat)
    ensures p >= 1
  {
    if i == 0 then 1 else 2 * Pow2(i - 1)
  }

  lemma {:induction false} Pow2Grows(i: nat, j: nat)
    requires i < j
    ensures 2 * Pow2(i) <= Pow2(j)
  {
    if i + 1 < j { Pow2Grows(i, j - 1); }
  }

  lemma Pow2Max()
    ensures Pow2(MAXBITS) == MAXASIZE
  {
    assert Pow2(8) == 256;
    assert Pow2(16) == 0x1_0000;
    assert Pow2(24) == 0x100_0000;
    assert Pow2(30) == 0x4000_0000;
  }

  /** How many binary digits a number has: the table of the first 256 logarithms. */
  function Bits(x: nat): (b: nat)
    ensures x < Pow2(b) && (b > 0 ==> Pow2(b - 1) <= x)
  {
    if x == 0 then 0 else 1 + Bits(x / 2)
  }

  /** The logarithm to base 2, rounded up. */
  function Log2Up(x: nat): (l: nat)
    requires x > 0
  {
    Bits(x - 1)
  }

  lemma Log2UpIs(x: nat, l: nat)
    requires x > 0
    ensures Log2Up(x) == l <==> x <= Pow2(l) && (l > 0 ==> Pow2(l - 1) < x)
  {
    var b := Log2Up(x);
    if b < l { if b < l - 1 { Pow2Grows(b, l - 1); } }
    if l < b { if l < b - 1 { Pow2Grows(l, b - 1); } }
  }

  method CeilLog2(x: nat) returns (l: nat)
    requires x > 0
    ensures l == Log2Up(x)
  {
    l := 0;
    var y: nat := x - 1;
    while y >= 256
      invariant l + Bits(y) == Log2Up(x)
    {
      EightBits(y);
      l, y := l + 8, y / 256;
    }
    l := l + Bits(y);
  }

  lemma EightBits(y: nat)
    requires y >= 256
    ensures Bits(y) == 8 + Bits(y / 256)
  {
    assert y / 2 / 2 == y / 4 && y / 4 / 2 == y / 8 && y / 8 / 2 == y / 16 && y / 16 / 2 == y / 32;
    assert y / 32 / 2 == y / 64 && y / 64 / 2 == y / 128 && y / 128 / 2 == y / 256;
    assert Bits(y) == 1 + Bits(y / 2) && Bits(y / 2) == 1 + Bits(y / 4);
    assert Bits(y / 4) == 1 + Bits(y / 8) && Bits(y / 8) == 1 + Bits(y / 16);
    assert Bits(y / 16) == 1 + Bits(y / 32) && Bits(y / 32) == 1 + Bits(y / 64);
    assert Bits(y / 64) == 1 + Bits(y / 128) && Bits(y / 128) == 1 + Bits(y / 256);
  }

  /** The keys that could be in an array part of `n` slots. */
  function Below(keys: set<Key>, n: nat): set<Key> { set k | k in keys && k.Int? && 1 <= k.n <= n }

  /** The keys that are counted in slice `l`. */
  function Slice(keys: set<Key>, l: nat): set<Key> {
    set k | k in keys && k.Int? && 1 <= k.n <= MAXASIZE && Log2Up(k.n) == l
  }

  lemma {:induction false} BelowMost(keys: set<Key>, n: nat)
    ensures |Below(keys, n)| <= n
  {
    if n == 0 {
      assert Below(keys, n) == {};
    } else {
      BelowMost(keys, n - 1);
      assert Below(keys, n) <= Below(keys, n - 1) + {Int(n)};
      Subset(Below(keys, n), Below(keys, n - 1) + {Int(n)});
    }
  }

  lemma Subset<T>(a: set<T>, b: set<T>)
    requires a <= b
    ensures |a| <= |b|
  {
    assert b == a + (b - a);
  }

  lemma BelowSlices(keys: set<Key>, l: nat)
    requires l <= MAXBITS
    ensures l == 0 ==> |Below(keys, 1)| == |Slice(keys, 0)|
    ensures l > 0 ==> |Below(keys, Pow2(l))| == |Below(keys, Pow2(l - 1))| + |Slice(keys, l)|
  {
    Pow2Max();
    if l < MAXBITS { Pow2Grows(l, MAXBITS); }
    forall k | k in keys && k.Int? && 1 <= k.n
      ensures k in Slice(keys, l) <==> k.n <= Pow2(l) && (l > 0 ==> Pow2(l - 1) < k.n)
    {
      Log2UpIs(k.n, l);
    }
    if l == 0 {
      assert Below(keys, 1) == Slice(keys, 0);
    } else {
      assert Pow2(l - 1) <= Pow2(l);
      assert Below(keys, Pow2(l)) == Below(keys, Pow2(l - 1)) + Slice(keys, l);
      assert Below(keys, Pow2(l - 1)) !! Slice(keys, l);
    }
  }

  /** More than half of an array of 2^i slots would be in use. */
  predicate Dense(keys: set<Key>, i: nat) { 2 * |Below(keys, Pow2(i))| > Pow2(i) }

  /** `n` is the largest power of two such that more than half of the slots of an array of that size would
      be in use, or 0 if there is none. */
  ghost predicate Best(keys: set<Key>, n: nat) {
    && (n == 0 || exists i: nat | i <= MAXBITS :: n == Pow2(i) && Dense(keys, i))
    && forall i: nat | i <= MAXBITS && n < Pow2(i) :: !Dense(keys, i)
  }

  ghost predicate Counted(nums: seq<nat>, keys: set<Key>) {
    |nums| == MAXBITS + 1 && forall l | 0 <= l <= MAXBITS :: nums[l] == |Slice(keys, l)|
  }

  /** A power of two that is at least twice the number of all keys is not dense. */
  lemma TooLarge(keys: set<Key>, i: nat, j: nat)
    requires i <= j <= MAXBITS && 2 * |Below(keys, MAXASIZE)| <= Pow2(i)
    ensures !Dense(keys, j)
  {
    Pow2Max();
    if i < j { Pow2Grows(i, j); }
    if j < MAXBITS { Pow2Grows(j, MAXBITS); }
    Subset(Below(keys, Pow2(j)), Below(keys, MAXASIZE));
  }

  /** The keys that could be in an array that ends where slice `i` begins. */
  function Before(keys: set<Key>, i: nat): set<Key> { if i == 0 then {} else Below(keys, Pow2(i - 1)) }

  lemma SliceStep(keys: set<Key>, i: nat)
    requires i <= MAXBITS
    ensures |Below(keys, Pow2(i))| == |Before(keys, i)| + |Slice(keys, i)|
    ensures Before(keys, i + 1) == Below(keys, Pow2(i))
    ensures |Below(keys, Pow2(i))| <= Pow2(i) <= MAXASIZE && Pow2(i + 1) == 2 * Pow2(i)
    ensures Dense(keys, i) <==> |Below(keys, Pow2(i))| > Pow2(i) / 2
    ensures |Slice(keys, i)| == 0 ==> !Dense(keys, i)
    ensures i == MAXBITS ==> Below(keys, Pow2(i)) == Below(keys, MAXASIZE)
  {
    BelowSlices(keys, i);
    if i > 0 { BelowMost(keys, Pow2(i - 1)); }
    BelowMost(keys, Pow2(i));
    Pow2Max();
    if i < MAXBITS { Pow2Grows(i, MAXBITS); }
  }

  lemma SliceStart(keys: set<Key>)
    ensures Pow2(0) == 1 && Below(keys, 0) == {} && Before(keys, 0) == {}
  {}

  method ComputeSizes(nums: array<nat>, narray: nat, ghost keys: set<Key>) returns (n: nat, na: nat)
    requires Counted(nums[..], keys) && narray == |Below(keys, MAXASIZE)|
    ensures Best(keys, n) && na == |Below(keys, n)| && n <= MAXASIZE
  {
    hide Below, Before, Slice, Pow2, Dense;
    SliceStart(keys);
    var i: nat, twotoi: nat, a: nat := 0, 1, 0;
    n, na := 0, 0;
    while twotoi / 2 < narray
      invariant i <= MAXBITS && twotoi == Pow2(i) && a == |Before(keys, i)|
      invariant na == |Below(keys, n)| && n <= MAXASIZE
      invariant n == 0 || exists j: nat | j < i :: n == Pow2(j) && Dense(keys, j)
      invariant forall j: nat | j < i && n < Pow2(j) :: !Dense(keys, j)
      decreases MAXBITS - i
    {
      SliceStep(keys, i);
      if nums[i] > 0 {
        a := a + nums[i];
        if a > twotoi / 2 {
          forall j: nat | j < i ensures Pow2(j) < twotoi { Pow2Grows(j, i); }
          n, na := twotoi, a;
        }
      }
      if a == narray {
        forall j: nat | i < j <= MAXBITS ensures !Dense(keys, j) {
          TooLarge(keys, i + 1, j);
        }
        return;
      }
      i, twotoi := i + 1, twotoi * 2;
    }
    forall j: nat | i <= j <= MAXBITS ensures !Dense(keys, j) { TooLarge(keys, i, j); }
  }

  // ---------- counting ----------

  /** The keys that have a value in the array part. */
  function ArrayKeys(a: seq<Value>): set<Key> { set i | 0 <= i < |a| && a[i] != Nil :: Int(i + 1) }

  /** The keys that have a value in the nodes from `i` on. */
  function HashKeys(node: seq<Node>, i: nat): set<Key> {
    set j | i <= j < |node| && node[j].key.Live? && node[j].val != Nil :: node[j].key.k
  }

  lemma AddKey(keys: set<Key>, k: Key, l: nat)
    requires k !in keys
    ensures |Slice(keys + {k}, l)|
            == |Slice(keys, l)| + if k.Int? && 1 <= k.n <= MAXASIZE && Log2Up(k.n) == l then 1 else 0
  {
    if k.Int? && 1 <= k.n <= MAXASIZE && Log2Up(k.n) == l {
      assert Slice(keys + {k}, l) == Slice(keys, l) + {k};
    } else {
      assert Slice(keys + {k}, l) == Slice(keys, l);
    }
  }

  lemma AddBelow(keys: set<Key>, k: Key, n: nat)
    requires k !in keys
    ensures |Below(keys + {k}, n)| == |Below(keys, n)| + if k.Int? && 1 <= k.n <= n then 1 else 0
  {
    if k.Int? && 1 <= k.n <= n {
      assert Below(keys + {k}, n) == Below(keys, n) + {k};
    } else {
      assert Below(keys + {k}, n) == Below(keys, n);
    }
  }

  method CountInt(k: Key, nums: array<nat>, ghost keys: set<Key>) returns (one: nat)
    requires Counted(nums[..], keys) && k !in keys
    modifies nums
    ensures Counted(nums[..], keys + {k})
    ensures |Below(keys + {k}, MAXASIZE)| == |Below(keys, MAXASIZE)| + one
  {
    AddBelow(keys, k, MAXASIZE);
    forall l | 0 <= l <= MAXBITS ensures |Slice(keys + {k}, l)|
            == |Slice(keys, l)| + if k.Int? && 1 <= k.n <= MAXASIZE && Log2Up(k.n) == l then 1 else 0
    {
      AddKey(keys, k, l);
    }
    if k.Int? && 0 < k.n <= MAXASIZE {
      var l := CeilLog2(k.n);
      LogFits(k.n);
      nums[l] := nums[l] + 1;
      one := 1;
    } else {
      one := 0;
    }
  }

  lemma LogFits(n: nat)
    requires 0 < n <= MAXASIZE
    ensures Log2Up(n) <= MAXBITS
  {
    Pow2Max();
    Log2UpIs(n, Log2Up(n));
    if Log2Up(n) > MAXBITS {
      if Log2Up(n) - 1 > MAXBITS { Pow2Grows(MAXBITS, Log2Up(n) - 1); }
    }
  }

  lemma NextKeys(a: seq<Value>, i: nat)
    requires i < |a|
    ensures ArrayKeys(a[..i + 1]) == if a[i] == Nil then ArrayKeys(a[..i]) else ArrayKeys(a[..i]) + {Int(i + 1)}
    ensures Int(i + 1) !in ArrayKeys(a[..i])
  {
    var s, t := a[..i + 1], a[..i];
    forall k | k in ArrayKeys(s) ensures k in ArrayKeys(t) || (k == Int(i + 1) && a[i] != Nil) {
      assert k.n - 1 < i ==> t[k.n - 1] == s[k.n - 1];
    }
    forall k | k in ArrayKeys(t) ensures k in ArrayKeys(s) { assert t[k.n - 1] == s[k.n - 1]; }
    if a[i] != Nil { assert s[i] == a[i]; }
  }

  lemma NextSlice(a: seq<Value>, i: nat, l: nat)
    requires i < |a| <= MAXASIZE
    ensures |Slice(ArrayKeys(a[..i + 1]), l)|
            == |Slice(ArrayKeys(a[..i]), l)| + if a[i] != Nil && Log2Up(i + 1) == l then 1 else 0
  {
    NextKeys(a, i);
    AddKey(ArrayKeys(a[..i]), Int(i + 1), l);
  }

  /** The counts while slice `lg` is being counted, `lc` keys of it so far. */
  ghost predicate Counting(from: seq<nat>, lg: nat, lc: nat, keys: set<Key>) {
    && |from| == MAXBITS + 1
    && forall l | 0 <= l <= MAXBITS :: from[l] + (if l == lg then lc else 0) == |Slice(keys, l)|
  }

  lemma NextCount(a: seq<Value>, i: nat, from: seq<nat>, lg: nat, lc: nat)
    requires i < |a| <= MAXASIZE && Counting(from, lg, lc, ArrayKeys(a[..i]))
    requires i < Pow2(lg) && (lg > 0 ==> Pow2(lg - 1) <= i)
    ensures Counting(from, lg, if a[i] != Nil then lc + 1 else lc, ArrayKeys(a[..i + 1]))
    ensures |ArrayKeys(a[..i + 1])| == |ArrayKeys(a[..i])| + if a[i] != Nil then 1 else 0
  {
    NextKeys(a, i);
    Log2UpIs(i + 1, lg);
    hide Log2Up, ArrayKeys, Slice, Pow2;
    forall l | 0 <= l <= MAXBITS
      ensures from[l] + (if l == lg then if a[i] != Nil then lc + 1 else lc else 0) == |Slice(ArrayKeys(a[..i + 1]), l)|
    {
      NextSlice(a, i, l);
    }
  }

  /** Where the keys below slice `lg` end, in an array of the given size. */
  function SliceEnd(size: nat, lg: nat): nat {
    if lg == 0 then 0 else if Pow2(lg - 1) < size then Pow2(lg - 1) else size
  }

  lemma SliceEndIs(size: nat, lg: nat)
    ensures Pow2(0) == 1 && Pow2(lg + 1) == 2 * Pow2(lg) && SliceEnd(size, 0) == 0
    ensures SliceEnd(size, lg + 1) == if Pow2(lg) < size then Pow2(lg) else size
    ensures SliceEnd(size, lg) <= size && (lg > 0 ==> SliceEnd(size, lg) <= Pow2(lg - 1) <= Pow2(lg))
    ensures lg > 0 && SliceEnd(size, lg) < size ==> SliceEnd(size, lg) == Pow2(lg - 1)
    ensures size <= MAXASIZE ==> SliceEnd(size, MAXBITS + 1) == size
  {
    Pow2Max();
  }

  /** Counts the keys of slice `lg`, which are those after `start` up to `lim`. */
  method CountSlice(a: seq<Value>, lg: nat, start: nat, lim: nat, ghost from: seq<nat>) returns (lc: nat)
    requires start <= lim <= |a| <= MAXASIZE && lim <= Pow2(lg) && (lg > 0 && start < lim ==> Pow2(lg - 1) <= start)
    requires Counted(from, ArrayKeys(a[..start]))
    ensures Counting(from, lg, lc, ArrayKeys(a[..lim]))
    ensures |ArrayKeys(a[..lim])| == |ArrayKeys(a[..start])| + lc
  {
    hide ArrayKeys, Slice, Pow2;
    lc := 0;
    var i := start;
    while i < lim
      invariant start <= i <= lim
      invariant Counting(from, lg, lc, ArrayKeys(a[..i]))
      invariant |ArrayKeys(a[..i])| == |ArrayKeys(a[..start])| + lc
    {
      NextCount(a, i, from, lg, lc);
      if a[i] != Nil { lc := lc + 1; }
      i := i + 1;
    }
  }

  lemma NoneCounted(a: seq<Value>)
    ensures ArrayKeys(a[..0]) == {}
    ensures forall l | 0 <= l <= MAXBITS :: |Slice(ArrayKeys(a[..0]), l)| == 0
  {
    assert ArrayKeys(a[..0]) == {};
    forall l | 0 <= l <= MAXBITS ensures |Slice(ArrayKeys(a[..0]), l)| == 0 {
      assert Slice(ArrayKeys(a[..0]), l) == {};
    }
  }

  method NumUseArray(a: seq<Value>, nums: array<nat>) returns (ause: nat)
    requires |a| <= MAXASIZE && nums.Length == MAXBITS + 1 && forall l | 0 <= l <= MAXBITS :: nums[l] == 0
    modifies nums
    ensures Counted(nums[..], ArrayKeys(a)) && ause == |ArrayKeys(a)|
  {
    hide ArrayKeys, Slice, Pow2, SliceEnd;
    var lg: nat, ttlg: nat, i: nat := 0, 1, 1;
    ause := 0;
    SliceEndIs(|a|, 0);
    NoneCounted(a);
    while lg <= MAXBITS
      invariant lg <= MAXBITS + 1 && ttlg == Pow2(lg) && i == SliceEnd(|a|, lg) + 1 && i <= |a| + 1
      invariant Counted(nums[..], ArrayKeys(a[..i - 1])) && ause == |ArrayKeys(a[..i - 1])|
    {
      SliceEndIs(|a|, lg);
      var lim := ttlg;
      if lim > |a| {
        lim := |a|;
        if i > lim { break; }
      }
      var lc := CountSlice(a, lg, i - 1, lim, nums[..]);
      i := lim + 1;
      nums[lg] := nums[lg] + lc;
      ause := ause + lc;
      lg, ttlg := lg + 1, ttlg * 2;
    }
    SliceEndIs(|a|, lg);
    assert a[..|a|] == a;
  }
}
