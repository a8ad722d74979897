/** The operations of a table, against a finite map from keys to values. */
module LuaTable {

  import opened TabModel
  import opened TabSizes

  /** What may be used as an index. */
  datatype Index = NilIndex | NanIndex | Is(k: Key)

  /** Where a value is kept: what the source points to. */
  datatype Slot = NilObject | InArray(i: nat) | InNode(i: nat)

  datatype Outcome = Found(slot: Slot) | IndexIsNil | IndexIsNan | Overflow

  datatype Step = Pair(k: Key, x: int) | End | Invalid

  const EMPTY := Node(Empty, Nil, NULL)
  const MAX_INT: nat := 0x7fff_fffd

  predicate InRange(k: Key, n: nat) { k.Int? && 1 <= k.n <= n }

  function Look(m: map<Key, int>, k: Key): Value { if k in m then Val(m[k]) else Nil }

  /** The map after `v` is stored at `k`: storing nil removes the key. */
  function Put(m: map<Key, int>, k: Key, v: Value): (r: map<Key, int>)
    ensures forall q :: Look(r, q) == if q == k then v else Look(m, q)
  {
    match v
    case Nil => map q | q in m && q != k :: m[q]
    case Val(x) => m[k := x]
  }

  /** The two parts together hold the map. */
  ghost predicate Content(arr: seq<Value>, node: seq<Node>, m: map<Key, int>) {
    && (forall i | 0 <= i < |arr| :: arr[i] == Look(m, Int(i + 1)))
    && (forall i | 0 <= i < |node| && node[i].key.Live? ::
          !InRange(node[i].key.k, |arr|) && node[i].val == Look(m, node[i].key.k))
    && forall k | k in m && !InRange(k, |arr|) :: !Absent(node, k)
  }

  /** Every node from `lastfree` on has been used; the shared dummy node is never free. */
  ghost predicate FreeOk(node: seq<Node>, dummy: bool, lastfree: int) {
    if dummy then node == [EMPTY] && lastfree == 0
    else 0 <= lastfree <= |node| && forall i | lastfree <= i < |node| :: !node[i].key.Empty?
  }

  /** The keys that cannot be in an array part of `n` slots. */
  function Outside(keys: set<Key>, n: nat): set<Key> { set k | k in keys && !InRange(k, n) }

  lemma {:induction false} AllUsed(node: seq<Node>)
    ensures |Used(node)| <= |node|
    ensures |Used(node)| == |node| <==> forall i | 0 <= i < |node| :: !node[i].key.Empty?
  {
    if node != [] {
      var l := |node| - 1;
      AllUsed(node[..l]);
      assert Used(node) == if node[l].key.Empty? then Used(node[..l]) else Used(node[..l]) + {l};
    }
  }

  lemma UseOne(node: seq<Node>, node': seq<Node>, i: int)
    requires |node| == |node'| && 0 <= i < |node| && !node'[i].key.Empty?
    requires forall j | 0 <= j < |node| && j != i :: node'[j].key.Empty? <==> node[j].key.Empty?
    ensures |Used(node')| <= |Used(node)| + 1
  {
    assert Used(node') <= Used(node) + {i};
    Subset(Used(node'), Used(node) + {i});
  }

  lemma ContentKeys(arr: seq<Value>, node: seq<Node>, m: map<Key, int>)
    requires Content(arr, node, m)
    ensures ArrayKeys(arr) + HashKeys(node, 0) == m.Keys
    ensures |ArrayKeys(arr)| + |HashKeys(node, 0)| == |m.Keys|
    ensures Outside(m.Keys, |arr|) == HashKeys(node, 0)
  {
    hide Content, ArrayKeys, HashKeys;
    forall k ensures k in ArrayKeys(arr) <==> k in m && InRange(k, |arr|)
             ensures k in HashKeys(node, 0) <==> k in m && !InRange(k, |arr|)
    {
      ContentKey(arr, node, m, k);
    }
    assert ArrayKeys(arr) !! HashKeys(node, 0);
    assert m.Keys == ArrayKeys(arr) + HashKeys(node, 0);
  }

  lemma ContentKey(arr: seq<Value>, node: seq<Node>, m: map<Key, int>, k: Key)
    requires Content(arr, node, m)
    ensures k in ArrayKeys(arr) <==> k in m && InRange(k, |arr|)
    ensures k in HashKeys(node, 0) <==> k in m && !InRange(k, |arr|)
  {
    if InRange(k, |arr|) {
      assert arr[k.n - 1] == Look(m, Int(k.n));
    } else if k in m {
      var j :| 0 <= j < |node| && node[j].key == Live(k);
      assert node[j].val == Look(m, k);
    }
  }

  lemma NotIn(arr: seq<Value>, node: seq<Node>, m: map<Key, int>, k: Key)
    requires Content(arr, node, m) && !InRange(k, |arr|) && Absent(node, k)
    ensures k !in m
  {}

  /** The keys that have a value in the array part or in the nodes from `i` on. */
  function Seen(arr: seq<Value>, node: seq<Node>, i: nat): set<Key> { ArrayKeys(arr) + HashKeys(node, i) }

  /** Counts the key of one node, if it has a value. */
  method CountNode(node: seq<Node>, i: nat, nums: array<nat>, ghost keys: set<Key>, ghost arr: seq<Value>,
                   ghost lab: seq<Label>, ghost hash: Hash, ghost m: map<Key, int>)
    returns (use: nat, one: nat)
    requires Content(arr, node, m) && Scattered(node, lab, hash) && i < |node|
    requires keys == Seen(arr, node, i + 1) && Counted(nums[..], keys)
    modifies nums
    ensures Counted(nums[..], Seen(arr, node, i))
    ensures |HashKeys(node, i)| == |HashKeys(node, i + 1)| + use
    ensures |Below(Seen(arr, node, i), MAXASIZE)| == |Below(keys, MAXASIZE)| + one
  {
    HashKeysNext(arr, node, lab, hash, m, i);
    hide HashKeys, ArrayKeys, Slice, Below, Scattered, Content, Counted;
    use, one := 0, 0;
    if node[i].val != Nil {
      one := CountInt(node[i].key.k, nums, keys);
      use := 1;
    }
  }

  /** Counts the keys of the hash part. */
  method NumUseHash(node: seq<Node>, nums: array<nat>, nasize: nat,
                    ghost arr: seq<Value>, ghost lab: seq<Label>, ghost hash: Hash, ghost m: map<Key, int>)
    returns (totaluse: nat, pnasize: nat)
    requires Content(arr, node, m) && Scattered(node, lab, hash)
    requires Counted(nums[..], ArrayKeys(arr)) && nasize == |Below(ArrayKeys(arr), MAXASIZE)|
    modifies nums
    ensures Counted(nums[..], m.Keys) && pnasize == |Below(m.Keys, MAXASIZE)|
    ensures totaluse == |HashKeys(node, 0)|
  {
    hide *;
    totaluse, pnasize := 0, nasize;
    var i := |node|;
    SeenEnds(arr, node, m);
    while i > 0
      invariant 0 <= i <= |node|
      invariant Counted(nums[..], Seen(arr, node, i))
      invariant pnasize == |Below(Seen(arr, node, i), MAXASIZE)|
      invariant totaluse == |HashKeys(node, i)|
    {
      i := i - 1;
      var use, one := CountNode(node, i, nums, Seen(arr, node, i + 1), arr, lab, hash, m);
      pnasize := pnasize + one;
      totaluse := totaluse + use;
    }
  }

  class Table {
    var arr: seq<Value>
    var node: seq<Node>
    var dummy: bool
    var lastfree: int
    const hash: Hash
    ghost var lab: seq<Label>
    ghost var m: map<Key, int>
    ghost var rehashes: nat

    ghost predicate Valid()
      reads this
    {
      && |arr| <= MAXASIZE && |node| <= MAXASIZE && Scattered(node, lab, hash) && FreeOk(node, dummy, lastfree)
      && Content(arr, node, m)
    }

    /** There is a node for one more key. */
    predicate HasRoom()
      reads this
    {
      !dummy && |Used(node)| < |node|
    }

    /** The slot is the one of the key. */
    ghost predicate Names(slot: Slot, k: Key)
      reads this
    {
      match slot
      case NilObject => !InRange(k, |arr|) && Absent(node, k)
      case InArray(i) => i < |arr| && k == Int(i + 1)
      case InNode(i) => At(node, k, i)
    }

    function Read(slot: Slot): Value
      requires slot.InArray? ==> slot.i < |arr|
      requires slot.InNode? ==> slot.i < |node|
      reads this
    {
      match slot
      case NilObject => Nil
      case InArray(i) => arr[i]
      case InNode(i) => node[i].val
    }

    constructor (hash: Hash)
      ensures Valid() && m == map[] && this.hash == hash
    {
      this.hash := hash;
      arr, node, dummy, lastfree := [], [EMPTY], true, 0;
      lab, m, rehashes := [Label(0, 0.0)], map[], 0;
    }

    method FindNode(k: Key) returns (i: int)
      requires Valid()
      ensures if i == NULL then Absent(node, k) else At(node, k, i)
    {
      i := MainPos(hash, |node|, k);
      assert forall j | At(node, k, j) :: NodeOk(node, lab, hash, j);
      while node[i].key != Live(k)
        invariant 0 <= i < |node|
        invariant forall j | At(node, k, j) :: Reaches(lab, i, j)
        decreases Later(node, lab, i)
      {
        assert LinkOk(node, lab, i);
        if node[i].next == NULL {
          forall j | 0 <= j < |node| ensures node[j].key != Live(k) {
            assert At(node, k, j) ==> Reaches(lab, i, j);
          }
          return NULL;
        }
        LaterLess(node, lab, i);
        i := node[i].next;
      }
    }

    method Get(key: Index) returns (slot: Slot)
      requires Valid()
      ensures key.Is? ==> Names(slot, key.k) && Read(slot) == Look(m, key.k)
      ensures !key.Is? ==> slot == NilObject
    {
      if !key.Is? { return NilObject; }
      if InRange(key.k, |arr|) { return InArray(key.k.n - 1); }
      var i := FindNode(key.k);
      slot := if i == NULL then NilObject else InNode(i);
    }

    /** Stores a value through a slot that was handed out for the key. */
    method Assign(slot: Slot, v: Value, ghost k: Key)
      requires Valid() && slot != NilObject && Names(slot, k)
      modifies `arr, `node, `m
      ensures Valid() && m == Put(old(m), k, v)
      ensures |arr| == old(|arr|) && |node| == old(|node|) && Used(node) == old(Used(node))
      ensures forall i | 0 <= i < |node| :: node[i].key == old(node[i].key)
    {
      if slot.InArray? {
        InArrayAssigned(arr, node, m, slot.i, v);
        arr := arr[slot.i := v];
      } else {
        InNodeAssigned(arr, node, lab, hash, m, slot.i, v, k);
        node := node[slot.i := node[slot.i].(val := v)];
        Revalued(old(node), node, lab, hash);
      }
      m := Put(m, k, v);
    }

    /** The next node, downwards, that was never used.  Nothing from there on is free. */
    method GetFreePos() returns (n: int)
      requires FreeOk(node, dummy, lastfree)
      modifies `lastfree
      ensures 0 <= lastfree <= old(lastfree)
      ensures n == NULL ==> lastfree == 0 && FreeOk(node, dummy, lastfree) && !HasRoom()
      ensures n != NULL ==> n == lastfree < |node| && node[n].key.Empty? && HasRoom()
      ensures n != NULL ==> forall i | n < i < |node| :: !node[i].key.Empty?
    {
      AllUsed(node);
      while lastfree > 0
        invariant 0 <= lastfree <= old(lastfree) && FreeOk(node, dummy, lastfree)
      {
        lastfree := lastfree - 1;
        if node[lastfree].key.Empty? { return lastfree; }
      }
      n := NULL;
    }

    /** Puts a key into the node at its main position, which has no value. */
    method Place(mp: nat, k: Key)
      requires Valid() && !dummy && Absent(node, k) && !InRange(k, |arr|)
      requires mp < |node| && mp == MainPos(hash, |node|, k) && node[mp].val == Nil
      modifies `node
      ensures Valid() && At(node, k, mp) && |node| == old(|node|) && |Used(node)| <= old(|Used(node)|) + 1
    {
      PlacedOk(node, lab, hash, mp, k);
      ContentAdded(arr, node, Placed(node, mp, k), m, k, mp, mp);
      UseOne(node, Placed(node, mp, k), mp);
      node := node[mp := node[mp].(key := Live(k), val := Nil)];
    }

    /** The node that is linked to `mp`, in the list that starts at `othern`. */
    method Previous(othern: nat, mp: nat) returns (prev: nat)
      requires Lists(node, lab) && othern < |node| && mp < |node| && After(lab, othern, mp)
      ensures prev < |node| && node[prev].next == mp
    {
      prev := othern;
      assert LinkOk(node, lab, prev);
      while node[prev].next != mp
        invariant prev < |node| && After(lab, prev, mp) && LinkOk(node, lab, prev)
        decreases Later(node, lab, prev)
      {
        LaterLess(node, lab, prev);
        assert Reaches(lab, node[prev].next, mp);
        prev := node[prev].next;
        assert LinkOk(node, lab, prev);
      }
    }

    /** The main position of the key is taken: the key goes there if the node that has it is out of its
        own main position, and otherwise to the free node `n`. */
    method Collide(mp: nat, n: nat, k: Key) returns (at: nat)
      requires |arr| <= MAXASIZE && |node| <= MAXASIZE && Scattered(node, lab, hash) && Content(arr, node, m)
      requires !dummy && Absent(node, k) && !InRange(k, |arr|)
      requires mp < |node| && mp == MainPos(hash, |node|, k) && node[mp].val != Nil
      requires n == lastfree < |node| && node[n].key.Empty?
      requires forall i | n < i < |node| :: !node[i].key.Empty?
      modifies `node, `lab
      ensures Valid() && At(node, k, at) && |node| == old(|node|) && |Used(node)| <= old(|Used(node)|) + 1
    {
      Colliding(node, lab, hash, mp, n);
      var othern := MainPos(hash, |node|, node[mp].key.k);
      if othern != mp {
        MoveAway(othern, mp, n, k);
        at := mp;
      } else {
        ChainIn(mp, n, k);
        at := n;
      }
    }

    /** The node at `mp` moves to the free node `n`, and the key takes its place. */
    method MoveAway(othern: nat, mp: nat, n: nat, k: Key)
      requires Scattered(node, lab, hash) && Content(arr, node, m) && Absent(node, k) && !InRange(k, |arr|)
      requires othern < |node| && mp < |node| && n < |node| && n != mp && After(lab, othern, mp)
      requires MainPos(hash, |node|, k) == mp && node[mp].key.Live? && MainPos(hash, |node|, node[mp].key.k) == othern
      requires node[n].key.Empty?
      modifies `node, `lab
      ensures Scattered(node, lab, hash) && Content(arr, node, m) && At(node, k, mp)
      ensures |node| == old(|node|) && |Used(node)| <= old(|Used(node)|) + 1
      ensures forall i | 0 <= i < |node| :: node[i].key.Empty? <==> i != n && old(node[i].key.Empty?)
    {
      var prev := Previous(othern, mp);
      assert Moving(node, lab, hash, prev, mp, n, k);
      MovedAfter(node, lab, hash, prev, mp, n, k, n, n);
      hide Moving, Scattered, Content, Absent, Used, After;
      MovedOk(node, lab, hash, prev, mp, n, k);
      ghost var node' := Moved(node, prev, mp, n, k);
      ContentAdded(arr, node, node', m, k, mp, n);
      UseOne(node, node', n);
      lab := MovedLab(lab, mp, n);
      node := node[prev := node[prev].(next := n)];
      node := node[n := node[mp]];
      node := node[mp := node[mp].(next := NULL, val := Nil)];
      node := node[mp := node[mp].(key := Live(k))];
      assert node == node';
    }

    /** The key goes to the free node `n`, which is linked in after `mp`. */
    method ChainIn(mp: nat, n: nat, k: Key)
      requires Scattered(node, lab, hash) && Content(arr, node, m) && Absent(node, k) && !InRange(k, |arr|)
      requires mp < |node| && n < |node| && n != mp
      requires MainPos(hash, |node|, k) == mp && node[mp].key.Live? && MainPos(hash, |node|, node[mp].key.k) == mp
      requires node[n].key.Empty? && node[n].val == Nil
      modifies `node, `lab
      ensures Scattered(node, lab, hash) && Content(arr, node, m) && At(node, k, n)
      ensures |node| == old(|node|) && |Used(node)| <= old(|Used(node)|) + 1
      ensures forall i | 0 <= i < |node| :: node[i].key.Empty? <==> i != n && old(node[i].key.Empty?)
    {
      assert Chaining(node, lab, hash, mp, n, k);
      hide Chaining, Scattered, Content, Absent, Used, After;
      ChainedOk(node, lab, hash, mp, n, k);
      ghost var node' := Chained(node, mp, n, k);
      ContentAdded(arr, node, node', m, k, n, n);
      UseOne(node, node', n);
      lab := ChainedLab(node, lab, mp, n);
      node := node[n := node[n].(next := node[mp].next)];
      node := node[mp := node[mp].(next := n)];
      node := node[n := node[n].(key := Live(k))];
      assert node == node';
    }

    /** A fresh hash part for `size` keys: the shared dummy node when no key is expected. */
    method SetNodeVector(size: nat) returns (ok: bool)
      modifies `node, `dummy, `lastfree, `lab
      ensures ok <==> size == 0 || Log2Up(size) <= MAXBITS
      ensures ok ==> |node| <= MAXASIZE && Scattered(node, lab, hash) && FreeOk(node, dummy, lastfree)
      ensures ok ==> (dummy <==> size == 0) && |node| == if size == 0 then 1 else Pow2(Log2Up(size))
      ensures ok ==> forall i | 0 <= i < |node| :: node[i] == EMPTY
    {
      hide Scattered, Log2Up, Pow2;
      if size == 0 {
        node, lab, dummy, lastfree := [EMPTY], [Label(0, 0.0)], true, 0;
        FreshOk(node, lab, hash);
        return true;
      }
      var lsize := CeilLog2(size);
      if lsize > MAXBITS { return false; }
      Pow2Max();
      if lsize < MAXBITS { Pow2Grows(lsize, MAXBITS); }
      node, lab := seq(Pow2(lsize), _ => EMPTY), seq(Pow2(lsize), i => Label(i, 0.0));
      dummy, lastfree := false, |node|;
      FreshOk(node, lab, hash);
      ok := true;
    }

    /** The slot for a key, which is added when it is not there. */
    method Set(key: Index) returns (r: Outcome)
      requires Valid()
      modifies this
      ensures key == NilIndex ==> r == IndexIsNil && m == old(m) && Valid()
      ensures key == NanIndex ==> r == IndexIsNan && m == old(m) && Valid()
      ensures key.Is? ==> r.Found? || r.Overflow?
      ensures key.Is? && |old(m)| < MAXASIZE ==> r.Found?
      ensures r.Found? ==> Valid() && m == old(m) && r.slot != NilObject && Names(r.slot, key.k)
      ensures rehashes <= old(rehashes) + 1
      ensures key.Is? && old(Roomy(key.k)) ==> r.Found? && Kept(old(arr), old(node), old(dummy), old(rehashes), key.k)
      decreases if key.Is? && !Roomy(key.k) then 1 else 0, 4
    {
      var slot := Get(key);
      if slot != NilObject { return Found(slot); }
      r := NewKey(key);
    }

    /** There is a slot for the key, or a node for it. */
    ghost predicate Roomy(k: Key)
      reads this
    {
      InRange(k, |arr|) || HasRoom()
    }

    /** The table was not resized, and one node at most was taken, none if the key is in the array part. */
    ghost predicate Kept(arr0: seq<Value>, node0: seq<Node>, dummy0: bool, rehashes0: nat, k: Key)
      reads this
    {
      && rehashes == rehashes0 && arr == arr0 && |node| == |node0| && dummy == dummy0
      && |Used(node)| <= |Used(node0)| + if InRange(k, |arr0|) then 0 else 1
    }

    /** Adds a key that is not in the table. */
    method NewKey(key: Index) returns (r: Outcome)
      requires Valid() && (key.Is? ==> !InRange(key.k, |arr|) && Absent(node, key.k))
      modifies this
      ensures key == NilIndex ==> r == IndexIsNil && m == old(m) && Valid()
      ensures key == NanIndex ==> r == IndexIsNan && m == old(m) && Valid()
      ensures key.Is? ==> r.Found? || r.Overflow?
      ensures key.Is? && |old(m)| < MAXASIZE ==> r.Found?
      ensures r.Found? ==> Valid() && m == old(m) && r.slot != NilObject && Names(r.slot, key.k)
      ensures rehashes <= old(rehashes) + 1
      ensures key.Is? && old(HasRoom()) ==> r.Found? && Kept(old(arr), old(node), old(dummy), old(rehashes), key.k)
      decreases if key.Is? && !Roomy(key.k) then 1 else 0, 3
    {
      if key == NilIndex { return IndexIsNil; }
      if key == NanIndex { return IndexIsNan; }
      var k := key.k;
      var mp := MainPos(hash, |node|, k);
      if node[mp].val != Nil || dummy {
        var n := GetFreePos();
        if n == NULL {
          var ok := Rehash(k);
          if !ok { return Overflow; }
          r := Set(key);
        } else {
          assert node[mp].val != Nil;
          var at := Collide(mp, n, k);
          r := Found(InNode(at));
        }
      } else {
        Place(mp, k);
        r := Found(InNode(mp));
      }
    }

    /** Chooses new sizes so that there is a slot for every key and for one more, and resizes. */
    method Rehash(ek: Key) returns (ok: bool)
      requires Valid() && !InRange(ek, |arr|) && Absent(node, ek)
      modifies this
      ensures ok ==> Valid() && m == old(m) && Roomy(ek) && Best(m.Keys + {ek}, |arr|)
      ensures |old(m)| < MAXASIZE ==> ok
      ensures rehashes == old(rehashes) + 1
      decreases 1, 2
    {
      hide Content, Scattered, FreeOk, Counted, ArrayKeys, HashKeys, Below, Slice, Best, Outside, Used, Log2Up, Pow2;
      var nums := new nat[MAXBITS + 1](_ => 0);
      ghost var keys := m.Keys + {ek};
      NotIn(arr, node, m, ek);
      ContentKeys(arr, node, m);
      var nasize := NumUseArray(arr, nums);
      AllBelow(arr);
      var totaluse := nasize;
      var used, pnasize := NumUseHash(node, nums, nasize, arr, lab, hash, m);
      totaluse := totaluse + used;
      var one := CountInt(ek, nums, m.Keys);
      pnasize := pnasize + one;
      totaluse := totaluse + 1;
      var size, na := ComputeSizes(nums, pnasize, keys);
      OutsideCount(m.Keys, ek, size);
      LogFitsAll(totaluse - na);
      rehashes := rehashes + 1;
      ok := Resize(size, totaluse - na);
      if ok { AllUsed(node); }
    }

    /** Moves every entry into an array part and a hash part of the given sizes. */
    method Resize(nasize: nat, nhsize: nat) returns (ok: bool)
      requires Valid() && nasize <= MAXASIZE && |Outside(m.Keys, nasize)| <= nhsize
      modifies this
      ensures ok <==> nhsize == 0 || Log2Up(nhsize) <= MAXBITS
      ensures rehashes == old(rehashes)
      ensures ok ==> Valid() && m == old(m) && |arr| == nasize
      ensures ok ==> (dummy <==> nhsize == 0) && |node| == if nhsize == 0 then 1 else Pow2(Log2Up(nhsize))
      ensures ok ==> |Used(node)| <= |Outside(m.Keys, nasize)|
      decreases 1, 1
    {
      hide Content, Scattered, Outside, Used, Log2Up, Pow2, ArrayKeys, HashKeys, Restrict;
      ghost var m0 := m;
      var oldarr, nold := arr, node;
      ContentKeys(arr, node, m);
      if nasize > |arr| { arr := arr + seq(nasize - |arr|, _ => Nil); }
      ok := SetNodeVector(nhsize);
      if !ok { return; }
      if nasize < |arr| { arr := arr[..nasize]; }
      var i := if nasize < |oldarr| then nasize else |oldarr|;
      m := Restrict(m0, ArrayKeys(oldarr[..i]));
      Emptied(oldarr, nold, m0, arr, node, m, nasize, i);
      ReinsertSlice(oldarr, i, nold, m0, nasize, nhsize);
      ReinsertNodes(nold, oldarr, old(lab), m0, nasize, nhsize);
      RestrictAll(m0);
    }

    /** Moves the entries of the slots from `start` on. */
    method ReinsertSlice(oldarr: seq<Value>, start: nat, ghost nold: seq<Node>, ghost m0: map<Key, int>,
                         nasize: nat, nhsize: nat)
      requires start <= |oldarr| && Content(oldarr, nold, m0)
      requires Refilling(m0, nasize, nhsize) && m == Restrict(m0, ArrayKeys(oldarr[..start]))
      modifies this
      ensures rehashes == old(rehashes) && Refilling(m0, nasize, nhsize) && m == Restrict(m0, ArrayKeys(oldarr))
      decreases 1, 0
    {
      var i := start;
      hide ArrayKeys, Restrict, Content, Refilling;
      while i < |oldarr|
        invariant rehashes == old(rehashes) && i <= |oldarr| && Refilling(m0, nasize, nhsize)
        invariant m == Restrict(m0, ArrayKeys(oldarr[..i]))
      {
        NextKeys(oldarr, i);
        if oldarr[i] != Nil {
          ArrayEntry(oldarr, nold, m0, i);
          RestrictNext(m0, ArrayKeys(oldarr[..i]), Int(i + 1));
          Reinsert(Int(i + 1), oldarr[i], m0, nasize, nhsize);
        }
        i := i + 1;
      }
      assert oldarr[..i] == oldarr;
    }

    /** Moves the entries of the old nodes, from the last to the first. */
    method ReinsertNodes(nold: seq<Node>, ghost oldarr: seq<Value>, ghost lab0: seq<Label>, ghost m0: map<Key, int>,
                         nasize: nat, nhsize: nat)
      requires Content(oldarr, nold, m0) && Scattered(nold, lab0, hash)
      requires Refilling(m0, nasize, nhsize) && m == Restrict(m0, ArrayKeys(oldarr))
      modifies this
      ensures rehashes == old(rehashes) && Refilling(m0, nasize, nhsize)
      ensures m == Restrict(m0, ArrayKeys(oldarr) + HashKeys(nold, 0))
      decreases 1, 0
    {
      var j := |nold|;
      NoHashKeys(oldarr, nold);
      hide ArrayKeys, HashKeys, Restrict, Content, Refilling, Scattered;
      while j > 0
        invariant rehashes == old(rehashes) && 0 <= j <= |nold| && Refilling(m0, nasize, nhsize)
        invariant m == Restrict(m0, ArrayKeys(oldarr) + HashKeys(nold, j))
      {
        j := j - 1;
        HashKeysNext(oldarr, nold, lab0, hash, m0, j);
        if nold[j].val != Nil {
          RestrictNext(m0, ArrayKeys(oldarr) + HashKeys(nold, j + 1), nold[j].key.k);
          Reinsert(nold[j].key.k, nold[j].val, m0, nasize, nhsize);
        }
      }
    }

    /** While the entries of `m0` are moved into the new parts. */
    ghost predicate Refilling(m0: map<Key, int>, nasize: nat, nhsize: nat)
      reads this
    {
      && Valid() && |arr| == nasize && |Outside(m0.Keys, nasize)| <= nhsize
      && (dummy <==> nhsize == 0) && |node| == (if nhsize == 0 then 1 else Pow2(Log2Up(nhsize)))
      && |Used(node)| <= |Outside(m.Keys, nasize)|
      && m.Keys <= m0.Keys
    }

    method Reinsert(k: Key, v: Value, ghost m0: map<Key, int>, nasize: nat, nhsize: nat)
      requires Refilling(m0, nasize, nhsize) && k in m0 && k !in m && v == Val(m0[k])
      modifies this
      ensures rehashes == old(rehashes) && Refilling(m0, nasize, nhsize) && m == old(m)[k := m0[k]]
      decreases 0, 5
    {
      StillRoom(m.Keys, m0.Keys, k, nasize);
      if nhsize > 0 { Log2UpIs(nhsize, Log2Up(nhsize)); }
      hide Outside, Used, Scattered, Content, FreeOk, Log2Up, Pow2;
      var r := Set(Is(k));
      Assign(r.slot, v, k);
      assert m.Keys == old(m).Keys + {k};
    }

    /** Grows the array part; the hash part keeps its size. */
    method ResizeArray(nasize: nat) returns (ok: bool)
      requires Valid() && |arr| <= nasize <= MAXASIZE
      modifies this
      ensures ok && Valid() && m == old(m) && |arr| == nasize && rehashes == old(rehashes)
    {
      hide Content, Scattered, FreeOk, Outside, Used, Log2Up, Pow2;
      LogFitsAll(|node|);
      HashFits(arr, node, m, nasize, dummy, lastfree);
      ok := Resize(nasize, if dummy then 0 else |node|);
    }

    /** The collector forgets a key that has no value: the node stays in its list. */
    method RemoveEntry(i: nat)
      requires Valid() && i < |node| && node[i].val == Nil && node[i].key.Live?
      modifies `node
      ensures Valid() && node == old(node)[i := old(node[i]).(key := Dead(old(node[i]).key.k))]
    {
      hide Content, Scattered, LinkOk, NodeOk, PairOk;
      DeadOk(arr, node, lab, hash, m, i);
      node := node[i := node[i].(key := Dead(node[i].key.k))];
    }

    // ---------- traversal ----------

    /** The position of a key for traversals; -1 before the first one. */
    method FindIndex(key: Index) returns (ok: bool, i: int)
      requires Valid()
      ensures ok ==> -1 <= i < |arr| + |node|
      ensures key == NilIndex ==> ok && i == -1
      ensures key == NanIndex ==> !ok
      ensures key.Is? ==> forall p | Lies(|arr|, node, key.k, p) :: ok && i == p
      ensures key.Is? && ok ==> Lies(|arr|, node, key.k, i) || (i >= |arr| && node[i - |arr|].key == Dead(key.k))
    {
      hide Content, FreeOk;
      if key == NilIndex { return true, -1; }
      if key == NanIndex { return false, 0; }
      var k := key.k;
      if InRange(k, |arr|) { return true, k.n - 1; }
      var n := MainPos(hash, |node|, k);
      assert forall j | At(node, k, j) :: NodeOk(node, lab, hash, j);
      while true
        invariant 0 <= n < |node| && Reaches(lab, MainPos(hash, |node|, k), n)
        invariant forall j | At(node, k, j) :: Reaches(lab, n, j)
        decreases Later(node, lab, n)
      {
        if node[n].key == Live(k) || node[n].key == Dead(k) {
          forall j | At(node, k, j) ensures j == n {
            assert PairOk(node, lab, hash, n, j);
          }
          return true, |arr| + n;
        }
        assert LinkOk(node, lab, n);
        if node[n].next == NULL {
          return false, 0;
        }
        LaterLess(node, lab, n);
        n := node[n].next;
      }
    }

    /** The first entry after the position of a key. */
    method Next(key: Index) returns (s: Step, ghost from: int, ghost to: int)
      requires Valid()
      ensures s != Invalid ==> -1 <= from < to <= |arr| + |node|
      ensures s != Invalid ==> forall p | from < p < to :: Entry(arr, node, p) == Nil
      ensures s.Pair? ==> to < |arr| + |node| && Lies(|arr|, node, s.k, to) && Entry(arr, node, to) == Val(s.x)
      ensures s != Invalid ==> Missing(|arr|, node, from, to, m)
      ensures s.Pair? ==> s.k in m && m[s.k] == s.x
      ensures s == End ==> to == |arr| + |node|
      ensures key == NilIndex ==> s != Invalid && from == -1
      ensures key.Is? ==> forall p | Lies(|arr|, node, key.k, p) :: s != Invalid && from == p
      ensures key.Is? && s != Invalid
              ==> Lies(|arr|, node, key.k, from) || (from >= |arr| && node[from - |arr|].key == Dead(key.k))
    {
      hide Scattered, Content, Lies, Missing;
      var ok, i := FindIndex(key);
      from := i;
      if !ok { return Invalid, 0, 0; }
      i := i + 1;
      while i < |arr|
        invariant from < i <= |arr| + |node|
        invariant forall p | from < p < i :: Entry(arr, node, p) == Nil
      {
        if arr[i] != Nil {
          InSlot(arr, node, m, i);
          NoneBetween(arr, node, m, from, i);
          return Pair(Int(i + 1), arr[i].x), from, i;
        }
        i := i + 1;
      }
      i := i - |arr|;
      while i < |node|
        invariant 0 <= i <= |node| && from < |arr| + i
        invariant forall p | from < p < |arr| + i :: Entry(arr, node, p) == Nil
      {
        if node[i].val != Nil {
          HasKey(arr, node, lab, hash, m, i);
          NoneBetween(arr, node, m, from, |arr| + i);
          return Pair(node[i].key.k, node[i].val.x), from, |arr| + i;
        }
        i := i + 1;
      }
      NoneBetween(arr, node, m, from, |arr| + i);
      return End, from, |arr| + i;
    }

    /** Gives new values, or nil, to keys that are in the table. */
    method Change(edits: seq<(Key, Value)>)
      requires Valid()
      modifies `arr, `node, `m
      ensures Valid() && |arr| == old(|arr|) && SameKeys(old(node), node)
      ensures edits == [] ==> m == old(m)
    {
      hide Scattered, Content, FreeOk, Put, Used;
      for i := 0 to |edits|
        invariant Valid() && |arr| == old(|arr|) && SameKeys(old(node), node) && (i == 0 ==> m == old(m))
      {
        var slot := Get(Is(edits[i].0));
        if slot != NilObject { Assign(slot, edits[i].1, edits[i].0); }
      }
    }

    /** A whole traversal.  After each entry the program may change or clear existing entries: `edits` says
        how.  Entry `t` is taken from the contents `hist[t]`. */
    method Traverse(edits: nat -> seq<(Key, Value)>) returns (out: seq<(Key, int)>, ghost hist: seq<map<Key, int>>)
      requires Valid()
      modifies `arr, `node, `m
      ensures Valid() && |hist| == |out| + 1 && hist[0] == old(m) && hist[|out|] == m
      ensures forall t | 0 <= t < |out| :: out[t].0 in hist[t] && hist[t][out[t].0] == out[t].1
      ensures forall i, j | 0 <= i < j < |out| :: out[i].0 != out[j].0
      ensures forall k | Throughout(hist, k) :: exists t :: 0 <= t < |out| && out[t].0 == k
      ensures (forall t :: edits(t) == []) ==> forall t | 0 <= t < |hist| :: hist[t] == m
    {
      hide Scattered, Content, FreeOk, Lies, SameKeys, YieldedTo, Yielded, Missing;
      ghost var size, node0 := |arr|, node;
      ghost var pos: seq<int> := [];
      SameNodes(size, node, node, node);
      var s, from, to := Next(NilIndex);
      out, hist := [], [m];
      NoneYielded(size, node0, hist);
      while s != End
        invariant Valid() && |arr| == size && SameKeys(node0, node) && -1 <= from < to <= size + |node0|
        invariant |pos| == |out| && |hist| == |out| + 1 && hist[0] == old(m) && hist[|out|] == m
        invariant s.Pair? ==> s.k in m && m[s.k] == s.x && Lies(size, node0, s.k, to)
        invariant s == End ==> to == size + |node0|
        invariant s != Invalid && from == (if pos == [] then -1 else pos[|pos| - 1])
        invariant Missing(size, node0, from, to, m)
        invariant forall t | 0 <= t < |out| :: out[t].0 in hist[t] && hist[t][out[t].0] == out[t].1
        invariant forall t | 0 <= t < |out| :: Lies(size, node0, out[t].0, pos[t]) && pos[t] <= from
        invariant forall i, j | 0 <= i < j < |out| :: out[i].0 != out[j].0
        invariant YieldedTo(size, node0, from, out, hist)
        invariant (forall t :: edits(t) == []) ==> forall t | 0 <= t < |hist| :: hist[t] == m
        decreases size + |node0| - from
      {
        SameNodes(size, node0, node, node);
        forall t | 0 <= t < |out| ensures out[t].0 != s.k {
          if out[t].0 == s.k { LiesOnce(size, node, lab, hash, s.k, pos[t], to); }
        }
        ghost var out0, hist0, m0 := out, hist, m;
        out, pos := out + [(s.k, s.x)], pos + [to];
        ghost var node1 := node;
        Change(edits(|out| - 1));
        SameNodes(size, node0, node1, node);
        SameNodes(size, node0, node, node);
        hist := hist + [m];
        MoreYielded(size, node0, m0, from, to, out0, hist0, (s.k, s.x), m);
        s, from, to := Next(Is(s.k));
      }
      AllYielded(arr, node0, node, m, from, to, out, hist);
    }

    // ---------- the border ----------

    method GetInt(k: int) returns (v: Value)
      requires Valid()
      ensures v == Look(m, Int(k))
    {
      var slot := Get(Is(Int(k)));
      v := Read(slot);
    }

    /** Looks for a border above `start`, which is zero or has a value. */
    method UnboundSearch(start: nat) returns (n: nat)
      requires Valid() && start <= MAX_INT && (start > 0 ==> Int(start) in m)
      ensures (n > 0 ==> Int(n) in m) && Int(n + 1) !in m
    {
      hide Scattered, Content, FreeOk;
      var i, j := start, start + 1;
      var v := GetInt(j);
      while v != Nil
        invariant 0 <= i < j <= MAX_INT + 1 && (i > 0 ==> Int(i) in m) && v == Look(m, Int(j))
        decreases MAX_INT + 1 - j
      {
        i, j := j, j * 2;
        if j > MAX_INT {
          n := LinearSearch();
          return;
        }
        v := GetInt(j);
      }
      while j - i > 1
        invariant 0 <= i < j && (i > 0 ==> Int(i) in m) && Int(j) !in m
      {
        var mid := (i + j) / 2;
        v := GetInt(mid);
        if v == Nil { j := mid; } else { i := mid; }
      }
      n := i;
    }

    method LinearSearch() returns (n: nat)
      requires Valid()
      ensures (n > 0 ==> Int(n) in m) && Int(n + 1) !in m
    {
      hide Scattered, Content, FreeOk;
      var i := 1;
      var v := GetInt(i);
      while v != Nil
        invariant i >= 1 && v == Look(m, Int(i)) && forall j | 1 <= j < i :: Int(j) in m
        decreases |m| + 1 - i
      {
        FewInts(m, i);
        i := i + 1;
        v := GetInt(i);
      }
      n := i - 1;
    }

    /** A border of the table: 0 or a key with a value, such that the next one has none. */
    method GetN() returns (n: nat)
      requires Valid()
      ensures (n > 0 ==> Int(n) in m) && Int(n + 1) !in m
    {
      hide Scattered, FreeOk;
      var j := |arr|;
      if j > 0 && arr[j - 1] == Nil {
        var i := 0;
        while j - i > 1
          invariant 0 <= i < j <= |arr| && (i > 0 ==> arr[i - 1] != Nil) && arr[j - 1] == Nil
        {
          var mid := (i + j) / 2;
          if arr[mid - 1] == Nil { j := mid; } else { i := mid; }
        }
        assert arr[j - 1] == Look(m, Int(j));
        assert i > 0 ==> arr[i - 1] == Look(m, Int(i));
        return i;
      }
      assert j > 0 ==> arr[j - 1] == Look(m, Int(j));
      if dummy {
        DummyBorder(arr, node, m, dummy, lastfree);
        return j;
      }
      n := UnboundSearch(j);
    }

    // ---------- any sequence of operations ----------

    method Do(op: Op) returns (a: Answer)
      requires Valid() && |m| < MAXASIZE
      modifies this
      ensures Valid() && m == After1(op, old(m)) && a == Answer1(op, old(m))
      ensures rehashes <= old(rehashes) + 1
    {
      hide Scattered, Content, FreeOk, Put;
      a := Done;
      match op {
        case Store(key, v) =>
          var r := Set(key);
          if r.Found? { Assign(r.slot, v, key.k); } else { a := Error(r); }
        case Load(key) =>
          var slot := Get(key);
          a := Got(Read(slot));
        case Reserve(n) =>
          if |arr| <= n <= MAXASIZE { var ok := ResizeArray(n); }
        case Collect(at) =>
          if at < |node| && node[at].val == Nil && node[at].key.Live? { RemoveEntry(at); }
      }
    }

    /** A table answers every sequence of operations as a map does. */
    method Run(script: seq<Op>) returns (answers: seq<Answer>)
      requires Valid() && |m| + |script| < MAXASIZE
      modifies this
      ensures Valid() && m == Contents(script, old(m)) && answers == Answers(script, old(m))
      ensures rehashes <= old(rehashes) + |script|
      decreases |script|
    {
      hide Scattered, Content, FreeOk, Put;
      if script == [] { return []; }
      if script[0].Store? && script[0].key.Is? { PutSize(m, script[0].key.k, script[0].v); }
      var a := Do(script[0]);
      var rest := Run(script[1..]);
      answers := [a] + rest;
    }
  }

  lemma Colliding(node: seq<Node>, lab: seq<Label>, hash: Hash, mp: nat, n: nat)
    requires Scattered(node, lab, hash) && mp < |node| && n < |node| && node[mp].val != Nil && node[n].key.Empty?
    ensures node[mp].key.Live? && n != mp && node[n].val == Nil
    ensures var othern := MainPos(hash, |node|, node[mp].key.k);
            othern != mp ==> After(lab, othern, mp)
  {
    assert NodeOk(node, lab, hash, mp) && NodeOk(node, lab, hash, n);
  }

  lemma Revalued(node: seq<Node>, node': seq<Node>, lab: seq<Label>, hash: Hash)
    requires Scattered(node, lab, hash) && |node'| == |node|
    requires forall i | 0 <= i < |node| :: node'[i].key == node[i].key && node'[i].next == node[i].next
    requires forall i | 0 <= i < |node| && !node[i].key.Live? :: node'[i].val == node[i].val
    ensures Scattered(node', lab, hash)
  {
    forall i | 0 <= i < |node| ensures LinkOk(node', lab, i) && NodeOk(node', lab, hash, i) {
      assert LinkOk(node, lab, i) && NodeOk(node, lab, hash, i);
    }
    forall i, j | 0 <= i < |node| && 0 <= j < |node| ensures PairOk(node', lab, hash, i, j) {
      assert PairOk(node, lab, hash, i, j);
    }
  }

  lemma InArrayAssigned(arr: seq<Value>, node: seq<Node>, m: map<Key, int>, i: nat, v: Value)
    requires Content(arr, node, m) && i < |arr|
    ensures Content(arr[i := v], node, Put(m, Int(i + 1), v))
  {
    var m' := Put(m, Int(i + 1), v);
    forall k | k in m' && !InRange(k, |arr|) ensures !Absent(node, k) {
      assert Look(m', k) == Look(m, k);
      assert k in m;
    }
  }

  lemma InNodeAssigned(arr: seq<Value>, node: seq<Node>, lab: seq<Label>, hash: Hash, m: map<Key, int>,
                       i: nat, v: Value, k: Key)
    requires Content(arr, node, m) && Scattered(node, lab, hash) && At(node, k, i)
    ensures Content(arr, node[i := node[i].(val := v)], Put(m, k, v))
  {
    hide LinkOk, NodeOk;
    var node', m' := node[i := node[i].(val := v)], Put(m, k, v);
    assert node'[i].key == Live(k);
    forall q | q in m' && !InRange(q, |arr|) ensures !Absent(node', q) {
      if q != k {
        assert Look(m', q) == Look(m, q);
        var j :| 0 <= j < |node| && node[j].key == Live(q);
        assert node'[j].key == Live(q);
      }
    }
    forall j | 0 <= j < |node'| && node'[j].key.Live?
      ensures !InRange(node'[j].key.k, |arr|) && node'[j].val == Look(m', node'[j].key.k)
    {
      if j != i { assert PairOk(node, lab, hash, j, i); }
    }
  }

  /** A key without a value is added at `at`; what was at `at`, if it had a value, is now at `to`. */
  lemma ContentAdded(arr: seq<Value>, node: seq<Node>, node': seq<Node>, m: map<Key, int>, k: Key, at: int, to: int)
    requires Content(arr, node, m) && Absent(node, k) && !InRange(k, |arr|)
    requires |node'| == |node| && 0 <= at < |node| && 0 <= to < |node|
    requires node'[at].key == Live(k) && node'[at].val == Nil
    requires forall i | 0 <= i < |node| && i != at && i != to ::
               node'[i].key == node[i].key && node'[i].val == node[i].val
    requires if at == to then node[at].val == Nil
             else node'[to].key == node[at].key && node'[to].val == node[at].val && node[to].key.Empty?
    ensures Content(arr, node', m)
  {
    assert k !in m;
    forall q | q in m && !InRange(q, |arr|) ensures !Absent(node', q) {
      var j :| 0 <= j < |node| && node[j].key == Live(q);
      assert node[j].val == Look(m, q);
      assert node'[if j == at then to else j].key == Live(q);
    }
  }

  lemma FreshOk(node: seq<Node>, lab: seq<Label>, hash: Hash)
    requires |node| == |lab| > 0
    requires forall i | 0 <= i < |node| :: node[i] == EMPTY && lab[i] == Label(i, 0.0)
    ensures Scattered(node, lab, hash)
  {
    forall i | 0 <= i < |node| ensures LinkOk(node, lab, i) && NodeOk(node, lab, hash, i) {}
  }

  /** The part of the map with the given keys. */
  function Restrict(m: map<Key, int>, keys: set<Key>): map<Key, int> { map k | k in m && k in keys :: m[k] }

  lemma RestrictNext(m: map<Key, int>, keys: set<Key>, k: Key)
    requires k in m && k !in keys
    ensures k !in Restrict(m, keys) && Restrict(m, keys + {k}) == Restrict(m, keys)[k := m[k]]
  {}

  lemma RestrictAll(m: map<Key, int>)
    ensures Restrict(m, m.Keys) == m
  {}

  lemma ArrayEntry(arr: seq<Value>, node: seq<Node>, m: map<Key, int>, i: nat)
    requires Content(arr, node, m) && i < |arr| && arr[i] != Nil
    ensures Int(i + 1) in m && arr[i] == Val(m[Int(i + 1)])
  {}

  lemma HashKeysNext(arr: seq<Value>, node: seq<Node>, lab: seq<Label>, hash: Hash, m: map<Key, int>, i: nat)
    requires Content(arr, node, m) && Scattered(node, lab, hash) && i < |node|
    ensures node[i].val == Nil ==> HashKeys(node, i) == HashKeys(node, i + 1)
    ensures node[i].val != Nil ==>
              && node[i].key.Live? && node[i].key.k in m && node[i].val == Val(m[node[i].key.k])
              && ArrayKeys(arr) + HashKeys(node, i) == ArrayKeys(arr) + HashKeys(node, i + 1) + {node[i].key.k}
              && node[i].key.k !in ArrayKeys(arr) + HashKeys(node, i + 1)
              && |HashKeys(node, i)| == |HashKeys(node, i + 1)| + 1
  {
    assert NodeOk(node, lab, hash, i);
    hide LinkOk, NodeOk;
    forall j | i < j < |node| && node[j].key.Live? ensures node[j].key != node[i].key {
      assert PairOk(node, lab, hash, i, j);
    }
    if node[i].val != Nil {
      assert HashKeys(node, i) == HashKeys(node, i + 1) + {node[i].key.k};
    }
  }

  lemma SeenEnds(arr: seq<Value>, node: seq<Node>, m: map<Key, int>)
    requires Content(arr, node, m)
    ensures Seen(arr, node, |node|) == ArrayKeys(arr) && |HashKeys(node, |node|)| == 0
    ensures Seen(arr, node, 0) == m.Keys
  {
    assert HashKeys(node, |node|) == {};
    ContentKeys(arr, node, m);
  }

  lemma NoHashKeys(arr: seq<Value>, node: seq<Node>)
    ensures HashKeys(node, |node|) == {} && ArrayKeys(arr) + HashKeys(node, |node|) == ArrayKeys(arr)
  {}

  lemma AllBelow(arr: seq<Value>)
    requires |arr| <= MAXASIZE
    ensures Below(ArrayKeys(arr), MAXASIZE) == ArrayKeys(arr)
  {}

  lemma OutsideCount(keys: set<Key>, ek: Key, n: nat)
    requires ek !in keys
    ensures |Outside(keys, n)| + (if InRange(ek, n) then 0 else 1) == |keys| + 1 - |Below(keys + {ek}, n)|
  {
    AddBelow(keys, ek, n);
    assert keys == Outside(keys, n) + Below(keys, n);
  }

  lemma LogFitsAll(n: int)
    ensures 0 < n <= MAXASIZE ==> Log2Up(n) <= MAXBITS
    ensures 0 < n ==> n <= Pow2(Log2Up(n))
  {
    if 0 < n {
      Log2UpIs(n, Log2Up(n));
      if n <= MAXASIZE { LogFits(n); }
    }
  }

  lemma StillRoom(keys: set<Key>, all: set<Key>, k: Key, n: nat)
    requires keys <= all && k in all && k !in keys
    ensures |Outside(keys + {k}, n)| == |Outside(keys, n)| + if InRange(k, n) then 0 else 1
    ensures |Outside(keys + {k}, n)| <= |Outside(all, n)|
  {
    assert Outside(keys + {k}, n) == Outside(keys, n) + if InRange(k, n) then {} else {k};
    Subset(Outside(keys + {k}, n), Outside(all, n));
  }

  /** The hash part is empty, and the array part keeps the first `i` slots. */
  lemma Emptied(oldarr: seq<Value>, nold: seq<Node>, m0: map<Key, int>, arr: seq<Value>, node: seq<Node>,
                m: map<Key, int>, nasize: nat, i: nat)
    requires Content(oldarr, nold, m0) && i <= |oldarr| && i <= nasize && (i == nasize || i == |oldarr|)
    requires |arr| == nasize && forall j | 0 <= j < nasize :: arr[j] == if j < i then oldarr[j] else Nil
    requires forall j | 0 <= j < |node| :: node[j] == EMPTY
    requires m == Restrict(m0, ArrayKeys(oldarr[..i]))
    ensures Content(arr, node, m) && Used(node) == {} && m.Keys <= m0.Keys
  {
    var a := oldarr[..i];
    assert forall j | 0 <= j < i :: a[j] == oldarr[j];
    forall j | 0 <= j < |arr| ensures arr[j] == Look(m, Int(j + 1)) {
      assert j < |oldarr| ==> oldarr[j] == Look(m0, Int(j + 1));
      assert j < i ==> (Int(j + 1) in ArrayKeys(a) <==> a[j] != Nil);
      assert Int(j + 1) in ArrayKeys(a) ==> j < i;
    }
  }

  /** The key has the slot at position `p`. */
  ghost predicate Lies(size: nat, node: seq<Node>, k: Key, p: int) {
    if 0 <= p < size then k == Int(p + 1) else At(node, k, p - size) && !InRange(k, size)
  }

  ghost predicate SameKeys(node: seq<Node>, node': seq<Node>) {
    |node| == |node'| && forall i | 0 <= i < |node| :: node'[i].key == node[i].key
  }

  ghost predicate Throughout(hist: seq<map<Key, int>>, k: Key) {
    forall t | 0 <= t < |hist| :: k in hist[t]
  }

  predicate Yielded(out: seq<(Key, int)>, k: Key) { exists t :: 0 <= t < |out| && out[t].0 == k }

  lemma SameNodes(size: nat, node: seq<Node>, node': seq<Node>, node'': seq<Node>)
    ensures SameKeys(node, node) && (SameKeys(node, node') ==> |node| == |node'|)
    ensures SameKeys(node, node') && SameKeys(node', node'') ==> SameKeys(node, node'')
    ensures SameKeys(node, node') ==> forall k, p :: Lies(size, node, k, p) <==> Lies(size, node', k, p)
    ensures SameKeys(node, node')
            ==> forall m, p, q :: Missing(size, node, p, q, m) <==> Missing(size, node', p, q, m)
  {
    if SameKeys(node, node') {
      assert forall k, p :: Lies(size, node, k, p) <==> Lies(size, node', k, p);
      forall m, p, q ensures Missing(size, node, p, q, m) <==> Missing(size, node', p, q, m) {
        hide Lies, SameKeys;
      }
    }
  }

  /** The keys between two positions have no value. */
  ghost predicate Missing(size: nat, node: seq<Node>, from: int, to: int, m: map<Key, int>) {
    forall k, p | from < p < to && Lies(size, node, k, p) :: k !in m
  }

  /** The keys up to a position that were there all the time have been yielded. */
  ghost predicate YieldedTo(size: nat, node: seq<Node>, from: int, out: seq<(Key, int)>, hist: seq<map<Key, int>>) {
    forall k, p | 0 <= p <= from && Lies(size, node, k, p) && Throughout(hist, k) :: Yielded(out, k)
  }

  lemma NoneYielded(size: nat, node: seq<Node>, hist: seq<map<Key, int>>)
    ensures YieldedTo(size, node, -1, [], hist)
  {}

  lemma MoreYielded(size: nat, node: seq<Node>, m: map<Key, int>, from: int, to: int, out: seq<(Key, int)>,
                    hist: seq<map<Key, int>>, e: (Key, int), m': map<Key, int>)
    requires YieldedTo(size, node, from, out, hist) && Missing(size, node, from, to, m)
    requires |hist| > 0 && hist[|hist| - 1] == m && Lies(size, node, e.0, to)
    ensures YieldedTo(size, node, to, out + [e], hist + [m'])
  {
    forall k, p | 0 <= p <= to && Lies(size, node, k, p) && Throughout(hist + [m'], k) ensures Yielded(out + [e], k) {
      Extends(hist, m', k);
      if p == to {
        assert (out + [e])[|out|].0 == k;
      } else {
        YieldedMore(out, e, k);
      }
    }
  }

  lemma AllYielded(arr: seq<Value>, node0: seq<Node>, node: seq<Node>, m: map<Key, int>, from: int, to: int,
                   out: seq<(Key, int)>, hist: seq<map<Key, int>>)
    requires Content(arr, node, m) && SameKeys(node0, node) && to == |arr| + |node0|
    requires YieldedTo(|arr|, node0, from, out, hist) && Missing(|arr|, node0, from, to, m)
    requires |hist| > 0 && hist[|hist| - 1] == m
    ensures forall k | Throughout(hist, k) :: exists t :: 0 <= t < |out| && out[t].0 == k
  {
    forall k | Throughout(hist, k) ensures Yielded(out, k) {
      HasSlot(arr, node, m, k);
      var p :| 0 <= p < |arr| + |node| && Lies(|arr|, node, k, p);
      assert Lies(|arr|, node0, k, p);
    }
  }

  lemma YieldedMore(out: seq<(Key, int)>, e: (Key, int), k: Key)
    requires Yielded(out, k)
    ensures Yielded(out + [e], k)
  {
    var t :| 0 <= t < |out| && out[t].0 == k;
    assert (out + [e])[t].0 == k;
  }

  lemma NoneBetween(arr: seq<Value>, node: seq<Node>, m: map<Key, int>, from: int, to: int)
    requires Content(arr, node, m) && -1 <= from < to <= |arr| + |node|
    requires forall p | from < p < to :: Entry(arr, node, p) == Nil
    ensures Missing(|arr|, node, from, to, m)
  {
    forall k, p | from < p < to && Lies(|arr|, node, k, p) ensures k !in m {
      EntryIs(arr, node, m, k, p);
    }
  }

  lemma LiesOnce(size: nat, node: seq<Node>, lab: seq<Label>, hash: Hash, k: Key, p: int, q: int)
    requires Scattered(node, lab, hash) && Lies(size, node, k, p) && Lies(size, node, k, q)
    ensures p == q
  {
    if p >= size && q >= size { assert PairOk(node, lab, hash, p - size, q - size); }
  }

  lemma Extends(hist: seq<map<Key, int>>, m: map<Key, int>, k: Key)
    requires Throughout(hist + [m], k)
    ensures Throughout(hist, k)
  {
    forall t | 0 <= t < |hist| ensures k in hist[t] { assert (hist + [m])[t] == hist[t]; }
  }

  lemma HasSlot(arr: seq<Value>, node: seq<Node>, m: map<Key, int>, k: Key)
    requires Content(arr, node, m) && k in m
    ensures exists p :: 0 <= p < |arr| + |node| && Lies(|arr|, node, k, p)
  {
    if InRange(k, |arr|) {
      assert Lies(|arr|, node, k, k.n - 1);
    } else {
      var j :| 0 <= j < |node| && node[j].key == Live(k);
      assert Lies(|arr|, node, k, |arr| + j);
    }
  }

  /** The value at a position of a traversal: the array part first, then the nodes. */
  function Entry(arr: seq<Value>, node: seq<Node>, p: nat): Value
    requires p < |arr| + |node|
  {
    if p < |arr| then arr[p] else node[p - |arr|].val
  }

  /** What is at a position is the value of the key there. */
  lemma EntryIs(arr: seq<Value>, node: seq<Node>, m: map<Key, int>, k: Key, p: int)
    requires Content(arr, node, m) && Lies(|arr|, node, k, p)
    ensures 0 <= p < |arr| + |node| && Entry(arr, node, p) == Look(m, k)
  {}

  lemma InSlot(arr: seq<Value>, node: seq<Node>, m: map<Key, int>, i: nat)
    requires Content(arr, node, m) && i < |arr|
    ensures Lies(|arr|, node, Int(i + 1), i) && Look(m, Int(i + 1)) == arr[i]
  {}

  lemma HasKey(arr: seq<Value>, node: seq<Node>, lab: seq<Label>, hash: Hash, m: map<Key, int>, i: nat)
    requires Scattered(node, lab, hash) && Content(arr, node, m) && i < |node| && node[i].val != Nil
    ensures node[i].key.Live? && Lies(|arr|, node, node[i].key.k, |arr| + i)
    ensures Look(m, node[i].key.k) == node[i].val
  {
    assert NodeOk(node, lab, hash, i);
  }

  lemma DeadOk(arr: seq<Value>, node: seq<Node>, lab: seq<Label>, hash: Hash, m: map<Key, int>, i: nat)
    requires Scattered(node, lab, hash) && Content(arr, node, m)
    requires i < |node| && node[i].val == Nil && node[i].key.Live?
    ensures var node' := node[i := node[i].(key := Dead(node[i].key.k))];
            Scattered(node', lab, hash) && Content(arr, node', m)
  {
    var node' := node[i := node[i].(key := Dead(node[i].key.k))];
    forall j | 0 <= j < |node| ensures LinkOk(node', lab, j) && NodeOk(node', lab, hash, j) {
      assert LinkOk(node, lab, j) && NodeOk(node, lab, hash, j);
    }
    forall a, b | 0 <= a < |node| && 0 <= b < |node| ensures PairOk(node', lab, hash, a, b) {
      assert PairOk(node, lab, hash, a, b);
    }
    forall k | k in m && !InRange(k, |arr|) ensures !Absent(node', k) {
      var j :| 0 <= j < |node| && node[j].key == Live(k);
      assert node'[j].key == Live(k);
    }
  }

  /** The nodes can hold every key that is outside a larger array part. */
  lemma HashFits(arr: seq<Value>, node: seq<Node>, m: map<Key, int>, n: nat, dummy: bool, lastfree: int)
    requires Content(arr, node, m) && |arr| <= n && FreeOk(node, dummy, lastfree)
    ensures |Outside(m.Keys, n)| <= if dummy then 0 else |node|
  {
    ContentKeys(arr, node, m);
    Subset(Outside(m.Keys, n), HashKeys(node, 0));
    FewHashKeys(node, 0);
    if dummy { assert HashKeys(node, 0) == {}; }
  }

  lemma {:induction false} FewHashKeys(node: seq<Node>, i: nat)
    requires i <= |node|
    ensures |HashKeys(node, i)| <= |node| - i
    decreases |node| - i
  {
    if i == |node| {
      assert HashKeys(node, i) == {};
    } else {
      FewHashKeys(node, i + 1);
      assert HashKeys(node, i) <= HashKeys(node, i + 1) + {if node[i].key.Live? then node[i].key.k else Int(0)};
      Subset(HashKeys(node, i), HashKeys(node, i + 1) + {if node[i].key.Live? then node[i].key.k else Int(0)});
    }
  }

  // ---------- a border ----------

  /** The integer keys from 1 to `n`. */
  function Ints(n: nat): set<Key> { if n == 0 then {} else Ints(n - 1) + {Int(n)} }

  lemma {:induction false} IntsAre(n: nat)
    ensures |Ints(n)| == n && forall k :: k in Ints(n) <==> InRange(k, n)
  {
    if n > 0 { IntsAre(n - 1); }
  }

  /** A map that has the keys 1 to `n` has at least `n` keys. */
  lemma FewInts(m: map<Key, int>, n: nat)
    requires forall i | 1 <= i <= n :: Int(i) in m
    ensures n <= |m|
  {
    IntsAre(n);
    Subset(Ints(n), m.Keys);
  }

  lemma DummyBorder(arr: seq<Value>, node: seq<Node>, m: map<Key, int>, dummy: bool, lastfree: int)
    requires Content(arr, node, m) && FreeOk(node, dummy, lastfree) && dummy
    ensures Int(|arr| + 1) !in m
  {}

  // ---------- a program that uses one table ----------

  datatype Op = Store(key: Index, v: Value) | Load(key: Index) | Reserve(n: nat) | Collect(at: nat)

  datatype Answer = Done | Got(v: Value) | Error(e: Outcome)

  /** What an operation does to the map. */
  function After1(op: Op, m: map<Key, int>): map<Key, int> {
    if op.Store? && op.key.Is? then Put(m, op.key.k, op.v) else m
  }

  function Answer1(op: Op, m: map<Key, int>): Answer {
    match op
    case Store(key, _) =>
      if key == NilIndex then Error(IndexIsNil) else if key == NanIndex then Error(IndexIsNan) else Done
    case Load(key) => Got(if key.Is? then Look(m, key.k) else Nil)
    case _ => Done
  }

  function Contents(script: seq<Op>, m: map<Key, int>): map<Key, int> {
    if script == [] then m else Contents(script[1..], After1(script[0], m))
  }

  function Answers(script: seq<Op>, m: map<Key, int>): (r: seq<Answer>)
    ensures |r| == |script|
  {
    if script == [] then [] else [Answer1(script[0], m)] + Answers(script[1..], After1(script[0], m))
  }

  lemma PutSize(m: map<Key, int>, k: Key, v: Value)
    ensures |Put(m, k, v)| <= |m| + 1
  {
    Subset(Put(m, k, v).Keys, m.Keys + {k});
  }
}
