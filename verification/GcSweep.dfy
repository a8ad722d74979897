/** What sweeping does to the heap: dead objects go, live ones become white. */
module GcSweep {
  import opened GcHeap

  /** A pointer to a link of a list: the link to its i-th element, or none. */
  datatype Link = NoLink | At(i: nat)

  function Without(s: seq<Ptr>, i: int): seq<Ptr>
    requires 0 <= i < |s|
  {
    s[..i] + s[i + 1..]
  }

  /** Objects have been put in front of a list, in which the sweep stood at `link`. */
  ghost predicate Pushed(list: seq<Ptr>, link: Link, list': seq<Ptr>, link': Link) {
    && |list'| >= |list| && list'[|list'| - |list|..] == list
    && link' == if link.At? && link.i > 0 then At(link.i + (|list'| - |list|)) else link
  }

  lemma PushedRefl(list: seq<Ptr>, link: Link)
    ensures Pushed(list, link, list, link)
  {
  }

  lemma PushedTrans(a: seq<Ptr>, i: Link, b: seq<Ptr>, j: Link, c: seq<Ptr>, k: Link)
    requires Pushed(a, i, b, j) && Pushed(b, j, c, k)
    ensures Pushed(a, i, c, k)
  {
    assert c[|c| - |a|..] == c[|c| - |b|..][|b| - |a|..];
  }

  function Remove(s: seq<Ptr>, x: Ptr): seq<Ptr> {
    if s == [] then [] else (if s[0] == x then [] else [s[0]]) + Remove(s[1..], x)
  }

  lemma {:induction false} RemoveIn(s: seq<Ptr>, x: Ptr)
    ensures forall y :: y in Remove(s, x) <==> y in s && y != x
  {
    if s != [] {
      RemoveIn(s[1..], x);
      assert s == [s[0]] + s[1..];
    }
  }

  lemma WithoutIn(s: seq<Ptr>, i: int)
    requires 0 <= i < |s| && NoDup(s)
    ensures NoDup(Without(s, i)) && forall y :: y in Without(s, i) <==> y in s && y != s[i]
    ensures forall j | 0 <= j < |s| - 1 :: Without(s, i)[j] == if j < i then s[j] else s[j + 1]
  {
    forall y | y in s && y != s[i] ensures y in Without(s, i) {
      var j :| 0 <= j < |s| && s[j] == y;
      assert Without(s, i)[if j < i then j else j - 1] == y;
    }
  }

  ghost predicate NotBlack(g: Gc) {
    forall p | p in g.objs && p in g.color && (g.objs[p].kind.Thread? || g.objs[p].kind.Open?) :: g.color[p] != Black
  }

  /** The object still holds the same values; an open upvalue may have been closed. */
  ghost predicate Intact(objs: Objs, objs': Objs, p: Ptr) {
    && p in objs && p in objs' && Cell(objs', p) == Cell(objs, p)
    && (!objs[p].kind.Open? ==> objs'[p].kind == objs[p].kind && objs'[p].refs == objs[p].refs)
  }

  /** Only dead objects have gone; what is alive is still there and refers to the same objects. */
  ghost predicate Trims(g: Gc, g': Gc) {
    && g'.cw == g.cw && g'.main == g.main && g'.roots == g.roots
    && (forall p :: Alive(g', p) <==> Alive(g, p))
    && (forall p | Alive(g, p) :: Kids(g'.objs, p) == Kids(g.objs, p) && Intact(g.objs, g'.objs, p))
    && (forall p | p in g'.objs :: p in g.objs && IsFixed(g'.objs[p]) == IsFixed(g.objs[p]))
  }

  /** The open upvalues of live threads stay open. */
  ghost predicate OpenKept(g: Gc, g': Gc) {
    forall u | Alive(g, u) && g.objs[u].kind.Open? && Alive(g, g.objs[u].kind.th) ::
      u in g'.objs && g'.objs[u] == g.objs[u]
  }

  lemma SameOpen(g: Gc, g': Gc)
    requires g'.objs == g.objs
    ensures OpenKept(g, g')
  {
  }

  lemma OpenTrans(a: Gc, b: Gc, c: Gc)
    requires Trims(a, b) && OpenKept(a, b) && OpenKept(b, c)
    ensures OpenKept(a, c)
  {
    forall u | Alive(a, u) && a.objs[u].kind.Open? && Alive(a, a.objs[u].kind.th)
      ensures u in c.objs && c.objs[u] == a.objs[u]
    {
      assert Alive(b, u) && Alive(b, b.objs[u].kind.th);
    }
  }

  lemma TrimsTrans(a: Gc, b: Gc, c: Gc)
    requires Trims(a, b) && Trims(b, c)
    ensures Trims(a, c)
  {
  }

  lemma TrimsClosed(g: Gc, g': Gc)
    requires Trims(g, g') && AliveClosed(g)
    ensures AliveClosed(g')
  {
  }

  // ---------- one object ----------

  function Whitened(g: Gc, p: Ptr): Gc { g.(color := g.color[p := White(g.cw)]) }

  lemma WhitenedShape(g: Gc, p: Ptr)
    requires Shape(g) && p in g.objs
    ensures Shape(Whitened(g, p))
  {
    hide NoDup, UpvalList;
    var g' := Whitened(g, p);
    forall q | q in g.objs ensures Placed(g', q) { assert Placed(g, q); }
    StringsKept(g, g');
  }

  lemma WhitenedOk(g: Gc, p: Ptr)
    requires Shape(g) && NotBlack(g) && Alive(g, p)
    ensures Shape(Whitened(g, p)) && NotBlack(Whitened(g, p)) && Trims(g, Whitened(g, p))
  {
    hide Placed, ListsOk;
    WhitenedShape(g, p);
  }

  /** Without the object at position `i` of `allgc`. */
  function DropAt(g: Gc, i: int): Gc
    requires 0 <= i < |g.allgc|
  {
    var p := g.allgc[i];
    g.(objs := g.objs - {p}, color := g.color - {p}, allgc := Without(g.allgc, i))
  }

  lemma DropAtPlaced(g: Gc, i: int, q: Ptr)
    requires Shape(g) && 0 <= i < |g.allgc| && q in g.objs && q != g.allgc[i]
    requires g.objs[g.allgc[i]].openupval == []
    ensures q in DropAt(g, i).objs && Placed(DropAt(g, i), q) && Kids(DropAt(g, i).objs, q) == Kids(g.objs, q)
    ensures Intact(g.objs, DropAt(g, i).objs, q)
  {
    hide ListsOk, UpvalList, Without;
    ListedInAllgc(g, i, q);
    assert Placed(g, q);
    if g.objs[q].kind.Thread? {
      NotInUpvals(g, q, g.allgc[i]);
      UpvalListKept(g.objs, DropAt(g, i).objs, q, g.objs[q].openupval, g.allgc[i]);
    }
  }

  /** What is known of a member of `allgc`, and of the others. */
  lemma ListedInAllgc(g: Gc, i: int, q: Ptr)
    requires Shape(g) && 0 <= i < |g.allgc| && q != g.allgc[i]
    ensures var p := g.allgc[i]; p in g.objs && p != g.main && !g.objs[p].kind.ShortStr? && !g.objs[p].kind.Open?
    ensures q in Without(g.allgc, i) <==> q in g.allgc
  {
    hide BucketOk, Placed;
    WithoutIn(g.allgc, i);
  }

  lemma NotInUpvals(g: Gc, th: Ptr, p: Ptr)
    requires Shape(g) && th in g.objs && g.objs[th].kind.Thread? && p in g.objs && !g.objs[p].kind.Open?
    ensures p !in g.objs[th].openupval
  {
    assert Placed(g, th);
  }

  lemma DropAtOk(g: Gc, i: int)
    requires Shape(g) && NotBlack(g) && 0 <= i < |g.allgc| && IsDead(g, g.allgc[i])
    requires g.allgc[i] in g.objs && g.objs[g.allgc[i]].openupval == []
    ensures Shape(DropAt(g, i)) && NotBlack(DropAt(g, i)) && Trims(g, DropAt(g, i))
  {
    hide BucketOk, Placed, Kids, NoDup;
    var g' := DropAt(g, i);
    WithoutIn(g.allgc, i);
    forall q | q in g'.objs ensures Placed(g', q) && Kids(g'.objs, q) == Kids(g.objs, q) && Intact(g.objs, g'.objs, q) {
      DropAtPlaced(g, i, q);
    }
    StringsKept(g, g');
    forall p | p in g'.uvhead ensures p in g'.objs { assert p in g.uvhead; }
  }

  /** Without the string at position `i` of list `k` of the string table. */
  function DropString(g: Gc, k: int, i: int): Gc
    requires 0 <= k < |g.strt| && 0 <= i < |g.strt[k]|
  {
    var p := g.strt[k][i];
    g.(objs := g.objs - {p}, color := g.color - {p}, strt := g.strt[k := Without(g.strt[k], i)])
  }

  /** No object but a string is in the string table. */
  lemma OnlyString(g: Gc, k: int, i: int, q: Ptr)
    requires Shape(g) && 0 <= k < |g.strt| && 0 <= i < |g.strt[k]| && q in g.objs && q != g.strt[k][i]
    ensures g.strt[k][i] in g.objs && g.objs[g.strt[k][i]].kind.ShortStr?
    ensures g.objs[q].kind.ShortStr? && g.objs[q].kind.hash % |g.strt| == k ==> q in Without(g.strt[k], i)
  {
    hide UpvalList;
    assert BucketOk(g, k);
    WithoutIn(g.strt[k], i);
    assert Placed(g, q);
  }

  lemma DropStringPlaced(g: Gc, k: int, i: int, q: Ptr)
    requires Shape(g) && 0 <= k < |g.strt| && 0 <= i < |g.strt[k]| && q in g.objs && q != g.strt[k][i]
    ensures q in DropString(g, k, i).objs && Placed(DropString(g, k, i), q)
    ensures Kids(DropString(g, k, i).objs, q) == Kids(g.objs, q) && Intact(g.objs, DropString(g, k, i).objs, q)
  {
    hide ListsOk, UpvalList, Without;
    OnlyString(g, k, i, q);
    assert Placed(g, q);
    if g.objs[q].kind.Thread? {
      NotInUpvals(g, q, g.strt[k][i]);
      UpvalListKept(g.objs, DropString(g, k, i).objs, q, g.objs[q].openupval, g.strt[k][i]);
    }
  }

  lemma DropStringOk(g: Gc, k: int, i: int)
    requires Shape(g) && NotBlack(g) && 0 <= k < |g.strt| && 0 <= i < |g.strt[k]| && IsDead(g, g.strt[k][i])
    ensures Shape(DropString(g, k, i)) && NotBlack(DropString(g, k, i)) && Trims(g, DropString(g, k, i))
  {
    hide Placed, Kids, NoDup;
    var g' := DropString(g, k, i);
    assert BucketOk(g, k);
    WithoutIn(g.strt[k], i);
    forall q | q in g'.objs ensures Placed(g', q) && Kids(g'.objs, q) == Kids(g.objs, q) && Intact(g.objs, g'.objs, q) {
      DropStringPlaced(g, k, i, q);
    }
    forall j | 0 <= j < |g.strt| ensures BucketOk(g', j) { assert BucketOk(g, j); }
  }

  /** Without the `i`-th open upvalue of thread `th`. */
  function DropOpen(g: Gc, th: Ptr, i: int): Gc
    requires th in g.objs && 0 <= i < |g.objs[th].openupval|
  {
    var us := g.objs[th].openupval;
    g.(objs := g.objs[th := g.objs[th].(openupval := Without(us, i))] - {us[i]},
       color := g.color - {us[i]}, uvhead := Remove(g.uvhead, us[i]))
  }

  lemma DropOpenPlaced(g: Gc, th: Ptr, i: int, q: Ptr)
    requires Shape(g) && th in g.objs && g.objs[th].kind.Thread? && 0 <= i < |g.objs[th].openupval|
    requires q in g.objs && q != g.objs[th].openupval[i]
    ensures q in DropOpen(g, th, i).objs && Placed(DropOpen(g, th, i), q)
    ensures Kids(DropOpen(g, th, i).objs, q) == Kids(g.objs, q) && Intact(g.objs, DropOpen(g, th, i).objs, q)
  {
    hide ListsOk, NoDup, UpvalList;
    var us, g' := g.objs[th].openupval, DropOpen(g, th, i);
    assert Placed(g, th) && Placed(g, q);
    ThreadUpval(g, th, i);
    LevelsDiffer(g.objs, th, us);
    WithoutIn(us, i);
    RemoveIn(g.uvhead, us[i]);
    if q == th {
      UpvalListWithout(g.objs, g'.objs, th, us, i);
    } else if g.objs[q].kind.Thread? {
      OthersUpval(g.objs, q, us[i]);
      UpvalListKept(g.objs, g'.objs, q, g.objs[q].openupval, us[i]);
    }
  }

  lemma DropOpenShape(g: Gc, th: Ptr, i: int)
    requires Shape(g) && th in g.objs && g.objs[th].kind.Thread? && 0 <= i < |g.objs[th].openupval|
    ensures Shape(DropOpen(g, th, i))
  {
    hide BucketOk, Placed, Kids, UpvalList, NoDup, Intact;
    var us, g' := g.objs[th].openupval, DropOpen(g, th, i);
    ThreadUpval(g, th, i);
    RemoveIn(g.uvhead, us[i]);
    forall q | q in g'.objs ensures Placed(g', q) {
      DropOpenPlaced(g, th, i, q);
    }
    StringsKept(g, g');
  }

  lemma DropOpenOk(g: Gc, th: Ptr, i: int)
    requires Shape(g) && NotBlack(g) && th in g.objs && g.objs[th].kind.Thread?
    requires 0 <= i < |g.objs[th].openupval| && IsDead(g, g.objs[th].openupval[i])
    ensures Shape(DropOpen(g, th, i)) && NotBlack(DropOpen(g, th, i)) && Trims(g, DropOpen(g, th, i))
  {
    hide ListsOk, Placed, Kids, Intact;
    var g' := DropOpen(g, th, i);
    DropOpenShape(g, th, i);
    ThreadUpval(g, th, i);
    forall q | q in g'.objs ensures Kids(g'.objs, q) == Kids(g.objs, q) && Intact(g.objs, g'.objs, q) {
      DropOpenPlaced(g, th, i, q);
    }
  }

  lemma StringsKept(g: Gc, g': Gc)
    requires ListsOk(g) && g'.strt == g.strt
    requires forall p | p in g.objs && g.objs[p].kind.ShortStr? :: p in g'.objs && g'.objs[p].kind == g.objs[p].kind
    ensures forall k | 0 <= k < |g'.strt| :: BucketOk(g', k)
  {
    forall k | 0 <= k < |g'.strt| ensures BucketOk(g', k) { assert BucketOk(g, k); }
  }

  lemma ThreadUpval(g: Gc, th: Ptr, i: int)
    requires Shape(g) && th in g.objs && g.objs[th].kind.Thread? && 0 <= i < |g.objs[th].openupval|
    ensures var u := g.objs[th].openupval[i];
            && u in g.objs && u in g.color && g.objs[u].kind.Open? && g.objs[u].kind.th == th && u != th
            && g.objs[u].kind.level < |g.objs[th].refs| && g.objs[u].openupval == []
  {
    assert Placed(g, th);
    assert Placed(g, g.objs[th].openupval[i]);
  }

  lemma OthersUpval(objs: Objs, q: Ptr, u: Ptr)
    requires q in objs && UpvalList(objs, q, objs[q].openupval) && u in objs && objs[u].kind.Open?
            && objs[u].kind.th != q
    ensures u !in objs[q].openupval
  {
  }

  ghost predicate KindsKept(objs: Objs, objs': Objs, u: Ptr) {
    forall q | q in objs && q != u :: q in objs' && objs'[q].kind == objs[q].kind
  }

  lemma UpvalListWithout(objs: Objs, objs': Objs, th: Ptr, us: seq<Ptr>, i: int)
    requires UpvalList(objs, th, us) && 0 <= i < |us| && KindsKept(objs, objs', us[i])
    ensures UpvalList(objs', th, Without(us, i))
  {
    LevelsDiffer(objs, th, us);
    WithoutIn(us, i);
  }

  lemma LevelsDiffer(objs: Objs, th: Ptr, us: seq<Ptr>)
    requires UpvalList(objs, th, us)
    ensures NoDup(us)
  {
  }

  lemma UpvalListKept(objs: Objs, objs': Objs, th: Ptr, us: seq<Ptr>, u: Ptr)
    requires UpvalList(objs, th, us) && u !in us && KindsKept(objs, objs', u)
    ensures UpvalList(objs', th, us)
  {
  }

  // ---------- closing upvalues ----------

  /** The first open upvalue of `th` takes its value with it and moves to `allgc`. */
  function CloseHead(g: Gc, th: Ptr): Gc
    requires th in g.objs && g.objs[th].openupval != []
  {
    var us := g.objs[th].openupval;
    var v := Cell(g.objs, us[0]);
    g.(objs := g.objs[th := g.objs[th].(openupval := us[1..])][us[0] := Obj(Closed, [v], [])],
       uvhead := Remove(g.uvhead, us[0]), allgc := [us[0]] + g.allgc)
  }

  lemma CloseHeadPlaced(g: Gc, th: Ptr, q: Ptr)
    requires Shape(g) && th in g.objs && g.objs[th].kind.Thread? && g.objs[th].openupval != [] && q in g.objs
    ensures q in CloseHead(g, th).objs && Placed(CloseHead(g, th), q)
    ensures Kids(CloseHead(g, th).objs, q) == Kids(g.objs, q) && Intact(g.objs, CloseHead(g, th).objs, q)
  {
    hide ListsOk, NoDup, UpvalList;
    var us, g' := g.objs[th].openupval, CloseHead(g, th);
    var u := us[0];
    assert Placed(g, th) && Placed(g, q);
    ThreadUpval(g, th, 0);
    LevelsDiffer(g.objs, th, us);
    assert Without(us, 0) == us[1..];
    WithoutIn(us, 0);
    RemoveIn(g.uvhead, u);
    if q == th {
      UpvalListWithout(g.objs, g'.objs, th, us, 0);
    } else if q != u && g.objs[q].kind.Thread? {
      OthersUpval(g.objs, q, u);
      UpvalListKept(g.objs, g'.objs, q, g.objs[q].openupval, u);
    }
  }

  lemma CloseHeadShape(g: Gc, th: Ptr)
    requires Shape(g) && th in g.objs && g.objs[th].kind.Thread? && g.objs[th].openupval != []
    ensures Shape(CloseHead(g, th))
  {
    hide BucketOk, Placed, Kids, Cell, UpvalList, NoDup, Intact;
    var g' := CloseHead(g, th);
    var u := g.objs[th].openupval[0];
    ThreadUpval(g, th, 0);
    RemoveIn(g.uvhead, u);
    forall q | q in g'.objs ensures Placed(g', q) {
      CloseHeadPlaced(g, th, q);
    }
    ConsNoDup(u, g.allgc);
    StringsKept(g, g');
  }

  lemma CloseHeadOk(g: Gc, th: Ptr)
    requires Shape(g) && NotBlack(g) && th in g.objs && g.objs[th].kind.Thread? && g.objs[th].openupval != []
    ensures Shape(CloseHead(g, th)) && NotBlack(CloseHead(g, th)) && Trims(g, CloseHead(g, th))
    ensures forall q | q in g.objs :: Kids(CloseHead(g, th).objs, q) == Kids(g.objs, q)
  {
    hide ListsOk, Placed, Kids, Cell, Intact;
    var g' := CloseHead(g, th);
    CloseHeadShape(g, th);
    ThreadUpval(g, th, 0);
    forall q | q in g'.objs ensures Kids(g'.objs, q) == Kids(g.objs, q) && Intact(g.objs, g'.objs, q) {
      CloseHeadPlaced(g, th, q);
    }
  }

  lemma ConsNoDup(x: Ptr, s: seq<Ptr>)
    requires NoDup(s) && x !in s
    ensures NoDup([x] + s)
  {
  }

  // ---------- how far the sweep has come ----------

  ghost predicate NowWhite(g: Gc, p: Ptr) { p in g.color && g.color[p] == White(g.cw) }

  ghost predicate BucketWhite(g: Gc, k: int)
    requires 0 <= k < |g.strt|
  {
    forall p <- g.strt[k] :: NowWhite(g, p)
  }

  ghost predicate UpvalsWhite(g: Gc, p: Ptr) {
    p in g.objs && g.objs[p].kind.Thread? ==> forall u <- g.objs[p].openupval :: NowWhite(g, u)
  }

  ghost predicate SweptAt(g: Gc, p: Ptr) { NowWhite(g, p) && UpvalsWhite(g, p) }

  /** The first `n` string lists and the first `pos` objects of `allgc` have been swept. */
  ghost predicate Swept(g: Gc, n: int, pos: int) {
    && 0 <= pos <= |g.allgc|
    && (forall k | 0 <= k < n && k < |g.strt| :: BucketWhite(g, k))
    && (forall j | 0 <= j < pos :: SweptAt(g, g.allgc[j]))
  }

  ghost predicate WasUpval(g: Gc, g': Gc, p: Ptr, u: Ptr) {
    p in g.objs && g.objs[p].kind.Thread? && u in g.objs[p].openupval && u in g'.objs
  }

  /** What was white stays white; threads only lose upvalues or get white ones. */
  ghost predicate StaysSwept(g: Gc, g': Gc) {
    && g'.cw == g.cw
    && (forall p | NowWhite(g, p) && p in g'.objs :: NowWhite(g', p))
    && (forall p, u | p in g'.objs && g'.objs[p].kind.Thread? && u in g'.objs[p].openupval ::
          NowWhite(g', u) || WasUpval(g, g', p, u))
  }

  /** The list has only strings that it had before, and white ones. */
  ghost predicate BucketGrown(g: Gc, g': Gc, k: int)
    requires 0 <= k < |g.strt| == |g'.strt|
  {
    forall p <- g'.strt[k] :: p in g.strt[k] || NowWhite(g', p)
  }

  lemma SweptStays(g: Gc, g': Gc, n: int, pos: int, shift: int)
    requires Swept(g, n, pos) && StaysSwept(g, g') && Shape(g')
    requires |g'.strt| == |g.strt| && forall k | 0 <= k < n && k < |g.strt| :: BucketGrown(g, g', k)
    requires 0 <= shift && pos + shift <= |g'.allgc|
    requires forall j | 0 <= j < pos :: g'.allgc[j + shift] == g.allgc[j]
    requires forall j | 0 <= j < shift && j < |g'.allgc| :: SweptAt(g', g'.allgc[j])
    ensures Swept(g', n, pos + shift)
  {
    hide StaysSwept, Placed, BucketOk, SweptAt, BucketWhite, BucketGrown;
    forall k | 0 <= k < n && k < |g'.strt| ensures BucketWhite(g', k) {
      assert BucketWhite(g, k) && BucketOk(g', k);
      BucketStays(g, g', k);
    }
    forall j | 0 <= j < pos + shift ensures SweptAt(g', g'.allgc[j]) {
      if j >= shift {
        assert g'.allgc[(j - shift) + shift] == g.allgc[j - shift];
        assert SweptAt(g, g.allgc[j - shift]);
        assert g'.allgc[j] in g'.allgc;
        AtStays(g, g', g.allgc[j - shift]);
      }
    }
  }

  lemma BucketStays(g: Gc, g': Gc, k: int)
    requires 0 <= k < |g.strt| == |g'.strt| && BucketWhite(g, k) && BucketGrown(g, g', k) && StaysSwept(g, g')
            && BucketOk(g', k)
    ensures BucketWhite(g', k)
  {
  }

  lemma AtStays(g: Gc, g': Gc, p: Ptr)
    requires SweptAt(g, p) && StaysSwept(g, g') && p in g'.objs
    ensures SweptAt(g', p)
  {
    if g'.objs[p].kind.Thread? {
      forall u <- g'.objs[p].openupval ensures NowWhite(g', u) {
        assert NowWhite(g', u) || WasUpval(g, g', p, u);
      }
    }
  }

  // ---------- steps that keep everything ----------

  /** What holds between any two steps of the collector. */
  ghost predicate Core(g: Gc) { Shape(g) && AliveClosed(g) && NotBlack(g) }

  /** One step of a sweep: the heap stays sound, and what was swept stays swept. */
  ghost predicate Sweeps(g: Gc, g': Gc, n: int, pos: int, pos': int) {
    && Core(g') && Trims(g, g')
    && |g'.strt| == |g.strt|
    && (Swept(g, n, pos) ==> Swept(g', n, pos'))
    && (SweptAt(g, g.main) ==> SweptAt(g', g.main))
  }

  lemma SweepsTrans(a: Gc, b: Gc, c: Gc, n: int, p: int, q: int, r: int)
    requires Sweeps(a, b, n, p, q) && Sweeps(b, c, n, q, r)
    ensures Sweeps(a, c, n, p, r)
  {
    TrimsTrans(a, b, c);
  }

  lemma SweepsRefl(g: Gc, n: int, pos: int)
    requires Core(g)
    ensures Sweeps(g, g, n, pos, pos)
  {
  }

  lemma DropOpenKept(g: Gc, th: Ptr, i: int)
    requires Shape(g) && th in g.objs && g.objs[th].kind.Thread?
    requires 0 <= i < |g.objs[th].openupval| && IsDead(g, g.objs[th].openupval[i])
    ensures OpenKept(g, DropOpen(g, th, i))
  {
    hide ListsOk, Placed;
    ThreadUpval(g, th, i);
  }

  lemma DropKept(g: Gc, g': Gc, p: Ptr)
    requires IsDead(g, p) && g'.objs == g.objs - {p}
    ensures OpenKept(g, g')
  {
  }

  lemma DropOpenSweeps(g: Gc, th: Ptr, i: int, n: int, pos: int)
    requires Core(g) && th in g.objs && g.objs[th].kind.Thread?
    requires 0 <= i < |g.objs[th].openupval| && IsDead(g, g.objs[th].openupval[i])
    ensures Sweeps(g, DropOpen(g, th, i), n, pos, pos) && StaysSwept(g, DropOpen(g, th, i))
  {
    hide Shape, AliveClosed, NotBlack, Kids, Cell, Trims, StaysSwept;
    var g' := DropOpen(g, th, i);
    DropOpenOk(g, th, i);
    TrimsClosed(g, g');
    DropOpenStays(g, th, i);
    MainSwept(g, g');
    if Swept(g, n, pos) { SweptStays(g, g', n, pos, 0); }
  }

  lemma DropOpenStays(g: Gc, th: Ptr, i: int)
    requires Core(g) && th in g.objs && g.objs[th].kind.Thread?
    requires 0 <= i < |g.objs[th].openupval| && Core(DropOpen(g, th, i))
    ensures StaysSwept(g, DropOpen(g, th, i))
  {
    hide ListsOk, AliveClosed, NotBlack, Kids;
    var us, g' := g.objs[th].openupval, DropOpen(g, th, i);
    assert Placed(g, th);
    LevelsDiffer(g.objs, th, us);
    WithoutIn(us, i);
    forall p | p in g'.objs && g'.objs[p].kind.Thread?
      ensures p in g.objs && g.objs[p].kind.Thread?
      ensures forall u <- g'.objs[p].openupval :: u in g.objs[p].openupval && u in g'.objs
    {
      assert Placed(g', p);
    }
  }

  lemma CloseHeadStays(g: Gc, th: Ptr)
    requires Core(g) && th in g.objs && g.objs[th].kind.Thread? && g.objs[th].openupval != [] && Core(CloseHead(g, th))
    ensures StaysSwept(g, CloseHead(g, th))
  {
    hide ListsOk, AliveClosed, NotBlack, Kids;
    var g' := CloseHead(g, th);
    forall p | p in g'.objs && g'.objs[p].kind.Thread?
      ensures p in g.objs && g.objs[p].kind.Thread?
      ensures forall u <- g'.objs[p].openupval :: u in g.objs[p].openupval && u in g'.objs
    {
      assert Placed(g', p);
    }
  }

  lemma WhitenedStays(g: Gc, p: Ptr)
    requires Core(g) && Core(Whitened(g, p))
    ensures StaysSwept(g, Whitened(g, p))
  {
    hide ListsOk, AliveClosed, NotBlack, Kids;
    forall q | q in g.objs && g.objs[q].kind.Thread?
      ensures forall u <- g.objs[q].openupval :: u in g.objs
    {
      assert Placed(g, q);
    }
  }

  lemma StaysTrans(a: Gc, b: Gc, c: Gc)
    requires StaysSwept(a, b) && StaysSwept(b, c) && c.objs == b.objs && b.objs.Keys == a.objs.Keys
    ensures StaysSwept(a, c)
  {
  }

  lemma CloseHeadSwept(g: Gc, th: Ptr, g': Gc, n: int, pos: int, pos': int)
    requires th in g.objs && g.objs[th].openupval != []
    requires g' == Whitened(CloseHead(g, th), g.objs[th].openupval[0])
    requires StaysSwept(g, g') && Shape(g') && Swept(g, n, pos) && (pos' == pos + 1 || pos' == pos == 0)
    ensures Swept(g', n, pos')
  {
    hide Shape, StaysSwept, Kids, Cell;
    SweptStays(g, g', n, pos, pos' - pos);
  }

  lemma CloseHeadSweeps(g: Gc, th: Ptr, g': Gc, n: int, pos: int, pos': int)
    requires Core(g) && th in g.objs && g.objs[th].kind.Thread? && g.objs[th].openupval != []
    requires Alive(g, g.objs[th].openupval[0])
    requires g' == Whitened(CloseHead(g, th), g.objs[th].openupval[0])
    requires pos' == pos + 1 || pos' == pos == 0
    ensures Sweeps(g, g', n, pos, pos') && StaysSwept(g, g')
  {
    hide Shape, AliveClosed, NotBlack, Kids, Cell, Trims, Swept, StaysSwept;
    var u, g1 := g.objs[th].openupval[0], CloseHead(g, th);
    ThreadUpval(g, th, 0);
    CloseHeadOk(g, th);
    TrimsClosed(g, g1);
    CloseHeadStays(g, th);
    TrimsAlive(g, g1, u);
    WhitenedOk(g1, u);
    TrimsClosed(g1, g');
    TrimsTrans(g, g1, g');
    WhitenedStays(g1, u);
    StaysTrans(g, g1, g');
    MainSwept(g, g');
    if Swept(g, n, pos) { CloseHeadSwept(g, th, g', n, pos, pos'); }
  }

  lemma TrimsAlive(g: Gc, g': Gc, p: Ptr)
    requires Trims(g, g') && Alive(g, p)
    ensures Alive(g', p)
  {
  }

  lemma MainSwept(g: Gc, g': Gc)
    requires StaysSwept(g, g') && Shape(g') && g'.main == g.main
    ensures SweptAt(g, g.main) ==> SweptAt(g', g'.main)
  {
  }

  lemma DropAtSweeps(g: Gc, i: int, n: int, pos: int)
    requires Core(g) && 0 <= i < |g.allgc| && IsDead(g, g.allgc[i])
    requires g.allgc[i] in g.objs && g.objs[g.allgc[i]].openupval == []
    ensures pos <= i ==> Sweeps(g, DropAt(g, i), n, pos, pos)
    ensures Core(DropAt(g, i)) && Trims(g, DropAt(g, i))
  {
    hide Shape, AliveClosed, NotBlack, Kids, Cell, Trims, StaysSwept;
    var g' := DropAt(g, i);
    DropAtOk(g, i);
    TrimsClosed(g, g');
    DropAtStays(g, i);
    MainSwept(g, g');
    if pos <= i && Swept(g, n, pos) { SweptStays(g, g', n, pos, 0); }
  }

  lemma DropAtStays(g: Gc, i: int)
    requires Core(g) && 0 <= i < |g.allgc| && Core(DropAt(g, i))
    ensures StaysSwept(g, DropAt(g, i))
  {
    hide ListsOk, AliveClosed, NotBlack, Kids;
    var g' := DropAt(g, i);
    forall p | p in g'.objs && g'.objs[p].kind.Thread?
      ensures forall u <- g'.objs[p].openupval :: u in g'.objs
    {
      assert Placed(g', p);
    }
  }

  lemma DropStringSweeps(g: Gc, k: int, i: int, n: int, pos: int)
    requires Core(g) && n <= k < |g.strt| && 0 <= k && 0 <= i < |g.strt[k]| && IsDead(g, g.strt[k][i])
    ensures Sweeps(g, DropString(g, k, i), n, pos, pos)
  {
    hide Shape, AliveClosed, NotBlack, Kids, Cell, Trims, StaysSwept;
    var g' := DropString(g, k, i);
    DropStringOk(g, k, i);
    TrimsClosed(g, g');
    DropStringStays(g, k, i);
    MainSwept(g, g');
    if Swept(g, n, pos) { SweptStays(g, g', n, pos, 0); }
  }

  lemma DropStringStays(g: Gc, k: int, i: int)
    requires Core(g) && 0 <= k < |g.strt| && 0 <= i < |g.strt[k]| && Core(DropString(g, k, i))
    ensures StaysSwept(g, DropString(g, k, i))
  {
    hide ListsOk, AliveClosed, NotBlack, Kids;
    var g' := DropString(g, k, i);
    forall p | p in g'.objs && g'.objs[p].kind.Thread?
      ensures forall u <- g'.objs[p].openupval :: u in g'.objs
    {
      assert Placed(g', p);
    }
  }

  lemma WhitenedSweeps(g: Gc, p: Ptr, n: int, pos: int)
    requires Core(g) && Alive(g, p)
    ensures Sweeps(g, Whitened(g, p), n, pos, pos) && NowWhite(Whitened(g, p), p) && StaysSwept(g, Whitened(g, p))
  {
    hide Shape, AliveClosed, NotBlack, Kids, Cell, Trims, StaysSwept;
    var g' := Whitened(g, p);
    WhitenedOk(g, p);
    TrimsClosed(g, g');
    WhitenedStays(g, p);
    MainSwept(g, g');
    if Swept(g, n, pos) { SweptStays(g, g', n, pos, 0); }
  }

  /** One more string list, or one more object, has been swept. */
  lemma SweptMore(g: Gc, n: int, pos: int)
    requires Swept(g, n, pos)
    ensures 0 <= n < |g.strt| && BucketWhite(g, n) ==> Swept(g, n + 1, pos)
    ensures pos < |g.allgc| && SweptAt(g, g.allgc[pos]) ==> Swept(g, n, pos + 1)
  {
  }

  /** After a complete sweep everything is white. */
  lemma AllSwept(g: Gc, p: Ptr)
    requires Shape(g) && Swept(g, |g.strt|, |g.allgc|) && SweptAt(g, g.main) && p in g.objs
    ensures NowWhite(g, p)
  {
    assert Placed(g, p);
    match g.objs[p].kind {
      case ShortStr(h, _) => assert BucketWhite(g, h % |g.strt|);
      case Open(th, _) =>
        assert Placed(g, th);
        if th != g.main {
          var j :| 0 <= j < |g.allgc| && g.allgc[j] == th;
          assert SweptAt(g, g.allgc[j]);
        }
      case Thread =>
        if p != g.main {
          var j :| 0 <= j < |g.allgc| && g.allgc[j] == p;
          assert SweptAt(g, g.allgc[j]);
        }
      case _ =>
        var j :| 0 <= j < |g.allgc| && g.allgc[j] == p;
        assert SweptAt(g, g.allgc[j]);
    }
  }

  lemma UpvalHere(g: Gc, th: Ptr, i: int)
    requires Core(g) && th in g.objs && g.objs[th].kind.Thread? && 0 <= i < |g.objs[th].openupval|
    ensures var u := g.objs[th].openupval[i];
            u in g.objs && u in g.color && g.objs[u].kind.Open? && g.objs[u].kind.th == th && u != th
            && (Alive(g, u) <==> !IsDead(g, u))
    ensures forall j | 0 <= j < |g.objs[th].openupval| && j != i :: g.objs[th].openupval[j] != g.objs[th].openupval[i]
  {
    ThreadUpval(g, th, i);
    assert Placed(g, th);
    LevelsDiffer(g.objs, th, g.objs[th].openupval);
  }

  lemma StringHere(g: Gc, k: int, i: int)
    requires Core(g) && 0 <= k < |g.strt| && 0 <= i < |g.strt[k]|
    ensures g.strt[k][i] in g.objs && g.strt[k][i] in g.color && (Alive(g, g.strt[k][i]) <==> !IsDead(g, g.strt[k][i]))
    ensures forall j | 0 <= j < |g.strt[k]| && j != i :: g.strt[k][j] != g.strt[k][i]
  {
    assert BucketOk(g, k);
  }

  lemma SweepsCore(g: Gc, g': Gc, n: int, pos: int, pos': int)
    requires Sweeps(g, g', n, pos, pos')
    ensures Core(g') && |g'.strt| == |g.strt| && Trims(g, g')
  {
  }
}
