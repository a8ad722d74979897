/** What the program does to the heap between two steps of the collector. */
module GcMutate {
  import opened GcHeap
  import opened GcMark
  import opened GcSweep
  import opened GcClose

  /** A change of the heap that the sweep may meet at any point; `shift` objects were put in front. */
  ghost predicate Harmless(g: Gc, g': Gc, shift: int) {
    && Core(g')
    && (forall n, pos {:trigger Swept(g, n, pos)} | Swept(g, n, pos) :: Swept(g', n, pos + shift))
    && (SweptAt(g, g.main) ==> SweptAt(g', g'.main))
  }

  // ---------- writing a reference ----------

  /** The object `o` holds other values. */
  function Written(g: Gc, o: Ptr, refs: seq<Ptr>): Gc
    requires o in g.objs
  {
    g.(objs := g.objs[o := g.objs[o].(refs := refs)])
  }

  predicate HoldsValues(k: Kind) { !k.ShortStr? && !k.LongStr? && !k.Open? }

  /** Each slot keeps its value or gets one that is not dead.  The object itself may be dead: an upvalue
      can still stand for a slot of a dead thread. */
  ghost predicate CanWrite(g: Gc, o: Ptr, refs: seq<Ptr>) {
    && o in g.objs && HoldsValues(g.objs[o].kind)
    && (forall i | 0 <= i < |refs| ::
          refs[i] == NULL || Alive(g, refs[i]) || (i < |g.objs[o].refs| && refs[i] == g.objs[o].refs[i]))
    && forall u <- g.objs[o].openupval :: Level(g.objs, u) < |refs|
  }

  lemma WrittenPlaced(g: Gc, o: Ptr, refs: seq<Ptr>, q: Ptr)
    requires Shape(g) && CanWrite(g, o, refs) && q in g.objs
    ensures Placed(Written(g, o, refs), q)
    ensures forall k | k in Kids(Written(g, o, refs).objs, q) :: k in Kids(g.objs, q) || Alive(g, k)
    ensures q != o && !(g.objs[q].kind.Open? && g.objs[q].kind.th == o)
            ==> Kids(Written(g, o, refs).objs, q) == Kids(g.objs, q)
  {
    hide ListsOk, NoDup, UpvalList;
    var g' := Written(g, o, refs);
    assert Placed(g, q);
    if g.objs[q].kind.Thread? {
      NullNotUpval(g, q);
      UpvalListKept(g.objs, g'.objs, q, g.objs[q].openupval, NULL);
    }
    if g.objs[q].kind.Open? && g.objs[q].kind.th == o {
      assert Level(g.objs, q) < |refs|;
      assert refs[g.objs[q].kind.level] in refs;
    }
  }

  lemma NullNotUpval(g: Gc, q: Ptr)
    requires Shape(g) && q in g.objs && g.objs[q].kind.Thread?
    ensures NULL !in g.objs[q].openupval
  {
    assert Placed(g, q);
    forall u | u in g.objs[q].openupval ensures u != NULL { assert Placed(g, u); }
  }

  lemma WrittenCore(g: Gc, o: Ptr, refs: seq<Ptr>)
    requires Core(g) && CanWrite(g, o, refs)
    ensures Core(Written(g, o, refs))
  {
    hide Placed, Kids, NoDup, UpvalList;
    var g' := Written(g, o, refs);
    forall q | q in g'.objs ensures Placed(g', q) { WrittenPlaced(g, o, refs, q); }
    StringsKept(g, g');
    forall q | Alive(g', q) ensures AllAlive(g', Kids(g'.objs, q)) {
      WrittenPlaced(g, o, refs, q);
      assert Alive(g, q) && AllAlive(g, Kids(g.objs, q));
    }
  }

  lemma SameColorStays(g: Gc, g': Gc)
    requires Shape(g') && g'.cw == g.cw && g'.color == g.color && g'.objs.Keys == g.objs.Keys
    requires forall p | p in g.objs && g'.objs[p].kind.Thread? ::
            g.objs[p].kind.Thread? && g'.objs[p].openupval == g.objs[p].openupval
    ensures StaysSwept(g, g')
  {
    hide Kids, ListsOk;
    forall p, u | p in g'.objs && g'.objs[p].kind.Thread? && u in g'.objs[p].openupval
      ensures WasUpval(g, g', p, u)
    {
      assert Placed(g', p);
    }
  }

  lemma StaysHarmless(g: Gc, g': Gc, shift: int)
    requires Core(g') && StaysSwept(g, g') && g'.main == g.main && 0 <= shift <= 1
    requires |g'.strt| == |g.strt| && forall k | 0 <= k < |g.strt| :: BucketGrown(g, g', k)
    requires if shift == 0 then g'.allgc == g.allgc
            else g'.allgc != [] && g'.allgc[1..] == g.allgc && SweptAt(g', g'.allgc[0])
    ensures Harmless(g, g', shift)
  {
    hide AliveClosed, NotBlack, StaysSwept, Placed;
    MainSwept(g, g');
    forall n, pos | Swept(g, n, pos) ensures Swept(g', n, pos + shift) {
      SweptStays(g, g', n, pos, shift);
    }
  }


  lemma WrittenHarmless(g: Gc, o: Ptr, refs: seq<Ptr>)
    requires Core(g) && CanWrite(g, o, refs)
    ensures Harmless(g, Written(g, o, refs), 0)
  {
    hide Core, Kids, NoDup, UpvalList;
    var g' := Written(g, o, refs);
    WrittenCore(g, o, refs);
    CoreShape(g');
    SameColorStays(g, g');
    StaysHarmless(g, g', 0);
  }

  lemma CoreShape(g: Gc)
    requires Core(g)
    ensures Shape(g) && AliveClosed(g) && NotBlack(g)
  {
  }

  ghost function IfBlack(g: Gc, o: Ptr): set<Ptr>
    requires o in g.color
  {
    if g.color[o] == Black then {o} else {}
  }

  /** A black object that has been written may refer to a white one until the barrier has run. */
  lemma WrittenMarking(g: Gc, o: Ptr, refs: seq<Ptr>)
    requires Marking(g, {}) && CanWrite(g, o, refs) && o in g.color
    ensures Marking(Written(g, o, refs), IfBlack(g, o))
  {
    hide NoDup, UpvalList, ListsOk;
    var g' := Written(g, o, refs);
    MarkingCore(g, {});
    WrittenCore(g, o, refs);
    WrittenTricolor(g, o, refs);
    forall q | q in g'.objs ensures Kids(g'.objs, q) <= g'.objs.Keys {
      WrittenPlaced(g, o, refs, q);
    }
  }

  lemma WrittenTricolor(g: Gc, o: Ptr, refs: seq<Ptr>)
    requires Marking(g, {}) && CanWrite(g, o, refs) && o in g.color
    ensures Tricolor(Written(g, o, refs), IfBlack(g, o))
  {
    hide NoDup, UpvalList, ListsOk, Kids;
    var g', busy := Written(g, o, refs), IfBlack(g, o);
    forall q | q in g'.objs && q in g'.color && q !in busy ensures BlackOk(g', q) && GrayOk(g', q) {
      assert BlackOk(g, q) && GrayOk(g, q);
      WrittenPlaced(g, o, refs, q);
    }
    forall q | q in g'.gray + g'.grayagain ensures Listed(g', q) && q !in busy {
      assert Listed(g, q);
    }
  }

  /** The barrier that moves back: the object is gray again and waits for the atomic step. */
  function SentBack(g: Gc, o: Ptr): Gc { g.(color := g.color[o := Gray], grayagain := [o] + g.grayagain) }

  lemma SentBackMarking(g: Gc, o: Ptr)
    requires Marking(g, {o}) && o in g.objs && o in g.color && g.color[o] == Black && Listable(g.objs[o].kind)
    ensures Marking(SentBack(g, o), {})
  {
    hide Kids, Shape;
    var g' := SentBack(g, o);
    MarkingKeys(g, {o});
    ShapeRecolor(g, g');
    SentBackLists(g, o);
    forall q | q in g'.objs && q in g'.color && q !in {} ensures BlackOk(g', q) && GrayOk(g', q) {
      assert q != o ==> BlackOk(g, q) && GrayOk(g, q);
    }
    forall q | q in g'.gray + g'.grayagain ensures Listed(g', q) {
      assert q != o ==> Listed(g, q);
    }
  }

  lemma SentBackLists(g: Gc, o: Ptr)
    requires NoDup(g.gray + g.grayagain) && o !in g.gray + g.grayagain
    ensures NoDup(SentBack(g, o).gray + SentBack(g, o).grayagain)
  {
    var l, l', n := g.gray + g.grayagain, SentBack(g, o).gray + SentBack(g, o).grayagain, |g.gray|;
    assert l' == g.gray + ([o] + g.grayagain);
    assert forall i | 0 <= i < n :: l'[i] == l[i];
    assert l'[n] == o;
    assert forall i | n < i < |l'| :: l'[i] == l[i - 1];
  }

  lemma SentBackHarmless(g: Gc, o: Ptr)
    requires Core(g) && o in g.objs && o in g.color && g.color[o] == Black
    ensures Harmless(g, SentBack(g, o), 0)
  {
    hide Kids, NoDup, UpvalList, ListsOk;
    var g' := SentBack(g, o);
    ShapeRecolor(g, g');
    assert Core(g') by {
      forall q ensures Alive(g', q) <==> Alive(g, q) {}
    }
    SentBackStays(g, o);
    StaysHarmless(g, g', 0);
  }

  lemma SentBackStays(g: Gc, o: Ptr)
    requires Core(g) && o in g.objs && o in g.color && g.color[o] == Black
    ensures StaysSwept(g, SentBack(g, o))
  {
    hide Kids, NoDup, AliveClosed, ListsOk;
    var g' := SentBack(g, o);
    forall p, u | p in g'.objs && g'.objs[p].kind.Thread? && u in g'.objs[p].openupval ensures WasUpval(g, g', p, u) {
      assert Placed(g, p);
    }
  }

  // ---------- new objects ----------

  /** A new white object that nothing black refers to leaves the main invariant alone. */
  lemma AddedTricolor(g: Gc, g': Gc, p: Ptr)
    requires Tricolor(g, {}) && g.color.Keys == g.objs.Keys && p !in g.objs
    requires g'.gray == g.gray && g'.grayagain == g.grayagain && g'.color == g.color[p := White(g.cw)]
    requires g'.objs.Keys == g.objs.Keys + {p}
    requires forall q | q in g.objs :: g'.objs[q].kind == g.objs[q].kind && Kids(g'.objs, q) == Kids(g.objs, q)
    ensures Tricolor(g', {})
  {
    hide NoDup, Kids;
    forall q | q in g'.objs && q in g'.color && q !in {} ensures BlackOk(g', q) && GrayOk(g', q) {
      assert q != p ==> BlackOk(g, q) && GrayOk(g, q);
    }
    forall q | q in g'.gray + g'.grayagain ensures Listed(g', q) {
      assert Listed(g, q);
    }
  }

  /** A new white object at the front of `allgc`. */
  function NewAt(g: Gc, p: Ptr, kind: Kind, refs: seq<Ptr>): Gc {
    g.(objs := g.objs[p := Obj(kind, refs, [])], color := g.color[p := White(g.cw)], allgc := [p] + g.allgc)
  }

  ghost predicate CanCreate(g: Gc, p: Ptr, kind: Kind, refs: seq<Ptr>) {
    && p != NULL && p !in g.objs && !kind.ShortStr? && !kind.Open? && AllAlive(g, Refs(refs))
       && (kind.LongStr? ==> refs == [])
  }

  lemma NewPlaced(g: Gc, p: Ptr, kind: Kind, refs: seq<Ptr>, q: Ptr)
    requires Shape(g) && CanCreate(g, p, kind, refs) && q in g.objs
    ensures Placed(NewAt(g, p, kind, refs), q) && Kids(NewAt(g, p, kind, refs).objs, q) == Kids(g.objs, q)
  {
    hide ListsOk, NoDup, UpvalList;
    assert Placed(g, q);
    if g.objs[q].kind.Thread? {
      NullNotUpval(g, q);
      UpvalListKept(g.objs, NewAt(g, p, kind, refs).objs, q, g.objs[q].openupval, NULL);
    }
  }

  lemma NewCore(g: Gc, p: Ptr, kind: Kind, refs: seq<Ptr>)
    requires Core(g) && CanCreate(g, p, kind, refs)
    ensures Core(NewAt(g, p, kind, refs)) && StaysSwept(g, NewAt(g, p, kind, refs))
    ensures AllAlive(NewAt(g, p, kind, refs), {p})
  {
    hide Placed, NoDup, UpvalList;
    var g' := NewAt(g, p, kind, refs);
    forall q | q in g.objs ensures Placed(g', q) && Kids(g'.objs, q) == Kids(g.objs, q) {
      NewPlaced(g, p, kind, refs, q);
    }
    assert Placed(g', p) && Kids(g'.objs, p) == Refs(refs) by { NewSelf(g, p, kind, refs); }
    ConsNoDup(p, g.allgc);
    StringsKept(g, g');
    hide Kids;
    forall q | Alive(g', q) ensures AllAlive(g', Kids(g'.objs, q)) {
      assert q != p ==> Alive(g, q) && AllAlive(g, Kids(g.objs, q));
    }
    NewStays(g, p, kind, refs);
  }

  lemma NewSelf(g: Gc, p: Ptr, kind: Kind, refs: seq<Ptr>)
    requires Shape(g) && CanCreate(g, p, kind, refs)
    ensures Placed(NewAt(g, p, kind, refs), p) && Kids(NewAt(g, p, kind, refs).objs, p) == Refs(refs)
  {
  }

  lemma NewStays(g: Gc, p: Ptr, kind: Kind, refs: seq<Ptr>)
    requires Core(g) && CanCreate(g, p, kind, refs)
    ensures StaysSwept(g, NewAt(g, p, kind, refs))
  {
    hide Kids, NoDup, AliveClosed, ListsOk;
    var g' := NewAt(g, p, kind, refs);
    forall q, u | q in g'.objs && g'.objs[q].kind.Thread? && u in g'.objs[q].openupval ensures WasUpval(g, g', q, u) {
      assert Placed(g, q);
    }
  }

  /** `shift` is 0 when the sweep still stands at the head of `allgc`. */
  lemma NewSwept(g: Gc, p: Ptr, kind: Kind, refs: seq<Ptr>, n: int, pos: int, shift: int)
    requires Core(g) && CanCreate(g, p, kind, refs) && Swept(g, n, pos) && (shift == 1 || shift == pos == 0)
    ensures Swept(NewAt(g, p, kind, refs), n, pos + shift)
  {
    hide Kids, Core, Placed, StaysSwept;
    NewCore(g, p, kind, refs);
    CoreShape(NewAt(g, p, kind, refs));
    SweptStays(g, NewAt(g, p, kind, refs), n, pos, shift);
  }

  lemma NewMarking(g: Gc, p: Ptr, kind: Kind, refs: seq<Ptr>)
    requires Marking(g, {}) && CanCreate(g, p, kind, refs)
    ensures Marking(NewAt(g, p, kind, refs), {})
  {
    hide NoDup, Tricolor, UpvalList, ListsOk, Kids, Refs;
    var g' := NewAt(g, p, kind, refs);
    MarkingCore(g, {});
    NewCore(g, p, kind, refs);
    NewSelf(g, p, kind, refs);
    forall q | q in g.objs ensures Kids(g'.objs, q) == Kids(g.objs, q) { NewPlaced(g, p, kind, refs, q); }
    AddedTricolor(g, g', p);
  }

  /** A new white string at the front of its list of the string table. */
  function NewString(g: Gc, p: Ptr, h: nat): Gc
    requires |g.strt| > 0
  {
    var k := h % |g.strt|;
    g.(objs := g.objs[p := Obj(ShortStr(h, false), [], [])], color := g.color[p := White(g.cw)],
       strt := g.strt[k := [p] + g.strt[k]])
  }

  lemma NewStringPlaced(g: Gc, p: Ptr, h: nat, q: Ptr)
    requires Shape(g) && p != NULL && p !in g.objs && q in g.objs
    ensures Placed(NewString(g, p, h), q) && Kids(NewString(g, p, h).objs, q) == Kids(g.objs, q)
  {
    hide ListsOk, NoDup, UpvalList;
    assert |g.strt| > 0 by { StringTable(g); }
    assert Placed(g, q);
    if g.objs[q].kind.Thread? {
      NullNotUpval(g, q);
      UpvalListKept(g.objs, NewString(g, p, h).objs, q, g.objs[q].openupval, NULL);
    }
  }

  lemma StringTable(g: Gc)
    requires Shape(g)
    ensures |g.strt| > 0
  {
  }

  lemma NewStringLists(g: Gc, p: Ptr, h: nat)
    requires Shape(g) && p != NULL && p !in g.objs
    ensures ListsOk(NewString(g, p, h)) && Placed(NewString(g, p, h), p) && Kids(NewString(g, p, h).objs, p) == {}
  {
    var g', j := NewString(g, p, h), h % |g.strt|;
    forall k | 0 <= k < |g'.strt| ensures BucketOk(g', k) {
      assert BucketOk(g, k);
      if k == j { ConsNoDup(p, g.strt[k]); }
    }
  }

  lemma NewStringCore(g: Gc, p: Ptr, h: nat)
    requires Core(g) && p != NULL && p !in g.objs
    ensures |g.strt| > 0 && Core(NewString(g, p, h)) && AllAlive(NewString(g, p, h), {p})
  {
    hide Placed, NoDup, UpvalList, Kids, ListsOk;
    StringTable(g);
    var g' := NewString(g, p, h);
    NewStringLists(g, p, h);
    forall q | q in g.objs ensures Placed(g', q) && Kids(g'.objs, q) == Kids(g.objs, q) { NewStringPlaced(g, p, h, q); }
    forall q | Alive(g', q) ensures AllAlive(g', Kids(g'.objs, q)) {
      assert q != p ==> Alive(g, q) && AllAlive(g, Kids(g.objs, q));
    }
  }

  lemma NewStringHarmless(g: Gc, p: Ptr, h: nat)
    requires Core(g) && p != NULL && p !in g.objs
    ensures |g.strt| > 0 && Harmless(g, NewString(g, p, h), 0)
  {
    hide NoDup, Kids, ListsOk, AliveClosed;
    StringTable(g);
    var g' := NewString(g, p, h);
    NewStringCore(g, p, h);
    forall q, u | q in g'.objs && g'.objs[q].kind.Thread? && u in g'.objs[q].openupval ensures WasUpval(g, g', q, u) {
      assert Placed(g, q);
    }
    StaysHarmless(g, g', 0);
  }

  lemma NewStringMarking(g: Gc, p: Ptr, h: nat)
    requires Marking(g, {}) && p != NULL && p !in g.objs
    ensures |g.strt| > 0 && Marking(NewString(g, p, h), {})
  {
    hide NoDup, Tricolor, UpvalList, ListsOk, Kids, Placed, AliveClosed, NotBlack, BucketOk, Shape;
    StringTable(g);
    var g' := NewString(g, p, h);
    MarkingCore(g, {});
    NewStringCore(g, p, h);
    NewStringLists(g, p, h);
    forall q | q in g.objs ensures Kids(g'.objs, q) == Kids(g.objs, q) { NewStringPlaced(g, p, h, q); }
    AddedTricolor(g, g', p);
  }

  /** A new white open upvalue for a stack slot, put in its place in the thread's list. */
  function NewOpen(g: Gc, p: Ptr, th: Ptr, level: nat, i: int): Gc
    requires th in g.objs && 0 <= i <= |g.objs[th].openupval|
  {
    var us := g.objs[th].openupval;
    g.(objs := g.objs[th := g.objs[th].(openupval := us[..i] + [p] + us[i..])][p := Obj(Open(th, level), [], [])],
       color := g.color[p := White(g.cw)], uvhead := [p] + g.uvhead)
  }

  ghost predicate CanOpen(g: Gc, p: Ptr, th: Ptr, level: nat, i: int) {
    && p != NULL && p !in g.objs && Alive(g, th) && g.objs[th].kind.Thread? && level < |g.objs[th].refs|
    && 0 <= i <= |g.objs[th].openupval|
    && (forall j | 0 <= j < i :: Level(g.objs, g.objs[th].openupval[j]) > level)
    && (forall j | i <= j < |g.objs[th].openupval| :: Level(g.objs, g.objs[th].openupval[j]) < level)
  }

  lemma NewOpenList(g: Gc, p: Ptr, th: Ptr, level: nat, i: int)
    requires CanOpen(g, p, th, level, i) && UpvalList(g.objs, th, g.objs[th].openupval)
    ensures UpvalList(NewOpen(g, p, th, level, i).objs, th, NewOpen(g, p, th, level, i).objs[th].openupval)
  {
    var us, objs' := g.objs[th].openupval, NewOpen(g, p, th, level, i).objs;
    var us' := objs'[th].openupval;
    forall j | 0 <= j < |us'| ensures us'[j] == Inserted(us, p, i, j) && LevelAt(objs', th, us'[j]) {
      InsertedAt(us, p, i, j);
    }
    forall a, b | 0 <= a < b < |us'| ensures Level(objs', us'[a]) > Level(objs', us'[b]) {
      InsertedAt(us, p, i, a);
      InsertedAt(us, p, i, b);
    }
  }

  ghost predicate LevelAt(objs: Objs, th: Ptr, u: Ptr) { u in objs && objs[u].kind.Open? && objs[u].kind.th == th }

  function Inserted(us: seq<Ptr>, p: Ptr, i: int, j: int): Ptr
    requires 0 <= i <= |us| && 0 <= j <= |us|
  {
    if j < i then us[j] else if j == i then p else us[j - 1]
  }

  lemma InsertedAt(us: seq<Ptr>, p: Ptr, i: int, j: int)
    requires 0 <= i <= |us| && 0 <= j <= |us|
    ensures (us[..i] + [p] + us[i..])[j] == Inserted(us, p, i, j)
    ensures j < i ==> us[j] in us
    ensures j > i ==> us[j - 1] in us
  {
  }

  lemma NewOpenPlaced(g: Gc, p: Ptr, th: Ptr, level: nat, i: int, q: Ptr)
    requires Shape(g) && CanOpen(g, p, th, level, i) && q in g.objs
    ensures Placed(NewOpen(g, p, th, level, i), q) && Kids(NewOpen(g, p, th, level, i).objs, q) == Kids(g.objs, q)
  {
    hide ListsOk, NoDup, UpvalList;
    var g' := NewOpen(g, p, th, level, i);
    assert Placed(g, q);
    if q == th {
      NewOpenList(g, p, th, level, i);
    } else if g.objs[q].kind.Thread? {
      NullNotUpval(g, q);
      UpvalListKept(g.objs, g'.objs, q, g.objs[q].openupval, NULL);
    }
  }

  lemma NewOpenSelf(g: Gc, p: Ptr, th: Ptr, level: nat, i: int)
    requires Shape(g) && CanOpen(g, p, th, level, i)
    ensures Placed(NewOpen(g, p, th, level, i), p) && Kids(NewOpen(g, p, th, level, i).objs, p) <= Kids(g.objs, th)
  {
    assert Placed(g, th);
    assert g.objs[th].refs[level] in g.objs[th].refs;
  }

  lemma NewOpenLists(g: Gc, p: Ptr, th: Ptr, level: nat, i: int)
    requires Shape(g) && CanOpen(g, p, th, level, i)
    ensures ListsOk(NewOpen(g, p, th, level, i))
  {
    hide Placed, NoDup, BucketOk;
    StringsKept(g, NewOpen(g, p, th, level, i));
  }

  lemma NewOpenCore(g: Gc, p: Ptr, th: Ptr, level: nat, i: int)
    requires Core(g) && CanOpen(g, p, th, level, i)
    ensures Core(NewOpen(g, p, th, level, i)) && AllAlive(NewOpen(g, p, th, level, i), {p})
  {
    hide Placed, NoDup, UpvalList, Kids, BucketOk, ListsOk;
    var g' := NewOpen(g, p, th, level, i);
    forall q | q in g.objs ensures Placed(g', q) && Kids(g'.objs, q) == Kids(g.objs, q) {
      NewOpenPlaced(g, p, th, level, i, q);
    }
    NewOpenSelf(g, p, th, level, i);
    NewOpenLists(g, p, th, level, i);
    assert AllAlive(g, Kids(g.objs, th));
    forall q | Alive(g', q) ensures AllAlive(g', Kids(g'.objs, q)) {
      assert q != p ==> Alive(g, q) && AllAlive(g, Kids(g.objs, q));
    }
  }

  lemma NewOpenHarmless(g: Gc, p: Ptr, th: Ptr, level: nat, i: int)
    requires Core(g) && CanOpen(g, p, th, level, i)
    ensures Harmless(g, NewOpen(g, p, th, level, i), 0)
  {
    hide NoDup, Kids, ListsOk, AliveClosed, UpvalList, StaysSwept;
    NewOpenCore(g, p, th, level, i);
    NewOpenStays(g, p, th, level, i);
    CoreShape(NewOpen(g, p, th, level, i));
    StaysHarmless(g, NewOpen(g, p, th, level, i), 0);
  }

  lemma NewOpenStays(g: Gc, p: Ptr, th: Ptr, level: nat, i: int)
    requires Core(g) && CanOpen(g, p, th, level, i)
    ensures StaysSwept(g, NewOpen(g, p, th, level, i))
  {
    hide NoDup, Kids, ListsOk, AliveClosed;
    var g' := NewOpen(g, p, th, level, i);
    forall q, u | q in g'.objs && g'.objs[q].kind.Thread? && u in g'.objs[q].openupval
      ensures NowWhite(g', u) || WasUpval(g, g', q, u)
    {
      assert Placed(g, q);
    }
  }

  lemma NewOpenMarking(g: Gc, p: Ptr, th: Ptr, level: nat, i: int)
    requires Marking(g, {}) && CanOpen(g, p, th, level, i)
    ensures Marking(NewOpen(g, p, th, level, i), {})
  {
    hide NoDup, Tricolor, UpvalList, ListsOk, Kids, Placed, AliveClosed, NotBlack, BucketOk, Shape;
    var g' := NewOpen(g, p, th, level, i);
    MarkingCore(g, {});
    NewOpenCore(g, p, th, level, i);
    NewOpenSelf(g, p, th, level, i);
    forall q | q in g.objs ensures Kids(g'.objs, q) == Kids(g.objs, q) { NewOpenPlaced(g, p, th, level, i, q); }
    AddedTricolor(g, g', p);
  }

  // ---------- resurrection and roots ----------

  /** A dead object that is found again gets the current white; what it refers to must be alive. */
  lemma RevivedHarmless(g: Gc, p: Ptr)
    requires Core(g) && IsDead(g, p) && AllAlive(g, Kids(g.objs, p))
    ensures Harmless(g, Whitened(g, p), 0)
  {
    hide NoDup, Kids, ListsOk, UpvalList;
    var g' := Whitened(g, p);
    ShapeRecolor(g, g');
    forall q | Alive(g', q) ensures AllAlive(g', Kids(g'.objs, q)) {
      assert q != p ==> Alive(g, q) && AllAlive(g, Kids(g.objs, q));
    }
    WhitenedStays(g, p);
    StaysHarmless(g, g', 0);
  }

  lemma RootedHarmless(g: Gc, roots: seq<Ptr>)
    requires Core(g) && AllAlive(g, Refs(roots))
    ensures Harmless(g, g.(roots := roots), 0)
    ensures Marking(g, {}) ==> Marking(g.(roots := roots), {})
  {
    hide NoDup, Kids, UpvalList;
    var g' := g.(roots := roots);
    forall q | q in g.objs ensures Placed(g', q) { assert Placed(g, q); }
    forall k | 0 <= k < |g.strt| ensures BucketOk(g', k) { assert BucketOk(g, k); }
    assert RootSet(g') <= Refs(roots) + RootSet(g);
    SameColorStays(g, g');
    StaysHarmless(g, g', 0);
    if Marking(g, {}) {
      forall q | q in g'.objs && q in g'.color && q !in {} ensures BlackOk(g', q) && GrayOk(g', q) {
        assert BlackOk(g, q) && GrayOk(g, q);
      }
      forall q | q in g'.gray + g'.grayagain ensures Listed(g', q) { assert Listed(g, q); }
    }
  }

  lemma NewHarmless(g: Gc, p: Ptr, kind: Kind, refs: seq<Ptr>)
    requires Core(g) && CanCreate(g, p, kind, refs)
    ensures Harmless(g, NewAt(g, p, kind, refs), 1)
  {
    hide Kids, Placed, StaysSwept, AliveClosed, NotBlack, ListsOk;
    var g' := NewAt(g, p, kind, refs);
    NewCore(g, p, kind, refs);
    MainSwept(g, g');
    forall n, pos | Swept(g, n, pos) ensures Swept(g', n, pos + 1) { NewSwept(g, p, kind, refs, n, pos, 1); }
  }

  lemma WhitenedHarmless(g: Gc, p: Ptr)
    requires Core(g) && Alive(g, p)
    ensures Harmless(g, Whitened(g, p), 0)
  {
    hide Kids, Placed, StaysSwept, AliveClosed, NotBlack, ListsOk, Trims;
    var g' := Whitened(g, p);
    WhitenedSweeps(g, p, 0, 0);
    forall n, pos | Swept(g, n, pos) ensures Swept(g', n, pos) { WhitenedSweeps(g, p, n, pos); }
  }

  // ---------- the phases ----------

  /** What holds of the heap in each phase, when `n` string lists and the first `pos` objects are swept. */
  ghost predicate PhaseOk(g: Gc, phase: Phase, n: int, pos: int) {
    match phase
    case Propagate => Marking(g, {}) && !IsWhite(g, g.main)
    case Atomic => false
    case SweepString => Swept(g, n, pos)
    case SweepUdata | Sweep => Swept(g, |g.strt|, pos)
    case Pause => Swept(g, |g.strt|, |g.allgc|) && SweptAt(g, g.main)
  }

  lemma PhaseKept(g: Gc, g': Gc, phase: Phase, n: int, pos: int, shift: int)
    requires PhaseOk(g, phase, n, pos) && Harmless(g, g', shift)
    requires |g'.strt| == |g.strt| && |g'.allgc| == |g.allgc| + shift
    requires phase == Propagate ==> Marking(g', {}) && !IsWhite(g', g'.main)
    ensures PhaseOk(g', phase, n, pos + shift)
  {
    hide Core, Swept;
  }

  lemma HarmlessTrans(a: Gc, b: Gc, c: Gc, i: int, j: int)
    requires Harmless(a, b, i) && Harmless(b, c, j)
    ensures Harmless(a, c, i + j)
  {
    hide Core, Swept, SweptAt;
    forall n, pos | Swept(a, n, pos) ensures Swept(c, n, pos + (i + j)) {
      assert Swept(b, n, pos + i);
      assert Swept(c, n, pos + i + j);
    }
  }

  // ---------- what the barriers have to repair ----------

  /** Except for `o`, which may be black and refer to the white `v`, the invariant holds. */
  ghost predicate Torn(g: Gc, o: Ptr, v: Ptr) {
    && o in g.objs && o in g.color && Marking(g, IfBlack(g, o))
    && (g.color[o] == Black ==> !NeverBlack(g.objs[o].kind) && NoneWhite(g, Kids(g.objs, o) - {v}))
  }

  lemma WrittenTorn(g: Gc, o: Ptr, refs: seq<Ptr>, v: Ptr)
    requires Marking(g, {}) && CanWrite(g, o, refs) && o in g.color && Refs(refs) <= Refs(g.objs[o].refs) + {v}
    ensures Torn(Written(g, o, refs), o, v)
  {
    hide NoDup, UpvalList, ListsOk;
    WrittenMarking(g, o, refs);
    assert BlackOk(g, o);
  }

  lemma TornMended(g: Gc, o: Ptr, v: Ptr)
    requires Torn(g, o, v) && (g.color[o] == Black ==> v == NULL || (v in g.objs && !IsWhite(g, v)))
    ensures Marking(g, {})
  {
    hide Shape;
    if g.color[o] == Black {
      assert NULL !in Kids(g.objs, o);
      VisitDone(g, o);
    }
  }

  lemma TornForward(g: Gc, g': Gc, o: Ptr, v: Ptr)
    requires Torn(g, o, v) && g.color[o] == Black && Marks(g, g', g.objs.Keys) && Marking(g', {o}) && v in g'.objs
            && !IsWhite(g', v)
    ensures Marking(g', {})
  {
    hide Shape, Tricolor;
    GrownKeeps(g, g', g.objs.Keys, Kids(g.objs, o) - {v});
    VisitDone(g', o);
  }

  lemma HarmlessCore(g: Gc, g': Gc, shift: int)
    requires Harmless(g, g', shift)
    ensures Core(g') && g'.color.Keys == g'.objs.Keys
  {
  }

  lemma TornBusy(g: Gc, o: Ptr, v: Ptr)
    requires Torn(g, o, v) && g.color[o] == Black
    ensures Marking(g, {o}) && KidsClosed(g.objs, g.objs.Keys)
  {
  }

  lemma ThreadNotBlack(g: Gc, o: Ptr)
    requires Marking(g, {}) && o in g.objs && g.objs[o].kind.Thread?
    ensures o in g.color && g.color[o] != Black
  {
    assert BlackOk(g, o);
  }

  /** A reference is replaced, or one is added at the end. */
  function Put(refs: seq<Ptr>, i: nat, v: Ptr): seq<Ptr>
    requires i <= |refs|
  {
    if i < |refs| then refs[i := v] else refs + [v]
  }

  lemma PutIn(refs: seq<Ptr>, i: nat, v: Ptr)
    requires i <= |refs|
    ensures Refs(Put(refs, i, v)) <= Refs(refs) + {v} && |Put(refs, i, v)| >= |refs|
  {
  }

  lemma CanStore(g: Gc, o: Ptr, i: nat, v: Ptr)
    requires Core(g) && o in g.objs && HoldsValues(g.objs[o].kind) && i <= |g.objs[o].refs|
    requires v == NULL || Alive(g, v)
    ensures CanWrite(g, o, Put(g.objs[o].refs, i, v)) && o in g.color
  {
    hide ListsOk, NoDup, NotBlack;
    assert Placed(g, o);
    PutIn(g.objs[o].refs, i, v);
    forall u | u in g.objs[o].openupval ensures Level(g.objs, u) < |g.objs[o].refs| {
      assert g.objs[o].kind.Thread?;
      assert Placed(g, u);
    }
  }

  lemma OpenFacts(g: Gc, p: Ptr, th: Ptr, level: nat, i: int)
    requires CanOpen(g, p, th, level, i)
    ensures th in g.objs && 0 <= i <= |g.objs[th].openupval| && p !in g.objs && p != th
  {
  }

  lemma NewKeepsMain(g: Gc, p: Ptr)
    requires Core(g) && p !in g.objs
    ensures p != g.main
  {
  }

  lemma InternFacts(g: Gc, p: Ptr)
    requires Core(g) && p in g.objs && g.objs[p].kind.ShortStr?
    ensures p in g.color && Kids(g.objs, p) == {} && p != g.main && (IsDead(g, p) <==> !Alive(g, p))
  {
    assert Placed(g, p);
  }

  lemma UpvalLevels(g: Gc, th: Ptr)
    requires Core(g) && th in g.objs && g.objs[th].kind.Thread?
    ensures UpvalList(g.objs, th, g.objs[th].openupval)
  {
    assert Placed(g, th);
  }

  lemma UpvalKids(g: Gc, th: Ptr, i: int)
    requires Core(g) && Alive(g, th) && g.objs[th].kind.Thread? && 0 <= i < |g.objs[th].openupval|
    ensures AllAlive(g, Kids(g.objs, g.objs[th].openupval[i]))
  {
    hide Placed, NotBlack, ListsOk;
    ThreadUpval(g, th, i);
    assert AllAlive(g, Kids(g.objs, th));
  }

  lemma RootsAlive(g: Gc, i: nat, v: Ptr)
    requires Core(g) && i < |g.roots| && (v == NULL || Alive(g, v))
    ensures AllAlive(g, Refs(g.roots[i := v]))
  {
    hide Shape, NotBlack;
    forall r | r in Refs(g.roots[i := v]) ensures Alive(g, r) {
      assert r != v ==> r in RootSet(g);
    }
  }

  lemma StartOk(g: Gc)
    requires g.main != NULL && g.objs == map[g.main := Obj(Thread, [], [])] && g.color == map[g.main := White(g.cw)]
    requires g.allgc == [] && g.uvhead == [] && |g.strt| > 0 && (forall k | 0 <= k < |g.strt| :: g.strt[k] == [])
    requires forall r <- g.roots :: r == g.main || r == NULL
    ensures Core(g) && PhaseOk(g, Pause, 0, 0)
  {
  }

  lemma NotNull(g: Gc, p: Ptr)
    requires Core(g) && p in g.objs
    ensures p != NULL
  {
    assert Placed(g, p);
  }

  lemma FieldAlive(g: Gc, o: Ptr, i: nat)
    requires Core(g) && Alive(g, o) && HoldsValues(g.objs[o].kind) && i < |g.objs[o].refs|
    ensures g.objs[o].refs[i] == NULL || Alive(g, g.objs[o].refs[i])
  {
    hide Shape, NotBlack;
    assert Kids(g.objs, o) == Refs(g.objs[o].refs);
    assert g.objs[o].refs[i] in g.objs[o].refs;
  }

  ghost function AllOf(g: Gc): set<Ptr> { g.objs.Keys }

  /** Before and during the mark phase everything refers inside the heap. */
  lemma AliveWithin(g: Gc, phase: Phase, n: int, pos: int)
    requires Core(g) && PhaseOk(g, phase, n, pos)
    ensures phase == Propagate ==> Within(g, AllOf(g))
    ensures phase == Pause ==> KidsClosed(g.objs, AllOf(g)) && RootSet(g) <= AllOf(g)
  {
    if phase == Pause {
      SweepDone(g);
      PauseMarking(g, g.(gray := [], grayagain := []));
    }
  }

  lemma StillRunning(g: Gc, g': Gc)
    requires Core(g) && Core(g') && Preserves(g, g') && g.roots != [] && g.roots[0] in g.objs
            && g.objs[g.roots[0]].kind.Thread?
    ensures g'.roots == g.roots && g'.roots[0] in g'.objs && g'.objs[g'.roots[0]].kind.Thread?
  {
    hide Shape, NotBlack, SameReach;
    var th := g.roots[0];
    NotNull(g, th);
    assert th in [g.main] + g.roots;
    assert th in RootSet(g);
    assert Reachable(g, th);
  }

  lemma NoOpenAt(g: Gc, th: Ptr, level: nat, i: int)
    requires th in g.objs && 0 <= i <= |g.objs[th].openupval|
    requires forall j | 0 <= j < i :: Level(g.objs, g.objs[th].openupval[j]) > level
    requires forall j | i <= j < |g.objs[th].openupval| :: Level(g.objs, g.objs[th].openupval[j]) < level
    ensures forall u | u in g.objs[th].openupval && u in g.objs :: g.objs[u].kind != Open(th, level)
  {
  }

  /** What an upvalue stands for, or holds. */
  lemma UpvalFacts(g: Gc, uv: Ptr)
    requires Core(g) && Alive(g, uv) && (g.objs[uv].kind.Open? || g.objs[uv].kind.Closed?)
    ensures Cell(g.objs, uv) == NULL || Alive(g, Cell(g.objs, uv))
    ensures g.objs[uv].kind.Open? ==> uv in g.color && g.color[uv] != Black
    ensures g.objs[uv].kind.Open? ==>
              var k := g.objs[uv].kind;
              k.th in g.objs && g.objs[k.th].kind.Thread? && k.level < |g.objs[k.th].refs|
  {
    hide ListsOk, NoDup;
    assert Placed(g, uv) && AllAlive(g, Kids(g.objs, uv));
    if g.objs[uv].kind.Closed? && g.objs[uv].refs != [] {
      assert g.objs[uv].refs[0] in g.objs[uv].refs;
    }
  }

  lemma RootAlive(g: Gc, i: nat)
    requires Core(g) && i < |g.roots|
    ensures g.roots[i] == NULL || Alive(g, g.roots[i])
  {
    hide Shape, NotBlack;
    if g.roots[i] != NULL {
      assert g.roots[i] in [g.main] + g.roots;
      assert g.roots[i] in RootSet(g);
    }
  }

  /** The variable of an upvalue has been assigned: the upvalue reads the new value. */
  lemma CellWritten(g: Gc, uv: Ptr, v: Ptr)
    requires uv in g.objs && g.objs[uv].kind.Open? && g.objs[uv].kind.th in g.objs
    requires g.objs[uv].kind.level < |g.objs[g.objs[uv].kind.th].refs| && !g.objs[g.objs[uv].kind.th].kind.Open?
    ensures var k := g.objs[uv].kind;
            Cell(Written(g, k.th, Put(g.objs[k.th].refs, k.level, v)).objs, uv) == v
  {}

  /** The roots besides the running thread. */
  function Others(roots: seq<Ptr>): seq<Ptr> { if roots == [] then [] else roots[1..] }

  lemma StartRoots(g: Gc)
    ensures Refs([g.main] + Others(g.roots)) <= RootSet(g)
  {}
}
