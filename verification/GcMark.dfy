/** The invariant of the mark phase, and what marking does to it. */
module GcMark {
  import opened GcHeap

  predicate Listable(k: Kind) { k.Table? || k.Closure? || k.Proto? || k.Thread? }

  predicate NeverBlack(k: Kind) { k.Thread? || k.Open? }

  /** A black object refers to no white one; threads and open upvalues are never black. */
  ghost predicate BlackOk(g: Gc, p: Ptr)
    requires p in g.objs && p in g.color
  {
    g.color[p] == Black ==> !NeverBlack(g.objs[p].kind) && NoneWhite(g, Kids(g.objs, p))
  }

  /** A gray object is in a gray list or is an open upvalue. */
  ghost predicate GrayOk(g: Gc, p: Ptr)
    requires p in g.objs && p in g.color
  {
    g.color[p] == Gray ==> p in g.gray || p in g.grayagain || g.objs[p].kind.Open?
  }

  ghost predicate Listed(g: Gc, p: Ptr) {
    p in g.objs && p in g.color && g.color[p] == Gray && Listable(g.objs[p].kind)
  }

  /** The main invariant, except for the objects in `busy`, which are being visited. */
  ghost predicate Tricolor(g: Gc, busy: set<Ptr>) {
    && (forall p | p in g.objs && p in g.color && p !in busy :: BlackOk(g, p) && GrayOk(g, p))
    && (forall p <- g.gray + g.grayagain :: Listed(g, p) && p !in busy)
    && NoDup(g.gray + g.grayagain)
    && NoneWhite(g, busy)
  }

  /** Only the current white is in use, and nothing refers outside the heap. */
  ghost predicate Marking(g: Gc, busy: set<Ptr>) {
    && Shape(g)
    && (forall p | p in g.color :: g.color[p] != White(!g.cw))
    && (forall p | p in g.objs :: Kids(g.objs, p) <= g.objs.Keys)
    && RootSet(g) <= g.objs.Keys
    && Tricolor(g, busy)
  }

  /** A marked open upvalue has been marked together with its value. */
  ghost predicate WithValue(g: Gc, p: Ptr) {
    p in g.objs && g.objs[p].kind.Open? ==> NoneWhite(g, Kids(g.objs, p))
  }

  /** Marking has gone from `g` to `g'`: nothing has become white, and only objects of `R` have been marked. */
  ghost predicate Grows(g: Gc, g': Gc, R: set<Ptr>) {
    && g' == g.(color := g'.color, gray := g'.gray, grayagain := g'.grayagain)
    && g'.color.Keys == g.color.Keys
    && (forall p | IsWhite(g', p) :: g'.color[p] == g.color[p])
    && (forall p | IsWhite(g, p) && !IsWhite(g', p) :: p in R && WithValue(g', p))
  }

  /** Besides, what was marked keeps its colour. */
  ghost predicate Marks(g: Gc, g': Gc, R: set<Ptr>) {
    && Grows(g, g', R)
    && g'.grayagain == g.grayagain
    && (forall p | p in g.color && !IsWhite(g, p) :: g'.color[p] == g.color[p])
    && (Whites(g') == Whites(g) ==> g'.gray == g.gray)
  }

  lemma GrowsRefl(g: Gc, R: set<Ptr>)
    ensures Marks(g, g, R)
  {
  }

  lemma GrownKeeps(g: Gc, g': Gc, R: set<Ptr>, S: set<Ptr>)
    requires Grows(g, g', R) && NoneWhite(g, S)
    ensures NoneWhite(g', S)
  {
  }

  lemma GrowsTrans(g: Gc, g1: Gc, g2: Gc, R: set<Ptr>)
    requires Grows(g, g1, R) && Grows(g1, g2, R)
    ensures Grows(g, g2, R) && Whites(g2) <= Whites(g)
  {
    forall p | IsWhite(g, p) && !IsWhite(g2, p) ensures p in R && WithValue(g2, p) {
      if !IsWhite(g1, p) {
        assert WithValue(g1, p);
        if p in g1.objs && g1.objs[p].kind.Open? { GrownKeeps(g1, g2, R, Kids(g1.objs, p)); }
      }
    }
  }

  lemma MarksTrans(g: Gc, g1: Gc, g2: Gc, R: set<Ptr>)
    requires Marks(g, g1, R) && Marks(g1, g2, R)
    ensures Marks(g, g2, R)
  {
    GrowsTrans(g, g1, g2, R);
  }

  lemma ShapeRecolor(g: Gc, g': Gc)
    requires Shape(g) && g' == g.(color := g'.color, gray := g'.gray, grayagain := g'.grayagain)
    requires g'.color.Keys == g.color.Keys
    ensures Shape(g')
  {
    assert forall p | p in g.objs :: Placed(g, p) ==> Placed(g', p);
    assert forall i | 0 <= i < |g.strt| :: BucketOk(g, i) ==> BucketOk(g', i);
  }

  /** A white object is about to be visited. */
  lemma ToGray(g: Gc, g': Gc, busy: set<Ptr>, o: Ptr)
    requires Marking(g, busy) && o in g.objs && IsWhite(g, o)
    requires g' == g.(color := g.color[o := Gray])
    ensures Marking(g', busy + {o}) && Whites(g') < Whites(g) && o !in busy
  {
    hide Shape, Kids;
    ShapeRecolor(g, g');
    forall p | p in g'.objs && p in g'.color && p !in busy + {o} ensures BlackOk(g', p) && GrayOk(g', p) {
      assert BlackOk(g, p) && GrayOk(g, p);
    }
    forall p | p in g'.gray + g'.grayagain ensures Listed(g', p) && p !in busy + {o} {
      assert Listed(g, p);
    }
    assert o in Whites(g) && o !in Whites(g');
  }

  /** The visit is over: all that the object refers to has been marked. */
  lemma ToBlack(g: Gc, g': Gc, busy: set<Ptr>, o: Ptr)
    requires Marking(g, busy + {o}) && o in g.objs && !IsWhite(g, o) && o !in busy
    requires g' == g.(color := g.color[o := Black])
    requires !NeverBlack(g.objs[o].kind) && NoneWhite(g, Kids(g.objs, o))
    ensures Marking(g', busy)
  {
    hide Shape, Kids, NoDup;
    MarkingKeys(g, busy + {o});
    ShapeRecolor(g, g');
    forall p | p in g'.objs && p in g'.color && p !in busy ensures BlackOk(g', p) && GrayOk(g', p) {
      assert p != o ==> BlackOk(g, p) && GrayOk(g, p);
    }
    forall p | p in g'.gray + g'.grayagain ensures Listed(g', p) && p !in busy {
      assert Listed(g, p);
    }
  }

  /** The object goes to the gray list. */
  lemma ToList(g: Gc, g': Gc, busy: set<Ptr>, o: Ptr)
    requires Marking(g, busy + {o}) && o in g.objs && g.color[o] == Gray && o !in busy && Listable(g.objs[o].kind)
    requires g' == g.(gray := [o] + g.gray)
    ensures Marking(g', busy)
  {
    hide Shape, Kids;
    ShapeRecolor(g, g');
    assert g'.gray + g'.grayagain == [o] + (g.gray + g.grayagain);
    forall p | p in g'.objs && p in g'.color && p !in busy ensures BlackOk(g', p) && GrayOk(g', p) {
      assert p != o ==> BlackOk(g, p) && GrayOk(g, p);
    }
    forall p | p in g'.gray + g'.grayagain ensures Listed(g', p) && p !in busy {
      assert p != o ==> Listed(g, p);
    }
  }

  /** An open upvalue stays gray and in no list. */
  lemma ToNone(g: Gc, busy: set<Ptr>, o: Ptr)
    requires Marking(g, busy + {o}) && o in g.objs && g.color[o] == Gray && o !in busy && g.objs[o].kind.Open?
    ensures Marking(g, busy)
  {
    hide Shape, Kids;
    forall p | p in g.objs && p in g.color && p !in busy ensures BlackOk(g, p) && GrayOk(g, p) {
      assert p != o ==> BlackOk(g, p) && GrayOk(g, p);
    }
  }

  /** Visiting `o`: first it is made gray, then other objects are marked, then it gets its final colour. */
  lemma MarksThrough(g: Gc, g1: Gc, g2: Gc, g3: Gc, R: set<Ptr>, o: Ptr)
    requires o in g.objs && IsWhite(g, o) && o in R
    requires g1 == g.(color := g.color[o := Gray]) && Marks(g1, g2, R)
    requires g3 == g2.(color := g3.color, gray := g3.gray) && o in g2.color && o in g3.color && !g3.color[o].White?
    requires g3.color == g2.color || g3.color == g2.color[o := Black]
    requires WithValue(g2, o)
    ensures Marks(g, g3, R)
  {
    assert o in Whites(g) && o !in Whites(g3);
    forall p | IsWhite(g, p) && !IsWhite(g3, p) ensures p in R && WithValue(g3, p) {
      assert WithValue(g2, p);
    }
  }

  /** What a visit may rely on. */
  lemma Visiting(g: Gc, busy: set<Ptr>, R: set<Ptr>, o: Ptr)
    requires Marking(g, busy) && o in g.objs && o in R && KidsClosed(g.objs, R)
    ensures g.color.Keys == g.objs.Keys
    ensures Kids(g.objs, o) <= g.objs.Keys && Kids(g.objs, o) <= R
    ensures g.objs[o].kind.Open?
            ==> g.objs[o].kind.th in g.objs
                && g.objs[o].kind.level < |g.objs[g.objs[o].kind.th].refs|
  {
    assert Placed(g, o);
  }

  lemma MarkedKeeps(g: Gc, g': Gc, R: set<Ptr>)
    requires Marks(g, g', R)
    ensures g' == g.(color := g'.color, gray := g'.gray) && g'.color.Keys == g.color.Keys
    ensures forall p | p in g.color && !IsWhite(g, p) :: g'.color[p] == g.color[p]
    ensures Whites(g') <= Whites(g)
  {
  }

  lemma MarkingKeys(g: Gc, busy: set<Ptr>)
    requires Marking(g, busy)
    ensures g.color.Keys == g.objs.Keys
  {
  }

  lemma MarkedNone(g: Gc, g': Gc, R: set<Ptr>, S: set<Ptr>)
    requires Marks(g, g', R) && NoneWhite(g, S)
    ensures NoneWhite(g', S)
  {
  }

  // ---------- the gray lists ----------

  /** Whatever is marked belongs to `R`, which holds the roots and is closed under references. */
  ghost predicate Within(g: Gc, R: set<Ptr>) {
    && KidsClosed(g.objs, R) && RootSet(g) <= R
    && forall p | p in g.objs && !IsWhite(g, p) :: p in R
  }

  /** What the objects waiting for the atomic step refer to has been marked. */
  ghost predicate AgainDone(g: Gc) { forall p <- g.grayagain :: NoneWhite(g, Kids(g.objs, p)) }

  lemma GrownWithin(g: Gc, g': Gc, R: set<Ptr>)
    requires Grows(g, g', R) && Within(g, R) && Marking(g, {})
    ensures Within(g', R)
  {
  }

  /** The first gray object is taken off its list to be visited; a thread moves to `grayagain`. */
  function Taken(g: Gc): Gc
    requires g.gray != [] && g.gray[0] in g.objs
  {
    var o := g.gray[0];
    if g.objs[o].kind.Thread? then g.(gray := g.gray[1..], grayagain := [o] + g.grayagain, color := g.color[o := Gray])
    else g.(gray := g.gray[1..], color := g.color[o := Black])
  }

  ghost function BusyWith(g: Gc, o: Ptr): set<Ptr>
    requires o in g.objs
  {
    if g.objs[o].kind.Thread? then {} else {o}
  }

  lemma FirstGray(g: Gc, R: set<Ptr>)
    requires Marking(g, {}) && g.gray != [] && Within(g, R)
    ensures g.gray[0] in g.objs && g.gray[0] in R && g.color[g.gray[0]] == Gray && Listable(g.objs[g.gray[0]].kind)
    ensures g.color.Keys == g.objs.Keys && KidsClosed(g.objs, R)
    ensures Kids(g.objs, g.gray[0]) <= g.objs.Keys && Kids(g.objs, g.gray[0]) <= R
  {
    assert Listed(g, (g.gray + g.grayagain)[0]);
  }

  lemma TakenLists(g: Gc)
    requires g.gray != [] && g.gray[0] in g.objs && NoDup(g.gray + g.grayagain)
    ensures NoDup(Taken(g).gray + Taken(g).grayagain)
    ensures forall p | p in Taken(g).gray + Taken(g).grayagain :: p in g.gray + g.grayagain
    ensures forall p | p in g.gray + g.grayagain && p != g.gray[0] :: p in Taken(g).gray + Taken(g).grayagain
    ensures g.gray[0] in Taken(g).gray + Taken(g).grayagain <==> g.objs[g.gray[0]].kind.Thread?
  {
    var o, l, l' := g.gray[0], g.gray + g.grayagain, Taken(g).gray + Taken(g).grayagain;
    assert l == [o] + (g.gray[1..] + g.grayagain);
    assert forall i | 0 < i < |l| :: l[i] != l[0];
    if g.objs[o].kind.Thread? {
      assert l' == g.gray[1..] + ([o] + g.grayagain);
      assert forall i | 0 <= i < |l| :: i < |g.gray| - 1 ==> l'[i] == l[i + 1];
      assert l'[|g.gray| - 1] == o;
      assert forall i | |g.gray| <= i < |l| :: l'[i] == l[i];
    } else {
      assert l' == l[1..];
    }
  }

  lemma TakenTricolor(g: Gc)
    requires Tricolor(g, {}) && g.gray != [] && g.gray[0] in g.objs && g.color.Keys == g.objs.Keys
    ensures Tricolor(Taken(g), BusyWith(g, g.gray[0]))
  {
    hide NoDup, Kids;
    var o, g' := g.gray[0], Taken(g);
    var busy := BusyWith(g, o);
    TakenLists(g);
    assert Listed(g, (g.gray + g.grayagain)[0]);
    forall p | p in g'.objs && p in g'.color && p !in busy ensures BlackOk(g', p) && GrayOk(g', p) {
      assert BlackOk(g, p) && GrayOk(g, p);
    }
    forall p | p in g'.gray + g'.grayagain ensures Listed(g', p) && p !in busy {
      assert Listed(g, p);
    }
  }

  lemma TakenOk(g: Gc, R: set<Ptr>)
    requires Marking(g, {}) && g.gray != [] && Within(g, R) && g.gray[0] in g.objs
    ensures Marking(Taken(g), BusyWith(g, g.gray[0])) && Grows(g, Taken(g), R) && Whites(Taken(g)) == Whites(g)
  {
    hide Shape, Within, Tricolor, Kids, NoDup;
    FirstGray(g, R);
    ShapeRecolor(g, Taken(g));
    TakenTricolor(g);
  }

  /** The visit of the object just taken is complete. */
  lemma VisitedOk(g: Gc, g2: Gc, R: set<Ptr>, o: Ptr)
    requires Marking(g, {}) && g.gray != [] && Within(g, R) && o == g.gray[0] && o in g.objs
    requires Marking(g2, BusyWith(g, o)) && Marks(Taken(g), g2, R) && NoneWhite(g2, Kids(g.objs, o))
    ensures Marking(g2, {}) && Grows(g, g2, R)
    ensures Whites(g2) < Whites(g) || (Whites(g2) == Whites(g) && |g2.gray| < |g.gray|)
    ensures AgainDone(g) ==> AgainDone(g2)
  {
    hide Shape, Within, NoDup, Kids, Tricolor, AgainDone, NoneWhite;
    FirstGray(g, R);
    TakenOk(g, R);
    GrowsTrans(g, Taken(g), g2, R);
    VisitedTricolor(g2, BusyWith(g, o), o);
    VisitedAgain(g, g2, R, o);
  }

  lemma VisitedTricolor(g: Gc, busy: set<Ptr>, o: Ptr)
    requires Tricolor(g, busy) && busy <= {o}
    requires o in busy
            ==> o in g.objs && o in g.color && g.color[o] == Black && !NeverBlack(g.objs[o].kind)
                && NoneWhite(g, Kids(g.objs, o))
    ensures Tricolor(g, {})
  {
    forall p | p in g.objs && p in g.color && p !in {} ensures BlackOk(g, p) && GrayOk(g, p) {
      assert p !in busy ==> BlackOk(g, p) && GrayOk(g, p);
    }
  }

  lemma VisitedAgain(g: Gc, g2: Gc, R: set<Ptr>, o: Ptr)
    requires Grows(g, g2, R) && NoneWhite(g2, Kids(g.objs, o))
    requires forall p | p in g2.grayagain :: p == o || p in g.grayagain
    ensures AgainDone(g) ==> AgainDone(g2)
  {
    hide Kids, Grows, NoneWhite;
    if AgainDone(g) {
      forall p | p in g2.grayagain ensures NoneWhite(g2, Kids(g2.objs, p)) {
        GrownObjs(g, g2, R);
        if p != o { assert p in g.grayagain; GrownKeeps(g, g2, R, Kids(g.objs, p)); }
      }
    }
  }

  lemma GrownObjs(g: Gc, g': Gc, R: set<Ptr>)
    requires Grows(g, g', R)
    ensures g' == g.(color := g'.color, gray := g'.gray, grayagain := g'.grayagain)
  {
  }

  // ---------- the end of the mark phase ----------

  /** Open upvalues outside `todo` that are marked have had their values marked. */
  ghost predicate UpvalsBut(g: Gc, todo: seq<Ptr>) {
    forall p | p in g.objs && g.objs[p].kind.Open? && !IsWhite(g, p) && p !in todo :: NoneWhite(g, Kids(g.objs, p))
  }

  lemma GrownBut(g: Gc, g': Gc, R: set<Ptr>, todo: seq<Ptr>)
    requires Grows(g, g', R) && UpvalsBut(g, todo) && Shape(g)
    ensures UpvalsBut(g', todo)
  {
    forall p | p in g'.objs && g'.objs[p].kind.Open? && !IsWhite(g', p) && p !in todo
        ensures NoneWhite(g', Kids(g'.objs, p)) {
      if IsWhite(g, p) { assert WithValue(g', p); } else { GrownKeeps(g, g', R, Kids(g.objs, p)); }
    }
  }

  /** Whatever is marked refers only to what is marked. */
  ghost predicate AllMarked(g: Gc) {
    && NoneWhite(g, RootSet(g))
    && forall p | p in g.objs && !IsWhite(g, p) :: NoneWhite(g, Kids(g.objs, p))
  }

  lemma NothingLeft(g: Gc)
    requires Marking(g, {}) && g.gray == [] && AgainDone(g) && UpvalsBut(g, [])
    requires NoneWhite(g, RootSet(g))
    ensures AllMarked(g)
  {
    hide Kids, RootSet;
    forall p | p in g.objs && !IsWhite(g, p) ensures NoneWhite(g, Kids(g.objs, p)) {
      assert BlackOk(g, p) && GrayOk(g, p);
      assert p in g.color;
    }
  }

  /** The saved list becomes the gray list. */
  lemma Saved(g: Gc, g': Gc)
    requires Marking(g, {}) && g.gray == [] && g' == g.(gray := g.grayagain, grayagain := [])
    ensures Marking(g', {}) && AgainDone(g') && Grows(g, g', {})
  {
    hide Kids, Shape, NoDup;
    ShapeRecolor(g, g');
    MarkingKeys(g, {});
    assert g'.gray + g'.grayagain == g.gray + g.grayagain;
    assert NoneWhite(g', {});
    forall p | p in g'.objs && p in g'.color && p !in {} ensures BlackOk(g', p) && GrayOk(g', p) {
      assert BlackOk(g, p) && GrayOk(g, p);
    }
    forall p | p in g'.gray + g'.grayagain ensures Listed(g', p) {
      assert Listed(g, p);
    }
  }

  lemma GrowsMore(g: Gc, g': Gc, R: set<Ptr>, R': set<Ptr>)
    requires Grows(g, g', R) && R <= R'
    ensures Grows(g, g', R')
  {
  }

  /** The white bit flips: what was not marked is now dead, except fixed strings. */
  lemma Flipped(g: Gc, g': Gc)
    requires Marking(g, {}) && AllMarked(g) && g' == g.(cw := !g.cw)
    ensures Shape(g') && AliveClosed(g')
    ensures forall p | p in g.objs :: Alive(g', p) <==> !IsWhite(g, p) || IsFixed(g.objs[p])
  {
    assert forall p | p in g.objs :: Placed(g, p) ==> Placed(g', p);
    assert forall i | 0 <= i < |g.strt| :: BucketOk(g, i) ==> BucketOk(g', i);
    forall p | Alive(g', p) ensures AllAlive(g', Kids(g'.objs, p)) {
      assert Placed(g, p);
      assert !IsWhite(g, p) ==> NoneWhite(g, Kids(g.objs, p));
    }
  }

  lemma UpvalsStart(g: Gc)
    requires Marking(g, {})
    ensures UpvalsBut(g, g.uvhead)
  {
    forall p | p in g.objs && g.objs[p].kind.Open? ensures p in g.uvhead { assert Placed(g, p); }
  }

  lemma MarkedWithin(g: Gc, g': Gc, R: set<Ptr>)
    requires Marks(g, g', R) && Within(g, R) && Marking(g, {})
    ensures Within(g', R) && Grows(g, g', R)
  {
  }

  lemma UpvalAt(g: Gc, R: set<Ptr>, i: int)
    requires Marking(g, {}) && Within(g, R) && 0 <= i < |g.uvhead|
    ensures var uv := g.uvhead[i];
            && uv in g.objs && uv in g.color && g.objs[uv].kind.Open? && g.color[uv] != Black
            && var o := g.objs[uv].kind;
               && o.th in g.objs && o.level < |g.objs[o.th].refs|
               && Kids(g.objs, uv) == Refs([g.objs[o.th].refs[o.level]]) && Kids(g.objs, uv) <= g.objs.Keys
               && KidsClosed(g.objs, R)
               && (g.color[uv] == Gray ==> Kids(g.objs, uv) <= R)
  {
    var uv := g.uvhead[i];
    assert Placed(g, uv) && BlackOk(g, uv);
  }

  lemma UpvalStep(g: Gc, g': Gc, R: set<Ptr>, i: int)
    requires Marking(g, {}) && Marks(g, g', R) && 0 <= i < |g.uvhead| && UpvalsBut(g, g.uvhead[i..])
    requires g.uvhead[i] in g.objs && ((IsWhite(g, g.uvhead[i]) && g' == g) || NoneWhite(g', Kids(g.objs, g.uvhead[i])))
    ensures UpvalsBut(g', g.uvhead[i + 1..])
  {
    hide Shape, NoneWhite;
    GrownBut(g, g', R, g.uvhead[i..]);
    assert g.uvhead[i..] == [g.uvhead[i]] + g.uvhead[i + 1..];
  }

  lemma RootsIn(g: Gc, R: set<Ptr>)
    requires Marking(g, {}) && Within(g, R)
    ensures Refs(g.roots) <= g.objs.Keys && Refs(g.roots) <= R && KidsClosed(g.objs, R)
  {
    assert Refs(g.roots) <= RootSet(g);
  }

  lemma RootsMarked(g: Gc, g1: Gc, g4: Gc, R: set<Ptr>)
    requires g.main in g.objs && !IsWhite(g, g.main) && Marks(g, g1, R) && NoneWhite(g1, Refs(g.roots))
            && Grows(g1, g4, R)
    ensures NoneWhite(g4, RootSet(g4))
  {
    GrowsTrans(g, g1, g4, R);
    GrownKeeps(g1, g4, R, Refs(g.roots));
    assert NoneWhite(g, {g.main});
    GrownKeeps(g, g4, R, {g.main});
    NoneWhiteUnion(g4, {g.main}, Refs(g.roots), RootSet(g4));
  }

  lemma NoneWhiteUnion(g: Gc, a: set<Ptr>, b: set<Ptr>, c: set<Ptr>)
    requires NoneWhite(g, a) && NoneWhite(g, b) && c <= a + b
    ensures NoneWhite(g, c)
  {
  }

  lemma AtomicEnd(g: Gc, g1: Gc, g2: Gc, g4: Gc, R: set<Ptr>)
    requires Marking(g, {}) && !IsWhite(g, g.main) && Marks(g, g1, R) && NoneWhite(g1, Refs(g.roots))
    requires Marks(g1, g2, R) && Marking(g2, {}) && UpvalsBut(g2, []) && Grows(g2, g4, R)
    requires Marking(g4, {}) && g4.gray == [] && AgainDone(g4)
    ensures AllMarked(g4) && Grows(g, g4, R)
  {
    hide Kids, AgainDone, UpvalsBut, Tricolor, NoneWhite, IsWhite;
    GrowsTrans(g, g1, g2, R);
    GrowsTrans(g, g2, g4, R);
    GrowsTrans(g1, g2, g4, R);
    GrownBut(g2, g4, R, []);
    RootsMarked(g, g1, g4, R);
    NothingLeft(g4);
  }
}
