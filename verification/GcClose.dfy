/** Marking and closing together: an open upvalue that is closed while objects are being marked. */
module GcClose {
  import opened GcHeap
  import opened GcMark
  import opened GcSweep

  /** While marking nothing is dead. */
  lemma MarkingCore(g: Gc, busy: set<Ptr>)
    requires Marking(g, busy)
    ensures forall p | p in g.objs :: Alive(g, p)
    ensures Shape(g) && AliveClosed(g)
    ensures busy == {} ==> Core(g)
  {
    if busy == {} {
      forall p | p in g.objs && (g.objs[p].kind.Thread? || g.objs[p].kind.Open?) ensures g.color[p] != Black {
        assert BlackOk(g, p);
      }
    }
  }

  lemma MarkingTrims(g: Gc, g': Gc, busy: set<Ptr>, busy': set<Ptr>)
    requires Marking(g, busy) && Marking(g', busy')
    requires g' == g.(color := g'.color, gray := g'.gray, grayagain := g'.grayagain)
    ensures Trims(g, g')
  {
    hide Kids, Cell, Shape, Tricolor;
    MarkingCore(g, busy);
    MarkingCore(g', busy');
    forall p ensures Alive(g, p) <==> p in g.objs {}
    forall p ensures Alive(g', p) <==> p in g.objs {}
  }

  ghost function HeadBusy(g: Gc, u: Ptr): set<Ptr>
    requires u in g.color
  {
    if g.color[u] == Gray then {u} else {}
  }

  lemma CloseHeadTricolor(g: Gc, th: Ptr, u: Ptr)
    requires Marking(g, {}) && th in g.objs && g.objs[th].kind.Thread? && g.objs[th].openupval != []
            && u == g.objs[th].openupval[0]
    requires u in g.objs && u in g.color && u != th && g.objs[u].kind.Open?
    requires forall q | q in g.objs :: Kids(CloseHead(g, th).objs, q) == Kids(g.objs, q)
    ensures Tricolor(CloseHead(g, th), HeadBusy(g, u))
  {
    hide Kids, Cell, Shape;
    var g' := CloseHead(g, th);
    forall p | p in g'.objs && p in g'.color && p !in HeadBusy(g, u) ensures BlackOk(g', p) && GrayOk(g', p) {
      assert BlackOk(g, p) && GrayOk(g, p);
    }
    forall p | p in g'.gray + g'.grayagain ensures Listed(g', p) && p !in HeadBusy(g, u) {
      assert Listed(g, p);
    }
    assert BlackOk(g, u);
  }

  /** The closed upvalue may be gray, and is in no list: it has to be visited at once. */
  lemma CloseHeadMarking(g: Gc, th: Ptr, u: Ptr)
    requires Marking(g, {}) && th in g.objs && g.objs[th].kind.Thread? && g.objs[th].openupval != []
            && u == g.objs[th].openupval[0]
    ensures u in g.objs && u in g.color && Marking(CloseHead(g, th), HeadBusy(g, u)) && Trims(g, CloseHead(g, th))
  {
    hide Kids, Cell, Shape, Tricolor, Trims;
    MarkingCore(g, {});
    ThreadUpval(g, th, 0);
    CloseHeadOk(g, th);
    CloseHeadTricolor(g, th, u);
  }

  lemma BlackWhileBusy(g: Gc, u: Ptr)
    requires Marking(g, {u}) && u in g.objs && u in g.color
    ensures Marking(g.(color := g.color[u := Black]), {u})
  {
    hide Kids, Shape, NoDup;
    var g' := g.(color := g.color[u := Black]);
    ShapeRecolor(g, g');
    MarkingKeys(g, {u});
    forall p | p in g'.objs && p in g'.color && p !in {u} ensures BlackOk(g', p) && GrayOk(g', p) {
      assert BlackOk(g, p) && GrayOk(g, p);
    }
    forall p | p in g'.gray + g'.grayagain ensures Listed(g', p) && p !in {u} {
      assert Listed(g, p);
    }
  }

  lemma VisitDone(g: Gc, u: Ptr)
    requires Marking(g, {u}) && u in g.objs && u in g.color && g.color[u] == Black
    requires !NeverBlack(g.objs[u].kind) && NoneWhite(g, Kids(g.objs, u))
    ensures Marking(g, {})
  {
    hide Kids, Shape;
    VisitedTricolor(g, {u}, u);
  }

  lemma AllKeys(g: Gc, u: Ptr)
    requires Marking(g, {u}) && u in g.objs
    ensures Kids(g.objs, u) <= g.objs.Keys && KidsClosed(g.objs, g.objs.Keys)
  {
  }

  lemma UpvalCell(g: Gc, th: Ptr)
    requires Core(g) && th in g.objs && g.objs[th].kind.Thread? && g.objs[th].openupval != []
    ensures var u := g.objs[th].openupval[0];
            && u in g.objs && g.objs[u].kind.Open? && g.objs[u].kind.level < |g.objs[th].refs|
            && Cell(g.objs, u) == g.objs[th].refs[g.objs[u].kind.level]
  {
    ThreadUpval(g, th, 0);
  }

  /** A live open upvalue is gray or has the current white. */
  lemma LiveUpval(g: Gc, th: Ptr)
    requires Core(g) && th in g.objs && g.objs[th].kind.Thread? && g.objs[th].openupval != []
    requires Alive(g, g.objs[th].openupval[0])
    ensures var u := g.objs[th].openupval[0]; u in g.color && (g.color[u] == Gray || g.color[u] == White(g.cw))
  {
    ThreadUpval(g, th, 0);
  }

  lemma TrimsRefl(g: Gc)
    ensures Trims(g, g)
  {
  }

  lemma BelowLevel(g: Gc, th: Ptr, level: int)
    requires Core(g) && th in g.objs && g.objs[th].kind.Thread?
    requires g.objs[th].openupval != [] ==> Level(g.objs, g.objs[th].openupval[0]) < level
    ensures forall u <- g.objs[th].openupval :: Level(g.objs, u) < level
  {
    assert Placed(g, th);
  }

  lemma InAllgc(g: Gc, i: int)
    requires Core(g) && 0 <= i < |g.allgc|
    ensures g.allgc[i] in g.objs && g.allgc[i] in g.color && (Alive(g, g.allgc[i]) <==> !IsDead(g, g.allgc[i]))
    ensures !g.objs[g.allgc[i]].kind.Thread? ==> g.objs[g.allgc[i]].openupval == []
  {
    assert Placed(g, g.allgc[i]);
  }

  lemma NoUpvals(g: Gc, th: Ptr)
    requires Core(g) && th in g.objs && g.objs[th].kind.Thread?
    requires forall u <- g.objs[th].openupval :: Level(g.objs, u) < 0
    ensures g.objs[th].openupval == []
  {
    assert Placed(g, th);
    var us := g.objs[th].openupval;
    assert us != [] ==> us[0] in us && Level(g.objs, us[0]) >= 0;
  }

  lemma StillDead(g: Gc, g': Gc, p: Ptr)
    requires Trims(g, g') && IsDead(g, p) && p in g'.objs
    ensures IsDead(g', p)
  {
    assert !Alive(g, p);
  }

  lemma SweptAfter(g: Gc, g': Gc, p: Ptr)
    requires g' == Whitened(g, p) && UpvalsWhite(g, p)
    ensures SweptAt(g', p)
  {
  }

  lemma SweepsOne(g: Gc, g': Gc, n: int, pos: int)
    requires Sweeps(g, g', n, pos, pos) && 0 <= pos < |g'.allgc| && SweptAt(g', g'.allgc[pos])
    ensures Sweeps(g, g', n, pos, pos + 1)
  {
    if Swept(g', n, pos) { SweptMore(g', n, pos); }
  }

  // ---------- reachability is not changed by the collector ----------

  ghost predicate SameReach(g: Gc, g': Gc) { forall p :: Reachable(g', p) <==> Reachable(g, p) }

  lemma SameGraph(g: Gc, g': Gc)
    requires g'.objs == g.objs && g'.main == g.main && g'.roots == g.roots
    ensures SameReach(g, g')
  {
    forall S: set<Ptr> ensures ClosedSet(g', S) <==> ClosedSet(g, S) {}
  }

  /** The live parts of the two heaps are the same. */
  lemma ReachableThere(g: Gc, g': Gc, p: Ptr)
    requires AliveClosed(g) && Reachable(g, p) && RootSet(g') == RootSet(g)
    requires forall q | Alive(g, q) :: Kids(g'.objs, q) == Kids(g.objs, q)
    ensures Reachable(g', p)
  {
    AliveClosedIsSafe(g);
    forall S: set<Ptr> | ClosedSet(g', S) ensures p in S {
      var T := S * AliveSet(g);
      forall q | q in T ensures Kids(g.objs, q) <= T {
        assert Alive(g, q) && Kids(g'.objs, q) <= S && Kids(g.objs, q) <= AliveSet(g);
      }
      assert ClosedSet(g, T);
    }
  }

  lemma TrimsReach(g: Gc, g': Gc)
    requires Trims(g, g') && AliveClosed(g) && AliveClosed(g')
    ensures SameReach(g, g')
  {
    forall p ensures Reachable(g', p) <==> Reachable(g, p) {
      if Reachable(g, p) { ReachableThere(g, g', p); }
      if Reachable(g', p) { ReachableThere(g', g, p); }
    }
  }

  // ---------- the start and the end of a cycle ----------

  ghost predicate AllNowWhite(g: Gc) { forall p | p in g.objs :: NowWhite(g, p) }

  /** At a pause everything is white, so the invariant of the mark phase holds. */
  lemma PauseMarking(g: Gc, g': Gc)
    requires Core(g) && AllNowWhite(g) && g' == g.(gray := [], grayagain := [])
    ensures Marking(g', {})
    ensures KidsClosed(g.objs, g.objs.Keys) && RootSet(g) <= g.objs.Keys
  {
    ShapeRecolor(g, g');
    assert forall p | p in g.objs :: Alive(g, p);
    forall p, k | p in g.objs && k in Kids(g.objs, p) ensures k in g.objs {
      assert Alive(g, p) && AllAlive(g, Kids(g.objs, p));
    }
  }

  /** After the atomic step nothing outside `R` is alive, except fixed strings. */
  ghost predicate OnlyAlive(g: Gc, R: set<Ptr>) { forall p | Alive(g, p) :: p in R || IsFixed(g.objs[p]) }

  lemma FlippedCore(g: Gc, g': Gc, R: set<Ptr>)
    requires Marking(g, {}) && AllMarked(g) && g' == g.(cw := !g.cw)
    ensures Core(g') && (Within(g, R) ==> OnlyAlive(g', R))
  {
    hide Kids, Shape, Placed;
    Flipped(g, g');
    MarkingCore(g, {});
  }

  lemma TrimsOnly(g: Gc, g': Gc, R: set<Ptr>)
    requires Trims(g, g') && OnlyAlive(g, R)
    ensures OnlyAlive(g', R)
  {
  }

  lemma SweepsSwept(g: Gc, g': Gc, n: int, pos: int, pos': int)
    requires Sweeps(g, g', n, pos, pos')
    ensures Swept(g, n, pos) ==> Swept(g', n, pos')
    ensures SweptAt(g, g.main) ==> SweptAt(g', g'.main)
  {
  }

  lemma SweptBefore(g: Gc, n: int, m: int, pos: int)
    requires Swept(g, n, pos) && |g.strt| <= n
    ensures Swept(g, m, pos)
  {
  }

  lemma MainAlive(g: Gc)
    requires Core(g)
    ensures g.main in g.objs && g.main in g.color && g.objs[g.main].kind.Thread? && Alive(g, g.main)
    ensures g.main != NULL && g.main in RootSet(g)
  {
    assert g.main in RootSet(g) by { assert Placed(g, g.main); }
  }

  /** A sweep that is complete leaves everything white. */
  lemma SweepDone(g: Gc)
    requires Core(g) && Swept(g, |g.strt|, |g.allgc|) && SweptAt(g, g.main)
    ensures AllNowWhite(g)
  {
    forall p | p in g.objs ensures NowWhite(g, p) { AllSwept(g, p); }
  }

  lemma CoreClosed(g: Gc)
    requires Core(g)
    ensures AliveClosed(g)
  {
  }

  lemma SameReachTrans(a: Gc, b: Gc, c: Gc)
    requires SameReach(a, b) && SameReach(b, c)
    ensures SameReach(a, c)
  {
    hide Reachable;
    forall p ensures Reachable(c, p) <==> Reachable(a, p) {
      assert Reachable(b, p) <==> Reachable(a, p);
    }
  }

  lemma TrimsRoots(g: Gc, g': Gc)
    requires Trims(g, g')
    ensures g'.roots == g.roots && g'.main == g.main
  {
  }

  lemma GrownMarked(g: Gc, g': Gc, R: set<Ptr>, p: Ptr)
    requires Grows(g, g', R) && !IsWhite(g, p)
    ensures !IsWhite(g', p)
  {
  }

  /** What the program can see is unchanged: the same objects are reachable and hold the same values.
      Fixed strings are kept too, and nothing is created. */
  ghost predicate Preserves(g: Gc, g': Gc) {
    && SameReach(g, g') && g'.roots == g.roots && g'.main == g.main
    && (forall p | Reachable(g, p) :: Intact(g.objs, g'.objs, p) && StaysOpen(g, g', p))
    && (forall p | p in g.objs && IsFixed(g.objs[p]) :: p in g'.objs)
    && (forall p | p in g'.objs :: p in g.objs && IsFixed(g'.objs[p]) == IsFixed(g.objs[p]))
  }

  /** An open upvalue of a reachable thread stays open. */
  ghost predicate StaysOpen(g: Gc, g': Gc, u: Ptr) {
    u in g.objs && g.objs[u].kind.Open? && Reachable(g, g.objs[u].kind.th) ==> u in g'.objs && g'.objs[u] == g.objs[u]
  }

  lemma PreservesSame(g: Gc, g': Gc)
    requires AliveClosed(g) && g'.objs == g.objs && g'.main == g.main && g'.roots == g.roots
    ensures Preserves(g, g')
  {
    hide AliveClosed, Reachable;
    SameGraph(g, g');
    AliveClosedIsSafe(g);
    forall p | Reachable(g, p) ensures Intact(g.objs, g'.objs, p) { assert Alive(g, p); }
  }

  lemma PreservesTrims(g: Gc, g': Gc)
    requires Trims(g, g') && OpenKept(g, g') && AliveClosed(g) && AliveClosed(g')
    ensures Preserves(g, g')
  {
    hide AliveClosed, Intact, SameReach, Reachable;
    TrimsReach(g, g');
    AliveClosedIsSafe(g);
    forall p | Reachable(g, p) ensures Intact(g.objs, g'.objs, p) && StaysOpen(g, g', p) { assert Alive(g, p); }
    forall p | p in g.objs && IsFixed(g.objs[p]) ensures p in g'.objs { assert Alive(g, p); }
  }

  lemma PreservesTrans(a: Gc, b: Gc, c: Gc)
    requires Preserves(a, b) && Preserves(b, c)
    ensures Preserves(a, c)
  {
    hide Reachable;
    SameReachTrans(a, b, c);
    forall p | Reachable(a, p) ensures Intact(a.objs, c.objs, p) && StaysOpen(a, c, p) {
      assert Intact(a.objs, b.objs, p) && Intact(b.objs, c.objs, p) && StaysOpen(a, b, p) && StaysOpen(b, c, p);
    }
  }

  lemma ClosedParts(g: Gc, R: set<Ptr>)
    requires ClosedSet(g, R)
    ensures KidsClosed(g.objs, R) && RootSet(g) <= R
  {
  }

  /** After a cycle, an object is left if and only if it is reachable or fixed. */
  lemma OnlyReachable(g: Gc, g2: Gc, g3: Gc, R: set<Ptr>)
    requires Preserves(g, g2) && Preserves(g, g3) && AliveClosed(g3) && AllNowWhite(g3) && OnlyAlive(g3, R)
    requires forall p :: p in R <==> Reachable(g2, p)
    ensures forall p :: p in g3.objs <==> Reachable(g, p) || (p in g.objs && IsFixed(g.objs[p]))
  {
    hide Intact, Reachable, AliveClosed;
    forall p ensures p in g3.objs <==> Reachable(g, p) || (p in g.objs && IsFixed(g.objs[p])) {
      if p in g3.objs { assert NowWhite(g3, p) && Alive(g3, p); }
      if Reachable(g, p) {
        AliveClosedIsSafe(g3);
        assert Reachable(g3, p) && Alive(g3, p);
      }
    }
  }

  lemma NoneDead(g: Gc, phase: Phase, p: Ptr)
    requires phase == Propagate ==> Marking(g, {})
    ensures phase == Propagate ==> !IsDead(g, p)
  {
    if phase == Propagate {
      MarkingCore(g, {});
      assert p in g.objs ==> Alive(g, p);
    }
  }

  lemma DropHead(g: Gc, th: Ptr)
    requires Core(g) && th in g.objs && g.objs[th].kind.Thread? && g.objs[th].openupval != []
    ensures var g' := DropOpen(g, th, 0);
            && th in g'.objs && g'.objs[th] == g.objs[th].(openupval := g.objs[th].openupval[1..])
            && g'.objs.Keys <= g.objs.Keys && g'.allgc == g.allgc
  {
    hide Core;
    UpvalHere(g, th, 0);
    assert Without(g.objs[th].openupval, 0) == g.objs[th].openupval[1..];
  }

  // ---------- what closing does to the heap ----------

  /** An upvalue takes its value with it, or is freed if it was dead. */
  ghost predicate ClosedAt(g: Gc, objs': Objs, u: Ptr) {
    if Alive(g, u) then u in objs' && objs'[u] == Obj(Closed, [Cell(g.objs, u)], []) else u !in objs'
  }

  /** The first `k` open upvalues of `th` are closed; the others and all other objects are as before. */
  ghost predicate Closes(g: Gc, objs': Objs, th: Ptr, k: int)
    requires th in g.objs
  {
    var us := g.objs[th].openupval;
    && 0 <= k <= |us| && th in objs' && objs'[th] == g.objs[th].(openupval := us[k..])
    && objs'.Keys <= g.objs.Keys
    && (forall j | 0 <= j < k :: ClosedAt(g, objs', us[j]))
    && forall q | q in g.objs && q != th && q !in us[..k] :: q in objs' && objs'[q] == g.objs[q]
  }

  /** Exactly the first `k` upvalues stand for slots from `level` up. */
  ghost predicate Splits(objs: Objs, us: seq<Ptr>, level: int, k: int) {
    && 0 <= k <= |us| && (forall j | 0 <= j < k :: Level(objs, us[j]) >= level)
    && forall j | k <= j < |us| :: Level(objs, us[j]) < level
  }

  /** The upvalues of `th` from `level` up are closed, and nothing else has changed. */
  ghost predicate ClosedFrom(g: Gc, objs': Objs, th: Ptr, level: int) {
    th in g.objs && exists k :: Splits(g.objs, g.objs[th].openupval, level, k) && Closes(g, objs', th, k)
  }

  lemma ClosesNone(g: Gc, th: Ptr)
    requires th in g.objs
    ensures Closes(g, g.objs, th, 0)
  {
  }

  lemma HeadCloses(g: Gc, th: Ptr)
    requires Core(g) && th in g.objs && g.objs[th].kind.Thread? && g.objs[th].openupval != []
    ensures Alive(g, g.objs[th].openupval[0]) ==> Closes(g, CloseHead(g, th).objs, th, 1)
    ensures !Alive(g, g.objs[th].openupval[0]) ==> Closes(g, DropOpen(g, th, 0).objs, th, 1)
  {
    hide Core, Cell, Alive;
    DistinctUpvals(g, th);
    var us := g.objs[th].openupval;
    assert us[0] in us && us[..1] == [us[0]] && Without(us, 0) == us[1..];
  }

  lemma DistinctUpvals(g: Gc, th: Ptr)
    requires Core(g) && th in g.objs && g.objs[th].kind.Thread?
    ensures NoDup(g.objs[th].openupval) && th !in g.objs[th].openupval
    ensures forall u <- g.objs[th].openupval :: u in g.objs && g.objs[u].kind.Open? && g.objs[u].kind.th == th
  {
    assert Placed(g, th);
    LevelsDiffer(g.objs, th, g.objs[th].openupval);
  }

  lemma SameLife(g: Gc, g': Gc, p: Ptr)
    requires Trims(g, g')
    ensures Alive(g', p) <==> Alive(g, p)
  {
  }

  lemma ClosesMore(g: Gc, g1: Gc, objs': Objs, th: Ptr, k: int)
    requires Core(g) && th in g.objs && g.objs[th].kind.Thread? && 0 <= k < |g.objs[th].openupval|
    requires Trims(g, g1) && Closes(g, g1.objs, th, k) && Closes(g1, objs', th, 1)
    ensures Closes(g, objs', th, k + 1)
  {
    hide Trims, Core;
    var us := g.objs[th].openupval;
    DistinctUpvals(g, th);
    SameLife(g, g1, us[k]);
    assert us[k..][1..] == us[k + 1..] && us[k..][..1] == [us[k]] && us[..k + 1] == us[..k] + [us[k]];
    forall j | 0 <= j < k + 1 ensures ClosedAt(g, objs', us[j]) {
      if j == k {
        assert us[k] !in us[..k];
      } else {
        assert ClosedAt(g, g1.objs, us[j]) && us[j] != us[k];
      }
    }
  }

  lemma SameLevel(g: Gc, objs': Objs, th: Ptr, k: int)
    requires Core(g) && th in g.objs && g.objs[th].kind.Thread? && Closes(g, objs', th, k)
    requires k < |g.objs[th].openupval|
    ensures Level(objs', g.objs[th].openupval[k]) == Level(g.objs, g.objs[th].openupval[k])
    ensures objs'[th].openupval == g.objs[th].openupval[k..]
  {
    hide Core;
    var us := g.objs[th].openupval;
    DistinctUpvals(g, th);
    assert us[k] !in us[..k];
  }

  lemma SplitsAt(g: Gc, objs': Objs, th: Ptr, level: int, k: int)
    requires Core(g) && th in g.objs && g.objs[th].kind.Thread? && Closes(g, objs', th, k)
    requires forall j | 0 <= j < k :: Level(g.objs, g.objs[th].openupval[j]) >= level
    requires forall u <- objs'[th].openupval :: Level(objs', u) < level
    ensures ClosedFrom(g, objs', th, level)
  {
    hide Core;
    var us := g.objs[th].openupval;
    DistinctUpvals(g, th);
    forall j | k <= j < |us| ensures Level(g.objs, us[j]) < level {
      assert us[j] == us[k..][j - k] && us[j] !in us[..k];
      assert us[j] in objs'[th].openupval && objs'[us[j]] == g.objs[us[j]];
    }
    assert Splits(g.objs, us, level, k);
  }

  /** Closing the upvalues of a dead thread keeps those of the live ones. */
  lemma DeadCloses(g: Gc, g': Gc, th: Ptr, level: int)
    requires Core(g) && ClosedFrom(g, g'.objs, th, level) && g.objs[th].kind.Thread? && !Alive(g, th)
    ensures OpenKept(g, g')
  {
    hide Core;
    DistinctUpvals(g, th);
  }

  lemma ThreadDropKept(g: Gc, th: Ptr, i: int)
    requires Core(g) && th in g.objs && g.objs[th].kind.Thread?
    requires 0 <= i < |g.objs[th].openupval| && IsDead(g, g.objs[th].openupval[i])
    ensures OpenKept(g, DropOpen(g, th, i))
  {
    DropOpenKept(g, th, i);
  }
}
