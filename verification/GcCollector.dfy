/** The collector: its phases work on the global state in place. */
module GcCollector {
  import opened GcHeap
  import opened GcMark
  import opened GcSweep
  import opened GcClose
  import opened GcMutate

  const GCSWEEPMAX: nat := 85

  class GlobalState {
    var objs: Objs
    var color: map<Ptr, Color>     // the mark of each object
    var currentwhite: bool
    var gray: seq<Ptr>
    var grayagain: seq<Ptr>
    var allgc: seq<Ptr>
    var strt: seq<seq<Ptr>>
    var uvhead: seq<Ptr>
    var gcstate: Phase
    var sweepstrgc: nat            // how many lists of the string table have been swept
    var sweepgc: Link              // where the sweep of `allgc` goes on
    const mainthread: Ptr
    var roots: seq<Ptr>            // the running thread, the registry, the metatables of basic types

    /** A new state: only the main thread, which is also the running one. */
    constructor (main: Ptr, hashsize: nat, metatables: nat)
      requires main != NULL && hashsize > 0
      ensures Inv() && roots == [main, NULL] + seq(metatables, _ => NULL) && objs == map[main := Obj(Thread, [], [])]
    {
      mainthread := main;
      objs, color, currentwhite := map[main := Obj(Thread, [], [])], map[main := White(false)], false;
      gray, grayagain, allgc, uvhead := [], [], [], [];
      strt := seq(hashsize, _ => []);
      gcstate, sweepstrgc, sweepgc := Pause, 0, NoLink;
      roots := [main, NULL] + seq(metatables, _ => NULL);
      new;
      StartOk(Now());
    }

    ghost function Now(): Gc
      reads this
    {
      Gc(objs, color, currentwhite, gray, grayagain, allgc, strt, uvhead, mainthread, roots)
    }

    // ---------- marking ----------

    /** Marks a white object: it is visited here or put in the gray list. */
    method ReallyMark(o: Ptr, ghost busy: set<Ptr>, ghost R: set<Ptr>)
      requires Marking(Now(), busy) && o in objs && IsWhite(Now(), o) && o in R && KidsClosed(objs, R)
      modifies this`color, this`gray
      ensures Marking(Now(), busy) && Marks(old(Now()), Now(), R) && !IsWhite(Now(), o)
      decreases Whites(Now()), 0
    {
      hide Marking, Marks, KidsClosed, NoneWhite;
      ghost var g := Now();
      Visiting(g, busy, R, o);
      color := color[o := Gray];
      ghost var g1 := Now();
      ToGray(g, g1, busy, o);
      ghost var busy1 := busy + {o};
      GrowsRefl(g1, R);
      match objs[o].kind {
        case ShortStr(_, _) | LongStr | Udata | Closed =>
          MarkRefs(objs[o].refs, busy1, R);
          ghost var g2 := Now();
          MarkedKeeps(g1, g2, R);
          color := color[o := Black];
          ToBlack(g2, Now(), busy, o);
          MarksThrough(g, g1, g2, Now(), R, o);
        case Open(th, level) =>
          MarkRefs([objs[th].refs[level]], busy1, R);
          MarkedKeeps(g1, Now(), R);
          ToNone(Now(), busy, o);
          MarksThrough(g, g1, Now(), Now(), R, o);
        case Closure | Table | Proto | Thread =>
          gray := [o] + gray;
          ToList(g1, Now(), busy, o);
          MarksThrough(g, g1, g1, Now(), R, o);
      }
    }

    /** Marks the values in `vs`. */
    method MarkRefs(vs: seq<Ptr>, ghost busy: set<Ptr>, ghost R: set<Ptr>)
      requires Marking(Now(), busy) && Refs(vs) <= objs.Keys && Refs(vs) <= R && KidsClosed(objs, R)
      modifies this`color, this`gray
      ensures Marking(Now(), busy) && Marks(old(Now()), Now(), R) && NoneWhite(Now(), Refs(vs))
      decreases Whites(Now()), 1
    {
      hide Marking, Marks, KidsClosed;
      ghost var g := Now();
      GrowsRefl(g, R);
      MarkingKeys(g, busy);
      var i := 0;
      while i < |vs|
        invariant 0 <= i <= |vs|
        invariant Marking(Now(), busy) && Marks(g, Now(), R) && Whites(Now()) <= Whites(g)
        invariant NoneWhite(Now(), Refs(vs[..i]))
      {
        ghost var g1 := Now();
        MarkingKeys(g1, busy);
        assert vs[i] != NULL ==> vs[i] in Refs(vs);
        if vs[i] != NULL && color[vs[i]].White? {
          ReallyMark(vs[i], busy, R);
          MarksTrans(g, g1, Now(), R);
          MarkedKeeps(g, Now(), R);
          MarkedNone(g1, Now(), R, Refs(vs[..i]));
        }
        assert Refs(vs[..i + 1]) <= Refs(vs[..i]) + Refs([vs[i]]);
        i := i + 1;
      }
      assert vs[..i] == vs;
    }

    /** Visits one gray object. */
    method PropagateMark(ghost R: set<Ptr>)
      requires Marking(Now(), {}) && gray != [] && Within(Now(), R)
      modifies this`color, this`gray, this`grayagain
      ensures Marking(Now(), {}) && Grows(old(Now()), Now(), R)
      ensures Whites(Now()) < old(Whites(Now())) || (Whites(Now()) == old(Whites(Now())) && |gray| < old(|gray|))
      ensures old(AgainDone(Now())) ==> AgainDone(Now())
    {
      hide Marking, Marks, KidsClosed, NoneWhite, Grows, Within, AgainDone;
      ghost var g := Now();
      FirstGray(g, R);
      var o := gray[0];
      gray := gray[1..];
      color := color[o := Black];
      match objs[o].kind {
        case Thread =>
          grayagain := [o] + grayagain;
          color := color[o := Gray];
        case _ =>
      }
      assert Now() == Taken(g);
      TakenOk(g, R);
      MarkRefs(objs[o].refs, BusyWith(g, o), R);
      MarkedKeeps(Taken(g), Now(), R);
      VisitedOk(g, Now(), R, o);
    }

    method PropagateAll(ghost R: set<Ptr>)
      requires Marking(Now(), {}) && Within(Now(), R)
      modifies this`color, this`gray, this`grayagain
      ensures Marking(Now(), {}) && Grows(old(Now()), Now(), R) && gray == []
      ensures old(AgainDone(Now())) ==> AgainDone(Now())
    {
      ghost var g := Now();
      GrowsRefl(g, R);
      while gray != []
        invariant Marking(Now(), {}) && Grows(g, Now(), R)
        invariant AgainDone(g) ==> AgainDone(Now())
        decreases Whites(Now()), |gray|
      {
        ghost var g1 := Now();
        GrownWithin(g, g1, R);
        PropagateMark(R);
        GrowsTrans(g, g1, Now(), R);
      }
    }

    // ---------- the atomic step ----------

    /** Marks the values of marked open upvalues, whose threads may be dead. */
    method RemarkUpvals(ghost R: set<Ptr>)
      requires Marking(Now(), {}) && Within(Now(), R)
      modifies this`color, this`gray
      ensures Marking(Now(), {}) && Marks(old(Now()), Now(), R) && UpvalsBut(Now(), [])
    {
      hide Marking, Marks, Within, UpvalsBut, Grows, NoneWhite;
      ghost var g := Now();
      GrowsRefl(g, R);
      UpvalsStart(g);
      var i := 0;
      while i < |uvhead|
        invariant 0 <= i <= |uvhead|
        invariant Marking(Now(), {}) && Marks(g, Now(), R) && UpvalsBut(Now(), uvhead[i..])
      {
        ghost var g1 := Now();
        var uv := uvhead[i];
        MarkedWithin(g, g1, R);
        UpvalAt(g1, R, i);
        if color[uv] == Gray {
          var o := objs[uv].kind;
          MarkRefs([objs[o.th].refs[o.level]], {}, R);
          MarksTrans(g, g1, Now(), R);
        } else {
          GrowsRefl(g1, R);
        }
        UpvalStep(g1, Now(), R, i);
        i := i + 1;
      }
      assert uvhead[i..] == [];
    }

    /** Visits once more the objects caught by barriers, and the threads. */
    method RetraverseGrays(ghost R: set<Ptr>)
      requires Marking(Now(), {}) && Within(Now(), R)
      modifies this`color, this`gray, this`grayagain
      ensures Marking(Now(), {}) && Grows(old(Now()), Now(), R) && gray == [] && AgainDone(Now())
    {
      hide Marking, Within, Grows, AgainDone;
      ghost var g := Now();
      PropagateAll(R);
      ghost var g1 := Now();
      GrownWithin(g, g1, R);
      gray, grayagain := grayagain, [];
      Saved(g1, Now());
      ghost var g2 := Now();
      GrowsMore(g1, g2, {}, R);
      GrownWithin(g1, g2, R);
      PropagateAll(R);
      GrowsTrans(g, g1, g2, R);
      GrowsTrans(g, g2, Now(), R);
    }

    /** Completes the marking with the mutator stopped, then flips the white. */
    method AtomicStep(ghost R: set<Ptr>)
      requires Marking(Now(), {}) && Within(Now(), R) && !IsWhite(Now(), mainthread)
      modifies this`color, this`gray, this`grayagain, this`currentwhite
      ensures Marking(Now().(cw := !currentwhite), {}) && AllMarked(Now().(cw := !currentwhite))
      ensures Grows(old(Now()), Now().(cw := !currentwhite), R) && currentwhite == !old(currentwhite)
    {
      hide Marking, Within, Grows, AgainDone, Marks, NoneWhite, UpvalsBut;
      ghost var g := Now();
      RootsIn(g, R);
      MarkRefs(roots, {}, R);
      ghost var g1 := Now();
      MarkedWithin(g, g1, R);
      RemarkUpvals(R);
      ghost var g2 := Now();
      MarksTrans(g, g1, g2, R);
      MarkedWithin(g, g2, R);
      PropagateAll(R);
      ghost var g3 := Now();
      GrownWithin(g2, g3, R);
      RetraverseGrays(R);
      ghost var g4 := Now();
      GrowsTrans(g2, g3, g4, R);
      AtomicEnd(g, g1, g2, g4, R);
      currentwhite := !currentwhite;
    }

    // ---------- sweeping ----------

    function IsDeadNow(p: Ptr): (b: bool)
      requires p in objs && p in color
      reads this
      ensures b <==> IsDead(Now(), p)
    {
      color[p] == White(!currentwhite) && !IsFixed(objs[p])
    }

    /** Frees the `i`-th open upvalue of a thread. */
    method FreeUpval(th: Ptr, i: nat, ghost n: int, ghost pos: int)
      requires Core(Now()) && th in objs && objs[th].kind.Thread? && i < |objs[th].openupval|
              && IsDead(Now(), objs[th].openupval[i])
      modifies this`objs, this`color, this`uvhead
      ensures Now() == DropOpen(old(Now()), th, i) && Sweeps(old(Now()), Now(), n, pos, pos)
    {
      hide Core, Sweeps;
      var us := objs[th].openupval;
      DropOpenSweeps(Now(), th, i, n, pos);
      objs := objs[th := objs[th].(openupval := Without(us, i))];
      uvhead := Remove(uvhead, us[i]);
      objs, color := objs - {us[i]}, color - {us[i]};
    }

    /** Sweeps the open upvalues of a thread. */
    method SweepThread(th: Ptr, ghost n: int, ghost pos: int)
      requires Core(Now()) && th in objs && objs[th].kind.Thread?
      modifies this`objs, this`color, this`uvhead
      ensures Sweeps(old(Now()), Now(), n, pos, pos) && objs.Keys <= old(objs.Keys)
      ensures th in objs && objs[th].kind.Thread? && UpvalsWhite(Now(), th) && OpenKept(old(Now()), Now())
    {
      hide Core, Sweeps, Kids, Cell, OpenKept, Trims;
      ghost var g := Now();
      TrimsRefl(g);
      SameOpen(g, g);
      SweepsRefl(g, n, pos);
      var i := 0;
      while i < |objs[th].openupval|
        invariant th in objs && objs[th].kind.Thread? && 0 <= i <= |objs[th].openupval|
        invariant Core(Now()) && Sweeps(g, Now(), n, pos, pos) && objs.Keys <= g.objs.Keys
        invariant Trims(g, Now()) && OpenKept(g, Now())
        invariant forall j | 0 <= j < i :: NowWhite(Now(), objs[th].openupval[j])
        decreases |objs[th].openupval| - i
      {
        ghost var g1 := Now();
        UpvalHere(g1, th, i);
        var u := objs[th].openupval[i];
        if IsDeadNow(u) {
          ThreadDropKept(g1, th, i);
          FreeUpval(th, i, n, pos);
        } else {
          color := color[u := White(currentwhite)];
          WhitenedSweeps(g1, u, n, pos);
          SameOpen(g1, Now());
          i := i + 1;
        }
        SweepsTrans(g, g1, Now(), n, pos, pos, pos);
        SweepsCore(g1, Now(), n, pos, pos);
        OpenTrans(g, g1, Now());
        TrimsTrans(g, g1, Now());
      }
    }

    /** Sweeps one list of the string table. */
    method SweepStrings(k: nat, ghost pos: int)
      requires Core(Now()) && k < |strt|
      modifies this`objs, this`color, this`strt
      ensures Sweeps(old(Now()), Now(), k, pos, pos) && BucketWhite(Now(), k)
      ensures OpenKept(old(Now()), Now())
    {
      hide Core, Sweeps, Kids, Cell, OpenKept, Trims;
      ghost var g := Now();
      TrimsRefl(g);
      SameOpen(g, g);
      SweepsRefl(g, k, pos);
      var i := 0;
      while i < |strt[k]|
        invariant k < |strt| && 0 <= i <= |strt[k]|
        invariant Core(Now()) && Sweeps(g, Now(), k, pos, pos)
        invariant Trims(g, Now()) && OpenKept(g, Now())
        invariant forall j | 0 <= j < i :: NowWhite(Now(), strt[k][j])
        decreases |strt[k]| - i
      {
        ghost var g1 := Now();
        StringHere(g1, k, i);
        var s := strt[k][i];
        if IsDeadNow(s) {
          DropStringSweeps(g1, k, i, k, pos);
          strt := strt[k := Without(strt[k], i)];
          objs, color := objs - {s}, color - {s};
          DropKept(g1, Now(), s);
        } else {
          color := color[s := White(currentwhite)];
          WhitenedSweeps(g1, s, k, pos);
          SameOpen(g1, Now());
          i := i + 1;
        }
        SweepsTrans(g, g1, Now(), k, pos, pos, pos);
        SweepsCore(g1, Now(), k, pos, pos);
        OpenTrans(g, g1, Now());
        TrimsTrans(g, g1, Now());
      }
    }

    // ---------- closing upvalues ----------

    /** How much of `allgc` the sweep has passed. */
    function Pos(): int
      reads this
    {
      if sweepgc.At? then sweepgc.i else |allgc|
    }

    ghost predicate CanClose()
      reads this
    {
      && Core(Now()) && gcstate != Atomic && 0 <= Pos() <= |allgc|
      && (gcstate == Propagate ==> Marking(Now(), {}))
    }

    /** A new object goes to the front of `allgc`, behind the sweep if it has started. */
    method LinkFirst(o: Ptr)
      modifies this`allgc, this`sweepgc
      ensures allgc == [o] + old(allgc) && Pushed(old(allgc), old(sweepgc), allgc, sweepgc)
    {
      ghost var before := allgc;
      allgc := [o] + allgc;
      assert allgc[1..] == before;
      if sweepgc.At? && sweepgc.i > 0 {
        sweepgc := At(sweepgc.i + 1);
      }
    }

    /** The first open upvalue of a thread takes its value with it. */
    method TakeValue(th: Ptr) returns (uv: Ptr, value: Ptr)
      requires Core(Now()) && th in objs && objs[th].kind.Thread? && objs[th].openupval != []
      modifies this`objs, this`uvhead, this`allgc, this`sweepgc
      ensures uv == old(objs[th].openupval[0]) && Now() == CloseHead(old(Now()), th)
      ensures uv in objs && uv in color && uv != th && objs[uv] == Obj(Closed, [value], [])
      ensures th in objs && objs[th] == old(objs[th].(openupval := objs[th].openupval[1..]))
      ensures Pushed(old(allgc), old(sweepgc), allgc, sweepgc)
      ensures objs.Keys == old(objs.Keys)
    {
      hide Core, Kids;
      ghost var g := Now();
      uv := objs[th].openupval[0];
      UpvalHere(g, th, 0);
      UpvalCell(g, th);
      value := objs[th].refs[objs[uv].kind.level];
      objs := objs[th := objs[th].(openupval := objs[th].openupval[1..])];
      objs := objs[uv := Obj(Closed, [value], [])];
      uvhead := Remove(uvhead, uv);
      LinkFirst(uv);
    }

    /** While marking, a closed upvalue that was gray becomes black and marks its value. */
    method Blacken(uv: Ptr, value: Ptr, ghost th: Ptr, ghost g: Gc)
      requires Marking(g, {}) && th in g.objs && g.objs[th].kind.Thread? && g.objs[th].openupval != []
      requires uv == g.objs[th].openupval[0] && Now() == CloseHead(g, th) && uv in objs && uv in color
      requires objs[uv] == Obj(Closed, [value], [])
      modifies this`color, this`gray
      ensures Core(Now()) && Marking(Now(), {}) && Trims(g, Now())
      ensures forall p | p in g.objs && !IsWhite(g, p) :: !IsWhite(Now(), p)
    {
      hide Marking, Core, Trims, Kids, Cell, Remove;
      ghost var g1 := Now();
      CloseHeadMarking(g, th, uv);
      if color[uv] == Gray {
        color := color[uv := Black];
        CheckUpval(g, g1, uv, value);
      }
      MarkingCore(Now(), {});
    }

    /** While sweeping, it becomes white. */
    method Whiten(uv: Ptr, ghost th: Ptr, ghost g: Gc, ghost n: int, ghost pos: int)
      requires Core(g) && th in g.objs && g.objs[th].kind.Thread? && g.objs[th].openupval != []
      requires uv == g.objs[th].openupval[0] && Now() == CloseHead(g, th) && Alive(g, uv)
      requires uv in color && (color[uv] == Gray || color[uv] == White(currentwhite))
      requires Pos() == pos + 1 || Pos() == pos == 0
      modifies this`color
      ensures Core(Now()) && Sweeps(g, Now(), n, pos, Pos()) && Trims(g, Now())
    {
      hide Core, Sweeps, Trims, Kids, Cell, Remove;
      ghost var g1 := Now();
      if color[uv] == Gray {
        color := color[uv := White(currentwhite)];
      }
      assert Now() == Whitened(g1, uv);
      CloseHeadSweeps(g, th, Now(), n, pos, Pos());
      SweepsCore(g, Now(), n, pos, Pos());
    }

    /** Closes the first open upvalue of a thread. */
    method CloseUpval(th: Ptr, ghost n: int)
      requires CanClose() && th in objs && objs[th].kind.Thread? && objs[th].openupval != []
      requires Alive(Now(), objs[th].openupval[0])
      modifies this`objs, this`color, this`gray, this`uvhead, this`allgc, this`sweepgc
      ensures CanClose() && Trims(old(Now()), Now())
      ensures th in objs && objs[th] == old(objs[th].(openupval := objs[th].openupval[1..]))
      ensures gcstate != Propagate ==> Sweeps(old(Now()), Now(), n, old(Pos()), Pos())
      ensures forall p | p in old(objs) && !old(IsWhite(Now(), p)) && gcstate == Propagate :: !IsWhite(Now(), p)
      ensures objs.Keys == old(objs.Keys) && Pushed(old(allgc), old(sweepgc), allgc, sweepgc)
      ensures objs == CloseHead(old(Now()), th).objs
    {
      hide Marking, Core, Sweeps, Trims, Cell, Remove, IsWhite;
      ghost var g, pos := Now(), Pos();
      LiveUpval(g, th);
      var uv, value := TakeValue(th);
      if gcstate == Propagate {
        Blacken(uv, value, th, g);
      } else {
        Whiten(uv, th, g, n, pos);
      }
    }

    /** The value of an upvalue that was gray when it was closed is marked at once. */
    method CheckUpval(ghost g: Gc, ghost g1: Gc, uv: Ptr, value: Ptr)
      requires uv in g1.objs && uv in g1.color && Marking(g1, {uv}) && Trims(g, g1)
              && Now() == g1.(color := g1.color[uv := Black])
      requires objs[uv].kind.Closed? && objs[uv].refs == [value]
      modifies this`color, this`gray
      ensures Marking(Now(), {}) && Trims(g, Now())
      ensures forall p | p in g1.objs && !IsWhite(g1, p) :: !IsWhite(Now(), p)
    {
      hide Marking, Core, Trims, Marks;
      BlackWhileBusy(g1, uv);
      ghost var g2 := Now();
      AllKeys(g2, uv);
      MarkRefs([value], {uv}, objs.Keys);
      MarkedKeeps(g2, Now(), objs.Keys);
      VisitDone(Now(), uv);
      MarkingTrims(g1, Now(), {uv}, {});
      TrimsTrans(g, g1, Now());
    }

    /** The first open upvalue of a thread is freed if it is dead and closed otherwise. */
    method CloseFirst(th: Ptr, ghost n: int)
      requires CanClose() && th in objs && objs[th].kind.Thread? && objs[th].openupval != []
      modifies this`objs, this`color, this`gray, this`uvhead, this`allgc, this`sweepgc
      ensures CanClose() && Trims(old(Now()), Now())
      ensures th in objs && objs[th] == old(objs[th].(openupval := objs[th].openupval[1..]))
      ensures gcstate != Propagate ==> Sweeps(old(Now()), Now(), n, old(Pos()), Pos())
      ensures gcstate == Propagate ==> objs.Keys == old(objs.Keys)
      ensures forall p | p in old(objs) && !old(IsWhite(Now(), p)) && gcstate == Propagate :: !IsWhite(Now(), p)
      ensures objs.Keys <= old(objs.Keys) && Pushed(old(allgc), old(sweepgc), allgc, sweepgc)
      ensures Closes(old(Now()), objs, th, 1)
    {
      hide Marking, Core, Sweeps, Trims, Kids, Cell, UpvalList, Remove, Intact, DropOpen, Without, Closes, CloseHead;
      ghost var g1, pos1 := Now(), Pos();
      HeadCloses(g1, th);
      var uv := objs[th].openupval[0];
      UpvalHere(g1, th, 0);
      if IsDeadNow(uv) {
        NoneDead(g1, gcstate, uv);
        DropHead(g1, th);
        FreeUpval(th, 0, n, pos1);
        SweepsCore(g1, Now(), n, pos1, pos1);
      } else {
        CloseUpval(th, n);
      }
    }

    /** Closes the open upvalues of a thread from stack level `level` up. */
    method CloseUpvals(th: Ptr, level: int, ghost n: int)
      requires CanClose() && th in objs && objs[th].kind.Thread?
      modifies this`objs, this`color, this`gray, this`uvhead, this`allgc, this`sweepgc
      ensures CanClose() && Trims(old(Now()), Now())
      ensures th in objs && objs[th].kind.Thread? && objs[th].refs == old(objs[th].refs)
      ensures forall u <- objs[th].openupval :: Level(objs, u) < level
      ensures gcstate != Propagate ==> Sweeps(old(Now()), Now(), n, old(Pos()), Pos())
      ensures forall p | p in old(objs) && !old(IsWhite(Now(), p)) && gcstate == Propagate :: !IsWhite(Now(), p)
      ensures objs.Keys <= old(objs.Keys) && Pushed(old(allgc), old(sweepgc), allgc, sweepgc)
      ensures ClosedFrom(old(Now()), objs, th, level)
    {
      hide Marking, Core, Sweeps, Trims, Kids, Cell, UpvalList, Remove, Intact, Pushed, Closes, ClosedFrom;
      ghost var g, pos, link, k := Now(), Pos(), sweepgc, 0;
      ClosesNone(g, th);
      TrimsRefl(g);
      PushedRefl(allgc, sweepgc);
      SweepsRefl(g, n, pos);
      while objs[th].openupval != [] && Level(objs, objs[th].openupval[0]) >= level
        invariant th in objs && objs[th].kind.Thread? && objs[th].refs == g.objs[th].refs
        invariant CanClose() && Trims(g, Now()) && objs.Keys <= g.objs.Keys
        invariant gcstate == Propagate ==> objs.Keys == g.objs.Keys
        invariant Pushed(g.allgc, link, allgc, sweepgc)
        invariant gcstate != Propagate ==> Sweeps(g, Now(), n, pos, Pos())
        invariant forall p | p in g.objs && !IsWhite(g, p) && gcstate == Propagate :: !IsWhite(Now(), p)
        invariant 0 <= k <= |g.objs[th].openupval| && objs[th].openupval == g.objs[th].openupval[k..]
        invariant Closes(g, objs, th, k)
        invariant forall j | 0 <= j < k :: Level(g.objs, g.objs[th].openupval[j]) >= level
        decreases |objs[th].openupval|
      {
        ghost var g1, pos1, link1 := Now(), Pos(), sweepgc;
        SameLevel(g, objs, th, k);
        CloseFirst(th, n);
        ClosesMore(g, g1, objs, th, k);
        k := k + 1;
        PushedTrans(g.allgc, link, g1.allgc, link1, allgc, sweepgc);
        TrimsTrans(g, g1, Now());
        if gcstate != Propagate { SweepsTrans(g, g1, Now(), n, pos, pos1, Pos()); }
      }
      BelowLevel(Now(), th, level);
      SplitsAt(g, objs, th, level, k);
    }

    // ---------- sweeping allgc ----------

    /** Frees a dead object of `allgc` that the sweep has not passed. */
    method Unlink(i: int, ghost n: int)
      requires Core(Now()) && 0 <= i < |allgc| && IsDead(Now(), allgc[i]) && Pos() <= i
      requires allgc[i] in objs && objs[allgc[i]].openupval == []
      modifies this`objs, this`color, this`allgc
      ensures Core(Now()) && (sweepgc.At? ==> Sweeps(old(Now()), Now(), n, old(Pos()), old(Pos())))
      ensures |allgc| == old(|allgc|) - 1 && objs.Keys == old(objs.Keys) - {old(allgc[i])}
      ensures OpenKept(old(Now()), Now())
    {
      hide OpenKept, Core, Sweeps, Trims, Kids, Cell;
      ghost var g, pos := Now(), Pos();
      var o := allgc[i];
      DropAtSweeps(g, i, n, pos);
      allgc := Without(allgc, i);
      objs, color := objs - {o}, color - {o};
      DropKept(g, Now(), o);
    }

    /** Frees the object of `allgc` that the sweep has reached; a thread first closes its upvalues. */
    method FreeObj(ghost n: int)
      requires CanClose() && gcstate != Propagate && sweepgc.At? && sweepgc.i < |allgc|
              && IsDead(Now(), allgc[sweepgc.i])
      modifies this`objs, this`color, this`gray, this`uvhead, this`allgc, this`sweepgc
      ensures CanClose() && sweepgc.At? && Sweeps(old(Now()), Now(), n, old(Pos()), Pos())
      ensures objs.Keys < old(objs.Keys) && (Pos() == 0 <==> old(Pos()) == 0)
      ensures Pos() > 0 ==> |allgc| - Pos() == old(|allgc| - Pos()) - 1
      ensures OpenKept(old(Now()), Now())
    {
      hide OpenKept, ClosedFrom, Marking, Core, Sweeps, Trims, Kids, Cell, ListsOk;
      ghost var g, pos := Now(), Pos();
      var i := sweepgc.i;
      var o, len := allgc[i], |allgc|;
      InAllgc(g, i);
      SweepsRefl(g, n, pos);
      TrimsRefl(g);
      SameOpen(g, g);
      if objs[o].kind.Thread? {
        CloseUpvals(o, 0, n);
        NoUpvals(Now(), o);
        StillDead(g, Now(), o);
        DeadCloses(g, Now(), o, 0);
        i := i + (|allgc| - len);
        assert allgc[i] == allgc[|allgc| - len..][i - (|allgc| - len)];
      }
      ghost var g1, pos1 := Now(), Pos();
      Unlink(i, n);
      SweepsTrans(g, g1, Now(), n, pos, pos1, pos1);
      SweepsCore(g1, Now(), n, pos1, pos1);
      OpenTrans(g, g1, Now());
    }

    /** Sweeps at most `count` objects of `allgc`. */
    method SweepList(count: nat, ghost n: int)
      requires CanClose() && gcstate != Propagate && sweepgc.At?
      modifies this`objs, this`color, this`gray, this`uvhead, this`allgc, this`sweepgc
      ensures CanClose() && Sweeps(old(Now()), Now(), n, old(Pos()), Pos()) && objs.Keys <= old(objs.Keys)
      ensures count > 0 && sweepgc.At? && Pos() == 0 ==> objs.Keys < old(objs.Keys)
      ensures old(Pos()) > 0 ==> Pos() > 0 && |allgc| - Pos() <= old(|allgc| - Pos())
      ensures old(Pos()) > 0 && count > 0 && sweepgc.At? ==> |allgc| - Pos() < old(|allgc| - Pos())
      ensures OpenKept(old(Now()), Now())
    {
      hide OpenKept, Marking, Core, Sweeps, Trims, Kids, Cell;
      ghost var g, pos := Now(), Pos();
      TrimsRefl(g);
      SameOpen(g, g);
      SweepsRefl(g, n, pos);
      var left := count;
      while sweepgc.i < |allgc| && left > 0
        invariant CanClose() && sweepgc.At? && Sweeps(g, Now(), n, pos, Pos()) && 0 <= left <= count
                && objs.Keys <= g.objs.Keys
        invariant Trims(g, Now()) && OpenKept(g, Now())
        invariant left < count && Pos() == 0 ==> objs.Keys < g.objs.Keys
        invariant pos > 0 ==> Pos() > 0 && |allgc| - Pos() == |g.allgc| - pos - (count - left)
        decreases left
      {
        ghost var g1, pos1 := Now(), Pos();
        var curr := allgc[sweepgc.i];
        InAllgc(g1, sweepgc.i);
        if IsDeadNow(curr) {
          FreeObj(n);
        } else {
          SweepLive(curr, n);
        }
        SweepsTrans(g, g1, Now(), n, pos, pos1, Pos());
        SweepsCore(g1, Now(), n, pos1, Pos());
        OpenTrans(g, g1, Now());
        TrimsTrans(g, g1, Now());
        left := left - 1;
      }
      if sweepgc.i == |allgc| {
        sweepgc := NoLink;
      }
    }

    /** Makes the object that the sweep has reached white, for a thread also its upvalues, and goes on. */
    method SweepLive(curr: Ptr, ghost n: int)
      requires CanClose() && gcstate != Propagate && sweepgc.At? && sweepgc.i < |allgc| && curr == allgc[sweepgc.i]
              && Alive(Now(), curr)
      modifies this`objs, this`color, this`uvhead, this`sweepgc
      ensures CanClose() && sweepgc == At(old(sweepgc.i) + 1) && allgc == old(allgc) && objs.Keys <= old(objs.Keys)
      ensures Sweeps(old(Now()), Now(), n, old(Pos()), Pos()) && OpenKept(old(Now()), Now())
    {
      hide OpenKept, Marking, Core, Sweeps, Trims, Kids, Cell;
      ghost var g, pos := Now(), Pos();
      InAllgc(g, pos);
      SweepsRefl(g, n, pos);
      SameOpen(g, g);
      if objs[curr].kind.Thread? {
        SweepThread(curr, n, pos);
      }
      ghost var g1 := Now();
      SweepsCore(g, g1, n, pos, pos);
      TrimsAlive(g, g1, curr);
      color := color[curr := White(currentwhite)];
      WhitenedSweeps(g1, curr, n, pos);
      SameOpen(g1, Now());
      OpenTrans(g, g1, Now());
      SweepsTrans(g, g1, Now(), n, pos, pos, pos);
      SweptAfter(g1, Now(), curr);
      sweepgc := At(sweepgc.i + 1);
      SweepsOne(g, Now(), n, pos);
    }

    // ---------- the phases of a cycle ----------

    /** What holds between two steps. */
    ghost predicate Inv()
      reads this
    {
      && Core(Now()) && 0 <= Pos() <= |allgc| && (sweepgc.At? ==> sweepgc.i > 0)
      && (gcstate == Propagate || gcstate == Pause ==> sweepgc == NoLink)
      && PhaseOk(Now(), gcstate, sweepstrgc, Pos())
    }

    /** Prepares the sweep: the link into `allgc` is moved past its first live object, so that objects
        created from now on are not swept. */
    method EnterSweep()
      requires Core(Now())
      modifies this
      ensures Inv() && gcstate == SweepString && Trims(old(Now()), Now()) && OpenKept(old(Now()), Now())
    {
      hide OpenKept, Marking, Core, Sweeps, Trims, Kids, Cell;
      ghost var g := Now();
      gcstate := SweepString;
      sweepstrgc := 0;
      sweepgc := At(0);
      TrimsRefl(g);
      ghost var g0 := Now();
      SameOpen(g, g0);
      SweepList(1, 0);
      SweepsCore(g, Now(), 0, 0, Pos());
      OpenTrans(g, g0, Now());
      SweepsSwept(g, Now(), 0, 0, Pos());
      while sweepgc == At(0)
        invariant CanClose() && gcstate == SweepString && sweepstrgc == 0 && Trims(g, Now()) && Swept(Now(), 0, Pos())
        invariant OpenKept(g, Now())
        decreases if sweepgc == At(0) then 1 else 0, objs.Keys
      {
        ghost var g1, pos1 := Now(), Pos();
        SweepList(1, 0);
        SweepsCore(g1, Now(), 0, pos1, Pos());
        SweepsSwept(g1, Now(), 0, pos1, Pos());
        OpenTrans(g, g1, Now());
        TrimsTrans(g, g1, Now());
      }
    }

    /** Starts a cycle: the lists are emptied and the roots marked.  The running thread is left to the atomic
        step. */
    method RestartCollection(ghost R: set<Ptr>)
      requires Inv() && gcstate == Pause && KidsClosed(objs, R) && RootSet(Now()) <= R
      modifies this`color, this`gray, this`grayagain
      ensures Marking(Now(), {}) && !IsWhite(Now(), mainthread) && Within(Now(), R)
    {
      hide Core, Sweeps, Swept, Trims, Kids, Cell, Shape;
      ghost var g := Now();
      SweepDone(g);
      gray, grayagain := [], [];
      PauseMarking(g, Now());
      MainAlive(g);
      StartRoots(g);
      MarkRefs([mainthread] + Others(roots), {}, R);
    }

    /** Sweeps some lists of the string table. */
    method SweepStringStep()
      requires Inv() && gcstate == SweepString
      modifies this`objs, this`color, this`strt, this`sweepstrgc, this`gcstate
      ensures Inv() && Trims(old(Now()), Now()) && OpenKept(old(Now()), Now())
      ensures gcstate == SweepUdata
              || (gcstate == SweepString && sweepstrgc > old(sweepstrgc) && |strt| == old(|strt|)
              && sweepstrgc < |strt|)
    {
      hide OpenKept, Core, Sweeps, Trims, Kids, Cell, Swept;
      ghost var g, pos := Now(), Pos();
      TrimsRefl(g);
      SameOpen(g, g);
      var i := 0;
      while i < GCSWEEPMAX && sweepstrgc + i < |strt|
        invariant 0 <= i <= GCSWEEPMAX && Core(Now()) && Trims(g, Now()) && Swept(Now(), sweepstrgc + i, pos)
                && |strt| == |g.strt|
        invariant OpenKept(g, Now())
        invariant sweepstrgc == old(sweepstrgc) && gcstate == SweepString
      {
        ghost var g1 := Now();
        SweepStrings(sweepstrgc + i, pos);
        SweepsCore(g1, Now(), sweepstrgc + i, pos, pos);
        SweepsSwept(g1, Now(), sweepstrgc + i, pos, pos);
        SweptMore(Now(), sweepstrgc + i, pos);
        OpenTrans(g, g1, Now());
        TrimsTrans(g, g1, Now());
        i := i + 1;
      }
      sweepstrgc := sweepstrgc + i;
      if sweepstrgc >= |strt| {
        SweptBefore(Now(), sweepstrgc, |strt|, pos);
        gcstate := SweepUdata;
      }
    }

    /** Sweeps some objects of `allgc`, or at last the main thread. */
    method SweepStep()
      requires Inv() && gcstate == Sweep
      modifies this`objs, this`color, this`gray, this`uvhead, this`allgc, this`sweepgc, this`gcstate
      ensures Inv() && Trims(old(Now()), Now()) && OpenKept(old(Now()), Now())
      ensures (gcstate == Pause && AllNowWhite(Now())) || (gcstate == Sweep && |allgc| - Pos() < old(|allgc| - Pos()))
              || (gcstate == Sweep && sweepgc == NoLink && old(sweepgc.At?))
    {
      hide OpenKept, Core, Sweeps, Trims, Kids, Cell, Swept;
      ghost var g, pos := Now(), Pos();
      if sweepgc.At? {
        SweepList(GCSWEEPMAX, |strt|);
        SweepsCore(g, Now(), |g.strt|, pos, Pos());
        SweepsSwept(g, Now(), |g.strt|, pos, Pos());
      } else {
        MainAlive(g);
        SweepThread(mainthread, |strt|, pos);
        ghost var g1 := Now();
        SweepsCore(g, g1, |g.strt|, pos, pos);
        MainAlive(g1);
        color := color[mainthread := White(currentwhite)];
        WhitenedSweeps(g1, mainthread, |strt|, pos);
        SweptAfter(g1, Now(), mainthread);
        SweepsSwept(g, g1, |g.strt|, pos, pos);
        SweepsSwept(g1, Now(), |g.strt|, pos, pos);
        SweepsCore(g1, Now(), |g.strt|, pos, pos);
        SameOpen(g1, Now());
        OpenTrans(g, g1, Now());
        TrimsTrans(g, g1, Now());
        gcstate := Pause;
        SweepDone(Now());
      }
    }

    ghost function Rank(): nat
      reads this
    {
      match gcstate
      case Propagate => 4
      case Atomic => 4
      case SweepString => 3
      case SweepUdata => 2
      case Sweep => 1
      case Pause => 0
    }

    ghost function WhitesLeft(): set<Ptr>
      reads this
    {
      if gcstate == Propagate then Whites(Now()) else {}
    }

    ghost function ItemsLeft(): nat
      reads this
    {
      match gcstate
      case Propagate => |gray|
      case SweepString => if sweepstrgc < |strt| then |strt| - sweepstrgc else 0
      case Sweep => if sweepgc.At? && sweepgc.i <= |allgc| then |allgc| - sweepgc.i + 1 else 0
      case _ => 0
    }

    /** The cycle has come closer to its end. */
    twostate predicate Progress()
      reads this
    {
      || Rank() < old(Rank())
      || (Rank() == old(Rank()) && WhitesLeft() < old(WhitesLeft()))
      || (Rank() == old(Rank()) && WhitesLeft() == old(WhitesLeft()) && ItemsLeft() < old(ItemsLeft()))
    }

    /** One step of the propagate phase: a gray object is visited, or marking ends and sweeping begins. */
    method PropagateStep(ghost R: set<Ptr>)
      requires Inv() && gcstate == Propagate && Within(Now(), R)
      modifies this
      ensures Inv() && Preserves(old(Now()), Now())
      ensures gcstate == Propagate ==> Within(Now(), R) && Progress()
      ensures gcstate != Propagate ==> gcstate == SweepString && OnlyAlive(Now(), R)
    {
      hide OpenKept, Core, Sweeps, Trims, Kids, Cell, Swept, Shape, Marking, Within, OnlyAlive, Preserves, Grows;
      ghost var g := Now();
      CoreClosed(g);
      if gray != [] {
        PropagateMark(R);
        GrownWithin(g, Now(), R);
        GrownObjs(g, Now(), R);
        GrownMarked(g, Now(), R, mainthread);
        PreservesSame(g, Now());
        MarkingCore(Now(), {});
      } else {
        gcstate := Atomic;
        AtomicStep(R);
        ghost var g1 := Now().(cw := !currentwhite);
        GrownWithin(g, g1, R);
        GrownObjs(g, g1, R);
        FlippedCore(g1, Now(), R);
        PreservesSame(g, Now());
        ghost var g2 := Now();
        EnterSweep();
        CoreClosed(g2);
        CoreClosed(Now());
        PreservesTrims(g2, Now());
        PreservesTrans(g, g2, Now());
        TrimsOnly(g2, Now(), R);
      }
    }

    /** One step of the collector. */
    method SingleStep(ghost R: set<Ptr>)
      requires Inv()
      requires gcstate == Propagate ==> Within(Now(), R)
      requires gcstate == Pause ==> KidsClosed(objs, R) && RootSet(Now()) <= R
      modifies this
      ensures Inv() && Preserves(old(Now()), Now())
      ensures old(gcstate) == Pause ==> gcstate == Propagate && Within(Now(), R)
      ensures old(gcstate) != Pause ==> Progress()
      ensures old(gcstate) == Propagate && gcstate == Propagate ==> Within(Now(), R)
      ensures old(gcstate) == Propagate && gcstate != Propagate ==> OnlyAlive(Now(), R)
      ensures old(gcstate) != Pause && old(gcstate) != Propagate ==> Trims(old(Now()), Now()) && gcstate != Propagate
      ensures old(gcstate) != Pause && gcstate == Pause ==> AllNowWhite(Now())
    {
      hide OpenKept, Core, Sweeps, Trims, Kids, Cell, Swept, Shape, Marking, Within, OnlyAlive, Preserves, AllNowWhite,
          RootSet;
      ghost var g := Now();
      CoreClosed(g);
      match gcstate {
        case Pause =>
          RestartCollection(R);
          MarkingCore(Now(), {});
          gcstate := Propagate;
          PreservesSame(g, Now());
        case Propagate =>
          PropagateStep(R);
        case Atomic =>
        case SweepString =>
          SweepStringStep();
          CoreClosed(Now());
          PreservesTrims(g, Now());
        case SweepUdata =>
          gcstate := Sweep;
          PreservesSame(g, Now());
          TrimsRefl(g);
        case Sweep =>
          SweepStep();
          CoreClosed(Now());
          PreservesTrims(g, Now());
      }
    }

    /** Runs the collector until the sweep under way is finished. */
    method FinishSweep()
      requires Inv() && gcstate != Propagate
      modifies this
      ensures Inv() && gcstate == Pause && Preserves(old(Now()), Now())
    {
      hide OpenKept, Core, Sweeps, Trims, Kids, Cell, Swept, Shape, Marking, Within, OnlyAlive, Preserves, AllNowWhite;
      ghost var g := Now();
      CoreClosed(g);
      PreservesSame(g, g);
      while gcstate != Pause
        invariant Inv() && gcstate != Propagate && Preserves(g, Now())
        decreases Rank(), WhitesLeft(), ItemsLeft()
      {
        ghost var g1 := Now();
        SingleStep({});
        PreservesTrans(g, g1, Now());
      }
    }

    /** Runs a whole cycle: afterwards only `R` and fixed strings are left. */
    method RunCycle(ghost R: set<Ptr>)
      requires Inv() && gcstate == Pause && KidsClosed(objs, R) && RootSet(Now()) <= R
      modifies this
      ensures Inv() && gcstate == Pause && Preserves(old(Now()), Now()) && AllNowWhite(Now()) && OnlyAlive(Now(), R)
    {
      hide OpenKept, Core, Sweeps, Trims, Kids, Cell, Swept, Shape, Marking, Within, OnlyAlive, Preserves, AllNowWhite,
          RootSet;
      ghost var g := Now();
      SingleStep(R);
      while gcstate != Pause
        invariant Inv() && Preserves(g, Now())
        invariant if gcstate == Propagate then Within(Now(), R) else OnlyAlive(Now(), R)
        invariant gcstate == Pause ==> AllNowWhite(Now())
        decreases Rank(), WhitesLeft(), ItemsLeft()
      {
        ghost var g1, phase := Now(), gcstate;
        SingleStep(R);
        PreservesTrans(g, g1, Now());
        if phase != Propagate { TrimsOnly(g1, Now(), R); }
      }
    }

    /** A full collection, started in any phase: exactly the reachable objects and the fixed strings
        are left, and all have the current white. */
    method FullGC()
      requires Inv()
      modifies this
      ensures Inv() && gcstate == Pause && AllNowWhite(Now()) && Preserves(old(Now()), Now())
      ensures forall p :: p in objs <==> old(Reachable(Now(), p)) || (p in old(objs) && IsFixed(old(objs)[p]))
      ensures forall p :: old(Reachable(Now(), p)) <==> old(Linked(Now(), p))
    {
      hide OpenKept, Core, Sweeps, Trims, Kids, Cell, Swept, Shape, Marking, Within, OnlyAlive, Preserves, AllNowWhite,
          RootSet;
      hide Linked;
      ghost var g := Now();
      CoreClosed(g);
      AllLinked(g);
      PreservesSame(g, g);
      if gcstate == Propagate {
        EnterSweep();
        CoreClosed(Now());
        PreservesTrims(g, Now());
      }
      ghost var g1 := Now();
      FinishSweep();
      ghost var g2 := Now();
      PreservesTrans(g, g1, g2);
      CoreClosed(g2);
      AliveClosedIsSafe(g2);
      ghost var R := ReachIn(g2, AliveSet(g2));
      ReachClosed(g2, AliveSet(g2));
      ClosedParts(g2, R);
      RunCycle(R);
      PreservesTrans(g, g2, Now());
      CoreClosed(Now());
      OnlyReachable(g, g2, Now(), R);
    }

    // ---------- what the program does between steps ----------

    /** The program has changed the heap; in the mark phase the barrier has not run yet. */
    ghost predicate Between(g: Gc, n: int, pos: int, o: Ptr, v: Ptr)
      reads this
    {
      && Harmless(g, Now(), 0) && PhaseOk(g, gcstate, n, pos) && |strt| == |g.strt| && |allgc| == |g.allgc|
      && o in objs && o in color && Alive(Now(), o)
      && (gcstate == Propagate ==> Torn(Now(), o, v) && !IsWhite(Now(), mainthread))
      && (v == NULL || Alive(Now(), v))
    }

    /** The barrier that moves the collector forward: in the mark phase the white object is marked, in
        the sweep phase the black one becomes white. */
    method Barrier(o: Ptr, v: Ptr, ghost g: Gc, ghost n: int, ghost pos: int)
      requires Between(g, n, pos, o, v)
      modifies this`color, this`gray
      ensures Core(Now()) && PhaseOk(Now(), gcstate, n, pos)
      ensures gcstate != Propagate ==>
              Now() == (if v != NULL && old(IsWhite(Now(), v)) && old(color[o]) == Black then Whitened(old(Now()), o)
              else old(Now()))
      ensures gcstate == Propagate ==> Marks(old(Now()), Now(), objs.Keys)
    {
      hide Core, Kids, Marking, Marks, Swept, Harmless, Torn, NoneWhite;
      ghost var g1 := Now();
      HarmlessCore(g, g1, 0);
      GrowsRefl(g1, objs.Keys);
      if v != NULL && color[v].White? && color[o] == Black {
        if gcstate == Propagate {
          TornBusy(g1, o, v);
          ReallyMark(v, {o}, objs.Keys);
          TornForward(g1, Now(), o, v);
          MarkedKeeps(g1, Now(), objs.Keys);
          MarkingCore(Now(), {});
        } else {
          color := color[o := White(currentwhite)];
          WhitenedHarmless(g1, o);
          HarmlessTrans(g, g1, Now(), 0, 0);
          PhaseKept(g, Now(), gcstate, n, pos, 0);
          HarmlessCore(g, Now(), 0);
        }
      } else {
        if gcstate == Propagate {
          TornMended(g1, o, v);
        } else {
          PhaseKept(g, g1, gcstate, n, pos, 0);
        }
      }
    }

    /** The barrier that moves the collector back: the black object is to be visited again. */
    method BarrierBack(o: Ptr, v: Ptr, ghost g: Gc, ghost n: int, ghost pos: int)
      requires Between(g, n, pos, o, v) && Listable(objs[o].kind)
      modifies this`color, this`grayagain
      ensures Core(Now()) && PhaseOk(Now(), gcstate, n, pos)
      ensures Now() == if v != NULL && old(IsWhite(Now(), v)) && old(color[o]) == Black then SentBack(old(Now()), o)
              else old(Now())
    {
      hide Core, Kids, Marking, Swept, Harmless, Torn, NoneWhite;
      ghost var g1 := Now();
      HarmlessCore(g, g1, 0);
      if v != NULL && color[v].White? && color[o] == Black {
        color := color[o := Gray];
        grayagain := [o] + grayagain;
        SentBackHarmless(g1, o);
        HarmlessTrans(g, g1, Now(), 0, 0);
        HarmlessCore(g, Now(), 0);
        if gcstate == Propagate {
          TornBusy(g1, o, v);
          SentBackMarking(g1, o);
        } else {
          PhaseKept(g, Now(), gcstate, n, pos, 0);
        }
      } else {
        if gcstate == Propagate {
          TornMended(g1, o, v);
        } else {
          PhaseKept(g, g1, gcstate, n, pos, 0);
        }
      }
    }

    /** Stores a reference in an object that can hold one: threads need no barrier, tables the one that
        moves back, all others the one that moves forward. */
    method Store(o: Ptr, i: nat, v: Ptr)
      requires Inv() && Alive(Now(), o) && HoldsValues(objs[o].kind) && i <= |objs[o].refs|
              && (v == NULL || Alive(Now(), v))
      modifies this`objs, this`color, this`gray, this`grayagain
      ensures Inv() && objs == old(objs[o := objs[o].(refs := Put(objs[o].refs, i, v))])
    {
      hide Core, Kids, Marking, Swept, Harmless, Torn, NoneWhite, Marks;
      ghost var g, n, pos := Now(), sweepstrgc as int, Pos();
      ghost var refs := Put(objs[o].refs, i, v);
      PutIn(objs[o].refs, i, v);
      CanStore(g, o, i, v);
      objs := objs[o := objs[o].(refs := Put(objs[o].refs, i, v))];
      WrittenHarmless(g, o, refs);
      if gcstate == Propagate { WrittenTorn(g, o, refs, v); }
      if objs[o].kind.Thread? {
        HarmlessCore(g, Now(), 0);
        if gcstate == Propagate {
          ThreadNotBlack(g, o);
          TornMended(Now(), o, v);
        } else {
          PhaseKept(g, Now(), gcstate, n, pos, 0);
        }
      } else if objs[o].kind.Table? {
        BarrierBack(o, v, g, n, pos);
      } else {
        Barrier(o, v, g, n, pos);
        if gcstate == Propagate { MarkedKeeps(Written(g, o, refs), Now(), objs.Keys); }
      }
    }

    /** Assigns a slot of a thread's stack, without any barrier.  The thread may be dead. */
    method SetSlot(th: Ptr, level: nat, v: Ptr)
      requires Inv() && th in objs && objs[th].kind.Thread? && level <= |objs[th].refs|
      requires v == NULL || Alive(Now(), v)
      modifies this`objs
      ensures Inv() && objs == old(objs[th := objs[th].(refs := Put(objs[th].refs, level, v))])
    {
      hide Core, Kids, Marking, Swept, Harmless, Torn, NoneWhite;
      ghost var g := Now();
      ghost var refs := Put(objs[th].refs, level, v);
      CanStore(g, th, level, v);
      objs := objs[th := objs[th].(refs := Put(objs[th].refs, level, v))];
      WrittenHarmless(g, th, refs);
      HarmlessCore(g, Now(), 0);
      if gcstate == Propagate {
        ThreadNotBlack(g, th);
        WrittenMarking(g, th, refs);
        MarkingCore(g, {});
      } else {
        PhaseKept(g, Now(), gcstate, sweepstrgc, Pos(), 0);
      }
    }

    /** Assigns the variable of an upvalue.  While the upvalue is open the variable is a slot of a stack,
        even if the thread of that stack is dead; an open upvalue is never black, so that the barrier has
        nothing to do. */
    method SetUpval(uv: Ptr, v: Ptr)
      requires Inv() && Alive(Now(), uv) && (objs[uv].kind.Open? || objs[uv].kind.Closed?)
      requires v == NULL || Alive(Now(), v)
      modifies this`objs, this`color, this`gray, this`grayagain
      ensures Inv() && Cell(objs, uv) == v
      ensures old(objs)[uv].kind.Open? ==>
                && var k := old(objs)[uv].kind;
                   k.th in old(objs) && k.level < |old(objs)[k.th].refs|
                   && objs == old(objs)[k.th := old(objs)[k.th].(refs := Put(old(objs)[k.th].refs, k.level, v))]
      ensures old(objs)[uv].kind.Closed? ==>
                objs == old(objs)[uv := old(objs)[uv].(refs := Put(old(objs)[uv].refs, 0, v))]
    {
      hide Core, Kids, Marking, Swept, Harmless, Torn, NoneWhite;
      UpvalFacts(Now(), uv);
      if objs[uv].kind.Open? {
        var th, level := objs[uv].kind.th, objs[uv].kind.level;
        CellWritten(Now(), uv, v);
        SetSlot(th, level, v);
      } else {
        Store(uv, 0, v);
      }
    }

    /** The stack of a thread is replaced without any barrier. */
    method SetStack(th: Ptr, stack: seq<Ptr>)
      requires Inv() && Alive(Now(), th) && objs[th].kind.Thread? && AllAlive(Now(), Refs(stack))
      requires forall u <- objs[th].openupval :: Level(objs, u) < |stack|
      modifies this`objs
      ensures Inv() && objs == old(objs[th := objs[th].(refs := stack)])
    {
      hide Core, Kids, Marking, Swept, Harmless, Torn, NoneWhite;
      ghost var g := Now();
      objs := objs[th := objs[th].(refs := stack)];
      WrittenHarmless(g, th, stack);
      HarmlessCore(g, Now(), 0);
      if gcstate == Propagate {
        ThreadNotBlack(g, th);
        WrittenMarking(g, th, stack);
        MarkingCore(g, {});
      } else {
        PhaseKept(g, Now(), gcstate, sweepstrgc, Pos(), 0);
      }
    }

    /** A new object, white, at the front of `allgc`. */
    method NewObj(p: Ptr, kind: Kind, refs: seq<Ptr>)
      requires Inv() && CanCreate(Now(), p, kind, refs)
      modifies this`objs, this`color, this`allgc, this`sweepgc
      ensures Inv() && Alive(Now(), p) && objs == old(objs)[p := Obj(kind, refs, [])]
    {
      hide Core, Kids, Marking, Swept, Harmless, SweptAt;
      ghost var g, pos := Now(), Pos();
      objs := objs[p := Obj(kind, refs, [])];
      color := color[p := White(currentwhite)];
      LinkFirst(p);
      assert Now() == NewAt(g, p, kind, refs);
      NewHarmless(g, p, kind, refs);
      HarmlessCore(g, Now(), 1);
      if gcstate == Propagate { NewMarking(g, p, kind, refs); }
      NewKeepsMain(g, p);
      PhaseKept(g, Now(), gcstate, sweepstrgc, pos, 1);
    }

    /** A short string that is not in the string table yet. */
    method NewShortString(p: Ptr, hash: nat)
      requires Inv() && p != NULL && p !in objs
      modifies this`objs, this`color, this`strt
      ensures Inv() && Alive(Now(), p) && objs == old(objs)[p := Obj(ShortStr(hash, false), [], [])]
    {
      hide Core, Kids, Marking, Swept, Harmless, SweptAt;
      ghost var g := Now();
      NewStringHarmless(g, p, hash);
      var k := hash % |strt|;
      objs := objs[p := Obj(ShortStr(hash, false), [], [])];
      color := color[p := White(currentwhite)];
      strt := strt[k := [p] + strt[k]];
      HarmlessCore(g, Now(), 0);
      if gcstate == Propagate { NewStringMarking(g, p, hash); }
      NewKeepsMain(g, p);
      PhaseKept(g, Now(), gcstate, sweepstrgc, Pos(), 0);
    }

    /** Finds a short string again; one that is dead but not yet freed is resurrected. */
    method InternString(p: Ptr)
      requires Inv() && p in objs && objs[p].kind.ShortStr?
      modifies this`color
      ensures Inv() && Alive(Now(), p)
    {
      hide Core, Marking, Swept, Harmless, SweptAt;
      ghost var g := Now();
      InternFacts(g, p);
      if IsDeadNow(p) {
        if gcstate == Propagate { MarkingCore(g, {}); }
        color := color[p := White(currentwhite)];
        RevivedHarmless(g, p);
        HarmlessCore(g, Now(), 0);
        PhaseKept(g, Now(), gcstate, sweepstrgc, Pos(), 0);
      }
    }

    /** An open upvalue that is dead but not yet freed is resurrected. */
    method ReviveUpval(th: Ptr, i: nat)
      requires Inv() && Alive(Now(), th) && objs[th].kind.Thread? && i < |objs[th].openupval|
      modifies this`color
      ensures Inv() && Alive(Now(), objs[th].openupval[i]) && forall q | old(Alive(Now(), q)) :: Alive(Now(), q)
    {
      hide Core, Kids, Marking, Swept, Harmless, SweptAt;
      ghost var g := Now();
      var uv := objs[th].openupval[i];
      UpvalHere(g, th, i);
      if IsDeadNow(uv) {
        if gcstate == Propagate { MarkingCore(g, {}); }
        color := color[uv := White(currentwhite)];
        UpvalKids(g, th, i);
        RevivedHarmless(g, uv);
        HarmlessCore(g, Now(), 0);
        PhaseKept(g, Now(), gcstate, sweepstrgc, Pos(), 0);
      }
    }

    /** Links a new open upvalue at position `i` of the thread's list. */
    method LinkUpval(th: Ptr, level: nat, i: nat, p: Ptr)
      requires Inv() && CanOpen(Now(), p, th, level, i)
      modifies this`objs, this`color, this`uvhead
      ensures Inv() && Now() == NewOpen(old(Now()), p, th, level, i)
    {
      hide Core, Kids, Marking, Swept, Harmless, SweptAt, UpvalList, NotBlack, CanOpen;
      ghost var g := Now();
      OpenFacts(g, p, th, level, i);
      var us := objs[th].openupval;
      objs := objs[th := objs[th].(openupval := us[..i] + [p] + us[i..])];
      objs := objs[p := Obj(Open(th, level), [], [])];
      color := color[p := White(currentwhite)];
      uvhead := [p] + uvhead;
      assert Now() == NewOpen(g, p, th, level, i);
      NewOpenHarmless(g, p, th, level, i);
      HarmlessCore(g, Now(), 0);
      if gcstate == Propagate { NewOpenMarking(g, p, th, level, i); }
      NewKeepsMain(g, p);
      PhaseKept(g, Now(), gcstate, sweepstrgc, Pos(), 0);
    }

    /** The open upvalue of a stack slot: the one there is, resurrected if dead, or a new one. */
    method FindUpval(th: Ptr, level: nat, p: Ptr) returns (uv: Ptr)
      requires Inv() && Alive(Now(), th) && objs[th].kind.Thread? && level < |objs[th].refs| && p != NULL && p !in objs
      modifies this`objs, this`color, this`uvhead
      ensures Inv() && Alive(Now(), uv) && objs[uv].kind == Open(th, level) && th in objs && uv in objs[th].openupval
              && objs[th].kind.Thread?
      ensures uv in old(objs) ==> objs == old(objs)
      ensures uv !in old(objs) ==> uv == p && forall u | u in old(objs[th].openupval) && u in old(objs) ::
                old(objs)[u].kind != Open(th, level)
      ensures forall q | old(Alive(Now(), q)) :: Alive(Now(), q) && (q != th ==> objs[q] == old(objs)[q])
      ensures objs[th].refs == old(objs[th].refs)
      ensures uv !in old(objs) ==>
                exists i :: 0 <= i <= |old(objs[th].openupval)| && objs == NewOpen(old(Now()), p, th, level, i).objs
    {
      hide Core, Kids, Marking, Swept, Harmless, SweptAt, UpvalList, NotBlack, PhaseOk;
      ghost var g := Now();
      var us := objs[th].openupval;
      var i := Locate(th, level);
      if i < |us| && Level(objs, us[i]) == level {
        ReviveUpval(th, i);
        UpvalHere(g, th, i);
        return us[i];
      }
      NoOpenAt(g, th, level, i);
      LinkUpval(th, level, i, p);
      uv := p;
    }

    /** Where an open upvalue of the given stack level is in a thread's list, or belongs. */
    method Locate(th: Ptr, level: nat) returns (i: nat)
      requires Core(Now()) && th in objs && objs[th].kind.Thread?
      ensures i <= |objs[th].openupval|
      ensures forall j | 0 <= j < i :: Level(objs, objs[th].openupval[j]) > level
      ensures forall j | i < j < |objs[th].openupval| :: Level(objs, objs[th].openupval[j]) < level
      ensures i < |objs[th].openupval| ==> Level(objs, objs[th].openupval[i]) <= level
    {
      hide Core;
      UpvalLevels(Now(), th);
      var us := objs[th].openupval;
      i := 0;
      while i < |us| && Level(objs, us[i]) > level
        invariant 0 <= i <= |us|
        invariant forall j | 0 <= j < i :: Level(objs, us[j]) > level
      {
        i := i + 1;
      }
    }

    /** Changes a root: the running thread, the registry or a metatable of a basic type. */
    method SetRoot(i: nat, v: Ptr)
      requires Inv() && i < |roots| && (v == NULL || Alive(Now(), v))
      modifies this`roots
      ensures Inv() && roots == old(roots)[i := v]
    {
      hide Core, Kids, Marking, Swept, Harmless, SweptAt;
      ghost var g := Now();
      RootsAlive(g, i, v);
      roots := roots[i := v];
      RootedHarmless(g, roots);
      HarmlessCore(g, Now(), 0);
      PhaseKept(g, Now(), gcstate, sweepstrgc, Pos(), 0);
    }

    /** Leaves a block: the open upvalues from `level` up take their values with them. */
    method CloseLevel(th: Ptr, level: nat)
      requires Inv() && th in objs && objs[th].kind.Thread?
      modifies this`objs, this`color, this`gray, this`uvhead, this`allgc, this`sweepgc
      ensures Inv() && Trims(old(Now()), Now()) && th in objs && objs[th].kind.Thread?
              && objs[th].refs == old(objs[th].refs)
      ensures forall u <- objs[th].openupval :: Level(objs, u) < level
      ensures ClosedFrom(old(Now()), objs, th, level)
    {
      hide Core, Kids, Marking, Swept, SweptAt, Trims, Sweeps, ClosedFrom;
      ghost var g, pos := Now(), Pos();
      CloseUpvals(th, level, if gcstate == SweepString then sweepstrgc else |strt|);
      if gcstate != Propagate {
        ghost var n := if gcstate == SweepString then sweepstrgc else |g.strt|;
        SweepsSwept(g, Now(), n, pos, Pos());
        SweepsCore(g, Now(), n, pos, Pos());
      } else {
        MainAlive(g);
        TrimsRoots(g, Now());
      }
    }
  }
}
