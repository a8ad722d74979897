/** The heap that the collector manages: objects, the references between them, and reachability.

    Objects are named by addresses; an address may be reused once its object has been freed.
    Values that are not collectable are represented by the null address. */
module GcHeap {

  type Ptr = nat
  const NULL: Ptr := 0

  /** A white object has one of two whites, told apart by a bit that flips once per cycle. */
  datatype Color = White(bit: bool) | Gray | Black

  /** An open upvalue stands for a slot of a thread's stack; a closed one holds its own value. */
  datatype Kind =
    | ShortStr(hash: nat, fixed: bool)
    | LongStr
    | Udata
    | Open(th: Ptr, level: nat)
    | Closed
    | Closure
    | Table
    | Proto
    | Thread

  /** `refs` are the values an object holds (for a thread, its stack); `openupval` is a thread's list
      of open upvalues. */
  datatype Obj = Obj(kind: Kind, refs: seq<Ptr>, openupval: seq<Ptr>)

  type Objs = map<Ptr, Obj>

  datatype Phase = Propagate | Atomic | SweepString | SweepUdata | Sweep | Pause

  /** The collector's view of the global state.  `strt` are the lists of the string table, `roots` the
      running thread, the registry and the metatables of basic types. */
  datatype Gc = Gc(
    objs: Objs, color: map<Ptr, Color>, cw: bool,
    gray: seq<Ptr>, grayagain: seq<Ptr>,
    allgc: seq<Ptr>, strt: seq<seq<Ptr>>, uvhead: seq<Ptr>,
    main: Ptr, roots: seq<Ptr>)

  // ---------- references and reachability ----------

  ghost function Refs(vs: seq<Ptr>): set<Ptr> { set v | v in vs && v != NULL }

  /** The objects that `p` refers to. */
  ghost function Kids(objs: Objs, p: Ptr): set<Ptr> {
    if p !in objs then {}
    else if objs[p].kind.Open? then
      var (th, level) := (objs[p].kind.th, objs[p].kind.level);
      if th in objs && level < |objs[th].refs| then Refs([objs[th].refs[level]]) else {}
    else Refs(objs[p].refs)
  }

  /** What is read through an upvalue. */
  function Cell(objs: Objs, u: Ptr): Ptr {
    if u !in objs then NULL
    else match objs[u].kind
      case Open(th, level) => if th in objs && level < |objs[th].refs| then objs[th].refs[level] else NULL
      case Closed => if objs[u].refs == [] then NULL else objs[u].refs[0]
      case _ => NULL
  }

  ghost predicate KidsClosed(objs: Objs, S: set<Ptr>) {
    forall p <- S :: Kids(objs, p) <= S
  }

  ghost function RootSet(g: Gc): set<Ptr> { Refs([g.main] + g.roots) }

  ghost predicate ClosedSet(g: Gc, S: set<Ptr>) { RootSet(g) <= S && KidsClosed(g.objs, S) }

  /** In every set that holds the roots and whatever its members refer to. */
  ghost predicate Reachable(g: Gc, p: Ptr) { forall S: set<Ptr> | ClosedSet(g, S) :: p in S }

  /** Each object of the path refers to the next. */
  ghost predicate Path(objs: Objs, ps: seq<Ptr>) {
    forall i | 0 < i < |ps| :: ps[i] in Kids(objs, ps[i - 1])
  }

  ghost predicate PathTo(g: Gc, p: Ptr, ps: seq<Ptr>) {
    ps != [] && ps[0] in RootSet(g) && ps[|ps| - 1] == p && Path(g.objs, ps)
  }

  lemma {:induction false} PathStays(g: Gc, p: Ptr, ps: seq<Ptr>, S: set<Ptr>)
    requires PathTo(g, p, ps) && ClosedSet(g, S)
    ensures p in S
    decreases |ps|
  {
    if |ps| > 1 {
      var q := ps[|ps| - 2];
      assert Path(g.objs, ps[..|ps| - 1]);
      PathStays(g, q, ps[..|ps| - 1], S);
      assert Kids(g.objs, q) <= S;
    }
  }

  /** Everything reachable, as a set: the members of some closed set that are reachable. */
  ghost function ReachIn(g: Gc, S: set<Ptr>): (r: set<Ptr>)
    requires ClosedSet(g, S)
    ensures forall p :: p in r <==> Reachable(g, p)
  {
    set p | p in S && Reachable(g, p)
  }

  lemma ReachClosed(g: Gc, S: set<Ptr>)
    requires ClosedSet(g, S)
    ensures ClosedSet(g, ReachIn(g, S))
  {
    forall p, k | p in ReachIn(g, S) && k in Kids(g.objs, p) ensures Reachable(g, k) {
      forall T: set<Ptr> | ClosedSet(g, T) ensures k in T {
        assert p in T && Kids(g.objs, p) <= T;
      }
    }
  }

  lemma ReachableByPath(g: Gc, S: set<Ptr>, p: Ptr)
    requires ClosedSet(g, S) && Reachable(g, p)
    ensures exists ps :: PathTo(g, p, ps)
  {
    var T := set q | q in S && exists ps :: PathTo(g, q, ps);
    forall r | r in RootSet(g) ensures r in T { assert PathTo(g, r, [r]); }
    forall q | q in T ensures Kids(g.objs, q) <= T {
      forall k | k in Kids(g.objs, q) ensures k in T {
        var ps :| PathTo(g, q, ps);
        Longer(g, q, k, ps);
        assert Kids(g.objs, q) <= S;
      }
    }
    assert ClosedSet(g, T);
  }

  lemma Longer(g: Gc, q: Ptr, k: Ptr, ps: seq<Ptr>)
    requires PathTo(g, q, ps) && k in Kids(g.objs, q)
    ensures PathTo(g, k, ps + [k])
  {
  }

  /** At the end of some path of references from a root. */
  ghost predicate Linked(g: Gc, p: Ptr) { exists ps :: PathTo(g, p, ps) }

  /** The two meanings of reachable are the same. */
  lemma ReachableIffPath(g: Gc, S: set<Ptr>, p: Ptr)
    requires ClosedSet(g, S)
    ensures Reachable(g, p) <==> Linked(g, p)
  {
    if ps :| PathTo(g, p, ps) {
      forall T: set<Ptr> | ClosedSet(g, T) ensures p in T { PathStays(g, p, ps, T); }
    }
    if Reachable(g, p) { ReachableByPath(g, S, p); }
  }

  // ---------- colours ----------

  predicate IsWhite(g: Gc, p: Ptr) { p in g.color && g.color[p].White? }

  predicate IsFixed(o: Obj) { o.kind.ShortStr? && o.kind.fixed }

  /** Dead: white with the old white, and not fixed. */
  predicate IsDead(g: Gc, p: Ptr) {
    p in g.objs && p in g.color && g.color[p] == White(!g.cw) && !IsFixed(g.objs[p])
  }

  ghost predicate Alive(g: Gc, p: Ptr) { p in g.objs && !IsDead(g, p) }

  ghost predicate AllAlive(g: Gc, ps: set<Ptr>) { forall p <- ps :: Alive(g, p) }

  ghost predicate NoneWhite(g: Gc, ps: set<Ptr>) { forall p <- ps :: p in g.objs && !IsWhite(g, p) }

  ghost function Whites(g: Gc): set<Ptr> { set p | p in g.objs && IsWhite(g, p) }

  // ---------- the shape of the heap ----------

  ghost predicate NoDup(s: seq<Ptr>) { forall i, j | 0 <= i < j < |s| :: s[i] != s[j] }

  function Level(objs: Objs, u: Ptr): int { if u in objs && objs[u].kind.Open? then objs[u].kind.level else -1 }

  /** A list of open upvalues of thread `th`, strictly decreasing by stack level. */
  ghost predicate UpvalList(objs: Objs, th: Ptr, us: seq<Ptr>) {
    && (forall u <- us :: u in objs && objs[u].kind.Open? && objs[u].kind.th == th)
    && (forall i, j | 0 <= i < j < |us| :: Level(objs, us[i]) > Level(objs, us[j]))
  }

  /** Each object is where its kind says: in its list of the string table, in its thread's list of
      open upvalues, or in `allgc`; the main thread is in no list. */
  ghost predicate Placed(g: Gc, p: Ptr)
    requires p in g.objs
  {
    var o := g.objs[p];
    && p != NULL
    && (!o.kind.Thread? ==> o.openupval == [])
    && (p == g.main ==> o.kind.Thread?)
    && match o.kind
       case ShortStr(h, _) => o.refs == [] && |g.strt| > 0 && p in g.strt[h % |g.strt|]
       case LongStr => o.refs == [] && p in g.allgc
       case Open(th, l) => && o.refs == [] && th in g.objs && g.objs[th].kind.Thread? && l < |g.objs[th].refs|
                           && p in g.objs[th].openupval && p in g.uvhead
       case Thread => (p == g.main || p in g.allgc) && UpvalList(g.objs, p, o.openupval)
       case _ => p in g.allgc
  }

  ghost predicate ListsOk(g: Gc) {
    && NoDup(g.allgc)
       && (forall p <- g.allgc :: p in g.objs && p != g.main && !g.objs[p].kind.ShortStr? && !g.objs[p].kind.Open?)
    && |g.strt| > 0
    && (forall i | 0 <= i < |g.strt| :: BucketOk(g, i))
    && (forall p <- g.uvhead :: p in g.objs && g.objs[p].kind.Open?)
    && g.main in g.objs && g.objs[g.main].kind.Thread?
  }

  ghost predicate BucketOk(g: Gc, i: int)
    requires 0 <= i < |g.strt|
  {
    && NoDup(g.strt[i])
    && forall p <- g.strt[i] :: p in g.objs && g.objs[p].kind.ShortStr? && g.objs[p].kind.hash % |g.strt| == i
  }

  ghost predicate Shape(g: Gc) {
    && g.color.Keys == g.objs.Keys
    && ListsOk(g)
    && forall p | p in g.objs :: Placed(g, p)
  }

  /** What is not dead refers to nothing dead or freed, and the roots are not dead. */
  ghost predicate AliveClosed(g: Gc) {
    && AllAlive(g, RootSet(g))
    && forall p | Alive(g, p) :: AllAlive(g, Kids(g.objs, p))
  }

  ghost function AliveSet(g: Gc): set<Ptr> { set p | p in g.objs && Alive(g, p) }

  /** Nothing reachable has been freed, nor will it be by the sweep under way. */
  ghost predicate Safe(g: Gc) { forall p | Reachable(g, p) :: Alive(g, p) }

  lemma AliveClosedIsSafe(g: Gc)
    requires AliveClosed(g)
    ensures ClosedSet(g, AliveSet(g)) && Safe(g)
  {
    forall p, k | p in AliveSet(g) && k in Kids(g.objs, p) ensures k in AliveSet(g) {
      assert Alive(g, p) && AllAlive(g, Kids(g.objs, p));
    }
    assert ClosedSet(g, AliveSet(g));
  }

  lemma AllLinked(g: Gc)
    requires AliveClosed(g)
    ensures forall p :: Reachable(g, p) <==> Linked(g, p)
  {
    hide Linked, Reachable, AliveClosed, Safe, Kids;
    AliveClosedIsSafe(g);
    forall p ensures Reachable(g, p) <==> Linked(g, p) { ReachableIffPath(g, AliveSet(g), p); }
  }
}
