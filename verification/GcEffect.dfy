/** What the actions of a program mean for the heap, whatever the collector does beside them. */
module GcEffect {
  import opened GcHeap
  import opened GcSweep
  import opened GcClose
  import opened GcMutate

  /** What may happen next.  Operands are slots of the running thread's stack, so that a program only
      ever uses what it can reach; the addresses of new objects are arbitrary. */
  datatype Action =
    | Step
    | Collect
    | Create(p: Ptr, kind: Kind, slots: seq<nat>)
    | CreateString(p: Ptr, hash: nat)
    | FindString(p: Ptr)
    | Capture(p: Ptr, slots: seq<nat>, levels: seq<nat>, ps: seq<Ptr>)
    | Get(slot: nat, i: nat)
    | Set(slot: nat, i: nat, value: nat)
    | GetUpval(slot: nat, i: nat)
    | SetUpval(slot: nat, i: nat, value: nat)
    | Assign(slot: nat, value: nat)
    | GetRoot(root: nat)
    | Drop
    | Leave(level: nat)
    | Resume(slot: nat)
    | Publish(root: nat, slot: nat)

  predicate Fit(slots: seq<nat>, n: nat) { forall i | 0 <= i < |slots| :: slots[i] < n }

  function Pick(stack: seq<Ptr>, slots: seq<nat>): seq<Ptr>
    requires Fit(slots, |stack|)
  {
    seq(|slots|, i requires 0 <= i < |slots| => stack[slots[i]])
  }

  /** There is a running thread. */
  predicate HasThread(s: Gc) { s.roots != [] && s.roots[0] in s.objs && s.objs[s.roots[0]].kind.Thread? }

  function StackOf(s: Gc): seq<Ptr>
    requires HasThread(s)
  {
    s.objs[s.roots[0]].refs
  }

  function WithStack(s: Gc, objs: Objs, stack: seq<Ptr>): Objs
    requires s.roots != [] && s.roots[0] in objs
  {
    objs[s.roots[0] := objs[s.roots[0]].(refs := stack)]
  }

  function WithTop(s: Gc, objs: Objs, v: Ptr): Objs
    requires s.roots != [] && s.roots[0] in objs
  {
    WithStack(s, objs, objs[s.roots[0]].refs + [v])
  }

  /** Upvalue `i` of the closure in a slot, if there is one. */
  function UpvalIn(s: Gc, slot: nat, i: nat): Ptr
    requires HasThread(s)
  {
    if slot < |StackOf(s)| && StackOf(s)[slot] in s.objs && s.objs[StackOf(s)[slot]].kind.Closure?
       && i < |s.objs[StackOf(s)[slot]].refs|
    then
      var u := s.objs[StackOf(s)[slot]].refs[i];
      if u in s.objs && (s.objs[u].kind.Open? || s.objs[u].kind.Closed?) then u else NULL
    else NULL
  }

  /** The variable behind an upvalue gets a value. */
  function Assigned(objs: Objs, u: Ptr, v: Ptr): Objs
    requires u in objs
  {
    match objs[u].kind
    case Open(th, level) =>
      if th in objs && level < |objs[th].refs| then objs[th := objs[th].(refs := objs[th].refs[level := v])] else objs
    case _ => objs[u := objs[u].(refs := Put(objs[u].refs, 0, v))]
  }

  predicate Fresh(objs: Objs, p: Ptr) { p != NULL && p !in objs }

  /** Addresses for a closure and as many new upvalues as it may need. */
  predicate AllFresh(objs: Objs, p: Ptr, ps: seq<Ptr>) {
    Fresh(objs, p) && p !in ps && (forall i | 0 <= i < |ps| :: Fresh(objs, ps[i]))
    && forall i, j | 0 <= i < j < |ps| :: ps[i] != ps[j]
  }

  /** Upvalues have been opened for some slots of `th`: one each, shared with every closure that already has one. */
  ghost predicate Opens(objs: Objs, objs': Objs, th: Ptr, levels: seq<nat>, us: seq<Ptr>) {
    && th in objs && th in objs' && |us| == |levels|
    && objs'[th].kind == objs[th].kind && objs'[th].refs == objs[th].refs
    && (forall q | q in objs && q != th :: q in objs' && objs'[q] == objs[q])
    && (forall q | q in objs' && q !in objs :: q in us && objs'[q] == Obj(objs'[q].kind, [], []))
    && forall i | 0 <= i < |us| :: us[i] in objs' && objs'[us[i]].kind == Open(th, levels[i])
  }

  /** A new closure over some values and some slots is on top of the stack. */
  ghost predicate Captures(s: Gc, s': Gc, a: Action, us: seq<Ptr>)
    requires a.Capture? && HasThread(s) && Fit(a.slots, |StackOf(s)|)
  {
    exists objs1 ::
      && Opens(s.objs, objs1, s.roots[0], a.levels, us)
      && s'.objs == WithTop(s, objs1[a.p := Obj(Closure, Pick(StackOf(s), a.slots) + us, [])], a.p)
  }

  /** The block above slot `n` is left: its variables are closed, and its slots are gone. */
  ghost predicate Leaves(s: Gc, s': Gc, n: nat)
    requires HasThread(s)
  {
    exists objs1 :: ClosedFrom(s, objs1, s.roots[0], n) && s.roots[0] in objs1 && n <= |StackOf(s)|
                    && s'.objs == WithStack(s, objs1, StackOf(s)[..n])
  }

  /** An action that pushes one value. */
  function Value(s: Gc, a: Action): Option<Ptr>
    requires HasThread(s)
  {
    var stack := StackOf(s);
    match a
    case FindString(p) => if p in s.objs && s.objs[p].kind.ShortStr? then Some(p) else None
    case Get(slot, i) =>
      if slot < |stack| && stack[slot] in s.objs && HoldsValues(s.objs[stack[slot]].kind)
         && i < |s.objs[stack[slot]].refs|
      then Some(s.objs[stack[slot]].refs[i]) else None
    case GetUpval(slot, i) => if UpvalIn(s, slot, i) != NULL then Some(Cell(s.objs, UpvalIn(s, slot, i))) else None
    case GetRoot(root) => if root < |s.roots| then Some(s.roots[root]) else None
    case _ => None
  }

  datatype Option<+T> = None | Some(value: T)

  /** What an action does; it does nothing if its operands do not fit.  The collector changes nothing that the program
      can see. */
  ghost predicate Effect(s: Gc, s': Gc, a: Action)
    requires HasThread(s)
  {
    var stack := StackOf(s);
    && (a.Resume? || a.Publish? || s'.roots == s.roots)
    && match a
       case Step => Preserves(s, s')
       case Collect => Preserves(s, s')
       case Create(p, kind, slots) =>
         s'.objs == if Fit(slots, |stack|) && Fresh(s.objs, p) && HoldsValues(kind) && (kind.Thread? ==> slots == [])
                    then WithTop(s, s.objs[p := Obj(kind, Pick(stack, slots), [])], p) else s.objs
       case CreateString(p, hash) =>
         s'.objs == if Fresh(s.objs, p) then WithTop(s, s.objs[p := Obj(ShortStr(hash, false), [], [])], p) else s.objs
       case Capture(p, slots, levels, ps) =>
         if Fit(slots, |stack|) && Fit(levels, |stack|) && |ps| == |levels| && AllFresh(s.objs, p, ps)
         then exists us :: Captures(s, s', a, us) else s'.objs == s.objs
       case Set(slot, i, value) =>
         s'.objs == if slot < |stack| && value < |stack| && stack[slot] in s.objs
                       && HoldsValues(s.objs[stack[slot]].kind) && i <= |s.objs[stack[slot]].refs|
                    then
                      var o := s.objs[stack[slot]];
                      s.objs[stack[slot] := o.(refs := Put(o.refs, i, stack[value]))]
                    else s.objs
       case SetUpval(slot, i, value) =>
         s'.objs == if UpvalIn(s, slot, i) != NULL && value < |stack|
                    then Assigned(s.objs, UpvalIn(s, slot, i), stack[value]) else s.objs
       case Assign(slot, value) =>
         s'.objs == if slot < |stack| && value < |stack|
                    then WithStack(s, s.objs, stack[slot := stack[value]]) else s.objs
       case Drop => if stack != [] then Leaves(s, s', |stack| - 1) else s'.objs == s.objs
       case Leave(level) => if level <= |stack| then Leaves(s, s', level) else s'.objs == s.objs
       case Resume(slot) =>
         && s'.objs == s.objs
         && s'.roots == if slot < |stack| && stack[slot] in s.objs && s.objs[stack[slot]].kind.Thread?
                        then s.roots[0 := stack[slot]] else s.roots
       case Publish(root, slot) =>
         && s'.objs == s.objs
         && s'.roots == if 0 < root < |s.roots| && slot < |stack| then s.roots[root := stack[slot]] else s.roots
       case _ =>
         s'.objs == match Value(s, a) case None => s.objs case Some(v) => WithTop(s, s.objs, v)
  }

  ghost predicate Stepped(s: Gc, s': Gc, a: Action) { Core(s) && HasThread(s) && Effect(s, s', a) }

  lemma NoNull(s: Gc)
    requires Core(s)
    ensures NULL !in s.objs
  {
    if NULL in s.objs { NotNull(s, NULL); }
  }

  lemma OpensNone(s: Gc, th: Ptr)
    requires th in s.objs
    ensures Opens(s.objs, s.objs, th, [], [])
  {
  }

  lemma OpensMore(s: Gc, s1: Gc, objs': Objs, th: Ptr, levels: seq<nat>, i: nat, us: seq<Ptr>, uv: Ptr, p: Ptr)
    requires i < |levels| && Opens(s.objs, s1.objs, th, levels[..i], us)
    requires uv in objs' && objs'[uv].kind == Open(th, levels[i])
    requires uv in s1.objs ==> objs' == s1.objs
    requires uv !in s1.objs ==>
               && uv == p && th in s1.objs
               && exists j :: 0 <= j <= |s1.objs[th].openupval| && objs' == NewOpen(s1, p, th, levels[i], j).objs
    ensures Opens(s.objs, objs', th, levels[..i + 1], us + [uv])
    ensures forall q | q in objs' :: q in s1.objs || q == p
  {
    var us' := us + [uv];
    assert forall j | 0 <= j < |us'| :: levels[..i + 1][j] == levels[j];
    assert forall j | 0 <= j < |us| :: levels[..i][j] == levels[j];
  }

  // ---------- variables shared by closures ----------

  /** A slot has one open upvalue at most, so that all closures over the slot share it. */
  lemma OneUpval(s: Gc, u: Ptr, v: Ptr, th: Ptr, level: nat)
    requires Core(s) && u in s.objs && v in s.objs && s.objs[u].kind == s.objs[v].kind == Open(th, level)
    ensures u == v
  {
    assert Placed(s, u) && Placed(s, v) && Placed(s, th);
    var us := s.objs[th].openupval;
    var i, j :| 0 <= i < |us| && us[i] == u && 0 <= j < |us| && us[j] == v;
    assert Level(s.objs, u) == Level(s.objs, v) == level;
  }

  /** Two closures that have captured the same slot read and write the same variable. */
  lemma ClosuresShare(s: Gc, c: nat, i: nat, d: nat, j: nat)
    requires Core(s) && HasThread(s) && UpvalIn(s, c, i) != NULL && UpvalIn(s, d, j) != NULL
    requires s.objs[UpvalIn(s, c, i)].kind.Open? && s.objs[UpvalIn(s, c, i)].kind == s.objs[UpvalIn(s, d, j)].kind
    ensures UpvalIn(s, c, i) == UpvalIn(s, d, j)
  {
    hide Core;
    var k := s.objs[UpvalIn(s, c, i)].kind;
    OneUpval(s, UpvalIn(s, c, i), UpvalIn(s, d, j), k.th, k.level);
  }

  /** Upvalues below the level are not among those that are closed. */
  lemma BelowKept(s: Gc, th: Ptr, n: nat, k: int, u: Ptr)
    requires Core(s) && th in s.objs && s.objs[th].kind.Thread? && Splits(s.objs, s.objs[th].openupval, n, k)
    requires u in s.objs && (s.objs[u].kind.Open? && s.objs[u].kind.th == th ==> s.objs[u].kind.level < n)
    ensures u !in s.objs[th].openupval[..k]
  {
    hide Core;
    var us := s.objs[th].openupval;
    DistinctUpvals(s, th);
    forall j | 0 <= j < k ensures us[j] != u {
      assert us[j] in us && Level(s.objs, us[j]) >= n;
    }
  }

  lemma OthersKept(s: Gc, objs': Objs, th: Ptr, k: int, u: Ptr)
    requires th in s.objs && Closes(s, objs', th, k)
    requires u in s.objs && u != th && u !in s.objs[th].openupval[..k]
    ensures u in objs' && objs'[u] == s.objs[u]
  {
    hide ClosedAt;
  }

  /** Leaving a block leaves the variables below it open. */
  lemma LeaveKeeps(s: Gc, s': Gc, n: nat, u: Ptr)
    requires Core(s) && HasThread(s) && Leaves(s, s', n) && u in s.objs && u != s.roots[0]
    requires s.objs[u].kind.Open? && s.objs[u].kind.th == s.roots[0] ==> s.objs[u].kind.level < n
    ensures u in s'.objs && s'.objs[u] == s.objs[u]
  {
    hide Core, Splits, Level, Closes;
    var th := s.roots[0];
    var objs1 :| ClosedFrom(s, objs1, th, n) && th in objs1 && s'.objs == WithStack(s, objs1, StackOf(s)[..n]);
    var k :| Splits(s.objs, s.objs[th].openupval, n, k) && Closes(s, objs1, th, k);
    BelowKept(s, th, n, k, u);
    OthersKept(s, objs1, th, k, u);
  }

  /** It closes those of the block with the values they have. */
  lemma LeaveCloses(s: Gc, s': Gc, n: nat, u: Ptr)
    requires Core(s) && HasThread(s) && Leaves(s, s', n) && Alive(s, u)
    requires s.objs[u].kind.Open? && s.objs[u].kind.th == s.roots[0] && s.objs[u].kind.level >= n
    ensures u in s'.objs && s'.objs[u] == Obj(Closed, [Cell(s.objs, u)], [])
  {
    hide Core, ClosedAt, Cell, Alive;
    var th := s.roots[0];
    var us := s.objs[th].openupval;
    InList(s, u);
    DistinctUpvals(s, th);
    var objs1 :| ClosedFrom(s, objs1, th, n) && th in objs1 && s'.objs == WithStack(s, objs1, StackOf(s)[..n]);
    var k :| Splits(s.objs, us, n, k) && Closes(s, objs1, th, k);
    var j :| 0 <= j < |us| && us[j] == u;
    assert Level(s.objs, us[j]) >= n;
    assert ClosedAt(s, objs1, us[j]);
    TakesValue(s, objs1, u);
  }

  lemma InList(s: Gc, u: Ptr)
    requires Core(s) && Alive(s, u) && s.objs[u].kind.Open?
    ensures s.objs[u].kind.th in s.objs && u in s.objs[s.objs[u].kind.th].openupval
  {
    assert Placed(s, u);
  }

  lemma TakesValue(s: Gc, objs': Objs, u: Ptr)
    requires Alive(s, u) && ClosedAt(s, objs', u)
    ensures u in objs' && objs'[u] == Obj(Closed, [Cell(s.objs, u)], [])
  {
  }

  /** A block is left, a variable outside it is assigned, and a closure that has captured the variable reads the new
      value. */
  lemma SharedVariable(s: Gc, s1: Gc, s2: Gc, s3: Gc, n: nat, slot: nat, value: nat, c: nat, i: nat)
    requires Core(s) && HasThread(s) && n <= |StackOf(s)| && slot < n && value < n && c < n && c != slot
    requires UpvalIn(s, c, i) != NULL && s.objs[UpvalIn(s, c, i)].kind == Open(s.roots[0], slot)
    requires Effect(s, s1, Leave(n)) && HasThread(s1) && Effect(s1, s2, Assign(slot, value)) && HasThread(s2)
    requires Effect(s2, s3, GetUpval(c, i)) && HasThread(s3)
    ensures UpvalIn(s2, c, i) == UpvalIn(s, c, i)
    ensures StackOf(s3) == StackOf(s2) + [StackOf(s)[value]]
  {
    hide Core, Leaves;
    var u, o := UpvalIn(s, c, i), StackOf(s)[c];
    LeaveKeeps(s, s1, n, u);
    LeaveKeeps(s, s1, n, o);
    LeaveCuts(s, s1, n);
  }

  lemma LeaveCuts(s: Gc, s': Gc, n: nat)
    requires HasThread(s) && HasThread(s') && s'.roots == s.roots && Leaves(s, s', n)
    ensures n <= |StackOf(s)| && StackOf(s') == StackOf(s)[..n]
  {
  }
}
