/** Arbitrary programs running beside the collector. */
module GcProgram {
  import opened GcHeap
  import opened GcSweep
  import opened GcClose
  import opened GcMutate
  import opened GcCollector
  import opened GcEffect

  class Program {
    const g: GlobalState

    constructor (g: GlobalState)
      ensures this.g == g
    {
      this.g := g;
    }

    /** The collector's invariant holds and there is a running thread. */
    ghost predicate Running()
      reads g
    {
      g.Inv() && HasThread(g.Now())
    }

    function Stack(): seq<Ptr>
      requires Running()
      reads g
    {
      g.objs[g.roots[0]].refs
    }

    lemma StackAlive()
      requires Running()
      ensures Alive(g.Now(), g.roots[0]) && AllAlive(g.Now(), Refs(Stack()))
    {
      var s := g.Now();
      CoreClosed(s);
      assert s.roots[0] in [s.main] + s.roots;
      NotNull(s, s.roots[0]);
      assert s.roots[0] in RootSet(s);
      assert AllAlive(s, Kids(s.objs, s.roots[0]));
    }

    lemma SlotAlive(slot: nat)
      requires Running() && slot < |Stack()|
      ensures Stack()[slot] == NULL || Alive(g.Now(), Stack()[slot])
    {
      StackAlive();
    }

    /** The values in some slots. */
    function Values(slots: seq<nat>): (vs: seq<Ptr>)
      requires Running() && Fit(slots, |Stack()|)
      reads g
    {
      Pick(Stack(), slots)
    }

    lemma ValuesAlive(slots: seq<nat>)
      requires Running() && Fit(slots, |Stack()|)
      ensures AllAlive(g.Now(), Refs(Values(slots)))
    {
      StackAlive();
      forall v | v in Values(slots) ensures v in Stack() {
        var i :| 0 <= i < |slots| && Stack()[slots[i]] == v;
      }
    }

    method Push(v: Ptr)
      requires Running() && (v == NULL || Alive(g.Now(), v))
      modifies g`objs, g`color, g`gray, g`grayagain
      ensures Running() && Stack() == old(Stack()) + [v]
      ensures g.objs == WithTop(old(g.Now()), old(g.objs), v)
    {
      StackAlive();
      g.Store(g.roots[0], |Stack()|, v);
    }

    /** Removes the values above `n`, after closing the upvalues that stand for them. */
    method Cut(n: nat)
      requires Running() && n <= |Stack()|
      modifies g`objs, g`color, g`gray, g`uvhead, g`allgc, g`sweepgc
      ensures Running() && Leaves(old(g.Now()), g.Now(), n)
    {
      hide Core, PhaseOk, Kids, Trims, ClosedFrom;
      var th := g.roots[0];
      g.CloseLevel(th, n);
      StackAlive();
      ghost var objs1 := g.objs;
      assert forall v | v in Stack()[..n] :: v in Stack();
      g.SetStack(th, Stack()[..n]);
    }

    /** A closure over some values and some slots of the running function. */
    method MakeClosure(p: Ptr, slots: seq<nat>, levels: seq<nat>, ps: seq<Ptr>)
      requires Running() && Fit(slots, |Stack()|) && Fit(levels, |Stack()|) && |ps| == |levels|
      requires AllFresh(g.objs, p, ps)
      modifies g`objs, g`color, g`gray, g`grayagain, g`uvhead, g`allgc, g`sweepgc
      ensures Running() && exists us :: Captures(old(g.Now()), g.Now(), Capture(p, slots, levels, ps), us)
    {
      hide Core, PhaseOk, Kids, Opens, NewOpen;
      ghost var s, us := g.Now(), [];
      var th := g.roots[0];
      StackAlive();
      ValuesAlive(slots);
      var refs := Values(slots);
      OpensNone(s, th);
      var i := 0;
      while i < |levels|
        invariant Running() && g.roots == old(g.roots) && Stack() == old(Stack()) && AllAlive(g.Now(), Refs(refs))
        invariant 0 <= i <= |levels| && refs == old(Values(slots)) + us && p !in g.objs
        invariant Opens(s.objs, g.objs, th, levels[..i], us) && forall j | i <= j < |ps| :: ps[j] !in g.objs
      {
        StackAlive();
        ghost var s1 := g.Now();
        var uv := g.FindUpval(th, levels[i], ps[i]);
        OpensMore(s, s1, g.objs, th, levels, i, us, uv, ps[i]);
        refs, us := refs + [uv], us + [uv];
        i := i + 1;
      }
      assert levels[..|levels|] == levels;
      ghost var objs1 := g.objs;
      g.NewObj(p, Closure, refs);
      Push(p);
      assert Captures(s, g.Now(), Capture(p, slots, levels, ps), us);
    }

    /** Upvalue `i` of the closure in a slot, if there is one. */
    method UpvalOf(slot: nat, i: nat) returns (uv: Ptr)
      requires Running()
      ensures uv == UpvalIn(g.Now(), slot, i)
      ensures uv != NULL ==> Alive(g.Now(), uv) && (g.objs[uv].kind.Open? || g.objs[uv].kind.Closed?)
    {
      uv := NULL;
      if slot < |Stack()| && Stack()[slot] != NULL {
        SlotAlive(slot);
        var o := Stack()[slot];
        if g.objs[o].kind.Closure? && i < |g.objs[o].refs| && g.objs[o].refs[i] != NULL {
          FieldAlive(g.Now(), o, i);
          var u := g.objs[o].refs[i];
          if g.objs[u].kind.Open? || g.objs[u].kind.Closed? { uv := u; }
        }
      }
    }

    /** Assigns through an upvalue. */
    method AssignUpval(uv: Ptr, v: Ptr)
      requires Running() && Alive(g.Now(), uv) && (g.objs[uv].kind.Open? || g.objs[uv].kind.Closed?)
      requires v == NULL || Alive(g.Now(), v)
      modifies g`objs, g`color, g`gray, g`grayagain
      ensures Running() && Cell(g.objs, uv) == v && g.objs == Assigned(old(g.objs), uv, v)
    {
      hide Core, PhaseOk, Kids;
      g.SetUpval(uv, v);
    }

    /** Something new. */
    method Allocate(a: Action)
      requires Running() && (a.Create? || a.CreateString? || a.Capture?)
      modifies g
      ensures Running() && Effect(old(g.Now()), g.Now(), a)
    {
      hide Core, PhaseOk, Leaves, Captures, Preserves, Assigned, AllFresh, UpvalIn;
      StackAlive();
      NoNull(g.Now());
      match a {
        case Create(p, kind, slots) =>
          if Fit(slots, |Stack()|) && p != NULL && p !in g.objs && HoldsValues(kind) && (kind.Thread? ==> slots == []) {
            ValuesAlive(slots);
            g.NewObj(p, kind, Values(slots));
            Push(p);
          }
        case CreateString(p, hash) =>
          if p != NULL && p !in g.objs {
            g.NewShortString(p, hash);
            Push(p);
          }
        case Capture(p, slots, levels, ps) =>
          if Fit(slots, |Stack()|) && Fit(levels, |Stack()|) && |ps| == |levels| && AllFresh(g.objs, p, ps) {
            MakeClosure(p, slots, levels, ps);
          }
        case _ =>
      }
    }

    /** A value is pushed. */
    method Load(a: Action)
      requires Running() && (a.FindString? || a.Get? || a.GetUpval? || a.GetRoot?)
      modifies g
      ensures Running() && Effect(old(g.Now()), g.Now(), a)
    {
      hide Core, PhaseOk, Leaves, Captures, Preserves, Assigned, AllFresh, UpvalIn;
      StackAlive();
      NoNull(g.Now());
      match a {
        case FindString(p) =>
          if p in g.objs && g.objs[p].kind.ShortStr? {
            g.InternString(p);
            Push(p);
          }
        case Get(slot, i) =>
          if slot < |Stack()| && Stack()[slot] != NULL {
            SlotAlive(slot);
            var o := Stack()[slot];
            if i < |g.objs[o].refs| && HoldsValues(g.objs[o].kind) {
              FieldAlive(g.Now(), o, i);
              Push(g.objs[o].refs[i]);
            }
          }
        case GetUpval(slot, i) =>
          var uv := UpvalOf(slot, i);
          if uv != NULL {
            UpvalFacts(g.Now(), uv);
            Push(Cell(g.objs, uv));
          }
        case GetRoot(root) =>
          if root < |g.roots| {
            RootAlive(g.Now(), root);
            Push(g.roots[root]);
          }
        case _ =>
      }
    }

    /** A value is stored. */
    method Save(a: Action)
      requires Running() && (a.Set? || a.SetUpval? || a.Assign?)
      modifies g
      ensures Running() && Effect(old(g.Now()), g.Now(), a)
    {
      hide Core, PhaseOk, Leaves, Captures, Preserves, Assigned, AllFresh, UpvalIn;
      StackAlive();
      NoNull(g.Now());
      match a {
        case Set(slot, i, value) =>
          if slot < |Stack()| && value < |Stack()| && Stack()[slot] != NULL {
            SlotAlive(slot);
            SlotAlive(value);
            var o := Stack()[slot];
            if HoldsValues(g.objs[o].kind) && i <= |g.objs[o].refs| {
              g.Store(o, i, Stack()[value]);
            }
          }
        case SetUpval(slot, i, value) =>
          var uv := UpvalOf(slot, i);
          if uv != NULL && value < |Stack()| {
            SlotAlive(value);
            AssignUpval(uv, Stack()[value]);
          }
        case Assign(slot, value) =>
          if slot < |Stack()| && value < |Stack()| {
            SlotAlive(value);
            g.SetSlot(g.roots[0], slot, Stack()[value]);
          }
        case _ =>
      }
    }

    /** One action; it does nothing if its operands do not fit. */
    method Do(a: Action)
      requires Running()
      modifies g
      ensures Running() && Effect(old(g.Now()), g.Now(), a)
    {
      hide Core, PhaseOk, Leaves, Captures, Preserves, Assigned, AllFresh, UpvalIn;
      StackAlive();
      NoNull(g.Now());
      if a.Create? || a.CreateString? || a.Capture? {
        Allocate(a);
        return;
      }
      if a.FindString? || a.Get? || a.GetUpval? || a.GetRoot? {
        Load(a);
        return;
      }
      if a.Set? || a.SetUpval? || a.Assign? {
        Save(a);
        return;
      }
      match a {
        case Step => Collector(false);
        case Collect => Collector(true);
        case Drop =>
          if Stack() != [] {
            Cut(|Stack()| - 1);
          }
        case Leave(level) =>
          if level <= |Stack()| {
            Cut(level);
          }
        case Resume(slot) =>
          if slot < |Stack()| && Stack()[slot] != NULL {
            SlotAlive(slot);
            var th := Stack()[slot];
            if g.objs[th].kind.Thread? {
              g.SetRoot(0, th);
            }
          }
        case Publish(root, slot) =>
          if 0 < root < |g.roots| && slot < |Stack()| {
            SlotAlive(slot);
            g.SetRoot(root, Stack()[slot]);
          }
        case _ =>
      }
    }

    /** A step of the collector, or a full collection. */
    method Collector(full: bool)
      requires Running()
      modifies g
      ensures Running() && Preserves(old(g.Now()), g.Now()) && g.roots == old(g.roots)
    {
      hide Core, Preserves, PhaseOk;
      ghost var s := g.Now();
      StackAlive();
      if full {
        g.FullGC();
      } else {
        CoreClosed(s);
        AliveWithin(s, g.gcstate, g.sweepstrgc, g.Pos());
        g.SingleStep(AllOf(s));
      }
      StillRunning(s, g.Now());
    }

    /** For every program and every interleaving with the collector: each action has its effect on the heap as the
        program sees it, and nothing that can be reached is ever freed. */
    method Run(script: seq<Action>) returns (ghost states: seq<Gc>)
      requires Running()
      modifies g
      ensures Running() && Safe(g.Now())
      ensures |states| == |script| + 1 && states[0] == old(g.Now()) && states[|script|] == g.Now()
      ensures forall i | 0 <= i < |script| :: Stepped(states[i], states[i + 1], script[i])
    {
      hide Effect, Safe, Core, PhaseOk;
      states := [g.Now()];
      var i := 0;
      while i < |script|
        invariant 0 <= i <= |script| && Running()
        invariant |states| == i + 1 && states[0] == old(g.Now()) && states[i] == g.Now()
        invariant forall j | 0 <= j < i :: Stepped(states[j], states[j + 1], script[j])
      {
        Do(script[i]);
        states := states + [g.Now()];
        i := i + 1;
      }
      CoreClosed(g.Now());
      AliveClosedIsSafe(g.Now());
    }
  }
}
