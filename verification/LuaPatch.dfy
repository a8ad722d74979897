/** Negation, inverted jumps, merged LOADNILs, and the patching that ends an expression. */
module LuaPatch {
  import opened LuaVm
  import opened LuaExpr
  import opened LuaJumps
  import opened LuaSem
  import opened LuaSteps
  import opened LuaJoin

  // ---------- not ----------

  /** The code after the jumps in `js` have lost the values they carried. */
  function Stripped(code: seq<Instr>, js: set<int>): seq<Instr> {
    seq(|code|, i requires 0 <= i < |code| =>
      if i + 1 in js && code[i].TestSet? then Instr.Test(code[i].b, code[i].accept) else code[i])
  }

  /** What is left of `not` once a value of kind `k` is there. */
  function NotRest(k: Kind): Rest {
    match k
    case VNil => Yields(VTrue)
    case VFalse => Yields(VTrue)
    case VNonReloc(r) => Applied(NotI(0, r))
    case VJmp(_) => Yields(VTrue)
    case _ => Yields(VFalse)
  }

  predicate Negatable(p: Snap, k: Kind) {
    match k
    case VK(i) => 0 <= i < |p.k| && !IsFalse(p.k[i])
    case VLocal(_) => false
    case VUpval(_) => false
    case VReloc(_) => false
    case _ => true
  }

  lemma DescribesNot(p: Snap, p': Snap, n: int, k: Kind, ts: set<int>, fs: set<int>, e: Expr,
                     env: Env, s1: State, out: Outcome)
    requires Negatable(p, k) && OpenOk(p.code, p.here + p.open) && ts + fs <= p.open
    requires p' == p.(code := Stripped(p.code, ts + fs)) && Fits(env, p)
    requires Describes(p, n, -1, Yields(k), ts, fs, env, s1, Eval(env, e, s1.regs, s1.tr), out)
    ensures Describes(p', n, -1, NotRest(k), fs, ts, env, s1, Eval(env, EUn(Not, e), s1.regs, s1.tr), out)
  {
    var (v, tr) := Eval(env, e, s1.regs, s1.tr);
    assert Eval(env, EUn(Not, e), s1.regs, s1.tr) == (Bool(IsFalse(v)), tr);
    match out {
      case Exit(j, s2) => assert !Carries(p'.code, j);
      case Fall(s2) =>
    }
  }

  /** `not` exchanges the two lists; their jumps no longer carry values. */
  lemma MeansNot(p0: Snap, p: Snap, p': Snap, n: int, k: Kind, ts: set<int>, fs: set<int>, e: Expr)
    requires Means(p0, p, n, -1, Yields(k), ts, fs, e)
    requires Negatable(p, k) && OpenOk(p.code, p.here + p.open) && ts + fs <= p.open
    requires p' == p.(code := Stripped(p.code, ts + fs))
    ensures Means(p0, p', n, -1, NotRest(k), fs, ts, EUn(Not, e))
    ensures SameRuns(p.code, p'.code, p.here + p.open)
  {
    forall i | 0 <= i < |p.code|
      ensures p'.code[i] == p.code[i]
           || (p.code[i].TestSet? && p.code[i].a == NO_REG && p'.code[i] == Instr.Test(p.code[i].b, p.code[i].accept))
    {
      assert InstrOk(p.code, p.here + p.open, i);
    }
    forall env, q, s | Fits(env, p') && Starts(p0, q)
      ensures MeansAt(p0, p', n, -1, NotRest(k), fs, ts, EUn(Not, e), env, q, s)
    {
      assert MeansAt(p0, p, n, -1, Yields(k), ts, fs, e, env, q, s);
      SemSame(p, p', env, q, s);
      if Sem(p0, env, q, s).Fall? {
        DescribesNot(p, p', n, k, ts, fs, e, env, Sem(p0, env, q, s).s, Sem(p, env, q, s));
      }
    }
  }

  // ---------- inverted comparisons ----------

  /** The code ends with a comparison and its jump, and nothing else leads to the end. */
  ghost predicate EndsInJump(p: Snap, pc: int) {
    && Wf(p) && p.here == {} && p.lab < |p.code| - 1
    && pc == |p.code| - 1 && pc >= 1 && pc in p.open && p.code[pc - 1].Compare?
  }

  function Inverted(code: seq<Instr>): seq<Instr>
    requires |code| >= 2 && code[|code| - 2].Compare?
  {
    var c := code[|code| - 2];
    code[|code| - 2 := Compare(c.cmp, !c.accept, c.b, c.c)]
  }

  function Flip(out: Outcome, pc: int): Outcome {
    match out
    case Fall(s) => Exit(pc, s)
    case Exit(j, s) => if j == pc then Fall(s) else out
    case Stuck => Stuck
  }

  /** A step looks only at its own instruction and at the one after it. */
  lemma NextLocal(code: seq<Instr>, code': seq<Instr>, open: set<int>, env: Env, q: int, s: State)
    requires |code'| == |code| && 0 <= q < |code| && code'[q] == code[q]
    requires q + 1 < |code| && code'[q + 1] != code[q + 1] ==>
               !code[q + 1].Jmp? && !code'[q + 1].Jmp? && !code[q + 1].ExtraArg? && !code'[q + 1].ExtraArg?
    ensures Next(code', open, env, q, s) == Next(code, open, env, q, s)
  {
    var i := code[q];
    if q + 1 < |code| {
      assert code'[q + 1].Jmp? == code[q + 1].Jmp? && code'[q + 1].ExtraArg? == code[q + 1].ExtraArg?;
    }
  }

  /** When nothing is labelled at the end, only the last two instructions lead there. */
  ghost predicate EndStep(p: Snap, q: int, step: Step)
    requires 0 <= q < |p.code|
  {
    match step
    case Halt => true
    case Goto(q1, _) =>
      && q < q1 && Entry(p.code, q1)
      && (q1 >= |p.code| ==> q == |p.code| - 1 || (q == |p.code| - 2 && (IsTest(p.code[q]) || p.code[q].LoadKX?)))
    case Leave(j, _) => j == q || j == q + 1
  }

  lemma BranchEnd(p: Snap, q: int, s: State, taken: bool)
    requires Wf(p) && p.lab < |p.code| && 0 <= q < |p.code| - 1 && IsTest(p.code[q])
    ensures EndStep(p, q, Branch(p.code, p.here + p.open, q, s, taken))
  {
    WfAt(p, q);
    WfAt(p, q + 1);
  }

  lemma NextEnd(p: Snap, env: Env, q: int, s: State)
    requires Wf(p) && p.lab < |p.code| && 0 <= q < |p.code| && Entry(p.code, q)
    ensures EndStep(p, q, Next(p.code, p.here + p.open, env, q, s))
  {
    WfAt(p, q);
    var i := p.code[q];
    if i.Compare? {
      var ev := Comparison(i.cmp, RK(env, s, i.b), RK(env, s, i.c));
      BranchEnd(p, q, s.(tr := s.tr + [ev]), env.holds(s.tr, ev) == i.accept);
    } else if i.Test? {
      BranchEnd(p, q, s, IsFalse(Get(s.regs, i.a)) != i.accept);
    } else if i.TestSet? {
      var v := Get(s.regs, i.b);
      var taken := IsFalse(v) != i.accept;
      BranchEnd(p, q, if taken && i.a != NO_REG then Set(s, i.a, v) else s, taken);
    } else if i.Jmp? {
    } else if i.LoadBool? {
    }
  }

  lemma NextInvert(p: Snap, pc: int, env: Env, q: int, s: State)
    requires EndsInJump(p, pc) && Entry(p.code, q) && 0 <= q < |p.code|
    ensures q != pc
    ensures var step := Next(p.code, p.open, env, q, s);
            q < pc - 1 ==>
              && Next(Inverted(p.code), p.open, env, q, s) == step
              && (step.Goto? ==> q < step.q < |p.code| && Entry(p.code, step.q))
              && (step.Leave? ==> step.j != pc)
  {
    assert p.here + p.open == p.open;
    if q < pc - 1 {
      NextLocal(p.code, Inverted(p.code), p.open, env, q, s);
      NextEnd(p, env, q, s);
    }
  }

  lemma LastCompare(p: Snap, pc: int, env: Env, s: State)
    requires EndsInJump(p, pc)
    ensures Run(Inverted(p.code), p.open, env, pc - 1, s) == Flip(Run(p.code, p.open, env, pc - 1, s), pc)
  {
    var i := p.code[pc - 1];
    var ev := Comparison(i.cmp, RK(env, s, i.b), RK(env, s, i.c));
    var s1 := s.(tr := s.tr + [ev]);
    RunLastTest(p.code, p.open, env, s, s1, env.holds(s.tr, ev) == i.accept);
    RunLastTest(Inverted(p.code), p.open, env, s, s1, env.holds(s.tr, ev) != i.accept);
  }

  lemma {:induction false} RunInvert(p: Snap, pc: int, env: Env, q: int, s: State)
    requires EndsInJump(p, pc) && Entry(p.code, q) && q != |p.code|
    ensures Run(Inverted(p.code), p.open, env, q, s) == Flip(Run(p.code, p.open, env, q, s), pc)
    decreases |p.code| - q
  {
    if 0 <= q < |p.code| {
      NextInvert(p, pc, env, q, s);
      if q == pc - 1 {
        LastCompare(p, pc, env, s);
      } else {
        match Next(p.code, p.open, env, q, s) {
          case Goto(q1, s1) => RunInvert(p, pc, env, q1, s1);
          case _ =>
        }
      }
    }
  }

  lemma SemInvert(p: Snap, p': Snap, pc: int, env: Env, q: int, s: State)
    requires EndsInJump(p, pc) && Starts(p, q)
    requires p' == p.(code := Inverted(p.code))
    ensures Sem(p', env, q, s) == Flip(Sem(p, env, q, s), pc)
  {
    RunInvert(p, pc, env, q, s);
    assert p.here + p.open == p.open;
  }

  lemma DescribesInvert(p: Snap, p': Snap, pc: int, n: int, k: Kind, k': Kind,
                        ts: set<int>, fs: set<int>, ts': set<int>, fs': set<int>,
                        env: Env, s1: State, r: (Value, Trace), out: Outcome)
    requires EndsInJump(p, pc) && p' == p.(code := Inverted(p.code)) && pc !in ts + fs && pc !in ts' + fs'
    requires ts == ts' && fs == fs'
    requires (k == VJmp(pc) && k' == VTrue && Describes(p, n, -1, Yields(k), ts + {pc}, fs, env, s1, r, out))
          || (k == VTrue && k' == VJmp(pc) && Describes(p, n, -1, Yields(k), ts, fs + {pc}, env, s1, r, out))
    ensures k == VTrue ==> Describes(p', n, -1, Yields(k'), ts + {pc}, fs, env, s1, r, Flip(out, pc))
    ensures k == VJmp(pc) ==> Describes(p', n, -1, Yields(k'), ts, fs + {pc}, env, s1, r, Flip(out, pc))
  {
    forall j | 0 <= j < |p.code|
      ensures Carries(p'.code, j) == Carries(p.code, j)
              && (Carries(p.code, j) ==> Control(p'.code, j) == Control(p.code, j))
    {
    }
    assert !Carries(p.code, pc);
  }

  /** Inverting the comparison turns "jump when it holds" into "jump when it fails". */
  lemma MeansInvert(p0: Snap, p: Snap, p': Snap, pc: int, n: int, k: Kind, k': Kind,
                    ts: set<int>, fs: set<int>, ts1: set<int>, fs1: set<int>, ts2: set<int>, fs2: set<int>, e: Expr)
    requires EndsInJump(p, pc) && Extends(p0, p) && pc !in p0.open && pc !in ts + fs
    requires p' == p.(code := Inverted(p.code))
    requires (k, k') == (VJmp(pc), VTrue) || (k, k') == (VTrue, VJmp(pc))
    requires if k == VTrue then ts1 == ts && fs1 == fs + {pc} && ts2 == ts + {pc} && fs2 == fs
             else ts1 == ts + {pc} && fs1 == fs && ts2 == ts && fs2 == fs + {pc}
    requires Means(p0, p, n, -1, Yields(k), ts1, fs1, e)
    ensures Means(p0, p', n, -1, Yields(k'), ts2, fs2, e)
  {
    forall env, q, s | Fits(env, p') && Starts(p0, q)
      ensures MeansAt(p0, p', n, -1, Yields(k'), ts2, fs2, e, env, q, s)
    {
      assert MeansAt(p0, p, n, -1, Yields(k), ts1, fs1, e, env, q, s);
      StartsLater(p0, p, q);
      SemInvert(p, p', pc, env, q, s);
      SemExits(p0, env, q, s);
      if Sem(p0, env, q, s).Fall? {
        var s1 := Sem(p0, env, q, s).s;
        DescribesInvert(p, p', pc, n, k, k', ts, fs, ts, fs, env, s1, Eval(env, e, s1.regs, s1.tr), Sem(p, env, q, s));
      }
    }
  }

  // ---------- merged LOADNIL ----------

  lemma {:induction false} SetNilGet(m: Regs, a: int, n: int, r: int)
    ensures Get(SetNil(m, a, n), r) == if a <= r <= a + n then Nil else Get(m, r)
    decreases n + 1
  {
    if n >= 0 { SetNilGet(m[a := Nil], a + 1, n - 1, r); }
  }

  /** The last instruction is a LOADNIL that nothing jumps over. */
  ghost predicate EndsInNil(p: Snap) {
    Wf(p) && p.lab < |p.code| && p.code[|p.code| - 1].LoadNil? && p.code[|p.code| - 1].n >= 0
  }

  /** Registers a..a+n are those of the LOADNIL and the adjacent or included register `reg`. */
  predicate Widens(l: Instr, a: int, n: int, reg: int)
    requires l.LoadNil?
  {
    && l.a - 1 <= reg <= l.a + l.n + 1
    && a == (if reg < l.a then reg else l.a)
    && a + n == (if reg > l.a + l.n then reg else l.a + l.n)
  }

  /** The states differ at most in register `reg`, which is nil. */
  ghost predicate NilAt(s: State, s': State, reg: int) {
    s'.tr == s.tr && Get(s'.regs, reg) == Nil && Agree(s.regs, s'.regs, reg, -1)
    && forall r | r > reg :: Get(s'.regs, r) == Get(s.regs, r)
  }

  lemma MergeLast(p: Snap, a: int, n: int, reg: int, env: Env, s: State)
    requires EndsInNil(p) && n >= 0 && Widens(p.code[|p.code| - 1], a, n, reg)
    ensures var l := p.code[|p.code| - 1];
            NilAt(s.(regs := SetNil(s.regs, l.a, l.n)), s.(regs := SetNil(s.regs, a, n)), reg)
  {
    var l := p.code[|p.code| - 1];
    forall r ensures Get(SetNil(s.regs, l.a, l.n), r) == if l.a <= r <= l.a + l.n then Nil else Get(s.regs, r)
    { SetNilGet(s.regs, l.a, l.n, r); }
    forall r ensures Get(SetNil(s.regs, a, n), r) == if a <= r <= a + n then Nil else Get(s.regs, r)
    { SetNilGet(s.regs, a, n, r); }
  }

  lemma {:induction false} RunMerge(p: Snap, a: int, n: int, reg: int, env: Env, q: int, s: State)
    requires EndsInNil(p) && q != |p.code| && n >= 0 && Entry(p.code, q)
    requires Widens(p.code[|p.code| - 1], a, n, reg)
    ensures var code' := p.code[|p.code| - 1 := LoadNil(a, n)];
            match Run(p.code, p.open, env, q, s)
            case Fall(s1) => var out := Run(code', p.open, env, q, s); out.Fall? && NilAt(s1, out.s, reg)
            case Exit(j, s1) => Run(code', p.open, env, q, s) == Exit(j, s1)
            case Stuck => true
    decreases |p.code| - q
  {
    var code := p.code;
    var code' := code[|code| - 1 := LoadNil(a, n)];
    assert p.here == {} && p.here + p.open == p.open;
    if 0 <= q < |code| {
      if q == |code| - 1 {
        MergeLast(p, a, n, reg, env, s);
        RunLastStep(code, p.open, env, q, s, s.(regs := SetNil(s.regs, code[q].a, code[q].n)));
        RunLastStep(code', p.open, env, q, s, s.(regs := SetNil(s.regs, a, n)));
      } else {
        NextLocal(code, code', p.open, env, q, s);
        NextEnd(p, env, q, s);
        match Next(code, p.open, env, q, s) {
          case Goto(q1, s1) =>
            if q1 < |code| {
              RunMerge(p, a, n, reg, env, q1, s1);
            }
          case _ =>
        }
      }
    }
  }

  lemma DescribesMerge(p: Snap, p': Snap, a: int, n: int, m: int, reg: int, ts: set<int>, fs: set<int>,
                       env: Env, s1: State, r: (Value, Trace), out: Outcome, out': Outcome)
    requires EndsInNil(p) && p' == p.(code := p.code[|p.code| - 1 := LoadNil(a, n)])
    requires Describes(p, m, -1, Yields(VNil), ts, fs, env, s1, r, out)
    requires out.Exit? ==> out' == out
    requires out.Fall? ==> out'.Fall? && NilAt(out.s, out'.s, reg)
    ensures Describes(p', m, reg, Yields(VNonReloc(reg)), ts, fs, env, s1, r, out')
  {
    if out.Exit? && 0 <= out.j < |p.code| {
      assert Carries(p'.code, out.j) == Carries(p.code, out.j);
      assert Carries(p.code, out.j) ==> Control(p'.code, out.j) == Control(p.code, out.j);
    }
  }

  /** Widening the last LOADNIL by one register loads nil into it. */
  lemma MeansMerge(p0: Snap, p: Snap, p': Snap, a: int, n: int, m: int, reg: int, ts: set<int>, fs: set<int>, e: Expr)
    requires Means(p0, p, m, -1, Yields(VNil), ts, fs, e)
    requires EndsInNil(p) && Extends(p0, p) && n >= 0
    requires Widens(p.code[|p.code| - 1], a, n, reg)
    requires p' == p.(code := p.code[|p.code| - 1 := LoadNil(a, n)])
    ensures Means(p0, p', m, reg, Yields(VNonReloc(reg)), ts, fs, e)
  {
    assert p.here == {} && p.here + p.open == p.open;
    forall env, q, s | Fits(env, p') && Starts(p0, q)
      ensures MeansAt(p0, p', m, reg, Yields(VNonReloc(reg)), ts, fs, e, env, q, s)
    {
      assert MeansAt(p0, p, m, -1, Yields(VNil), ts, fs, e, env, q, s);
      StartsLater(p0, p, q);
      RunMerge(p, a, n, reg, env, q, s);
      if Sem(p0, env, q, s).Fall? {
        var s1 := Sem(p0, env, q, s).s;
        DescribesMerge(p, p', a, n, m, reg, ts, fs, env, s1, Eval(env, e, s1.regs, s1.tr),
                       Sem(p, env, q, s), Sem(p', env, q, s));
      }
    }
  }

  // ---------- the end of an expression ----------

  lemma RunLastStep(code: seq<Instr>, open: set<int>, env: Env, q: int, s: State, s1: State)
    requires 0 <= q < |code| && Next(code, open, env, q, s) == Goto(|code|, s1)
    ensures Run(code, open, env, q, s) == Fall(s1)
  {
  }

  lemma SemSkip(p: Snap, p': Snap, link: int, x: seq<Instr>, env: Env, q: int, s: State)
    requires Wf(p) && Entry(p.code, q)
    requires p'.code == p.code + [Jmp(link)] + x
    requires p'.here == p.here + {|p.code|} && p'.open == p.open
    ensures match Sem(p, env, q, s)
            case Stuck => true
            case Fall(s1) => Sem(p', env, q, s) == Fall(s1)
            case Exit(j, s1) => j in p.open && Sem(p', env, q, s) == Exit(j, s1)
  {
    assert PatchCode(p.code, {}, NO_REG, 0, 0) == p.code;
    assert p'.code[..|p.code|] == p.code;
    assert p'.code[|p.code|] == Jmp(link);
    RunSim(p.code, p.here + p.open, p'.code, p'.here + p'.open, {}, NO_REG, 0, 0, env, q, s);
  }

  /** A jump around the two loads that follow: what falls through now leaves through the jump,
      which is pending to the position after the loads. */
  lemma MeansSkip(p0: Snap, p: Snap, p': Snap, n: int, x: int, reg: int, link: int, more: seq<Instr>,
                  ts: set<int>, fs: set<int>, e: Expr)
    requires Means(p0, p, n, x, Yields(VNonReloc(reg)), ts, fs, e)
    requires Wf(p) && Extends(p0, p)
    requires p'.code == p.code + [Jmp(link)] + more
    requires p'.here == p.here + {|p.code|} && p'.open == p.open && p.k <= p'.k && p'.num == p.num
    ensures Means(p0, p', n, x, Yields(VNonReloc(reg)), ts, fs, e)
  {
    forall env, q, s | Fits(env, p') && Starts(p0, q)
      ensures MeansAt(p0, p', n, x, Yields(VNonReloc(reg)), ts, fs, e, env, q, s)
    {
      assert MeansAt(p0, p, n, x, Yields(VNonReloc(reg)), ts, fs, e, env, q, s);
      StartsLater(p0, p, q);
      SemSkip(p, p', link, more, env, q, s);
      if Sem(p0, env, q, s).Fall? && Sem(p, env, q, s).Exit? {
        PrefixControl(p.code, p'.code, Sem(p, env, q, s).j);
      }
    }
  }

  /** The comparison that falls through has the value false, which the first load delivers. */
  lemma LoadsContinue(p: Snap, p': Snap, n: int, reg: int, ts: set<int>, fs: set<int>)
    requires Wf(p) && Emits(p, p', [LoadBool(reg, false, true), LoadBool(reg, true, false)], {})
    ensures Continues(p, p', n, reg, Yields(VFalse), Yields(VNonReloc(reg)), ts, fs)
  {
    EmitsAppends(p, p', [LoadBool(reg, false, true), LoadBool(reg, true, false)], {});
    forall env, s, v, tr | Fits(env, p') && RestOk(p, Yields(VFalse), env, s, v, tr)
      ensures Describes(p', n, reg, Yields(VNonReloc(reg)), ts, fs, env, s, (v, tr),
                        Sem(Body(p', Yields(VNonReloc(reg))), env, |p.code|, s))
    {
      RunLastStep(p'.code, p'.here + p'.open, env, |p.code|, s, Set(s, reg, Bool(false)));
    }
  }

  ghost predicate Patched(p: Snap, p': Snap, js: set<int>, reg: int, vtarget: int, dtarget: int) {
    && js <= p.open && OpenOk(p.code, p.here + p.open)
    && p' == p.(code := PatchCode(p.code, js, reg, vtarget, dtarget), open := p.open - js, lab := p'.lab)
    && (forall j <- js :: 0 <= j < |p.code| && Target(p.code, j, vtarget, dtarget) > j)
  }

  lemma SemPatch(p: Snap, p': Snap, js: set<int>, reg: int, vtarget: int, dtarget: int, env: Env, q: int, s: State)
    requires Wf(p) && Patched(p, p', js, reg, vtarget, dtarget) && Entry(p.code, q)
    ensures match Sem(p, env, q, s)
            case Stuck => true
            case Fall(s1) => Sem(p', env, q, s) == Fall(s1)
            case Exit(j, s1) =>
              j in p.open &&
              Sem(p', env, q, s) == if j in js
                                    then Sem(p', env, Target(p.code, j, vtarget, dtarget), Landed(p.code, j, reg, s1))
                                    else Exit(j, s1)
  {
    RunSim(p.code, p.here + p.open, p'.code, p'.here + p'.open, js, reg, vtarget, dtarget, env, q, s);
    RunExits(p.code, p.here + p.open, env, q, s);
  }

  /** The code ends with the loads that deliver false and true. */
  predicate EndsInLoads(code: seq<Instr>, reg: int) {
    |code| >= 2 && code[|code| - 2] == LoadBool(reg, false, true) && code[|code| - 1] == LoadBool(reg, true, false)
  }

  /** A patched exit puts the value of the expression in `reg` and goes to the end. */
  lemma LandsInReg(p: Snap, p': Snap, js: set<int>, reg: int, dtarget: int, truth: bool, n: int,
                   env: Env, s1: State, j: int, s2: State, r: (Value, Trace))
    requires Wf(p) && Patched(p, p', js, reg, |p.code|, dtarget) && 0 <= reg < NO_REG
    requires (forall j <- js :: Carries(p.code, j)) ||
             (EndsInLoads(p.code, reg) && dtarget == (if truth then |p.code| - 1 else |p.code| - 2))
    requires j in js && r.0 == JumpValue(p.code, j, s2, truth) && s2.tr == r.1 && Agree(s1.regs, s2.regs, n, reg)
    ensures var out := Sem(p', env, Target(p.code, j, |p.code|, dtarget), Landed(p.code, j, reg, s2));
            out.Fall? && Agree(s1.regs, out.s.regs, n, reg) && out.s.tr == r.1 && Get(out.s.regs, reg) == r.0
  {
    if !Carries(p.code, j) {
      assert p'.code[dtarget] == PatchAt(p.code, js, reg, |p.code|, dtarget, dtarget);
      assert p'.code[dtarget] == LoadBool(reg, truth, !truth);
      RunLastStep(p'.code, p'.here + p'.open, env, dtarget, s2, Set(s2, reg, Bool(truth)));
    }
  }

  lemma DescribesPatch(p: Snap, p': Snap, n: int, js: set<int>, reg: int, dtarget: int, truth: bool,
                       ts: set<int>, fs: set<int>, ts': set<int>, fs': set<int>,
                       env: Env, s1: State, r: (Value, Trace), out: Outcome, out': Outcome)
    requires Wf(p) && Patched(p, p', js, reg, |p.code|, dtarget) && 0 <= reg < NO_REG
    requires (forall j <- js :: Carries(p.code, j)) ||
             (EndsInLoads(p.code, reg) && dtarget == (if truth then |p.code| - 1 else |p.code| - 2))
    requires if truth then ts == js && ts' == {} && fs == fs' else fs == js && fs' == {} && ts == ts'
    requires js !! (if truth then fs else ts)
    requires Describes(p, n, reg, Yields(VNonReloc(reg)), ts, fs, env, s1, r, out)
    requires out.Fall? ==> out' == out
    requires out.Exit? ==> out.j in p.open && 0 <= out.j < |p.code|
    requires out.Exit? ==>
               out' == if out.j in js
                       then Sem(p', env, Target(p.code, out.j, |p.code|, dtarget), Landed(p.code, out.j, reg, out.s))
                       else out
    ensures Describes(p', n, reg, Yields(VNonReloc(reg)), ts', fs', env, s1, r, out')
  {
    match out {
      case Exit(j, s2) =>
        if j in js {
          LandsInReg(p, p', js, reg, dtarget, truth, n, env, s1, j, s2, r);
        } else {
          ControlPatched(p, p', js, reg, |p.code|, dtarget, j);
        }
      case Fall(s2) =>
    }
  }

  /** Sending one list to its targets leaves the value of the expression in `reg`. */
  lemma MeansPatch(p0: Snap, p: Snap, p': Snap, n: int, js: set<int>, reg: int, dtarget: int, truth: bool,
                   ts: set<int>, fs: set<int>, ts': set<int>, fs': set<int>, e: Expr)
    requires Wf(p) && Patched(p, p', js, reg, |p.code|, dtarget) && 0 <= reg < NO_REG
    requires (forall j <- js :: Carries(p.code, j)) ||
             (EndsInLoads(p.code, reg) && dtarget == (if truth then |p.code| - 1 else |p.code| - 2))
    requires if truth then ts == js && ts' == {} && fs == fs' else fs == js && fs' == {} && ts == ts'
    requires js !! (if truth then fs else ts) && js !! p0.open
    requires Means(p0, p, n, reg, Yields(VNonReloc(reg)), ts, fs, e)
    requires Extends(p0, p)
    ensures Means(p0, p', n, reg, Yields(VNonReloc(reg)), ts', fs', e)
  {
    forall env, q, s | Fits(env, p') && Starts(p0, q)
      ensures MeansAt(p0, p', n, reg, Yields(VNonReloc(reg)), ts', fs', e, env, q, s)
    {
      assert MeansAt(p0, p, n, reg, Yields(VNonReloc(reg)), ts, fs, e, env, q, s);
      StartsLater(p0, p, q);
      SemPatch(p, p', js, reg, |p.code|, dtarget, env, q, s);
      SemExits(p0, env, q, s);
      if Sem(p0, env, q, s).Fall? {
        var s1 := Sem(p0, env, q, s).s;
        DescribesPatch(p, p', n, js, reg, dtarget, truth, ts, fs, ts', fs', env, s1,
                       Eval(env, e, s1.regs, s1.tr), Sem(p, env, q, s), Sem(p', env, q, s));
      }
    }
  }

  lemma ControlPatched(p: Snap, p': Snap, js: set<int>, reg: int, vtarget: int, dtarget: int, j: int)
    requires Wf(p) && Patched(p, p', js, reg, vtarget, dtarget) && j in p.open && j !in js
    ensures 0 <= j < |p.code| && p'.code[j] == p.code[j] && Control(p'.code, j) == Control(p.code, j)
  {
    assert p'.code[j] == PatchAt(p.code, js, reg, vtarget, dtarget, j);
    if j >= 1 {
      assert p'.code[j - 1] == PatchAt(p.code, js, reg, vtarget, dtarget, j - 1);
    }
  }
}
