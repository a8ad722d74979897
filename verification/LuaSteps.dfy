/** How each step of the code generator keeps `Means`: appending, patching, joining, inverting. */
module LuaSteps {
  import opened LuaVm
  import opened LuaExpr
  import opened LuaJumps
  import opened LuaSem

  lemma StartsLater(p0: Snap, p: Snap, q: int)
    requires Extends(p0, p) && Starts(p0, q) && p.lab <= |p.code|
    ensures Starts(p, q)
  {
    if q >= 1 { assert SameTest(p0.code, p.code, q - 1); }
  }

  /** The code once the jumps pending here have been sent to its end. */
  function Discharged(p: Snap): seq<Instr> {
    PatchCode(p.code, p.here, NO_REG, |p.code|, |p.code|)
  }

  /** `p'` is `p` with its pending jumps resolved and more code appended. */
  ghost predicate Appends(p: Snap, p': Snap) {
    && |p.code| <= |p'.code|
    && p'.code[..|p.code|] == Discharged(p)
    && (forall j | 0 <= j < |p.code| :: j in p'.here + p'.open <==> j in p.open)
    && (forall j <- p'.here :: j >= |p.code|)
    && p.k <= p'.k && p'.num == p.num
  }

  lemma SemAppend(p: Snap, p': Snap, env: Env, q: int, s: State)
    requires Wf(p) && Appends(p, p') && Entry(p.code, q)
    ensures match Sem(p, env, q, s)
            case Stuck => true
            case Fall(s1) => Sem(p', env, q, s) == Sem(p', env, |p.code|, s1)
            case Exit(j, s1) => j in p.open && Sem(p', env, q, s) == Exit(j, s1)
  {
    RunSim(p.code, p.here + p.open, p'.code, p'.here + p'.open,
           p.here, NO_REG, |p.code|, |p.code|, env, q, s);
  }

  lemma ControlKept(p: Snap, p': Snap, j: int)
    requires Wf(p) && Appends(p, p') && j in p.open
    ensures 0 <= j < |p.code| && p'.code[j] == p.code[j] && Control(p'.code, j) == Control(p.code, j)
    ensures ControlPos(p'.code, j) == ControlPos(p.code, j)
  {
    assert p'.code[j] == p'.code[..|p.code|][j];
    if j >= 1 {
      assert p'.code[j - 1] == p'.code[..|p.code|][j - 1];
    }
  }

  /** From the old end of the code, the appended code turns what `rest` promises into what `rest'` promises. */
  ghost predicate Continues(
    p: Snap, p': Snap, n: int, x: int, rest: Rest, rest': Rest, ts: set<int>, fs: set<int>)
  {
    forall env, s, v, tr | Fits(env, p') && RestOk(p, rest, env, s, v, tr) ::
      Describes(p', n, x, rest', ts, fs, env, s, (v, tr),
                Sem(Body(p', rest'), env, |Body(p, rest).code|, s))
  }

  lemma ExitKept(p: Snap, p': Snap, b: Snap, b': Snap, ts: set<int>, fs: set<int>, ts': set<int>, fs': set<int>,
                 j: int, s: State, v: Value)
    requires Wf(b) && Appends(b, b') && ts <= ts' && fs <= fs'
    requires |b.code| <= |p.code| && p.code[..|b.code|] == b.code
    requires |b'.code| <= |p'.code| && p'.code[..|b'.code|] == b'.code
    requires j in b.open && ExitOk(p.code, j, s, v, ts, fs)
    ensures ExitOk(p'.code, j, s, v, ts', fs')
  {
    ControlKept(b, b', j);
    PrefixControl(b.code, p.code, j);
    PrefixControl(b'.code, p'.code, j);
  }

  lemma PrefixControl(c: seq<Instr>, d: seq<Instr>, j: int)
    requires |c| <= |d| && d[..|c|] == c && 0 <= j < |c|
    ensures Control(d, j) == Control(c, j)
  {
    assert d[j] == d[..|c|][j];
    if j >= 1 {
      assert d[j - 1] == d[..|c|][j - 1];
    }
  }

  /** One run: if the part before the append is described by `rest`, the whole is described by `rest'`. */
  lemma DescribesAppend(
    p: Snap, p': Snap, n: int, x: int, rest: Rest, rest': Rest,
    ts: set<int>, fs: set<int>, ts': set<int>, fs': set<int>,
    env: Env, s1: State, r: (Value, Trace), out: Outcome, out': Outcome)
    requires Wf(Body(p, rest)) && Appends(Body(p, rest), Body(p', rest'))
    requires ts <= ts' && fs <= fs'
    requires Continues(p, p', n, x, rest, rest', ts', fs')
    requires Fits(env, p')
    requires Describes(p, n, -1, rest, ts, fs, env, s1, r, out)
    requires out.Fall? ==> out' == Sem(Body(p', rest'), env, |Body(p, rest).code|, out.s)
    requires out.Exit? ==> out.j in Body(p, rest).open && out' == out
    ensures Describes(p', n, x, rest', ts', fs', env, s1, r, out')
  {
    match out {
      case Fall(s2) =>
        assert RestOk(p, rest, env, s2, r.0, r.1);
        assert Describes(p', n, x, rest', ts', fs', env, s2, (r.0, r.1), out');
      case Exit(j, s2) =>
        ExitKept(p, p', Body(p, rest), Body(p', rest'), ts, fs, ts', fs', j, s2, r.0);
    }
  }

  lemma MeansAppend(
    p0: Snap, p: Snap, p': Snap, n: int, x: int, rest: Rest, rest': Rest,
    ts: set<int>, fs: set<int>, ts': set<int>, fs': set<int>, e: Expr)
    requires Means(p0, p, n, -1, rest, ts, fs, e)
    requires Extends(p0, Body(p, rest)) && Wf(Body(p, rest)) && Appends(Body(p, rest), Body(p', rest'))
    requires ts <= ts' && fs <= fs'
    requires Continues(p, p', n, x, rest, rest', ts', fs')
    ensures Means(p0, p', n, x, rest', ts', fs', e)
  {
    var b, b' := Body(p, rest), Body(p', rest');
    forall env, q, s | Fits(env, p') && Starts(p0, q)
      ensures MeansAt(p0, p', n, x, rest', ts', fs', e, env, q, s)
    {
      assert MeansAt(p0, p, n, -1, rest, ts, fs, e, env, q, s);
      StartsLater(p0, b, q);
      SemAppend(b, b', env, q, s);
      if Sem(p0, env, q, s).Fall? {
        var s1 := Sem(p0, env, q, s).s;
        DescribesAppend(p, p', n, x, rest, rest', ts, fs, ts', fs', env, s1,
                        Eval(env, e, s1.regs, s1.tr), Sem(b, env, q, s), Sem(b', env, q, s));
      }
    }
  }

  // ---------- putting a value in a register ----------

  /** The code that brings a value of kind `k` into register `reg`. */
  function LoadCode(p: Snap, k: Kind, reg: int): seq<Instr> {
    match k
    case VNil => [LoadNil(reg, 0)]
    case VTrue => [LoadBool(reg, true, false)]
    case VFalse => [LoadBool(reg, false, false)]
    case VK(i) => if i <= MAXARG_BX then [LoadK(reg, i)] else [LoadKX(reg), ExtraArg(i)]
    case VNonReloc(r) => [Move(reg, r)]
    case VReloc(_) => if |p.code| > 0 && IsReloc(p.code[|p.code| - 1])
                      then [WithTarget(p.code[|p.code| - 1], reg)] else []
    case _ => []
  }

  predicate Loadable(k: Kind) { k.VNil? || k.VTrue? || k.VFalse? || k.VK? || k.VNonReloc? || k.VReloc? }

  /** `p'` is `b` with its pending jumps resolved and `x` appended; `newOpen` are the new open jumps. */
  ghost predicate Emits(b: Snap, p': Snap, x: seq<Instr>, newOpen: set<int>) {
    && p'.code == Discharged(b) + x
    && p'.here == {}
    && p'.open == b.open + newOpen
    && (forall j <- newOpen :: j >= |b.code|)
    && b.k <= p'.k && p'.num == b.num
  }

  lemma EmitsAppends(b: Snap, p': Snap, x: seq<Instr>, newOpen: set<int>)
    requires Wf(b) && Emits(b, p', x, newOpen)
    ensures Appends(b, p')
    ensures |p'.code| == |b.code| + |x|
    ensures forall i | 0 <= i < |x| :: p'.code[|b.code| + i] == x[i]
  {
  }

  lemma LoadContinues(p: Snap, p': Snap, n: int, k: Kind, reg: int, ts: set<int>, fs: set<int>)
    requires Loadable(k) && Wf(Body(p, Yields(k)))
    requires Emits(Body(p, Yields(k)), p', LoadCode(p, k, reg), {})
    ensures Continues(p, p', n, reg, Yields(k), Yields(VNonReloc(reg)), ts, fs)
  {
    var b := Body(p, Yields(k));
    EmitsAppends(b, p', LoadCode(p, k, reg), {});
    forall env, s, v, tr | Fits(env, p') && RestOk(p, Yields(k), env, s, v, tr)
      ensures Describes(p', n, reg, Yields(VNonReloc(reg)), ts, fs, env, s, (v, tr),
                        Sem(Body(p', Yields(VNonReloc(reg))), env, |b.code|, s))
    {
      assert Set(s, reg, v).(tr := tr) == State(s.regs[reg := v], tr);
      assert Run(p'.code, p'.here + p'.open, env, |p'.code|, State(s.regs[reg := v], tr))
          == Fall(State(s.regs[reg := v], tr));
      if k.VNil? {
        assert SetNil(s.regs, reg, 0) == s.regs[reg := Nil];
      }
    }
  }

  /** An instruction that computes its value in place is appended and may be given a register later. */
  lemma ApplyContinues(p: Snap, p': Snap, n: int, i: Instr, ts: set<int>, fs: set<int>)
    requires IsReloc(i) && Wf(p) && Emits(p, p', [i], {})
    ensures Continues(p, p', n, -1, Applied(i), Yields(VReloc(|p.code|)), ts, fs)
    ensures Appends(p, Body(p', Yields(VReloc(|p.code|))))
  {
    EmitsAppends(p, p', [i], {});
    var b' := Body(p', Yields(VReloc(|p.code|)));
    assert b'.code == Discharged(p);
    forall env, s, v, tr | Fits(env, p') && RestOk(p, Applied(i), env, s, v, tr)
      ensures Describes(p', n, -1, Yields(VReloc(|p.code|)), ts, fs, env, s, (v, tr), Sem(b', env, |p.code|, s))
    {
      assert p'.code[|p'.code| - 1] == i;
    }
  }

  lemma UpvalContinues(p: Snap, p': Snap, n: int, i: int, ts: set<int>, fs: set<int>)
    requires Wf(p) && Emits(p, p', [GetUpval(0, i)], {})
    ensures Continues(p, p', n, -1, Yields(VUpval(i)), Yields(VReloc(|p.code|)), ts, fs)
    ensures Appends(p, Body(p', Yields(VReloc(|p.code|))))
  {
    ApplyContinues(p, p', n, GetUpval(0, i), ts, fs);
    forall env, s, v, tr | Fits(env, p') && RestOk(p, Yields(VUpval(i)), env, s, v, tr)
      ensures Describes(p', n, -1, Yields(VReloc(|p.code|)), ts, fs, env, s, (v, tr),
                        Sem(Body(p', Yields(VReloc(|p.code|))), env, |p.code|, s))
    {
      assert RestOk(p, Applied(GetUpval(0, i)), env, s, v, tr);
    }
  }

  // ---------- conditional jumps ----------

  /** A test at the end of the code, controlling the open jump after it. */
  lemma RunLastTest(code: seq<Instr>, open: set<int>, env: Env, s: State, s1: State, taken: bool)
    requires |code| >= 2 && code[|code| - 1].Jmp? && |code| - 1 in open
    requires Next(code, open, env, |code| - 2, s) == Branch(code, open, |code| - 2, s1, taken)
    ensures Run(code, open, env, |code| - 2, s) == if taken then Exit(|code| - 1, s1) else Fall(s1)
  {
  }

  /** TESTSET: jump, carrying the value of `r`, when its truth is `cond`. */
  lemma TestSetContinues(p: Snap, p': Snap, n: int, r: int, cond: bool, link: int, ts: set<int>, fs: set<int>)
    requires Wf(p) && Emits(p, p', [TestSet(NO_REG, r, cond), Jmp(link)], {|p.code| + 1})
    requires |p.code| + 1 in (if cond then ts else fs)
    ensures Continues(p, p', n, -1, Yields(VNonReloc(r)), Decided(!cond), ts, fs)
  {
    EmitsAppends(p, p', [TestSet(NO_REG, r, cond), Jmp(link)], {|p.code| + 1});
    forall env, s, v, tr | Fits(env, p') && RestOk(p, Yields(VNonReloc(r)), env, s, v, tr)
      ensures Describes(p', n, -1, Decided(!cond), ts, fs, env, s, (v, tr),
                        Sem(Body(p', Decided(!cond)), env, |p.code|, s))
    {
      RunLastTest(p'.code, p'.here + p'.open, env, s, s, IsFalse(v) != cond);
    }
  }

  /** The value is `not r`: the NOT is taken back and the jump tests `r` for the opposite. */
  lemma TestContinues(p: Snap, b: Snap, p': Snap, n: int, r: int, a: int, rest: Rest, cond: bool, link: int,
                      ts: set<int>, fs: set<int>)
    requires |p.code| > 0 && p.code[|p.code| - 1] == NotI(a, r)
    requires rest == Yields(VReloc(|p.code| - 1)) && b == Body(p, rest) && Wf(b)
    requires Emits(b, p', [Instr.Test(r, !cond), Jmp(link)], {|b.code| + 1})
    requires |b.code| + 1 in (if cond then ts else fs)
    ensures Continues(p, p', n, -1, rest, Decided(!cond), ts, fs)
  {
    EmitsAppends(b, p', [Instr.Test(r, !cond), Jmp(link)], {|b.code| + 1});
    forall env, s, v, tr | Fits(env, p') && RestOk(p, rest, env, s, v, tr)
      ensures Describes(p', n, -1, Decided(!cond), ts, fs, env, s, (v, tr),
                        Sem(Body(p', Decided(!cond)), env, |b.code|, s))
    {
      assert v == Bool(IsFalse(Get(s.regs, r)));
      RunLastTest(p'.code, p'.here + p'.open, env, s, s, IsFalse(v) != cond);
    }
  }

  /** A comparison jumps when it holds and falls through when it does not. */
  lemma CompareContinues(p: Snap, p': Snap, n: int, i: Instr, rest': Rest, link: int, ts: set<int>, fs: set<int>)
    requires i.Compare? && Wf(p) && Emits(p, p', [i, Jmp(link)], {|p.code| + 1})
    requires |p.code| + 1 in ts && rest' == Yields(VJmp(|p.code| + 1))
    ensures Continues(p, p', n, -1, Compared(i), rest', ts, fs)
  {
    EmitsAppends(p, p', [i, Jmp(link)], {|p.code| + 1});
    forall env, s, v, tr | Fits(env, p') && RestOk(p, Compared(i), env, s, v, tr)
      ensures Describes(p', n, -1, rest', ts, fs, env, s, (v, tr), Sem(Body(p', rest'), env, |p.code|, s))
    {
      RunLastTest(p'.code, p'.here + p'.open, env, s, s.(tr := tr), v == Bool(true));
    }
  }
}
