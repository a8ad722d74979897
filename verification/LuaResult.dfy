/** What finished code does: the reading of the code generator's invariant once nothing is pending. */
module LuaResult {
  import opened LuaVm
  import opened LuaExpr
  import opened LuaJumps
  import opened LuaSem
  import opened LuaSteps
  import opened LuaJoin
  import opened LuaShape
  import opened LuaBuilt

  /** The code before an expression that starts a function. */
  function Start(k: seq<Value>, num: (ArithOp, real, real) -> real): Snap { Snap([], {}, {}, 0, k, num) }

  /** From state `s1` on, the value of `x` has been put in `reg`, the events of `x` and no others have
      happened, and the registers below `n` other than `reg` and `skip` are as before. */
  ghost predicate Evaluated(env: Env, n: int, skip: int, reg: int, x: Expr, s1: State, out: Outcome) {
    && out.Fall?
    && var (v, tr) := Eval(env, x, s1.regs, s1.tr);
       Get(out.s.regs, reg) == v && out.s.tr == tr && Agree(s1.regs, out.s.regs, n, skip)
  }

  /** For every run: code that denotes `x` in a register, with no jump left, first does what the code
      before it did and then evaluates `x`. */
  lemma Appended(p0: Snap, p: Snap, nact: int, n: int, skip: int, reg: int, x: Expr, env: Env, q: int, s: State)
    requires Built(p0, p, nact, n, skip, Yields(VNonReloc(reg)), NO_JUMP, [], NO_JUMP, [], x)
    requires Fits(env, p) && Starts(p0, q)
    ensures p.open == p0.open
    ensures Sem(p0, env, q, s).Fall? ==> Evaluated(env, n, skip, reg, x, Sem(p0, env, q, s).s, Sem(p, env, q, s))
    ensures Sem(p0, env, q, s).Exit? ==> Sem(p, env, q, s) == Sem(p0, env, q, s)
  {
    assert MeansAt(p0, p, n, skip, Yields(VNonReloc(reg)), Elems([]) + {}, Elems([]), x, env, q, s);
    assert Elems([]) == {};
  }

  /** Complete code: all jumps have targets, every TESTSET a register, and a run from the start leaves
      the value of `x` in `reg` and the locals unchanged. */
  ghost predicate Computes(code: seq<Instr>, k: seq<Value>, num: (ArithOp, real, real) -> real, nact: int, reg: int,
                           x: Expr) {
    && (forall i | 0 <= i < |code| :: InstrOk(code, {}, i))
    && forall env: Env, s: State | k <= env.k && env.num == num ::
       Evaluated(env, nact, -1, reg, x, s, Run(code, {}, env, 0, s))
  }

  lemma Completed(p0: Snap, p: Snap, nact: int, n: int, reg: int, x: Expr)
    requires p0 == Start(p0.k, p0.num)
    requires Built(p0, p, nact, n, -1, Yields(VNonReloc(reg)), NO_JUMP, [], NO_JUMP, [], x)
    ensures p.num == p0.num && Computes(Discharged(p), p.k, p.num, nact, reg, x)
  {
    var p' := p.(code := Discharged(p) + [], here := {});
    assert Elems([]) == {} && p.open == {};
    assert Discharged(p) + [] == Discharged(p);
    WfEmits(p, p', [], {});
    EmitsAppends(p, p', [], {});
    forall i | 0 <= i < |p'.code| ensures InstrOk(p'.code, {}, i) { WfAt(p', i); }
    forall env: Env, s: State | p.k <= env.k && env.num == p.num
      ensures Evaluated(env, nact, -1, reg, x, s, Run(p'.code, {}, env, 0, s))
    {
      Appended(p0, p, nact, n, -1, reg, x, env, 0, s);
      SemAppend(p, p', env, 0, s);
    }
  }
}
