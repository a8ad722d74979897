/** What partially built code means.

    While an expression is being compiled, part of its outcome is still spread over pending jump
    lists and an expression descriptor.  `Means` says, for every run, how those pieces together
    denote the value of the expression, relative to the code `p0` that was there before. */
module LuaSem {
  import opened LuaVm
  import opened LuaExpr
  import opened LuaJumps

  datatype Kind =
    | VNil | VTrue | VFalse
    | VK(info: int)
    | VKNum(nval: real)
    | VNonReloc(info: int)
    | VLocal(info: int)
    | VUpval(info: int)
    | VJmp(info: int)
    | VReloc(info: int)

  /** What is known when control reaches the end of the code: where the value is, only its truth,
      or the instruction that would compute it. */
  datatype Rest = Yields(k: Kind) | Decided(truth: bool) | Applied(i: Instr) | Compared(i: Instr)

  /** The code so far.  `here` holds the pending jumps to the next instruction, `open` all other
      jumps that have no target yet, `lab` the last position marked as a jump target. */
  datatype Snap = Snap(
    code: seq<Instr>, here: set<int>, open: set<int>, lab: int,
    k: seq<Value>, num: (ArithOp, real, real) -> real)

  function Norm(out: Outcome, here: set<int>): Outcome {
    if out.Exit? && out.j in here then Fall(out.s) else out
  }

  function Sem(p: Snap, env: Env, q: int, s: State): Outcome {
    Norm(Run(p.code, p.here + p.open, env, q, s), p.here)
  }

  /** Every forward target was marked as a label. */
  ghost predicate LabelOk(code: seq<Instr>, open: set<int>, lab: int, i: int)
    requires 0 <= i < |code|
  {
    && (code[i].Jmp? && i !in open && code[i].sbx >= 0 ==> i + 1 + code[i].sbx <= lab)
    && (code[i].LoadBool? && code[i].skip ==> i + 2 <= lab)
  }

  ghost predicate Wf(p: Snap) {
    && OpenOk(p.code, p.here + p.open)
    && p.here !! p.open
    && 0 <= p.lab <= |p.code|
    && (p.here != {} ==> p.lab == |p.code|)
    && (forall i | 0 <= i < |p.code| :: LabelOk(p.code, p.here + p.open, p.lab, i))
  }

  lemma WfAt(p: Snap, i: int)
    requires Wf(p) && 0 <= i < |p.code|
    ensures InstrOk(p.code, p.here + p.open, i) && LabelOk(p.code, p.here + p.open, p.lab, i)
  {
  }

  /** Positions from which the code may be entered. */
  ghost predicate Starts(p: Snap, q: int) {
    0 <= q <= |p.code| && Entry(p.code, q) && (q == |p.code| ==> p.lab == |p.code|)
  }

  ghost predicate Fits(env: Env, p: Snap) { p.k <= env.k && env.num == p.num }

  /** The code without the instruction whose result has not been given a register yet. */
  function Body(p: Snap, rest: Rest): Snap {
    if rest.Yields? && rest.k.VReloc? && |p.code| > 0 then p.(code := p.code[..|p.code| - 1]) else p
  }

  /** The value a jump out of a list brings: a TESTSET carries the tested register, any other jump
      means the constant that its list stands for. */
  function JumpValue(code: seq<Instr>, j: int, s: State, truth: bool): Value
    requires 0 <= j < |code|
  {
    if Carries(code, j) then Get(s.regs, Control(code, j).b) else Bool(truth)
  }

  ghost predicate ExitOk(code: seq<Instr>, j: int, s: State, v: Value, ts: set<int>, fs: set<int>) {
    && 0 <= j < |code|
    && (|| (j in ts && !IsFalse(v) && v == JumpValue(code, j, s, true))
        || (j in fs && IsFalse(v) && v == JumpValue(code, j, s, false)))
  }

  /** Given that control falls through in state `s`, the expression has value `v` and trace `tr`. */
  ghost predicate RestOk(p: Snap, rest: Rest, env: Env, s: State, v: Value, tr: Trace) {
    match rest
    case Decided(truth) => s.tr == tr && IsFalse(v) == !truth
    case Applied(i) => IsReloc(i) && RelocResult(env, i, s) == (v, tr)
    case Compared(i) =>
      && i.Compare?
      && var ev := Comparison(i.cmp, RK(env, s, i.b), RK(env, s, i.c));
         tr == s.tr + [ev] && v == Bool(env.holds(s.tr, ev) == i.accept)
    case Yields(k) =>
      match k
      case VNil => s.tr == tr && v == Nil
      case VTrue => s.tr == tr && v == Bool(true)
      case VFalse => s.tr == tr && v == Bool(false)
      case VK(i) => s.tr == tr && v == Const(env, i)
      case VKNum(n) => s.tr == tr && v == Number(n)
      case VNonReloc(r) => s.tr == tr && v == Get(s.regs, r)
      case VLocal(r) => s.tr == tr && v == Get(s.regs, r)
      case VUpval(i) => s.tr == tr && v == env.upval(s.tr, i)
      case VJmp(_) => s.tr == tr && v == Bool(false)
      case VReloc(_) => |p.code| > 0 && IsReloc(p.code[|p.code| - 1])
                        && RelocResult(env, p.code[|p.code| - 1], s) == (v, tr)
  }

  ghost predicate Describes(
    p: Snap, n: int, x: int, rest: Rest, ts: set<int>, fs: set<int>,
    env: Env, s1: State, r: (Value, Trace), out: Outcome)
  {
    match out
    case Stuck => false
    case Fall(s2) => Agree(s1.regs, s2.regs, n, x) && RestOk(p, rest, env, s2, r.0, r.1)
    case Exit(j, s2) => Agree(s1.regs, s2.regs, n, x) && s2.tr == r.1 && ExitOk(p.code, j, s2, r.0, ts, fs)
  }

  /** A run of the new code does what the old code did up to the expression, then evaluates it. */
  ghost predicate MeansAt(
    p0: Snap, p: Snap, n: int, x: int, rest: Rest, ts: set<int>, fs: set<int>, e: Expr,
    env: Env, q: int, s: State)
  {
    match Sem(p0, env, q, s)
    case Stuck => true
    case Exit(j, s1) => Sem(Body(p, rest), env, q, s) == Exit(j, s1)
    case Fall(s1) =>
      Describes(p, n, x, rest, ts, fs, env, s1, Eval(env, e, s1.regs, s1.tr), Sem(Body(p, rest), env, q, s))
  }

  ghost predicate Means(p0: Snap, p: Snap, n: int, x: int, rest: Rest, ts: set<int>, fs: set<int>, e: Expr) {
    forall env, q, s | Fits(env, p) && Starts(p0, q) :: MeansAt(p0, p, n, x, rest, ts, fs, e, env, q, s)
  }

  predicate SameTest(code: seq<Instr>, code': seq<Instr>, i: int)
    requires 0 <= i < |code| <= |code'|
  {
    IsTest(code'[i]) <==> IsTest(code[i])
  }

  /** `code'` is at least as long and has its tests in the same places. */
  ghost predicate SameTests(code: seq<Instr>, code': seq<Instr>) {
    |code| <= |code'| && forall i | 0 <= i < |code| :: SameTest(code, code', i)
  }

  /** The jump at `j`, and what controls it, are the same in both. */
  predicate KeptAt(code: seq<Instr>, code': seq<Instr>, j: int) {
    0 <= j < |code| && j < |code'| && code'[j] == code[j] && Control(code', j) == Control(code, j)
  }

  ghost predicate Keeps(code: seq<Instr>, code': seq<Instr>, js: set<int>) {
    forall j <- js :: KeptAt(code, code', j)
  }

  /** `p` extends `p0` and leaves its open jumps alone. */
  ghost predicate Extends(p0: Snap, p: Snap) {
    && SameTests(p0.code, p.code)
    && Keeps(p0.code, p.code, p0.open)
    && p0.lab <= p.lab
    && p0.k <= p.k
    && p0.num == p.num
  }

  /** Two codes that only differ in the links of open jumps, or in a TESTSET that has become a TEST. */
  ghost predicate SameRuns(code: seq<Instr>, code': seq<Instr>, open: set<int>) {
    && |code| == |code'|
    && forall i | 0 <= i < |code| ::
         || code'[i] == code[i]
         || (i in open && code[i].Jmp? && code'[i].Jmp?)
         || (code[i].TestSet? && code[i].a == NO_REG && code'[i] == Instr.Test(code[i].b, code[i].accept))
  }

  lemma {:induction false} RunSame(code: seq<Instr>, code': seq<Instr>, open: set<int>, env: Env, q: int, s: State)
    requires SameRuns(code, code', open)
    ensures Run(code, open, env, q, s) == Run(code', open, env, q, s)
    decreases |code| - q
  {
    if 0 <= q < |code| {
      if q + 1 < |code| {
        assert code[q + 1].Jmp? <==> code'[q + 1].Jmp?;
      }
      assert Next(code, open, env, q, s) == Next(code', open, env, q, s);
      match Next(code, open, env, q, s) {
        case Goto(q1, s1) =>
          if q1 > q { RunSame(code, code', open, env, q1, s1); }
        case _ =>
      }
    }
  }
}
