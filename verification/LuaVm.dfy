/** The instructions of the Lua 5.2 virtual machine that expressions compile to, and what they do.

    A register file is a map; a register that was never written holds nil.  Everything a program can
    observe from outside (metamethods run by comparisons, arithmetic and `#`) is an arbitrary function
    of the events that came before, so the trace of events records which operands were evaluated,
    and in which order. */
module LuaVm {

  const NO_JUMP: int := -1
  const NO_REG: int := 255        // MAXARG_A
  const MAXARG_BX: int := 262143
  const MAXARG_SBX: int := 131071
  const BITRK: int := 256
  const MAXINDEXRK: int := 255
  const MAXARG_AX: int := 67108863
  const MAXSTACK: int := 250

  datatype Value = Nil | Bool(b: bool) | Number(n: real) | Str(s: string) | Object(id: int)

  predicate IsFalse(v: Value) { v == Nil || v == Bool(false) }

  datatype ArithOp = OpAdd | OpSub | OpMul | OpDiv | OpMod | OpPow | OpUnm
  datatype CmpOp = OpEq | OpLt | OpLe

  datatype Event =
    | Arithmetic(aop: ArithOp, ax: Value, ay: Value)
    | SizeOf(lx: Value)
    | Comparison(cop: CmpOp, cx: Value, cy: Value)

  type Trace = seq<Event>

  /** The constants, and everything the expression does not control: upvalues, number arithmetic,
      and the outcome of an event given the events before it. */
  datatype Env = Env(
    k: seq<Value>,
    upval: (Trace, int) -> Value,
    num: (ArithOp, real, real) -> real,
    value: (Trace, Event) -> Value,
    holds: (Trace, Event) -> bool)

  type Regs = map<int, Value>

  function Get(m: Regs, r: int): Value { if r in m then m[r] else Nil }

  datatype State = State(regs: Regs, tr: Trace)

  datatype Instr =
    | Move(a: int, b: int)
    | LoadK(a: int, bx: int)
    | LoadKX(a: int)
    | ExtraArg(ax: int)
    | LoadBool(a: int, v: bool, skip: bool)
    | LoadNil(a: int, n: int)
    | GetUpval(a: int, b: int)
    | Arith(op: ArithOp, a: int, b: int, c: int)
    | Unm(a: int, b: int)
    | Len(a: int, b: int)
    | NotI(a: int, b: int)
    | Jmp(sbx: int)
    | Compare(cmp: CmpOp, accept: bool, b: int, c: int)
    | Test(a: int, accept: bool)
    | TestSet(a: int, b: int, accept: bool)
    | Other(opcode: int, a: int, b: int)

  /** An instruction that must be followed by a jump. */
  predicate IsTest(i: Instr) { i.Compare? || i.Test? || i.TestSet? }

  /** An instruction whose only effect is to put one value in register A. */
  predicate IsReloc(i: Instr) { i.GetUpval? || i.Arith? || i.Unm? || i.Len? || i.NotI? }

  predicate IsK(x: int) { x >= BITRK }

  function Const(env: Env, i: int): Value { if 0 <= i < |env.k| then env.k[i] else Nil }

  function RK(env: Env, s: State, x: int): Value {
    if IsK(x) then Const(env, x - BITRK) else Get(s.regs, x)
  }

  function ArithResult(env: Env, op: ArithOp, x: Value, y: Value, tr: Trace): (Value, Trace) {
    if x.Number? && y.Number? then (Number(env.num(op, x.n, y.n)), tr)
    else (env.value(tr, Arithmetic(op, x, y)), tr + [Arithmetic(op, x, y)])
  }

  function UnmResult(env: Env, x: Value, tr: Trace): (Value, Trace) {
    if x.Number? then (Number(env.num(OpUnm, x.n, x.n)), tr)
    else (env.value(tr, Arithmetic(OpUnm, x, x)), tr + [Arithmetic(OpUnm, x, x)])
  }

  function LenResult(env: Env, x: Value, tr: Trace): (Value, Trace) {
    (env.value(tr, SizeOf(x)), tr + [SizeOf(x)])
  }

  /** The value a relocatable instruction computes, wherever it will be put. */
  function RelocResult(env: Env, i: Instr, s: State): (Value, Trace)
    requires IsReloc(i)
  {
    match i
    case GetUpval(_, b) => (env.upval(s.tr, b), s.tr)
    case Arith(op, _, b, c) => ArithResult(env, op, RK(env, s, b), RK(env, s, c), s.tr)
    case Unm(_, b) => UnmResult(env, Get(s.regs, b), s.tr)
    case Len(_, b) => LenResult(env, Get(s.regs, b), s.tr)
    case NotI(_, b) => (Bool(IsFalse(Get(s.regs, b))), s.tr)
  }

  /** Registers a, a+1, ..., a+n become nil. */
  function SetNil(m: Regs, a: int, n: int): Regs
    decreases n + 1
  {
    if n < 0 then m else SetNil(m[a := Nil], a + 1, n - 1)
  }

  function Set(s: State, r: int, v: Value): State { s.(regs := s.regs[r := v]) }

  /** What happens when the code is run from some position: control reaches the end of the code,
      or it takes a jump whose target is still unknown, or it leaves the forward-only fragment. */
  datatype Outcome = Fall(s: State) | Exit(j: int, s: State) | Stuck

  datatype Step = Goto(q: int, s: State) | Leave(j: int, s: State) | Halt

  /** The jump at `j`: it has no target while it is in `open`. */
  function TakeJump(code: seq<Instr>, open: set<int>, j: int, s: State): Step
    requires 0 <= j < |code| && code[j].Jmp?
  {
    if j in open then Leave(j, s)
    else if code[j].sbx >= 0 then Goto(j + 1 + code[j].sbx, s)
    else Halt
  }

  /** A test either performs the jump that follows it or skips that jump. */
  function Branch(code: seq<Instr>, open: set<int>, q: int, s: State, taken: bool): Step
    requires 0 <= q < |code|
  {
    if q + 1 < |code| && code[q + 1].Jmp?
    then (if taken then TakeJump(code, open, q + 1, s) else Goto(q + 2, s))
    else Halt
  }

  /** One step.  A TESTSET whose A is NO_REG has no register to store into yet: it belongs to a
      jump without a target and is patched together with it. */
  function Next(code: seq<Instr>, open: set<int>, env: Env, q: int, s: State): Step
    requires 0 <= q < |code|
  {
    var i := code[q];
    if IsReloc(i) then
      var (v, tr) := RelocResult(env, i, s);
      Goto(q + 1, State(s.regs[i.a := v], tr))
    else
      match i
      case Move(a, b) => Goto(q + 1, Set(s, a, Get(s.regs, b)))
      case LoadK(a, bx) => Goto(q + 1, Set(s, a, Const(env, bx)))
      case LoadKX(a) =>
        if q + 1 < |code| && code[q + 1].ExtraArg?
        then Goto(q + 2, Set(s, a, Const(env, code[q + 1].ax)))
        else Halt
      case LoadBool(a, v, skip) => Goto(if skip then q + 2 else q + 1, Set(s, a, Bool(v)))
      case LoadNil(a, n) => Goto(q + 1, s.(regs := SetNil(s.regs, a, n)))
      case Jmp(_) => TakeJump(code, open, q, s)
      case Compare(cmp, accept, b, c) =>
        var ev := Comparison(cmp, RK(env, s, b), RK(env, s, c));
        Branch(code, open, q, s.(tr := s.tr + [ev]), env.holds(s.tr, ev) == accept)
      case Test(a, accept) =>
        Branch(code, open, q, s, IsFalse(Get(s.regs, a)) != accept)
      case TestSet(a, b, accept) =>
        var v := Get(s.regs, b);
        var taken := IsFalse(v) != accept;
        Branch(code, open, q, if taken && a != NO_REG then Set(s, a, v) else s, taken)
      case _ => Halt
  }

  /** Run `code` from position `q`.  The jumps in `open` have no target yet. */
  function Run(code: seq<Instr>, open: set<int>, env: Env, q: int, s: State): Outcome
    decreases |code| - q
  {
    if q < 0 || q > |code| then Stuck
    else if q == |code| then Fall(s)
    else
      match Next(code, open, env, q, s)
      case Halt => Stuck
      case Leave(j, s1) => Exit(j, s1)
      case Goto(q1, s1) => Run(code, open, env, q1, s1)
  }

  function WithTarget(i: Instr, r: int): Instr
    requires IsReloc(i)
  {
    match i
    case GetUpval(_, b) => GetUpval(r, b)
    case Arith(op, _, b, c) => Arith(op, r, b, c)
    case Unm(_, b) => Unm(r, b)
    case Len(_, b) => Len(r, b)
    case NotI(_, b) => NotI(r, b)
  }
}
