/** Expressions of the language and their meaning: the Lua 5.2 reference manual, sections 3.4.1 to 3.4.6. */
module LuaExpr {
  import opened LuaVm

  datatype UnOpr = Minus | Not | Length

  datatype BinOpr =
    | Ari(op: ArithOp)
    | Eq | LessThan | LessEq
    | NotEq | Greater | GreaterEq
    | And | Or

  datatype Expr =
    | ENil | ETrue | EFalse
    | EStr(s: string)
    | ENum(n: real)
    | ELocal(r: int)
    | EUpval(i: int)
    | EParen(e: Expr)
    | EUn(uop: UnOpr, e: Expr)
    | EBin(bop: BinOpr, lhs: Expr, rhs: Expr)

  /** Every local variable of the expression lives in a register below `nact`; `-` on two operands
      is not the unary minus. */
  predicate InScope(e: Expr, nact: int) {
    match e
    case ELocal(r) => 0 <= r < nact
    case EParen(e1) => InScope(e1, nact)
    case EUn(_, e1) => InScope(e1, nact)
    case EBin(op, l, r) => op != Ari(OpUnm) && InScope(l, nact) && InScope(r, nact)
    case _ => true
  }

  function Test(env: Env, tr: Trace, op: CmpOp, x: Value, y: Value): (bool, Trace) {
    (env.holds(tr, Comparison(op, x, y)), tr + [Comparison(op, x, y)])
  }

  /** `a > b` is `b < a` and `a >= b` is `b <= a`; `~=` is the negation of `==`. */
  function Relation(env: Env, op: BinOpr, x: Value, y: Value, tr: Trace): (bool, Trace)
    requires !op.Ari? && op != And && op != Or
  {
    match op
    case Eq => Test(env, tr, OpEq, x, y)
    case LessThan => Test(env, tr, OpLt, x, y)
    case LessEq => Test(env, tr, OpLe, x, y)
    case NotEq => var (b, tr1) := Test(env, tr, OpEq, x, y); (!b, tr1)
    case Greater => Test(env, tr, OpLt, y, x)
    case GreaterEq => Test(env, tr, OpLe, y, x)
  }

  function Strict(env: Env, op: BinOpr, x: Value, y: Value, tr: Trace): (Value, Trace)
    requires op != And && op != Or
  {
    if op.Ari? then ArithResult(env, op.op, x, y, tr)
    else var (b, tr1) := Relation(env, op, x, y, tr); (Bool(b), tr1)
  }

  function Unary(env: Env, op: UnOpr, x: Value, tr: Trace): (Value, Trace) {
    match op
    case Minus => UnmResult(env, x, tr)
    case Not => (Bool(IsFalse(x)), tr)
    case Length => LenResult(env, x, tr)
  }

  /** The value of an expression and the events its evaluation causes, in order.  `and` and `or`
      evaluate their second operand only when the first one does not decide. */
  function Eval(env: Env, e: Expr, regs: Regs, tr: Trace): (Value, Trace) {
    match e
    case ENil => (Nil, tr)
    case ETrue => (Bool(true), tr)
    case EFalse => (Bool(false), tr)
    case EStr(s) => (Str(s), tr)
    case ENum(n) => (Number(n), tr)
    case ELocal(r) => (Get(regs, r), tr)
    case EUpval(i) => (env.upval(tr, i), tr)
    case EParen(e1) => Eval(env, e1, regs, tr)
    case EUn(op, e1) =>
      var (v, tr1) := Eval(env, e1, regs, tr);
      Unary(env, op, v, tr1)
    case EBin(op, l, r) =>
      var (x, tr1) := Eval(env, l, regs, tr);
      if op == And && IsFalse(x) then (x, tr1)
      else if op == Or && !IsFalse(x) then (x, tr1)
      else
        var (y, tr2) := Eval(env, r, regs, tr1);
        if op == And || op == Or then (y, tr2)
        else Strict(env, op, x, y, tr2)
  }

  /** The registers below `n`, except `x`, hold the same values. */
  ghost predicate Agree(m: Regs, m': Regs, n: int, x: int) {
    forall r | 0 <= r < n && r != x :: Get(m', r) == Get(m, r)
  }

  lemma EvalAgrees(env: Env, e: Expr, m: Regs, m': Regs, tr: Trace, nact: int)
    requires InScope(e, nact) && Agree(m, m', nact, -1)
    ensures Eval(env, e, m, tr) == Eval(env, e, m', tr)
  {
  }
}
