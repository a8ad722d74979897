/** What the Lua 5.2 reference manual says of operators, section by section, holds of the meaning that
    expressions are given here. */
module LuaManual {
  import opened LuaVm
  import opened LuaExpr

  /** Section 3.4.4: false and nil are false, and anything else is true; `and` and `or` leave one of their operands,
      and the second one is not evaluated when the first decides. */
  lemma LogicalOperators(env: Env, a: Expr, b: Expr, regs: Regs, tr: Trace)
    ensures var (x, t) := Eval(env, a, regs, tr);
            && Eval(env, EBin(And, a, b), regs, tr)
               == (if x == Nil || x == Bool(false) then (x, t) else Eval(env, b, regs, t))
            && Eval(env, EBin(Or, a, b), regs, tr)
               == (if x == Nil || x == Bool(false) then Eval(env, b, regs, t) else (x, t))
            && Eval(env, EUn(Not, a), regs, tr) == (Bool(x == Nil || x == Bool(false)), t)
  {
    var (x, t) := Eval(env, a, regs, tr);
    assert IsFalse(x) <==> x == Nil || x == Bool(false);
  }

  /** Negation goes inside `and` and `or`, with the same events in the same order. */
  lemma Negations(env: Env, a: Expr, b: Expr, regs: Regs, tr: Trace)
    ensures Eval(env, EUn(Not, EBin(And, a, b)), regs, tr)
            == Eval(env, EBin(Or, EUn(Not, a), EUn(Not, b)), regs, tr)
    ensures Eval(env, EUn(Not, EBin(Or, a, b)), regs, tr)
            == Eval(env, EBin(And, EUn(Not, a), EUn(Not, b)), regs, tr)
  {
    var (x, t) := Eval(env, a, regs, tr);
    LogicalOperators(env, a, b, regs, tr);
    LogicalOperators(env, EUn(Not, a), EUn(Not, b), regs, tr);
    LogicalOperators(env, EBin(And, a, b), a, regs, tr);
    LogicalOperators(env, EBin(Or, a, b), a, regs, tr);
    LogicalOperators(env, b, b, regs, t);
  }

  /** The operands from left to right, and then what happens to their values. */
  function Operands(env: Env, a: Expr, b: Expr, regs: Regs, tr: Trace): (Value, Value, Trace) {
    var (x, t) := Eval(env, a, regs, tr);
    var (y, u) := Eval(env, b, regs, t);
    (x, y, u)
  }

  /** Section 3.4.3: the operands are compared once, in this order; the others are translated to `==`, `<` and `<=`. */
  lemma RelationalOperators(env: Env, a: Expr, b: Expr, regs: Regs, tr: Trace)
    ensures var (x, y, t) := Operands(env, a, b, regs, tr);
            && var eq, lt, le, gt, ge := Comparison(OpEq, x, y), Comparison(OpLt, x, y), Comparison(OpLe, x, y),
                Comparison(OpLt, y, x), Comparison(OpLe, y, x);
               Eval(env, EBin(Eq, a, b), regs, tr) == (Bool(env.holds(t, eq)), t + [eq])
               && Eval(env, EBin(NotEq, a, b), regs, tr) == (Bool(!env.holds(t, eq)), t + [eq])
               && Eval(env, EBin(LessThan, a, b), regs, tr) == (Bool(env.holds(t, lt)), t + [lt])
               && Eval(env, EBin(LessEq, a, b), regs, tr) == (Bool(env.holds(t, le)), t + [le])
               && Eval(env, EBin(Greater, a, b), regs, tr) == (Bool(env.holds(t, gt)), t + [gt])
               && Eval(env, EBin(GreaterEq, a, b), regs, tr) == (Bool(env.holds(t, ge)), t + [ge])
  {
  }

  /** Sections 3.4.1 and 2.4: numbers are computed with directly, and nothing else is called; other operands
      raise one event, with the operands in their order. */
  lemma ArithmeticOperators(env: Env, op: ArithOp, a: Expr, b: Expr, regs: Regs, tr: Trace)
    ensures var (x, y, t) := Operands(env, a, b, regs, tr);
            Eval(env, EBin(Ari(op), a, b), regs, tr)
            == match (x, y)
               case (Number(m), Number(n)) => (Number(env.num(op, m, n)), t)
               case _ => (env.value(t, Arithmetic(op, x, y)), t + [Arithmetic(op, x, y)])
    ensures var (x, t) := Eval(env, a, regs, tr);
            Eval(env, EUn(Minus, a), regs, tr)
            == match x
               case Number(n) => (Number(env.num(OpUnm, n, n)), t)
               case _ => (env.value(t, Arithmetic(OpUnm, x, x)), t + [Arithmetic(OpUnm, x, x)])
  {
  }
}
