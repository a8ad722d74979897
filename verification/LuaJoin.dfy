/** How joining, inverting and patching pieces of code keeps `Means`. */
module LuaJoin {
  import opened LuaVm
  import opened LuaExpr
  import opened LuaJumps
  import opened LuaSem
  import opened LuaSteps

  // ---------- changes that do not alter runs ----------

  lemma SemSame(p: Snap, p': Snap, env: Env, q: int, s: State)
    requires SameRuns(p.code, p'.code, p.here + p.open)
    requires p'.here == p.here && p'.open == p.open
    ensures Sem(p', env, q, s) == Sem(p, env, q, s)
  {
    RunSame(p.code, p'.code, p.here + p.open, env, q, s);
  }

  /** Only links of open jumps change. */
  lemma MeansRelink(p0: Snap, p: Snap, p': Snap, n: int, x: int, rest: Rest, ts: set<int>, fs: set<int>, e: Expr)
    requires Means(p0, p, n, x, rest, ts, fs, e)
    requires |p'.code| == |p.code| && p'.here == p.here && p'.open == p.open && p'.k == p.k && p'.num == p.num
    requires forall i | 0 <= i < |p.code| ::
               p'.code[i] == p.code[i] || (i in p.here + p.open && p.code[i].Jmp? && p'.code[i].Jmp?)
    requires rest.Yields? && rest.k.VReloc? && |p.code| > 0 ==> !p.code[|p.code| - 1].Jmp?
    ensures Means(p0, p', n, x, rest, ts, fs, e)
  {
    forall env, q, s | Fits(env, p') && Starts(p0, q)
      ensures MeansAt(p0, p', n, x, rest, ts, fs, e, env, q, s)
    {
      assert MeansAt(p0, p, n, x, rest, ts, fs, e, env, q, s);
      SemSame(Body(p, rest), Body(p', rest), env, q, s);
      forall j | 0 <= j < |p.code| ensures Carries(p'.code, j) == Carries(p.code, j)
                                   && (Carries(p.code, j) ==> Control(p'.code, j) == Control(p.code, j)) {
      }
    }
  }

  /** The jumps in a list are sent to the next instruction. */
  lemma MeansToHere(p0: Snap, p: Snap, p': Snap, n: int, truth: bool, js: set<int>, ts: set<int>, fs: set<int>, e: Expr)
    requires Means(p0, p, n, -1, Decided(truth), if truth then js else ts, if truth then fs else js, e)
    requires p' == p.(here := p.here + js, open := p.open - js, lab := p'.lab)
    requires js !! (if truth then fs else ts)
    requires js <= p.open && p0.open !! js
    ensures Means(p0, p', n, -1, Decided(truth), if truth then {} else ts, if truth then fs else {}, e)
  {
    var ts', fs' := if truth then {} else ts, if truth then fs else {};
    assert p'.here + p'.open == p.here + p.open;
    forall env, q, s | Fits(env, p') && Starts(p0, q)
      ensures MeansAt(p0, p', n, -1, Decided(truth), ts', fs', e, env, q, s)
    {
      assert MeansAt(p0, p, n, -1, Decided(truth), if truth then js else ts, if truth then fs else js, e, env, q, s);
      SemExits(p0, env, q, s);
    }
  }

  /** An exit always leaves through an open jump. */
  lemma {:induction false} RunExits(code: seq<Instr>, open: set<int>, env: Env, q: int, s: State)
    ensures Run(code, open, env, q, s).Exit? ==> Run(code, open, env, q, s).j in open
    decreases |code| - q
  {
    if 0 <= q < |code| {
      match Next(code, open, env, q, s) {
        case Goto(q1, s1) => if q1 > q { RunExits(code, open, env, q1, s1); }
        case _ =>
      }
    }
  }

  lemma SemExits(p: Snap, env: Env, q: int, s: State)
    ensures Sem(p, env, q, s).Exit? ==> Sem(p, env, q, s).j in p.open
  {
    RunExits(p.code, p.here + p.open, env, q, s);
  }

  // ---------- and, or ----------

  lemma AgreeTrans(a: Regs, b: Regs, c: Regs, n: int, n': int, x: int)
    requires Agree(a, b, n, -1) && Agree(b, c, n', x) && n <= n'
    ensures Agree(a, c, n, x)
  {
  }

  /** One run: the first operand falls through only when it does not decide. */
  lemma DescribesAndOr(p1: Snap, p2: Snap, nact: int, n: int, op: BinOpr, rest: Rest,
                       js: set<int>, ts: set<int>, fs: set<int>, ts': set<int>, fs': set<int>,
                       l: Expr, r: Expr, env: Env, s1: State, out1: Outcome, out2: Outcome)
    requires op == And || op == Or
    requires Describes(p1, n, -1, Decided(op == And), if op == Or then js else {}, if op == And then js else {},
                       env, s1, Eval(env, l, s1.regs, s1.tr), out1)
    requires out1.Fall? ==> Describes(p2, n, -1, rest, ts, fs, env, out1.s, Eval(env, r, out1.s.regs, out1.s.tr), out2)
    requires out1.Exit? ==> out2 == out1
    requires Extends(p1, p2) && js <= p1.open && InScope(r, nact) && nact <= n
    requires ts' == (if op == Or then ts + js else ts) && fs' == (if op == And then fs + js else fs)
    ensures Describes(p2, n, -1, rest, ts', fs', env, s1, Eval(env, EBin(op, l, r), s1.regs, s1.tr), out2)
  {
    var (v, tr) := Eval(env, l, s1.regs, s1.tr);
    match out1 {
      case Exit(j, s2) =>
        assert Eval(env, EBin(op, l, r), s1.regs, s1.tr) == (v, tr);
      case Fall(s2) =>
        AgreeDown(s1.regs, s2.regs, n, nact);
        EvalAgrees(env, r, s1.regs, s2.regs, tr, nact);
        assert Eval(env, EBin(op, l, r), s1.regs, s1.tr) == Eval(env, r, s2.regs, s2.tr);
        DescribesAfter(p2, n, rest, ts, fs, ts', fs', env, s1, s2, Eval(env, r, s2.regs, s2.tr), out2);
    }
  }

  lemma MeansAndOr(p0: Snap, p1: Snap, p2: Snap, nact: int, n: int, op: BinOpr, rest: Rest,
                   js: set<int>, ts: set<int>, fs: set<int>, ts': set<int>, fs': set<int>, l: Expr, r: Expr)
    requires op == And || op == Or
    requires Means(p0, p1, n, -1, Decided(op == And), if op == Or then js else {}, if op == And then js else {}, l)
    requires Means(p1, p2, n, -1, rest, ts, fs, r)
    requires Extends(p0, p1) && Extends(p1, p2) && p1.lab <= |p1.code|
    requires js <= p1.open && InScope(r, nact) && nact <= n
    requires ts' == (if op == Or then ts + js else ts) && fs' == (if op == And then fs + js else fs)
    ensures Means(p0, p2, n, -1, rest, ts', fs', EBin(op, l, r))
  {
    forall env, q, s | Fits(env, p2) && Starts(p0, q)
      ensures MeansAt(p0, p2, n, -1, rest, ts', fs', EBin(op, l, r), env, q, s)
    {
      StartsLater(p0, p1, q);
      assert MeansAt(p0, p1, n, -1, Decided(op == And), if op == Or then js else {}, if op == And then js
          else {}, l, env, q, s);
      assert MeansAt(p1, p2, n, -1, rest, ts, fs, r, env, q, s);
      if Sem(p0, env, q, s).Fall? {
        DescribesAndOr(p1, p2, nact, n, op, rest, js, ts, fs, ts', fs', l, r, env, Sem(p0, env, q, s).s,
                       Sem(p1, env, q, s), Sem(Body(p2, rest), env, q, s));
      }
    }
  }

  lemma AgreeDown(a: Regs, b: Regs, n: int, m: int)
    requires Agree(a, b, n, -1) && m <= n
    ensures Agree(a, b, m, -1)
  {
  }

  lemma DescribesAfter(p: Snap, n: int, rest: Rest, ts: set<int>, fs: set<int>, ts': set<int>, fs': set<int>,
                       env: Env, s1: State, s2: State, r: (Value, Trace), out: Outcome)
    requires Agree(s1.regs, s2.regs, n, -1) && ts <= ts' && fs <= fs'
    requires Describes(p, n, -1, rest, ts, fs, env, s2, r, out)
    ensures Describes(p, n, -1, rest, ts', fs', env, s1, r, out)
  {
  }

  // ---------- strict operators ----------

  /** `o` is the operand encoding of a value of kind `k`. */
  predicate IsRk(k: Kind, o: int) {
    || (k.VK? && 0 <= k.info <= MAXINDEXRK && o == k.info + BITRK)
    || (k.VNonReloc? && 0 <= k.info < BITRK && o == k.info)
  }

  /** The instruction for a strict operator: `>` and `>=` exchange their operands, `~=` negates `==`. */
  function StrictRest(op: BinOpr, o1: int, o2: int): Rest
    requires op != And && op != Or
  {
    match op
    case Ari(a) => Applied(Arith(a, 0, o1, o2))
    case Eq => Compared(Compare(OpEq, true, o1, o2))
    case LessThan => Compared(Compare(OpLt, true, o1, o2))
    case LessEq => Compared(Compare(OpLe, true, o1, o2))
    case NotEq => Compared(Compare(OpEq, false, o1, o2))
    case Greater => Compared(Compare(OpLt, true, o2, o1))
    case GreaterEq => Compared(Compare(OpLe, true, o2, o1))
  }

  lemma DescribesStrict(p2: Snap, nact: int, n: int, n1: int, op: BinOpr, k1: Kind, k2: Kind, o1: int, o2: int,
                        l: Expr, r: Expr, env: Env, s1: State, s2: State, s3: State)
    requires op != And && op != Or && !(k1.VReloc? || k2.VReloc?)
    requires Agree(s1.regs, s2.regs, n, -1) && Agree(s2.regs, s3.regs, n1, -1)
    requires var (x, tr1) := Eval(env, l, s1.regs, s1.tr); RestOk(p2, Yields(k1), env, s2, x, tr1)
    requires var (y, tr2) := Eval(env, r, s2.regs, s2.tr); RestOk(p2, Yields(k2), env, s3, y, tr2)
    requires IsRk(k1, o1) && IsRk(k2, o2) && (k1.VNonReloc? ==> k1.info < n1)
    requires InScope(r, nact) && nact <= n <= n1
    ensures Describes(p2, n, -1, StrictRest(op, o1, o2), {}, {}, env, s1,
                      Eval(env, EBin(op, l, r), s1.regs, s1.tr), Fall(s3))
  {
    var (x, tr1) := Eval(env, l, s1.regs, s1.tr);
    AgreeDown(s1.regs, s2.regs, n, nact);
    EvalAgrees(env, r, s1.regs, s2.regs, tr1, nact);
    var (y, tr2) := Eval(env, r, s2.regs, s2.tr);
    assert x == RK(env, s3, o1) && y == RK(env, s3, o2) && s3.tr == tr2;
    assert Eval(env, EBin(op, l, r), s1.regs, s1.tr) == Strict(env, op, x, y, tr2);
    AgreeTrans(s1.regs, s2.regs, s3.regs, n, n1, -1);
  }

  lemma MeansStrict(p0: Snap, p1: Snap, p2: Snap, nact: int, n: int, n1: int, op: BinOpr,
                    k1: Kind, k2: Kind, o1: int, o2: int, l: Expr, r: Expr)
    requires op != And && op != Or
    requires Means(p0, p1, n, -1, Yields(k1), {}, {}, l) && Means(p1, p2, n1, -1, Yields(k2), {}, {}, r)
    requires Extends(p0, p1) && Extends(p1, p2) && p1.lab <= |p1.code|
    requires IsRk(k1, o1) && IsRk(k2, o2) && (k1.VNonReloc? ==> k1.info < n1)
    requires InScope(r, nact) && nact <= n <= n1
    ensures Means(p0, p2, n, -1, StrictRest(op, o1, o2), {}, {}, EBin(op, l, r))
  {
    var rest := StrictRest(op, o1, o2);
    assert Body(p1, Yields(k1)) == p1 && Body(p2, Yields(k2)) == p2 && Body(p2, rest) == p2;
    forall env, q, s | Fits(env, p2) && Starts(p0, q)
      ensures MeansAt(p0, p2, n, -1, rest, {}, {}, EBin(op, l, r), env, q, s)
    {
      StartsLater(p0, p1, q);
      assert MeansAt(p0, p1, n, -1, Yields(k1), {}, {}, l, env, q, s);
      assert MeansAt(p1, p2, n1, -1, Yields(k2), {}, {}, r, env, q, s);
      if Sem(p0, env, q, s).Fall? {
        var s1 := Sem(p0, env, q, s).s;
        assert Sem(p1, env, q, s).Fall?;
        var s2 := Sem(p1, env, q, s).s;
        assert Sem(p2, env, q, s).Fall?;
        DescribesStrict(p2, nact, n, n1, op, k1, k2, o1, o2, l, r, env, s1, s2, Sem(p2, env, q, s).s);
      }
    }
  }

  lemma DescribesNumeralLate(p3: Snap, nact: int, n: int, n1: int, n2: int, op: ArithOp, k1: Kind, k2: Kind, o1: int,
                             o2: int,
                             c: real, l: Expr, r: Expr, env: Env, s1: State, s2: State, s3: State, s4: State)
    requires !(k1.VReloc? || k2.VReloc?)
    requires Agree(s1.regs, s2.regs, n, -1) && Agree(s2.regs, s3.regs, n1, -1) && Agree(s3.regs, s4.regs, n2, -1)
    requires Eval(env, l, s1.regs, s1.tr) == (Number(c), s2.tr)
    requires var (y, tr2) := Eval(env, r, s2.regs, s2.tr); RestOk(p3, Yields(k2), env, s3, y, tr2)
    requires RestOk(p3, Yields(k1), env, s4, Number(c), s3.tr)
    requires IsRk(k1, o1) && IsRk(k2, o2) && (k2.VNonReloc? ==> k2.info < n2)
    requires InScope(r, nact) && nact <= n <= n1 <= n2
    ensures Describes(p3, n, -1, Applied(Arith(op, 0, o1, o2)), {}, {}, env, s1,
                      Eval(env, EBin(Ari(op), l, r), s1.regs, s1.tr), Fall(s4))
  {
    AgreeDown(s1.regs, s2.regs, n, nact);
    EvalAgrees(env, r, s1.regs, s2.regs, s2.tr, nact);
    var (y, tr2) := Eval(env, r, s2.regs, s2.tr);
    assert Number(c) == RK(env, s4, o1) && y == RK(env, s4, o2) && s4.tr == tr2;
    assert Eval(env, EBin(Ari(op), l, r), s1.regs, s1.tr) == Strict(env, Ari(op), Number(c), y, tr2);
    AgreeTrans(s1.regs, s2.regs, s3.regs, n, n1, -1);
    AgreeTrans(s1.regs, s3.regs, s4.regs, n, n2, -1);
  }

  /** A numeral needs no evaluation, so it may be put in place after the other operand. */
  lemma MeansNumeralLate(p0: Snap, p1: Snap, p2: Snap, p3: Snap, nact: int, n: int, n1: int, n2: int, op: ArithOp,
                         k1: Kind, k2: Kind, o1: int, o2: int, c: real, l: Expr, r: Expr)
    requires Means(p0, p1, n, -1, Yields(VKNum(c)), {}, {}, l)
    requires Means(p1, p2, n1, -1, Yields(k2), {}, {}, r) && Means(p2, p3, n2, -1, Yields(k1), {}, {}, ENum(c))
    requires Extends(p0, p1) && Extends(p1, p2) && Extends(p2, p3) && p1.lab <= |p1.code| && p2.lab <= |p2.code|
    requires IsRk(k1, o1) && IsRk(k2, o2) && (k2.VNonReloc? ==> k2.info < n2)
    requires InScope(r, nact) && nact <= n <= n1 <= n2
    ensures Means(p0, p3, n, -1, Applied(Arith(op, 0, o1, o2)), {}, {}, EBin(Ari(op), l, r))
  {
    var rest := Applied(Arith(op, 0, o1, o2));
    assert Body(p1, Yields(VKNum(c))) == p1 && Body(p2, Yields(k2)) == p2 && Body(p3, Yields(k1)) == p3;
    forall env, q, s | Fits(env, p3) && Starts(p0, q)
      ensures MeansAt(p0, p3, n, -1, rest, {}, {}, EBin(Ari(op), l, r), env, q, s)
    {
      StartsLater(p0, p1, q);
      StartsLater(p1, p2, q);
      assert MeansAt(p0, p1, n, -1, Yields(VKNum(c)), {}, {}, l, env, q, s);
      assert MeansAt(p1, p2, n1, -1, Yields(k2), {}, {}, r, env, q, s);
      assert MeansAt(p2, p3, n2, -1, Yields(k1), {}, {}, ENum(c), env, q, s);
      if Sem(p0, env, q, s).Fall? {
        var s1 := Sem(p0, env, q, s).s;
        assert Sem(p1, env, q, s).Fall?;
        var s2 := Sem(p1, env, q, s).s;
        assert Sem(p2, env, q, s).Fall?;
        var s3 := Sem(p2, env, q, s).s;
        assert Sem(p3, env, q, s).Fall?;
        assert Eval(env, ENum(c), s3.regs, s3.tr) == (Number(c), s3.tr);
        DescribesNumeralLate(p3, nact, n, n1, n2, op, k1, k2, o1, o2, c, l, r, env, s1, s2, s3, Sem(p3, env, q, s).s);
      }
    }
  }

  /** Folding two numerals at compile time gives what the instruction would compute. */
  lemma MeansFold(p0: Snap, p1: Snap, p2: Snap, nact: int, n: int, op: ArithOp, a: real, b: real, l: Expr, r: Expr)
    requires Means(p0, p1, n, -1, Yields(VKNum(a)), {}, {}, l) && Means(p1, p2, n, -1, Yields(VKNum(b)), {}, {}, r)
    requires Extends(p0, p1) && Extends(p1, p2) && p1.lab <= |p1.code| && InScope(r, nact) && nact <= n
    ensures Means(p0, p2, n, -1, Yields(VKNum(p2.num(op, a, b))), {}, {}, EBin(Ari(op), l, r))
  {
    var k := VKNum(p2.num(op, a, b));
    forall env, q, s | Fits(env, p2) && Starts(p0, q)
      ensures MeansAt(p0, p2, n, -1, Yields(k), {}, {}, EBin(Ari(op), l, r), env, q, s)
    {
      StartsLater(p0, p1, q);
      assert MeansAt(p0, p1, n, -1, Yields(VKNum(a)), {}, {}, l, env, q, s);
      assert MeansAt(p1, p2, n, -1, Yields(VKNum(b)), {}, {}, r, env, q, s);
      if Sem(p0, env, q, s).Fall? {
        var s1 := Sem(p0, env, q, s).s;
        assert Sem(p1, env, q, s).Fall?;
        var s2 := Sem(p1, env, q, s).s;
        assert Sem(p2, env, q, s).Fall?;
        var s3 := Sem(p2, env, q, s).s;
        AgreeDown(s1.regs, s2.regs, n, nact);
        EvalAgrees(env, r, s1.regs, s2.regs, s2.tr, nact);
        AgreeTrans(s1.regs, s2.regs, s3.regs, n, n, -1);
        assert Eval(env, EBin(Ari(op), l, r), s1.regs, s1.tr) == Strict(env, Ari(op), Number(a), Number(b), s3.tr);
      }
    }
  }

  lemma MeansFoldMinus(p0: Snap, p: Snap, n: int, a: real, e: Expr)
    requires Means(p0, p, n, -1, Yields(VKNum(a)), {}, {}, e)
    ensures Means(p0, p, n, -1, Yields(VKNum(p.num(OpUnm, a, a))), {}, {}, EUn(Minus, e))
  {
    var k := VKNum(p.num(OpUnm, a, a));
    forall env, q, s | Fits(env, p) && Starts(p0, q)
      ensures MeansAt(p0, p, n, -1, Yields(k), {}, {}, EUn(Minus, e), env, q, s)
    {
      assert MeansAt(p0, p, n, -1, Yields(VKNum(a)), {}, {}, e, env, q, s);
    }
  }

  /** An expression that needs no code. */
  lemma MeansNoCode(p: Snap, n: int, k: Kind, e: Expr)
    requires !k.VReloc?
    requires forall env, s: State {:trigger Eval(env, e, s.regs, s.tr)} | Fits(env, p) ::
               RestOk(p, Yields(k), env, s, Eval(env, e, s.regs, s.tr).0, Eval(env, e, s.regs, s.tr).1)
    ensures Means(p, p, n, -1, Yields(k), {}, {}, e)
  {
    forall env, q, s | Fits(env, p) && Starts(p, q)
      ensures MeansAt(p, p, n, -1, Yields(k), {}, {}, e, env, q, s)
    {
      if Sem(p, env, q, s).Fall? {
        var s1 := Sem(p, env, q, s).s;
        var r := Eval(env, e, s1.regs, s1.tr);
        assert RestOk(p, Yields(k), env, s1, r.0, r.1);
      }
    }
  }

  lemma MeansUnary(p0: Snap, p: Snap, n: int, op: UnOpr, r: int, e: Expr)
    requires op == Minus || op == Length
    requires Means(p0, p, n, -1, Yields(VNonReloc(r)), {}, {}, e)
    ensures Means(p0, p, n, -1, Applied(if op == Minus then Unm(0, r) else Len(0, r)), {}, {}, EUn(op, e))
  {
    var rest := Applied(if op == Minus then Unm(0, r) else Len(0, r));
    forall env, q, s | Fits(env, p) && Starts(p0, q)
      ensures MeansAt(p0, p, n, -1, rest, {}, {}, EUn(op, e), env, q, s)
    {
      assert MeansAt(p0, p, n, -1, Yields(VNonReloc(r)), {}, {}, e, env, q, s);
    }
  }
}
