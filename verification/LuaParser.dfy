/** The part of the parser that reads expressions and drives the code generator. */
module LuaParser {
  import opened LuaVm
  import opened LuaExpr
  import opened LuaJumps
  import opened LuaSem
  import opened LuaSteps
  import opened LuaJoin
  import opened LuaBuilt
  import opened LuaOps
  import opened LuaCodeGen
  import opened LuaGrammar
  import opened LuaResult

  const MAXCCALLS: int := 200
  const OP_RETURN: int := 31

  /** No token takes more instructions, or more constants. */
  const GROWTH: int := 50

  /** Every local variable that is mentioned is active. */
  ghost predicate Known(toks: seq<Token>, nact: int) {
    forall t <- toks :: t.TLocal? ==> 0 <= t.r < nact
  }

  class LexState {
    const fs: FuncState
    var toks: seq<Token>     // the tokens not read yet
    var level: int           // nesting of calls

    /** The code denotes an expression `x` whose tokens have just been read. */
    ghost predicate Coded(p0: Snap, n: int, e: ExpDesc, ts: seq<int>, es: seq<int>, x: Expr)
      reads this, fs
    {
      fs.Valid() && fs.Denotes(p0, n, -1, e, ts, es, x) && fs.Room(n, e) && fs.Plain(e)
    }

    /** The tokens of `x` have been read from `before`. */
    ghost predicate Read(before: seq<Token>, x: Expr)
      reads this
    {
      before == Show(x) + toks
    }

    ghost predicate Ready(n: int)
      reads this, fs
    {
      fs.Valid() && fs.nactvar <= n && fs.freereg == n && Known(toks, fs.nactvar)
    }

    /** Some limit is reached when the tokens of `x` are read with `l` calls pending and `n` registers in
        use. */
    ghost predicate Beyond(x: Expr, n: int, l: int)
      reads fs`code, fs`k
    {
      l + Nest(x) >= MAXCCALLS || fs.Full(n + Nest(x) + 1)
    }

    /** Reading tokens cannot produce more code than this. */
    ghost predicate Grew(c: int, k: int, left: int)
      reads this`toks, fs`code, fs`k
    {
      && |toks| <= left
      && |fs.code| <= c + GROWTH * (left - |toks|) && |fs.k| <= k + GROWTH * (left - |toks|)
    }

    /** Reading has failed: there is no tree to be read, or a limit is reached. */
    ghost predicate Failed(p: Option<(Expr, seq<Token>)>, n: int, l: int)
      reads this`toks, fs`code, fs`k
    {
      p.None? || (Beyond(p.value.0, n, l) && |p.value.1| <= |toks|)
    }

    constructor (fs: FuncState, toks: seq<Token>)
      ensures this.fs == fs && this.toks == toks && level == 0
    {
      this.fs, this.toks, level := fs, toks, 0;
    }

    /** An expression that needs no code. */
    method Leaf(k: Kind, ghost x: Expr, ghost n: int) returns (e: ExpDesc)
      requires fs.Valid() && fs.freereg == n && toks != []
      requires InScope(x, fs.nactvar) && KindOk(fs.Now(), fs.Now(), fs.nactvar, n, k)
      requires !k.VReloc? && !k.VJmp? && !k.VNonReloc? && !k.VK?
      requires forall env, s: State {:trigger Eval(env, x, s.regs, s.tr)} | Fits(env, fs.Now()) ::
                 RestOk(fs.Now(), Yields(k), env, s, Eval(env, x, s.regs, s.tr).0, Eval(env, x, s.regs, s.tr).1)
      modifies this`toks
      ensures Coded(fs.Now(), n, e, [], [], x) && toks == old(toks)[1..]
    {
      MeansNoCode(fs.Now(), n, k, x);
      BuiltNoCode(fs.Now(), fs.nactvar, n, k, x);
      toks := toks[1..];
      return Exp(k, NO_JUMP, NO_JUMP);
    }

    /** A literal, a variable, or an expression in parentheses. */
    method SimpleExp(ghost n: int)
      returns (st: Result<ExpDesc>, ghost x: Expr, ghost ts: seq<int>, ghost es: seq<int>)
      requires Ready(n) && (toks != [] ==> UnOf(toks[0]).None?)
      modifies this, fs
      ensures Grew(|old(fs.code)|, |old(fs.k)|, |old(toks)|)
      ensures st.Err? ==> Failed(ParseFirst(old(toks)), n, old(level) - 1)
      ensures st.Done? ==> ParseFirst(old(toks)) == Some((x, toks))
      ensures st.Done? ==> Coded(old(fs.Now()), n, st.value, ts, es, x) && Read(old(toks), x)
      ensures st.Done? ==> Grouped(x) && !x.EBin? && !x.EUn? && level == old(level)
      ensures st.Done? ==> Known(toks, fs.nactvar)
      decreases |toks|, 1
    {
      hide Wf, Means, Extends, SameTests, Keeps, IsList, Parse, ParseFirst, ParseMore, Show, Grouped, Nest;
      x, ts, es := ENil, [], [];
      SimpleStep(toks);
      if toks == [] {
        return Err("unexpected symbol"), x, ts, es;
      }
      ghost var before := toks;
      var t := toks[0];
      assert before == [t] + before[1..];
      assert t in before;
      var e;
      match t {
        case TNil => e := Leaf(VNil, ENil, n);
        case TTrue => x := ETrue; e := Leaf(VTrue, ETrue, n);
        case TFalse => x := EFalse; e := Leaf(VFalse, EFalse, n);
        case TNum(c) => x := ENum(c); e := Leaf(VKNum(c), ENum(c), n);
        case TLocal(r) => x := ELocal(r); e := Leaf(VLocal(r), ELocal(r), n);
        case TUpval(i) => x := EUpval(i); e := Leaf(VUpval(i), EUpval(i), n);
        case TStr(s) =>
          x := EStr(s);
          var i := StringLeaf(s, n);
          if i.Err? { return Err(i.msg), x, ts, es; }
          e := i.value;
        case TOpen =>
          st, x, ts, es := Parenthesized(n);
          return;
        case _ => return Err("unexpected symbol"), x, ts, es;
      }
      return Done(e), x, ts, es;
    }

    /** A string becomes a constant. */
    method StringLeaf(s: string, ghost n: int) returns (st: Result<ExpDesc>)
      requires fs.Valid() && fs.freereg == n && fs.nactvar <= n && toks != []
      modifies this`toks, fs`k
      ensures |fs.k| <= |old(fs.k)| + 1
      ensures st.Err? ==> |fs.k| > MAXARG_AX && |fs.k| == |old(fs.k)| && toks == old(toks)
      ensures st.Done? ==> Coded(old(fs.Now()), n, st.value, [], [], EStr(s)) && toks == old(toks)[1..]
    {
      hide Wf, Means, Extends, SameTests, Keeps, IsList;
      ghost var p := fs.Now();
      var i := fs.AddK(Str(s));
      if i.Err? { return Err(i.msg); }
      BuiltString(p, fs.Now(), fs.nactvar, n, i.value, s);
      toks := toks[1..];
      return Done(Exp(VK(i.value), NO_JUMP, NO_JUMP));
    }

    method Parenthesized(ghost n: int)
      returns (st: Result<ExpDesc>, ghost x: Expr, ghost ts: seq<int>, ghost es: seq<int>)
      requires Ready(n) && toks != [] && toks[0] == TOpen
      modifies this, fs
      ensures Grew(|old(fs.code)|, |old(fs.k)|, |old(toks)|)
      ensures st.Err? ==> Failed(ParseFirst(old(toks)), n, old(level) - 1)
      ensures st.Done? ==> ParseFirst(old(toks)) == Some((x, toks))
      ensures st.Done? ==> Coded(old(fs.Now()), n, st.value, ts, es, x) && Read(old(toks), x)
      ensures st.Done? ==> Grouped(x) && x.EParen? && level == old(level)
      ensures st.Done? ==> Known(toks, fs.nactvar)
      decreases |toks|, 0
    {
      hide Wf, Means, Extends, SameTests, Keeps, IsList, Parse, ParseFirst;
      ghost var p0, before := fs.Now(), toks;
      ParenStep(before);
      KnownRest(toks, 1, fs.nactvar);
      toks := toks[1..];
      var r;
      r, x, ts, es := SubExpr(0, n);
      if r.Err? { return Err(r.msg), x, ts, es; }
      if toks == [] || toks[0] != TClose {
        return Err("')' expected"), x, ts, es;
      }
      Enclosed(before, toks, x);
      toks := toks[1..];
      st := Closed(r.value, p0, n, ts, es, x);
      return st, if st.Err? then x else EParen(x), ts, es;
    }

    /** The expression in parentheses becomes one value. */
    method Closed(e: ExpDesc, ghost p0: Snap, ghost n: int, ghost ts: seq<int>, ghost es: seq<int>, ghost x: Expr)
      returns (st: Result<ExpDesc>)
      requires Coded(p0, n, e, ts, es, x) && fs.nactvar <= n
      modifies fs`code, fs`jpc, fs`hereList
      ensures |fs.code| <= |old(fs.code)| + 1
      ensures st.Err? ==> fs.Long()
      ensures st.Done? ==> Coded(p0, n, st.value, ts, es, EParen(x))
    {
      hide Wf, Means, Extends, SameTests, Keeps, IsList;
      st := fs.DischargeVars(e, p0, n, ts, es, x);
      if st.Done? {
        BuiltParen(p0, fs.Now(), fs.nactvar, n, st.value.k, st.value.t, ts, st.value.f, es, x);
      }
    }

    /** Reads an expression whose operators bind tighter than `limit`, and codes it. */
    method SubExpr(limit: int, ghost n: int)
      returns (st: Result<ExpDesc>, ghost x: Expr, ghost ts: seq<int>, ghost es: seq<int>)
      requires Ready(n)
      modifies this, fs
      ensures Grew(|old(fs.code)|, |old(fs.k)|, |old(toks)|)
      ensures st.Err? ==> Failed(Parse(old(toks), limit), n, old(level))
      ensures st.Done? ==> Parse(old(toks), limit) == Some((x, toks))
      ensures st.Done? ==> Coded(old(fs.Now()), n, st.value, ts, es, x) && Read(old(toks), x)
      ensures st.Done? ==> Grouped(x) && LeftOk(x, limit) && Stops(x, limit, toks) && level == old(level)
      ensures st.Done? ==> Known(toks, fs.nactvar)
      decreases |toks|, 3
    {
      hide Wf, Built, Grouped, Parse, ParseFirst, ParseMore, Show, LeftOk, RightOk, Known;
      x, ts, es := ENil, [], [];
      ghost var p0, before := fs.Now(), toks;
      ParseStart(before, limit);
      if level >= MAXCCALLS {
        return Err("chunk has too many C levels"), x, ts, es;
      }
      level := level + 1;
      var r;
      r, x, ts, es := FirstOperand(n);
      if r.Err? { return Err(r.msg), x, ts, es; }
      NotBinary(x, limit);
      var e := r.value;
      while toks != [] && BinOf(toks[0]).Some? && Left(BinOf(toks[0]).value) > limit
        invariant Coded(p0, n, e, ts, es, x) && Read(before, x)
        invariant Grew(|old(fs.code)|, |old(fs.k)|, |old(toks)|)
        invariant Parse(before, limit) == ParseMore(x, toks, limit)
        invariant Grouped(x) && LeftOk(x, limit) && level == old(level) + 1
        invariant toks != [] && BinOf(toks[0]).Some? ==> RightOk(x, Left(BinOf(toks[0]).value))
        invariant Known(toks, fs.nactvar)
        decreases |toks|
      {
        ghost var here, op, y := toks, BinOf(toks[0]).value, x;
        r, y, ts, es := Operation(e, p0, n, ts, es, x, limit);
        MoreStep(x, here, limit);
        if r.Err? {
          StillFails(x, here, limit);
          return Err(r.msg), x, ts, es;
        }
        Attached(before, here, toks, op, x, y, limit);
        x := EBin(op, x, y);
        e := r.value;
      }
      MoreStep(x, toks, limit);
      NoMoreStops(x, toks, limit);
      level := level - 1;
      return Done(e), x, ts, es;
    }

    /** A prefix operator and its operand, or a simple expression. */
    method FirstOperand(ghost n: int)
      returns (st: Result<ExpDesc>, ghost x: Expr, ghost ts: seq<int>, ghost es: seq<int>)
      requires Ready(n)
      modifies this, fs
      ensures Grew(|old(fs.code)|, |old(fs.k)|, |old(toks)|)
      ensures st.Err? ==> Failed(ParseFirst(old(toks)), n, old(level) - 1)
      ensures st.Done? ==> ParseFirst(old(toks)) == Some((x, toks))
      ensures st.Done? ==> Coded(old(fs.Now()), n, st.value, ts, es, x) && Read(old(toks), x)
      ensures st.Done? ==> Grouped(x) && !x.EBin? && level == old(level) && |toks| < |old(toks)|
      ensures st.Done? && toks != [] && BinOf(toks[0]).Some? ==> RightOk(x, Left(BinOf(toks[0]).value))
      ensures st.Done? ==> Known(toks, fs.nactvar)
      decreases |toks|, 2
    {
      hide Wf, Built, IsList, Parse, ParseFirst, ParseMore, RightOk, Grouped, LeftOk, Stops;
      ghost var p0, before := fs.Now(), toks;
      if toks != [] && UnOf(toks[0]).Some? {
        var op := UnOf(toks[0]).value;
        assert before == [UnToken(op)] + before[1..];
        PrefixStep(before);
        KnownRest(toks, 1, fs.nactvar);
        toks := toks[1..];
        var r;
        r, x, ts, es := SubExpr(UNARY_PRIORITY, n);
        if r.Err? { return Err(r.msg), x, ts, es; }
        assert before == Show(EUn(op, x)) + toks;
        ghost var ts', es';
        PrefixGroups(op, x, toks);
        r, ts', es' := fs.Prefix(op, r.value, p0, n, ts, es, x);
        return r, EUn(op, x), ts', es';
      }
      st, x, ts, es := SimpleExp(n);
      if st.Done? { SimpleEnds(x, toks); }
    }

    /** A binary operator and its second operand. */
    method Operation(e1: ExpDesc, ghost p0: Snap, ghost n: int,
                     ghost ts1: seq<int>, ghost es1: seq<int>, ghost l: Expr, ghost limit: int)
      returns (st: Result<ExpDesc>, ghost y: Expr, ghost ts: seq<int>, ghost es: seq<int>)
      requires Coded(p0, n, e1, ts1, es1, l) && fs.nactvar <= n && Known(toks, fs.nactvar)
      requires toks != [] && BinOf(toks[0]).Some?
      modifies this, fs
      ensures Grew(|old(fs.code)|, |old(fs.k)|, |old(toks)|)
      ensures st.Err? ==> Failed(Parse(old(toks)[1..], Right(BinOf(old(toks)[0]).value)), n + 1, old(level))
      ensures st.Done? ==> Parse(old(toks)[1..], Right(BinOf(old(toks)[0]).value)) == Some((y, toks))
      ensures st.Done? ==> Coded(p0, n, st.value, ts, es, EBin(BinOf(old(toks)[0]).value, l, y))
      ensures st.Done? ==> old(toks)[1..] == Show(y) + toks && Grouped(y) && level == old(level)
      ensures st.Done?
              ==> LeftOk(y, Right(BinOf(old(toks)[0]).value))
                  && Stops(y, Right(BinOf(old(toks)[0]).value), toks)
      ensures st.Done? ==> Known(toks, fs.nactvar)
      decreases |toks|, 0
    {
      var op := BinOf(toks[0]).value;
      KnownRest(toks, 1, fs.nactvar);
      toks := toks[1..];
      y, ts, es := l, ts1, es1;
      var h;
      ghost var js;
      h, js := fs.Infix(op, e1, p0, n, ts1, es1, l);
      if h.Err? { return Err(h.msg), y, ts, es; }
      ghost var p1 := fs.Now();
      var r;
      r, y, ts, es := SubExpr(Right(op), fs.Next(op, n, h.value));
      if r.Err? { return Err(r.msg), y, ts, es; }
      st, ts, es := fs.Posfix(op, h.value, r.value, p0, p1, n, js, ts, es, l, y);
    }
  }

  /** Every run that reached the end of `p0` goes on to evaluate `x` into `reg`, and changes no other register below
      `n`. */
  ghost predicate Assigns(p0: Snap, p: Snap, n: int, reg: int, x: Expr) {
    forall env, q, s | Fits(env, p) && Starts(p0, q) && Sem(p0, env, q, s).Fall? ::
      Evaluated(env, n, reg, reg, x, Sem(p0, env, q, s).s, Sem(p, env, q, s))
  }

  /** Assigns the value to a local variable. */
  method StoreLocal(fs: FuncState, r: int, e: ExpDesc,
                    ghost p0: Snap, ghost n: int, ghost ts: seq<int>, ghost es: seq<int>, ghost x: Expr)
    returns (st: Result<()>)
    requires fs.Valid() && fs.Denotes(p0, n, -1, e, ts, es, x) && fs.Room(n, e) && 0 <= r < fs.nactvar
    modifies fs
    ensures |fs.code| <= |old(fs.code)| + 6 && |fs.k| <= |old(fs.k)| + 1
    ensures st.Err? ==> fs.Full(n)
    ensures st.Done? ==> fs.Valid() && fs.freereg == n
    ensures st.Done? ==> Assigns(p0, fs.Now(), n, r, x)
  {
    hide Wf, Means, Extends, SameTests, Keeps, IsList, Sem, Fits, Starts, Evaluated, Assigns;
    fs.FreeExp(e);
    var _ :- fs.Exp2Reg(e, r, p0, n, ts, es, x);
    AssignsAll(p0, fs.Now(), fs.nactvar, n, r, x);
    return Done(());
  }

  lemma AssignsAll(p0: Snap, p: Snap, nact: int, n: int, reg: int, x: Expr)
    requires Built(p0, p, nact, n, reg, Yields(VNonReloc(reg)), NO_JUMP, [], NO_JUMP, [], x)
    ensures Assigns(p0, p, n, reg, x)
  {
    hide Sem, Fits, Starts, Evaluated, Built;
    forall env, q, s | Fits(env, p) && Starts(p0, q) && Sem(p0, env, q, s).Fall?
      ensures Evaluated(env, n, reg, reg, x, Sem(p0, env, q, s).s, Sem(p, env, q, s))
    {
      Appended(p0, p, nact, n, reg, reg, x, env, q, s);
    }
  }

  /** The `return` of one value completes the code. */
  method Ret(fs: FuncState, e: ExpDesc, ghost p0: Snap, ghost n: int, ghost ts: seq<int>, ghost es: seq<int>,
             ghost x: Expr)
    returns (st: Result<()>)
    requires fs.Valid() && fs.Denotes(p0, n, -1, e, ts, es, x) && fs.Room(n, e) && p0 == Start(p0.k, fs.num)
    modifies fs
    ensures |fs.code| <= |old(fs.code)| + 9 && |fs.k| <= |old(fs.k)| + 1
    ensures st.Err? ==> fs.Full(n)
    ensures st.Done? ==> Compiled(fs.code, fs.k, fs.num, fs.nactvar, x)
  {
    var d :- fs.Exp2AnyReg(e, p0, n, ts, es, x);
    ghost var p := fs.Now();
    var _ :- fs.Code(Other(OP_RETURN, d.k.info, 2));
    Completed(p0, p, fs.nactvar, n, d.k.info, x);
    assert fs.code[..|fs.code| - 1] == Discharged(p);
    return Done(());
  }

  /** The expression is within the limits of the compiler. */
  predicate Small(x: Expr, params: nat) {
    && Nest(x) < MAXCCALLS && params + Nest(x) + 2 < MAXSTACK
    && GROWTH * |Show(x)| + 9 <= MAXARG_SBX
  }

  /** A function that only returns an expression.  Every expression within the limits is compiled. */
  method ReturnStat(params: nat, toks: seq<Token>, num: (ArithOp, real, real) -> real)
    returns (st: Result<(seq<Instr>, seq<Value>, seq<Token>)>, ghost x: Expr)
    requires params <= MAXVARS && Known(toks, params)
    ensures st.Done? ==> toks == Show(x) + st.value.2 && Grouped(x) && Stops(x, 0, st.value.2) && InScope(x, params)
    ensures st.Done? ==> Compiled(st.value.0, st.value.1, num, params, x)
    ensures forall y, rest | toks == Show(y) + rest && Grouped(y) && Stops(y, 0, rest) && Small(y, params) ::
              st.Done? && x == y && st.value.2 == rest
  {
    hide Compiled, Parse, Grouped, InScope;
    var fs := new FuncState(params, num);
    var ls := new LexState(fs, toks);
    ghost var p0, ts, es := fs.Now(), [], [];
    var r;
    r, x, ts, es := ls.SubExpr(0, params);
    if r.Err? {
      Refused(toks, params, |fs.code|, |fs.k|, ls.toks);
      return Err(r.msg), x;
    }
    Accepted(toks, params, x, ls.toks);
    var d := Ret(fs, r.value, p0, params, ts, es, x);
    if d.Err? { return Err(d.msg), x; }
    return Done((fs.code, fs.k, ls.toks)), x;
  }

  /** The code ends with the return of the value it has computed. */
  ghost predicate Compiled(code: seq<Instr>, k: seq<Value>, num: (ArithOp, real, real) -> real, nact: int, x: Expr) {
    && code != [] && code[|code| - 1].Other? && code[|code| - 1] == Other(OP_RETURN, code[|code| - 1].a, 2)
    && Computes(code[..|code| - 1], k, num, nact, code[|code| - 1].a, x)
  }

  lemma KnownRest(toks: seq<Token>, i: nat, nact: int)
    requires Known(toks, nact) && i <= |toks|
    ensures Known(toks[i..], nact)
  {
  }

  /** The operator takes the whole tree on its left as its first operand. */
  lemma Attached(before: seq<Token>, here: seq<Token>, rest: seq<Token>, op: BinOpr, l: Expr, r: Expr, limit: int)
    requires before == Show(l) + here && here != [] && here[0] == BinToken(op) && here[1..] == Show(r) + rest
    requires Grouped(l) && LeftOk(l, limit) && RightOk(l, Left(op)) && Left(op) > limit && op != Ari(OpUnm)
    requires Grouped(r) && LeftOk(r, Right(op)) && Stops(r, Right(op), rest)
    ensures before == Show(EBin(op, l, r)) + rest
    ensures Grouped(EBin(op, l, r)) && LeftOk(EBin(op, l, r), limit)
    ensures rest != [] && BinOf(rest[0]).Some? ==> RightOk(EBin(op, l, r), Left(BinOf(rest[0]).value))
  {
    Joined(Show(l), here, Show(r), rest);
  }

  lemma ParseStart(toks: seq<Token>, limit: int)
    ensures Parse(toks, limit) == (if ParseFirst(toks).None? then None
                                   else ParseMore(ParseFirst(toks).value.0, ParseFirst(toks).value.1, limit))
    ensures Parse(toks, limit).Some? ==>
              && Nest(ParseFirst(toks).value.0) <= Nest(Parse(toks, limit).value.0)
              && |Parse(toks, limit).value.1| <= |ParseFirst(toks).value.1|
  {
    if Parse(toks, limit).Some? { MoreNests(ParseFirst(toks).value.0, ParseFirst(toks).value.1, limit); }
  }

  lemma NotBinary(x: Expr, limit: int)
    requires !x.EBin?
    ensures LeftOk(x, limit)
  {
  }

  lemma PrefixStep(toks: seq<Token>)
    requires toks != [] && UnOf(toks[0]).Some?
    ensures var op := UnOf(toks[0]).value;
            var inner := Parse(toks[1..], UNARY_PRIORITY);
            && toks[0] == UnToken(op)
            && ParseFirst(toks) == if inner.None? then None else Some((EUn(op, inner.value.0), inner.value.1))
  {
  }

  lemma PrefixGroups(op: UnOpr, x: Expr, rest: seq<Token>)
    requires Grouped(x) && LeftOk(x, UNARY_PRIORITY) && Stops(x, UNARY_PRIORITY, rest)
    ensures Grouped(EUn(op, x))
    ensures rest != [] && BinOf(rest[0]).Some? ==> RightOk(EUn(op, x), Left(BinOf(rest[0]).value))
  {
  }

  lemma SimpleEnds(x: Expr, rest: seq<Token>)
    requires !x.EBin? && !x.EUn?
    ensures rest != [] && BinOf(rest[0]).Some? ==> RightOk(x, Left(BinOf(rest[0]).value))
  {
  }

  lemma SimpleStep(toks: seq<Token>)
    requires toks != [] ==> UnOf(toks[0]).None?
    ensures toks == [] ==> ParseFirst(toks) == None
    ensures toks != [] && toks[0] != TOpen ==>
              && (LeafOf(toks[0]).None? ==> ParseFirst(toks) == None)
              && (LeafOf(toks[0]).Some? ==>
                    && ParseFirst(toks) == Some((LeafOf(toks[0]).value, toks[1..]))
                    && Show(LeafOf(toks[0]).value) == [toks[0]] && Grouped(LeafOf(toks[0]).value))
  {
  }

  lemma MoreStep(x: Expr, toks: seq<Token>, limit: int)
    ensures if toks != [] && BinOf(toks[0]).Some? && Left(BinOf(toks[0]).value) > limit
            then
              var op := BinOf(toks[0]).value;
              var second := Parse(toks[1..], Right(op));
              && op != Ari(OpUnm) && toks[0] == BinToken(op)
              && ParseMore(x, toks, limit)
                 == if second.None? then None else ParseMore(EBin(op, x, second.value.0), second.value.1, limit)
            else ParseMore(x, toks, limit) == Some((x, toks))
  {
  }

  lemma NoMoreStops(x: Expr, toks: seq<Token>, limit: int)
    requires toks != [] && BinOf(toks[0]).Some? ==>
            Left(BinOf(toks[0]).value) <= limit && RightOk(x, Left(BinOf(toks[0]).value))
    ensures Stops(x, limit, toks)
  {
  }

  lemma Enclosed(before: seq<Token>, toks: seq<Token>, x: Expr)
    requires before != [] && before[0] == TOpen && toks != [] && toks[0] == TClose && before[1..] == Show(x) + toks
    ensures before == Show(EParen(x)) + toks[1..]
  {
    hide Show;
    assert Show(EParen(x)) == [TOpen] + Show(x) + [TClose] by { ShowParen(x); }
    assert before == [TOpen] + before[1..] && toks == [TClose] + toks[1..];
  }

  lemma ShowParen(x: Expr)
    ensures Show(EParen(x)) == [TOpen] + Show(x) + [TClose]
  {
  }

  lemma ParenStep(toks: seq<Token>)
    requires toks != [] && toks[0] == TOpen
    ensures var inner := Parse(toks[1..], 0);
            ParseFirst(toks) == if inner.None? || inner.value.1 == [] || inner.value.1[0] != TClose then None
                                else Some((EParen(inner.value.0), inner.value.1[1..]))
  {
  }

  lemma Joined(a: seq<Token>, here: seq<Token>, b: seq<Token>, rest: seq<Token>)
    requires here != [] && here[1..] == b + rest
    ensures a + here == a + [here[0]] + b + rest
  {
    assert here == [here[0]] + here[1..];
  }

  lemma BuiltParen(p0: Snap, p: Snap, nact: int, n: int, k: Kind, t: int, ts: seq<int>, f: int, es: seq<int>, x: Expr)
    requires Built(p0, p, nact, n, -1, Yields(k), t, ts, f, es, x)
    ensures Built(p0, p, nact, n, -1, Yields(k), t, ts, f, es, EParen(x))
  {
    forall env, q, s | Fits(env, p) && Starts(p0, q)
      ensures MeansAt(p0, p, n, -1, Yields(k), Elems(ts) + JumpOf(Yields(k)), Elems(es), EParen(x), env, q, s)
    {
      assert MeansAt(p0, p, n, -1, Yields(k), Elems(ts) + JumpOf(Yields(k)), Elems(es), x, env, q, s);
    }
  }

  /** If the second operand of an operator cannot be read within the limits, neither can the whole. */
  lemma StillFails(x: Expr, toks: seq<Token>, limit: int)
    requires toks != [] && BinOf(toks[0]).Some? && Left(BinOf(toks[0]).value) > limit
    ensures var second := Parse(toks[1..], Right(BinOf(toks[0]).value));
            ParseMore(x, toks, limit).Some? ==>
              && second.Some? && 1 + Nest(second.value.0) <= Nest(ParseMore(x, toks, limit).value.0)
              && |ParseMore(x, toks, limit).value.1| <= |second.value.1|
  {
    hide Parse;
    var op := BinOf(toks[0]).value;
    var second := Parse(toks[1..], Right(op));
    if second.Some? {
      var z := EBin(op, x, second.value.0);
      if ParseMore(z, second.value.1, limit).Some? { MoreNests(z, second.value.1, limit); }
    }
  }

  /** The tokens of a small expression are not refused. */
  lemma Refused(toks: seq<Token>, params: nat, c: nat, k: nat, left: seq<Token>)
    requires |left| <= |toks| && c <= GROWTH * (|toks| - |left|) && k <= GROWTH * (|toks| - |left|)
    requires var p := Parse(toks, 0);
             p.Some? ==>
               && |p.value.1| <= |left|
               && (|| Nest(p.value.0) >= MAXCCALLS || c > MAXARG_SBX || k > MAXARG_AX
                   || params + Nest(p.value.0) + 2 >= MAXSTACK)
    ensures forall y, rest | toks == Show(y) + rest && Grouped(y) && Stops(y, 0, rest) :: !Small(y, params)
  {
    forall y, rest | toks == Show(y) + rest && Grouped(y) && Stops(y, 0, rest) ensures !Small(y, params) {
      AnyLeft(y);
      ParseReads(y, 0, rest);
    }
  }

  lemma Accepted(toks: seq<Token>, params: nat, x: Expr, left: seq<Token>)
    requires Parse(toks, 0) == Some((x, left))
    ensures forall y, rest | toks == Show(y) + rest && Grouped(y) && Stops(y, 0, rest) :: y == x && rest == left
  {
    forall y, rest | toks == Show(y) + rest && Grouped(y) && Stops(y, 0, rest) ensures y == x && rest == left {
      AnyLeft(y);
      ParseReads(y, 0, rest);
    }
  }
}
