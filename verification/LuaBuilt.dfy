/** The invariant of the code generator: what has been built so far denotes an expression. */
module LuaBuilt {
  import opened LuaVm
  import opened LuaExpr
  import opened LuaJumps
  import opened LuaSem
  import opened LuaSteps
  import opened LuaJoin
  import opened LuaPatch
  import opened LuaShape

  function JumpOf(rest: Rest): set<int> {
    if rest.Yields? && rest.k.VJmp? then {rest.k.info} else {}
  }

  /** The position of a relocatable instruction is the last one, and a temporary is the first free register. */
  ghost predicate KindOk(p0: Snap, p: Snap, nact: int, n: int, k: Kind) {
    match k
    case VK(i) => 0 <= i < |p.k|
    case VNonReloc(r) => 0 <= r < nact || r == n
    case VLocal(r) => 0 <= r < nact
    case VJmp(pc) => EndsInJump(p, pc) && p.code[pc].sbx == NO_JUMP && |p0.code| < pc
    case VReloc(pc) =>
      pc == |p.code| - 1 && |p0.code| <= pc && IsReloc(p.code[pc]) && p.here == {} && p.lab <= pc
    case _ => true
  }

  ghost predicate Shaped(p0: Snap, p: Snap, nact: int, n: int, rest: Rest, t: int, ts: seq<int>, f: int, fs: seq<int>) {
    && Wf(p) && Extends(p0, p)
    && IsList(p.code, t, ts) && IsList(p.code, f, fs)
    && Elems(ts) !! Elems(fs) && (Elems(ts) + Elems(fs)) !! JumpOf(rest)
    && p0.open !! (Elems(ts) + Elems(fs) + JumpOf(rest))
    && p.open == p0.open + Elems(ts) + Elems(fs) + JumpOf(rest)
    && 0 <= nact <= n
    && (rest.Yields? ==> KindOk(p0, p, nact, n, rest.k))
  }

  /** The code of `p` evaluates `e` after whatever `p0` did: every run ends with the value where
      `rest` says, or leaves through the list of true exits `t` or of false exits `f`; no register
      below `n` other than `x` changes. */
  ghost predicate Built(
    p0: Snap, p: Snap, nact: int, n: int, x: int, rest: Rest,
    t: int, ts: seq<int>, f: int, fs: seq<int>, e: Expr)
  {
    && Shaped(p0, p, nact, n, rest, t, ts, f, fs)
    && InScope(e, nact)
    && Means(p0, p, n, x, rest, Elems(ts) + JumpOf(rest), Elems(fs), e)
  }

  lemma BodyExtends(p0: Snap, p: Snap, b: Snap)
    requires Extends(p0, p) && |p0.code| < |p.code| && b == p.(code := p.code[..|p.code| - 1])
    requires Keeps(p.code, b.code, p.open) && p0.open <= p.open
    ensures Extends(p0, b)
  {
    forall i | 0 <= i < |p0.code| ensures SameTest(p0.code, b.code, i) {
      assert SameTest(p0.code, p.code, i);
    }
    forall j <- p0.open ensures KeptAt(p0.code, b.code, j) {
      assert KeptAt(p0.code, p.code, j) && KeptAt(p.code, b.code, j);
    }
  }

  lemma BodyOk(p0: Snap, p: Snap, nact: int, n: int, rest: Rest, t: int, ts: seq<int>, f: int, fs: seq<int>)
    requires Shaped(p0, p, nact, n, rest, t, ts, f, fs)
    ensures Wf(Body(p, rest)) && Extends(p0, Body(p, rest))
    ensures IsList(Body(p, rest).code, t, ts) && IsList(Body(p, rest).code, f, fs)
  {
    if rest.Yields? && rest.k.VReloc? {
      var b := Body(p, rest);
      WfBody(p, b);
      ListKeepsOf(p.code, b.code, t, ts, p.open);
      ListKeepsOf(p.code, b.code, f, fs, p.open);
      BodyExtends(p0, p, b);
    }
  }

  /** Registers from `n` on are free, so writing one of them changes nothing that matters. */
  lemma MeansFree(p0: Snap, p: Snap, n: int, x: int, x': int, rest: Rest, ts: set<int>, fs: set<int>, e: Expr)
    requires Means(p0, p, n, x, rest, ts, fs, e) && (x >= n || x == -1)
    ensures Means(p0, p, n, x', rest, ts, fs, e)
  {
    forall env, q, s | Fits(env, p) && Starts(p0, q)
      ensures MeansAt(p0, p, n, x', rest, ts, fs, e, env, q, s)
    {
      assert MeansAt(p0, p, n, x, rest, ts, fs, e, env, q, s);
    }
  }

  /** Emitting code without new open jumps. */
  lemma BuiltEmit(p0: Snap, p: Snap, p': Snap, nact: int, n: int, x: int, rest: Rest, rest': Rest, code: seq<Instr>,
                  t: int, ts: seq<int>, f: int, fs: seq<int>, e: Expr)
    requires Built(p0, p, nact, n, -1, rest, t, ts, f, fs, e) && JumpOf(rest) == {}
    requires Emits(Body(p, rest), p', code, {}) && Fragment(code, |Body(p, rest).code|, {}, p'.lab)
    requires Body(p, rest).lab <= p'.lab <= |p'.code|
    requires JumpOf(rest') == {} && (rest'.Yields? ==> KindOk(p0, p', nact, n, rest'.k))
    requires Appends(Body(p, rest), Body(p', rest'))
    requires Continues(p, p', n, x, rest, rest', Elems(ts), Elems(fs))
    ensures Built(p0, p', nact, n, x, rest', t, ts, f, fs, e)
  {
    var b := Body(p, rest);
    BodyOk(p0, p, nact, n, rest, t, ts, f, fs);
    WfEmits(b, p', code, {});
    ListKeepsOf(b.code, p'.code, t, ts, b.open);
    ListKeepsOf(b.code, p'.code, f, fs, b.open);
    ExtendsTrans(p0, b, p', b.open);
    assert Elems(ts) + JumpOf(rest) == Elems(ts) && Elems(ts) + JumpOf(rest') == Elems(ts);
    MeansAppend(p0, p, p', n, x, rest, rest', Elems(ts), Elems(fs), Elems(ts), Elems(fs), e);
  }

  lemma CondJumpCode(b: Snap, p': Snap, test: Instr, pc: int)
    requires Wf(b) && IsTest(test) && (test.TestSet? ==> test.a == NO_REG)
    requires Emits(b, p', [test, Jmp(NO_JUMP)], {pc}) && pc == |b.code| + 1 && p'.lab == b.lab
    ensures Wf(p') && SameTests(b.code, p'.code) && Keeps(b.code, p'.code, b.open)
    ensures pc == |p'.code| - 1 && p'.code[pc - 1] == test && p'.code[pc] == Jmp(NO_JUMP)
  {
    WfEmits(b, p', [test, Jmp(NO_JUMP)], {pc});
    EmitsAppends(b, p', [test, Jmp(NO_JUMP)], {pc});
    assert p'.code[|b.code| + 1] == [test, Jmp(NO_JUMP)][1] && p'.code[|b.code| + 0] == [test, Jmp(NO_JUMP)][0];
  }

  /** Emitting a test and its jump: the shape of the code. */
  lemma CondJumpShape(p0: Snap, p: Snap, p': Snap, nact: int, n: int, rest: Rest, test: Instr, pc: int,
                      t: int, ts: seq<int>, f: int, fs: seq<int>)
    requires Shaped(p0, p, nact, n, rest, t, ts, f, fs) && JumpOf(rest) == {}
    requires IsTest(test) && (test.TestSet? ==> test.a == NO_REG)
    requires Emits(Body(p, rest), p', [test, Jmp(NO_JUMP)], {pc}) && pc == |Body(p, rest).code| + 1
    requires p'.lab == Body(p, rest).lab
    ensures Wf(p') && Extends(p0, p') && IsList(p'.code, t, ts) && IsList(p'.code, f, fs) && IsList(p'.code, pc, [pc])
    ensures pc !in p0.open && pc !in Elems(ts) && pc !in Elems(fs) && p'.open == p0.open + Elems(ts) + Elems(fs) + {pc}
    ensures pc >= 1 && p'.code[pc - 1] == test && p'.code[pc] == Jmp(NO_JUMP) && pc == |p'.code| - 1
  {
    var b := Body(p, rest);
    BodyOk(p0, p, nact, n, rest, t, ts, f, fs);
    CondJumpCode(b, p', test, pc);
    assert b.open == p0.open + Elems(ts) + Elems(fs);
    ListKeepsOf(b.code, p'.code, t, ts, b.open);
    ListKeepsOf(b.code, p'.code, f, fs, b.open);
    ExtendsTrans(p0, b, p', b.open);
    assert pc !in b.open;
    assert NextJump(p'.code, pc) == NO_JUMP && [pc][1..] == [];
  }

  /** Emitting a test and its jump, which joins one of the lists. */
  lemma BuiltCondJump(p0: Snap, p: Snap, p': Snap, nact: int, n: int, rest: Rest, rest': Rest, test: Instr, pc: int,
                      t: int, ts: seq<int>, f: int, fs: seq<int>, ts': set<int>, fs': set<int>, e: Expr)
    requires Built(p0, p, nact, n, -1, rest, t, ts, f, fs, e) && JumpOf(rest) == {}
    requires Emits(Body(p, rest), p', [test, Jmp(NO_JUMP)], {pc}) && pc == |Body(p, rest).code| + 1
    requires Body(p', rest') == p'
    requires Elems(ts) <= ts' && Elems(fs) <= fs'
    requires Continues(p, p', n, -1, rest, rest', ts', fs')
    ensures Means(p0, p', n, -1, rest', ts', fs', e)
  {
    var b := Body(p, rest);
    BodyOk(p0, p, nact, n, rest, t, ts, f, fs);
    EmitsAppends(b, p', [test, Jmp(NO_JUMP)], {pc});
    assert Elems(ts) + JumpOf(rest) == Elems(ts);
    MeansAppend(p0, p, p', n, -1, rest, rest', Elems(ts), Elems(fs), ts', fs', e);
  }

  // ---------- values in registers and constants ----------

  lemma DischargedNothing(p: Snap)
    requires p.here == {}
    ensures Discharged(p) == p.code
  {
  }

  lemma LoadFragment(p: Snap, k: Kind, reg: int, base: int, lab: int)
    ensures Fragment(LoadCode(p, k, reg), base, {}, lab)
  {
  }

  /** Bringing the value into `reg`. */
  lemma BuiltLoad(p0: Snap, p: Snap, p': Snap, nact: int, n: int, k: Kind, reg: int,
                  t: int, ts: seq<int>, f: int, fs: seq<int>, e: Expr)
    requires Built(p0, p, nact, n, -1, Yields(k), t, ts, f, fs, e) && Loadable(k)
    requires Emits(Body(p, Yields(k)), p', LoadCode(p, k, reg), {}) && p'.lab == p.lab
    requires 0 <= reg < nact || reg == n
    ensures Built(p0, p', nact, n, reg, Yields(VNonReloc(reg)), t, ts, f, fs, e)
  {
    var b := Body(p, Yields(k));
    BodyOk(p0, p, nact, n, Yields(k), t, ts, f, fs);
    LoadFragment(p, k, reg, |b.code|, p'.lab);
    LoadContinues(p, p', n, k, reg, Elems(ts), Elems(fs));
    EmitsAppends(b, p', LoadCode(p, k, reg), {});
    BuiltEmit(p0, p, p', nact, n, reg, Yields(k), Yields(VNonReloc(reg)), LoadCode(p, k, reg), t, ts, f, fs, e);
  }

  /** An instruction that computes the value in place. */
  lemma BuiltApply(p0: Snap, p: Snap, p': Snap, nact: int, n: int, rest: Rest, i: Instr, pc: int,
                   t: int, ts: seq<int>, f: int, fs: seq<int>, e: Expr)
    requires Built(p0, p, nact, n, -1, rest, t, ts, f, fs, e)
    requires rest == Applied(i) || (exists u :: rest == Yields(VUpval(u)) && i == GetUpval(0, u))
    requires IsReloc(i) && Emits(p, p', [i], {}) && p'.lab == p.lab && pc == |p.code|
    ensures Built(p0, p', nact, n, -1, Yields(VReloc(pc)), t, ts, f, fs, e)
  {
    EmitsAppends(p, p', [i], {});
    assert p'.code[|p.code| + 0] == [i][0];
    if rest == Applied(i) {
      ApplyContinues(p, p', n, i, Elems(ts), Elems(fs));
    } else {
      UpvalContinues(p, p', n, i.b, Elems(ts), Elems(fs));
    }
    BuiltEmit(p0, p, p', nact, n, -1, rest, Yields(VReloc(pc)), [i], t, ts, f, fs, e);
  }

  /** The value a constant kind stands for. */
  predicate IsConstant(k: Kind, v: Value) {
    match k
    case VNil => v == Nil
    case VTrue => v == Bool(true)
    case VFalse => v == Bool(false)
    case VKNum(c) => v == Number(c)
    case _ => false
  }

  /** The value is put among the constants. */
  lemma BuiltConstant(p0: Snap, p: Snap, p': Snap, nact: int, n: int, k: Kind, i: int, v: Value,
                      t: int, ts: seq<int>, f: int, fs: seq<int>, e: Expr)
    requires Built(p0, p, nact, n, -1, Yields(k), t, ts, f, fs, e) && IsConstant(k, v)
    requires p' == p.(k := p'.k) && p.k <= p'.k && 0 <= i < |p'.k| && p'.k[i] == v
    ensures Built(p0, p', nact, n, -1, Yields(VK(i)), t, ts, f, fs, e)
  {
    forall env, q, s | Fits(env, p') && Starts(p0, q)
      ensures MeansAt(p0, p', n, -1, Yields(VK(i)), Elems(ts), Elems(fs), e, env, q, s)
    {
      assert MeansAt(p0, p, n, -1, Yields(k), Elems(ts) + {}, Elems(fs), e, env, q, s);
      assert Elems(ts) + {} == Elems(ts);
      assert Const(env, i) == v;
    }
    assert Elems(ts) + {} == Elems(ts);
  }

  lemma BuiltLocal(p0: Snap, p: Snap, nact: int, n: int, r: int,
                   t: int, ts: seq<int>, f: int, fs: seq<int>, e: Expr)
    requires Built(p0, p, nact, n, -1, Yields(VLocal(r)), t, ts, f, fs, e)
    ensures Built(p0, p, nact, n, -1, Yields(VNonReloc(r)), t, ts, f, fs, e)
  {
    forall env, q, s | Fits(env, p) && Starts(p0, q)
      ensures MeansAt(p0, p, n, -1, Yields(VNonReloc(r)), Elems(ts) + {}, Elems(fs), e, env, q, s)
    {
      assert MeansAt(p0, p, n, -1, Yields(VLocal(r)), Elems(ts) + {}, Elems(fs), e, env, q, s);
    }
  }

  /** The nil is merged into the LOADNIL before it. */
  lemma BuiltMerge(p0: Snap, p: Snap, p': Snap, nact: int, n: int, reg: int, a: int, m: int,
                   t: int, ts: seq<int>, f: int, fs: seq<int>, e: Expr)
    requires Built(p0, p, nact, n, -1, Yields(VNil), t, ts, f, fs, e)
    requires EndsInNil(p) && m >= 0 && Widens(p.code[|p.code| - 1], a, m, reg)
    requires p' == p.(code := p.code[|p.code| - 1 := LoadNil(a, m)])
    requires 0 <= reg < nact || reg == n
    ensures Built(p0, p', nact, n, reg, Yields(VNonReloc(reg)), t, ts, f, fs, e)
  {
    WfMerge(p, p', a, m);
    ListKeepsOf(p.code, p'.code, t, ts, p.open);
    ListKeepsOf(p.code, p'.code, f, fs, p.open);
    ExtendsTrans(p0, p, p', p.open);
    MeansMerge(p0, p, p', a, m, n, reg, Elems(ts) + {}, Elems(fs), e);
  }

  /** Only links of jumps opened since `p0` change. */
  ghost predicate Relinks(p0: Snap, p: Snap, p': Snap) {
    && |p'.code| == |p.code| && p' == p.(code := p'.code)
    && forall i | 0 <= i < |p.code| ::
         p'.code[i] == p.code[i] || (i in p.here + p.open - p0.open && p.code[i].Jmp? && p'.code[i].Jmp?)
  }

  lemma RelinkControl(p0: Snap, p: Snap, p': Snap, j: int)
    requires Relinks(p0, p, p') && 0 <= j < |p.code| && p.code[j].Jmp?
    ensures Carries(p'.code, j) == Carries(p.code, j)
    ensures j in p0.open ==> p'.code[j] == p.code[j] && Control(p'.code, j) == Control(p.code, j)
  {
  }

  lemma RelinkExtends(p0: Snap, p: Snap, p': Snap)
    requires Wf(p) && Relinks(p0, p, p') && Extends(p0, p) && p0.open <= p.open
    ensures Wf(p') && Extends(p0, p')
  {
    WfSame(p, p');
    forall j <- p0.open ensures KeptAt(p.code, p'.code, j) {
      RelinkControl(p0, p, p', j);
    }
    ExtendsTrans(p0, p, p', p0.open);
  }

  lemma RelinkKind(p0: Snap, p: Snap, p': Snap, nact: int, n: int, k: Kind)
    requires Wf(p) && Relinks(p0, p, p') && Wf(p') && KindOk(p0, p, nact, n, k)
    requires k.VJmp? ==> p'.code[k.info] == p.code[k.info]
    ensures KindOk(p0, p', nact, n, k)
  {
  }

  /** Lists are joined or split by changing links; the meaning stays. */
  lemma BuiltRelink(p0: Snap, p: Snap, p': Snap, nact: int, n: int, x: int, rest: Rest,
                    t: int, ts: seq<int>, f: int, fs: seq<int>, t': int, ts': seq<int>, f': int, fs': seq<int>, e: Expr)
    requires Built(p0, p, nact, n, x, rest, t, ts, f, fs, e) && Relinks(p0, p, p')
    requires rest.Yields? && rest.k.VJmp? ==> p'.code[rest.k.info] == p.code[rest.k.info]
    requires IsList(p'.code, t', ts') && IsList(p'.code, f', fs') && Elems(ts') == Elems(ts) && Elems(fs') == Elems(fs)
    ensures Built(p0, p', nact, n, x, rest, t', ts', f', fs', e)
  {
    RelinkExtends(p0, p, p');
    if rest.Yields? { RelinkKind(p0, p, p', nact, n, rest.k); }
    MeansRelink(p0, p, p', n, x, rest, Elems(ts) + JumpOf(rest), Elems(fs), e);
  }

  // ---------- the end of an expression ----------

  lemma ElemsEmpty(js: seq<int>)
    ensures Elems(js) == {} ==> js == []
  {
    if js != [] { assert js[0] in Elems(js); }
  }

  lemma ElemsOne(j: int)
    ensures Elems([j]) == {j}
  {
  }

  lemma NoJumps(code: seq<Instr>, t: int, ts: seq<int>, f: int, fs: seq<int>)
    requires IsList(code, t, ts) && IsList(code, f, fs) && Elems(ts) !! Elems(fs)
    ensures t == f <==> ts == [] && fs == []
  {
    ListElems(code, t, ts);
    ListElems(code, f, fs);
    assert ts != [] ==> t in Elems(ts);
    assert fs != [] ==> f in Elems(fs);
  }

  /** A jump that stands for the value joins the true exits; what falls through is false. */
  lemma BuiltJoinJump(p0: Snap, p: Snap, p': Snap, nact: int, n: int, x: int, pc: int,
                      t: int, ts: seq<int>, f: int, fs: seq<int>, t': int, e: Expr)
    requires Built(p0, p, nact, n, x, Yields(VJmp(pc)), t, ts, f, fs, e)
    requires |p'.code| == |p.code| && p' == p.(code := p'.code)
    requires forall i | 0 <= i < |p.code| ::
               p'.code[i] == p.code[i] || (i in Elems(ts) && p.code[i].Jmp? && p'.code[i].Jmp?)
    requires IsList(p'.code, t', ts + [pc])
    ensures Built(p0, p', nact, n, x, Yields(VFalse), t', ts + [pc], f, fs, e)
  {
    assert IsList(p.code, pc, [pc]) by { assert [pc][1..] == []; }
    RelinkExtends(p0, p, p');
    ListKept(p.code, p'.code, f, fs);
    ElemsAppend(ts, [pc]);
    ElemsOne(pc);
    MeansRelink(p0, p, p', n, x, Yields(VJmp(pc)), Elems(ts) + {pc}, Elems(fs), e);
    forall env, q, s | Fits(env, p') && Starts(p0, q)
      ensures MeansAt(p0, p', n, x, Yields(VFalse), Elems(ts + [pc]) + {}, Elems(fs), e, env, q, s)
    {
      assert MeansAt(p0, p', n, x, Yields(VJmp(pc)), Elems(ts) + {pc}, Elems(fs), e, env, q, s);
      assert Elems(ts + [pc]) + {} == Elems(ts) + {pc};
    }
  }

  function Loads(reg: int): seq<Instr> { [LoadBool(reg, false, true), LoadBool(reg, true, false)] }

  /** Two loads after a comparison: the fall through takes the first one. */
  lemma BuiltLoads(p0: Snap, p: Snap, p': Snap, nact: int, n: int, reg: int,
                   t: int, ts: seq<int>, f: int, fs: seq<int>, e: Expr)
    requires Built(p0, p, nact, n, -1, Yields(VFalse), t, ts, f, fs, e)
    requires Emits(p, p', Loads(reg), {}) && p'.lab == |p'.code|
    requires 0 <= reg < nact || reg == n
    ensures Built(p0, p', nact, n, reg, Yields(VNonReloc(reg)), t, ts, f, fs, e)
    ensures EndsInLoads(p'.code, reg)
  {
    EmitsAppends(p, p', Loads(reg), {});
    LoadsContinue(p, p', n, reg, Elems(ts), Elems(fs));
    BuiltEmit(p0, p, p', nact, n, reg, Yields(VFalse), Yields(VNonReloc(reg)), Loads(reg), t, ts, f, fs, e);
  }

  lemma SkipWf(p: Snap, p1: Snap, p2: Snap, reg: int, link: int)
    requires Wf(p)
    requires p1 == p.(code := p.code + [Jmp(link)], here := {}, open := p.open + p.here + {|p.code|})
    requires p2 == p1.(code := p1.code + Loads(reg), lab := |p1.code| + 2)
    ensures Wf(p1) && Wf(p2)
  {
    WfSkip(p, p1, link);
    DischargedNothing(p1);
    assert Emits(p1, p2, Loads(reg), {});
    WfEmits(p1, p2, Loads(reg), {});
  }

  lemma SkipShape(p: Snap, p1: Snap, p2: Snap, p': Snap, reg: int, link: int)
    requires Wf(p)
    requires p1 == p.(code := p.code + [Jmp(link)], here := {}, open := p.open + p.here + {|p.code|})
    requires p2 == p1.(code := p1.code + Loads(reg), lab := |p1.code| + 2)
    requires p' == p2.(here := p.here + {|p.code|}, open := p.open)
    ensures Wf(p') && SameTests(p.code, p'.code) && Keeps(p.code, p'.code, p.open)
    ensures p'.code == p.code + [Jmp(link)] + Loads(reg)
  {
    WfSkip(p, p1, link);
    DischargedNothing(p1);
    assert Emits(p1, p2, Loads(reg), {});
    WfEmits(p1, p2, Loads(reg), {});
    var js := p.here + {|p.code|};
    assert p2.open - js == p.open && p2.here + js == p'.here;
    WfToHere(p2, p', js);
    forall i | 0 <= i < |p.code| ensures SameTest(p.code, p'.code, i) {
      assert p'.code[i] == p.code[i];
    }
    forall j <- p.open ensures KeptAt(p.code, p'.code, j) {
      PrefixControl(p.code, p'.code, j);
    }
  }

  /** A jump, the two loads, and the jump's list sent to the position after them. */
  lemma BuiltSkip(p0: Snap, p: Snap, p1: Snap, p2: Snap, p': Snap, nact: int, n: int, x: int, reg: int, link: int,
                  t: int, ts: seq<int>, f: int, fs: seq<int>, e: Expr)
    requires Built(p0, p, nact, n, x, Yields(VNonReloc(reg)), t, ts, f, fs, e)
    requires p1 == p.(code := p.code + [Jmp(link)], here := {}, open := p.open + p.here + {|p.code|})
    requires p2 == p1.(code := p1.code + Loads(reg), lab := |p1.code| + 2)
    requires p' == p2.(here := p.here + {|p.code|}, open := p.open)
    ensures Built(p0, p', nact, n, x, Yields(VNonReloc(reg)), t, ts, f, fs, e)
    ensures EndsInLoads(p'.code, reg) && p'.lab == |p'.code|
  {
    SkipShape(p, p1, p2, p', reg, link);
    ExtendsTrans(p0, p, p', p.open);
    ListKeepsOf(p.code, p'.code, t, ts, p.open);
    ListKeepsOf(p.code, p'.code, f, fs, p.open);
    MeansSkip(p0, p, p', n, x, reg, link, Loads(reg), Elems(ts) + {}, Elems(fs), e);
  }

  ghost predicate AllCarry(code: seq<Instr>, js: seq<int>) {
    forall j <- js :: 0 <= j < |code| && Carries(code, j)
  }

  /** The jumps either carry their values or find the loads that deliver them. */
  ghost predicate Deliverable(p: Snap, js: seq<int>, reg: int) {
    || AllCarry(p.code, js)
    || EndsInLoads(p.code, reg)
  }

  lemma TargetOk(p: Snap, j: int, js: seq<int>, reg: int, dtarget: int, truth: bool)
    requires Wf(p) && 0 <= j < |p.code| && p.code[j].Jmp? && j in js && Deliverable(p, js, reg)
    requires !Carries(p.code, j) ==> dtarget == (if truth then |p.code| - 1 else |p.code| - 2)
    ensures j < Target(p.code, j, |p.code|, dtarget) <= |p.code|
    ensures Entry(p.code, Target(p.code, j, |p.code|, dtarget))
  {
    WfAt(p, |p.code| - 1);
    if !Carries(p.code, j) {
      if dtarget >= 1 { WfAt(p, dtarget - 1); }
    }
  }

  lemma PatchedOk(p: Snap, p': Snap, t: int, js: seq<int>, reg: int, dtarget: int, truth: bool)
    requires Wf(p) && IsList(p.code, t, js) && Elems(js) <= p.open && Deliverable(p, js, reg)
    requires 0 <= reg < NO_REG
    requires AllCarry(p.code, js) || dtarget == (if truth then |p.code| - 1 else |p.code| - 2)
    requires p'
            == p.(code := PatchCode(p.code, Elems(js), reg, |p.code|, dtarget), open := p.open - Elems(js),
            lab := |p.code|)
    ensures Patched(p, p', Elems(js), reg, |p.code|, dtarget)
    ensures Wf(p') && SameTests(p.code, p'.code) && Keeps(p.code, p'.code, p.open - Elems(js))
  {
    ListElems(p.code, t, js);
    forall j | j in Elems(js)
      ensures 0 <= j < |p.code| && j < Target(p.code, j, |p.code|, dtarget) <= |p.code|
      ensures Entry(p.code, Target(p.code, j, |p.code|, dtarget))
    {
      assert j in js;
      TargetOk(p, j, js, reg, dtarget, truth);
    }
    WfPatch(p, p', Elems(js), reg, |p.code|, dtarget);
  }

  lemma CarriesAll(code: seq<Instr>, js: seq<int>, j: int)
    requires AllCarry(code, js)
    requires j in Elems(js)
    ensures 0 <= j < |code| && Carries(code, j)
  {
    assert j in js;
  }

  lemma BuiltPatchMeans(p0: Snap, p: Snap, p': Snap, n: int, reg: int, dtarget: int, truth: bool,
                        t: int, js: seq<int>, others: set<int>, e: Expr)
    requires Wf(p) && Extends(p0, p) && IsList(p.code, t, js) && Elems(js) <= p.open && Elems(js) !! p0.open
    requires Deliverable(p, js, reg) && 0 <= reg < NO_REG && others !! Elems(js)
    requires AllCarry(p.code, js) || dtarget == (if truth then |p.code| - 1 else |p.code| - 2)
    requires p'
            == p.(code := PatchCode(p.code, Elems(js), reg, |p.code|, dtarget), open := p.open - Elems(js),
            lab := |p.code|)
    requires Means(p0, p, n, reg, Yields(VNonReloc(reg)), if truth then Elems(js) else others, if truth then others
            else Elems(js), e)
    ensures Means(p0, p', n, reg, Yields(VNonReloc(reg)), if truth then {} else others, if truth then others else {}, e)
  {
    PatchedOk(p, p', t, js, reg, dtarget, truth);
    forall j | j in Elems(js) && AllCarry(p.code, js) ensures Carries(p.code, j) {
      CarriesAll(p.code, js, j);
    }
    MeansPatch(p0, p, p', n, Elems(js), reg, dtarget, truth,
               if truth then Elems(js) else others, if truth then others else Elems(js),
               if truth then {} else others, if truth then others else {}, e);
  }

  /** The list of false exits is sent to its targets. */
  lemma BuiltPatchFalse(p0: Snap, p: Snap, p': Snap, nact: int, n: int, reg: int, dtarget: int,
                        t: int, ts: seq<int>, f: int, fs: seq<int>, e: Expr)
    requires Built(p0, p, nact, n, reg, Yields(VNonReloc(reg)), t, ts, f, fs, e)
    requires Deliverable(p, fs, reg) && 0 <= reg < NO_REG
    requires AllCarry(p.code, fs) || dtarget == |p.code| - 2
    requires p'
            == p.(code := PatchCode(p.code, Elems(fs), reg, |p.code|, dtarget), open := p.open - Elems(fs),
            lab := |p.code|)
    ensures Built(p0, p', nact, n, reg, Yields(VNonReloc(reg)), t, ts, NO_JUMP, [], e)
  {
    PatchedOk(p, p', f, fs, reg, dtarget, false);
    ListKeepsOf(p.code, p'.code, t, ts, p.open - Elems(fs));
    ExtendsTrans(p0, p, p', p.open - Elems(fs));
    assert Elems(ts) + {} == Elems(ts) && Elems([]) == {};
    BuiltPatchMeans(p0, p, p', n, reg, dtarget, false, f, fs, Elems(ts), e);
  }

  /** The list of true exits is sent to its targets. */
  lemma BuiltPatchTrue(p0: Snap, p: Snap, p': Snap, nact: int, n: int, reg: int, dtarget: int,
                       t: int, ts: seq<int>, e: Expr)
    requires Built(p0, p, nact, n, reg, Yields(VNonReloc(reg)), t, ts, NO_JUMP, [], e)
    requires Deliverable(p, ts, reg) && 0 <= reg < NO_REG
    requires AllCarry(p.code, ts) || dtarget == |p.code| - 1
    requires p'
            == p.(code := PatchCode(p.code, Elems(ts), reg, |p.code|, dtarget), open := p.open - Elems(ts),
            lab := |p.code|)
    ensures Built(p0, p', nact, n, reg, Yields(VNonReloc(reg)), NO_JUMP, [], NO_JUMP, [], e)
  {
    PatchedOk(p, p', t, ts, reg, dtarget, true);
    ExtendsTrans(p0, p, p', p.open - Elems(ts));
    assert Elems(ts) + {} == Elems(ts) && Elems([]) == {} && Elems([]) + {} == {};
    BuiltPatchMeans(p0, p, p', n, reg, dtarget, true, t, ts, {}, e);
  }

  lemma PatchKeepsCarries(p: Snap, p': Snap, fs: seq<int>, reg: int, dtarget: int, j: int)
    requires Wf(p) && p'.code == PatchCode(p.code, Elems(fs), reg, |p.code|, dtarget)
    requires forall i <- fs :: 0 <= i < |p.code| && p.code[i].Jmp?
    requires 0 <= j < |p.code| && p.code[j].Jmp? && Carries(p.code, j) && j !in Elems(fs)
    ensures Carries(p'.code, j)
  {
    assert j >= 1 && p.code[j - 1].TestSet?;
    assert p'.code[j - 1] == PatchAt(p.code, Elems(fs), reg, |p.code|, dtarget, j - 1);
    assert j - 1 in Elems(fs) ==> j - 1 in fs;
  }

  lemma PatchKeepsLoads(p: Snap, p': Snap, fs: seq<int>, reg: int, dtarget: int)
    requires p'.code == PatchCode(p.code, Elems(fs), reg, |p.code|, dtarget)
    requires forall i <- fs :: 0 <= i < |p.code| && p.code[i].Jmp?
    requires EndsInLoads(p.code, reg)
    ensures EndsInLoads(p'.code, reg)
  {
    forall i | |p.code| - 2 <= i < |p.code| ensures p'.code[i] == p.code[i] {
      assert p'.code[i] == PatchAt(p.code, Elems(fs), reg, |p.code|, dtarget, i);
      assert i in Elems(fs) ==> i in fs;
    }
  }

  lemma PatchKeepsDeliverable(p: Snap, p': Snap, f: int, fs: seq<int>, t: int, ts: seq<int>, reg: int, dtarget: int)
    requires Wf(p) && IsList(p.code, f, fs) && IsList(p.code, t, ts) && Elems(ts) !! Elems(fs)
    requires p'.code == PatchCode(p.code, Elems(fs), reg, |p.code|, dtarget)
    requires Deliverable(p, ts, reg)
    ensures Deliverable(p', ts, reg)
    ensures AllCarry(p.code, ts) ==> AllCarry(p'.code, ts)
  {
    ListElems(p.code, f, fs);
    ListElems(p.code, t, ts);
    if EndsInLoads(p.code, reg) {
      PatchKeepsLoads(p, p', fs, reg, dtarget);
    }
    if AllCarry(p.code, ts) {
      forall j | j in ts ensures 0 <= j < |p'.code| && Carries(p'.code, j) {
        assert j in Elems(ts);
        PatchKeepsCarries(p, p', fs, reg, dtarget, j);
      }
    }
  }
}
