/** What each operation of the code generator does to what has been built. */
module LuaOps {
  import opened LuaVm
  import opened LuaExpr
  import opened LuaJumps
  import opened LuaSem
  import opened LuaSteps
  import opened LuaJoin
  import opened LuaPatch
  import opened LuaShape
  import opened LuaBuilt

  lemma BuiltFree(p0: Snap, p: Snap, nact: int, n: int, x: int, k: Kind, t: int, ts: seq<int>, f: int, fs: seq<int>,
                  e: Expr)
    requires Built(p0, p, nact, n, x, Yields(k), t, ts, f, fs, e) && x >= n
    ensures Built(p0, p, nact, n, -1, Yields(k), t, ts, f, fs, e)
  {
    MeansFree(p0, p, n, x, -1, Yields(k), Elems(ts) + JumpOf(Yields(k)), Elems(fs), e);
  }

  lemma BuiltNoCode(p: Snap, nact: int, n: int, k: Kind, e: Expr)
    requires Wf(p) && InScope(e, nact) && 0 <= nact <= n && KindOk(p, p, nact, n, k)
    requires !k.VReloc? && !k.VJmp?
    requires Means(p, p, n, -1, Yields(k), {}, {}, e)
    ensures Built(p, p, nact, n, -1, Yields(k), NO_JUMP, [], NO_JUMP, [], e)
  {
    assert Elems([]) == {} && Elems([]) + {} == {};
    forall i | 0 <= i < |p.code| ensures SameTest(p.code, p.code, i) {}
    forall j <- p.open ensures KeptAt(p.code, p.code, j) {}
  }

  /** A string literal is put among the constants. */
  lemma BuiltString(p: Snap, p': Snap, nact: int, n: int, i: int, s: string)
    requires Wf(p) && 0 <= nact <= n
    requires p' == p.(k := p'.k) && p.k <= p'.k && 0 <= i < |p'.k| && p'.k[i] == Str(s)
    ensures Built(p, p', nact, n, -1, Yields(VK(i)), NO_JUMP, [], NO_JUMP, [], EStr(s))
  {
    assert Elems([]) == {} && Elems([]) + {} == {};
    forall i | 0 <= i < |p.code| ensures SameTest(p.code, p'.code, i) {}
    forall j <- p.open ensures KeptAt(p.code, p'.code, j) {}
    forall env, q, st | Fits(env, p') && Starts(p, q)
      ensures MeansAt(p, p', n, -1, Yields(VK(i)), {}, {}, EStr(s), env, q, st)
    {
      assert Const(env, i) == Str(s);
      SemExits(p, env, q, st);
    }
  }

  // ---------- branching on a value ----------

  /** Control goes on here when the truth of `e` is `truth`, and otherwise leaves through `pcs` or
      one of the lists. */
  ghost predicate Branched(
    p0: Snap, p: Snap, nact: int, n: int, truth: bool, pc: int, pcs: seq<int>,
    t: int, ts: seq<int>, f: int, fs: seq<int>, e: Expr)
  {
    && Wf(p) && Extends(p0, p)
    && IsList(p.code, t, ts) && IsList(p.code, f, fs) && IsList(p.code, pc, pcs)
    && Elems(ts) !! Elems(fs) && (Elems(ts) + Elems(fs)) !! Elems(pcs)
    && p0.open !! (Elems(ts) + Elems(fs) + Elems(pcs))
    && p.open == p0.open + Elems(ts) + Elems(fs) + Elems(pcs)
    && 0 <= nact <= n && InScope(e, nact)
    && Means(p0, p, n, -1, Decided(truth), Elems(ts) + (if truth then {} else Elems(pcs)),
             Elems(fs) + (if truth then Elems(pcs) else {}), e)
  }

  predicate AlwaysTrue(p: Snap, k: Kind) {
    match k
    case VK(i) => 0 <= i < |p.k| && !IsFalse(p.k[i])
    case VKNum(_) => true
    case VTrue => true
    case _ => false
  }

  /** The truth of a constant is known at compile time: no jump is needed. */
  lemma BranchConstant(p0: Snap, p: Snap, nact: int, n: int, truth: bool, k: Kind,
                       t: int, ts: seq<int>, f: int, fs: seq<int>, e: Expr)
    requires Built(p0, p, nact, n, -1, Yields(k), t, ts, f, fs, e)
    requires if truth then AlwaysTrue(p, k) else k.VNil? || k.VFalse?
    ensures Branched(p0, p, nact, n, truth, NO_JUMP, [], t, ts, f, fs, e)
  {
    hide Eval, OpenOk, ExitOk;
    assert Elems([]) == {} && Elems(ts) + {} == Elems(ts) && Elems(fs) + {} == Elems(fs);
    forall env, q, s | Fits(env, p) && Starts(p0, q)
      ensures MeansAt(p0, p, n, -1, Decided(truth), Elems(ts), Elems(fs), e, env, q, s)
    {
      assert MeansAt(p0, p, n, -1, Yields(k), Elems(ts), Elems(fs), e, env, q, s);
      if k.VK? { assert Const(env, k.info) == p.k[k.info]; }
    }
  }

  lemma DecidedByKind(p0: Snap, p: Snap, n: int, truth: bool, k: Kind, ts: set<int>, fs: set<int>, e: Expr)
    requires Means(p0, p, n, -1, Yields(k), ts, fs, e)
    requires if truth then k == VTrue else k.VJmp?
    ensures Means(p0, p, n, -1, Decided(truth), ts, fs, e)
  {
    forall env, q, s | Fits(env, p) && Starts(p0, q)
      ensures MeansAt(p0, p, n, -1, Decided(truth), ts, fs, e, env, q, s)
    {
      assert MeansAt(p0, p, n, -1, Yields(k), ts, fs, e, env, q, s);
    }
  }

  lemma OneList(code: seq<Instr>, pc: int)
    requires 0 <= pc < |code| && code[pc].Jmp? && code[pc].sbx == NO_JUMP
    ensures IsList(code, pc, [pc]) && Elems([pc]) == {pc}
  {
    assert [pc][1..] == [];
  }

  /** A comparison already is a jump, taken when it holds. */
  lemma BranchJump(p0: Snap, p: Snap, nact: int, n: int, pc: int,
                   t: int, ts: seq<int>, f: int, fs: seq<int>, e: Expr)
    requires Built(p0, p, nact, n, -1, Yields(VJmp(pc)), t, ts, f, fs, e)
    ensures Branched(p0, p, nact, n, false, pc, [pc], t, ts, f, fs, e)
  {
    OneList(p.code, pc);
    DecidedByKind(p0, p, n, false, VJmp(pc), Elems(ts) + {pc}, Elems(fs), e);
    assert Elems(fs) + {} == Elems(fs);
  }

  lemma InvertShape(p0: Snap, p: Snap, p': Snap, nact: int, n: int, pc: int,
                    t: int, ts: seq<int>, f: int, fs: seq<int>)
    requires Shaped(p0, p, nact, n, Yields(VJmp(pc)), t, ts, f, fs)
    requires p' == p.(code := Inverted(p.code))
    ensures Shaped(p0, p', nact, n, Yields(VJmp(pc)), t, ts, f, fs)
  {
    WfInvert(p, p', pc);
    ListKeepsOf(p.code, p'.code, t, ts, p.open - {pc});
    ListKeepsOf(p.code, p'.code, f, fs, p.open - {pc});
    ExtendsTrans(p0, p, p', p.open - {pc});
  }

  /** Once inverted, it is taken when it fails. */
  lemma BranchInverted(p0: Snap, p: Snap, p': Snap, nact: int, n: int, pc: int,
                       t: int, ts: seq<int>, f: int, fs: seq<int>, e: Expr)
    requires Built(p0, p, nact, n, -1, Yields(VJmp(pc)), t, ts, f, fs, e)
    requires p' == p.(code := Inverted(p.code))
    ensures Branched(p0, p', nact, n, true, pc, [pc], t, ts, f, fs, e)
  {
    InvertShape(p0, p, p', nact, n, pc, t, ts, f, fs);
    OneList(p'.code, pc);
    MeansInvert(p0, p, p', pc, n, VJmp(pc), VTrue, Elems(ts), Elems(fs),
                Elems(ts) + {pc}, Elems(fs), Elems(ts), Elems(fs) + {pc}, e);
    DecidedByKind(p0, p', n, true, VTrue, Elems(ts), Elems(fs) + {pc}, e);
    assert Elems(ts) + {} == Elems(ts);
  }

  /** Testing a register. */
  lemma BranchTestSet(p0: Snap, p: Snap, p': Snap, nact: int, n: int, r: int, cond: bool, pc: int,
                      t: int, ts: seq<int>, f: int, fs: seq<int>, e: Expr)
    requires Built(p0, p, nact, n, -1, Yields(VNonReloc(r)), t, ts, f, fs, e)
    requires Emits(p, p', [TestSet(NO_REG, r, cond), Jmp(NO_JUMP)], {pc}) && pc == |p.code| + 1 && p'.lab == p.lab
    ensures Branched(p0, p', nact, n, !cond, pc, [pc], t, ts, f, fs, e)
  {
    var test := TestSet(NO_REG, r, cond);
    var ts', fs' := if cond then Elems(ts) + {pc} else Elems(ts) + {}, if cond then Elems(fs) + {}
        else Elems(fs) + {pc};
    CondJumpShape(p0, p, p', nact, n, Yields(VNonReloc(r)), test, pc, t, ts, f, fs);
    TestSetContinues(p, p', n, r, cond, NO_JUMP, ts', fs');
    BuiltCondJump(p0, p, p', nact, n, Yields(VNonReloc(r)), Decided(!cond), test, pc, t, ts, f, fs, ts', fs', e);
    ElemsOne(pc);
  }

  /** Testing the operand of a NOT that is taken back. */
  lemma BranchTestNot(p0: Snap, p: Snap, p': Snap, nact: int, n: int, a: int, r: int, cond: bool, pc: int,
                      t: int, ts: seq<int>, f: int, fs: seq<int>, e: Expr)
    requires |p.code| > 0 && p.code[|p.code| - 1] == NotI(a, r)
    requires Built(p0, p, nact, n, -1, Yields(VReloc(|p.code| - 1)), t, ts, f, fs, e)
    requires Emits(Body(p, Yields(VReloc(|p.code| - 1))), p', [Instr.Test(r, !cond), Jmp(NO_JUMP)], {pc})
    requires pc == |p.code| && p'.lab == p.lab
    ensures Branched(p0, p', nact, n, !cond, pc, [pc], t, ts, f, fs, e)
  {
    var rest := Yields(VReloc(|p.code| - 1));
    var test := Instr.Test(r, !cond);
    var ts', fs' := if cond then Elems(ts) + {pc} else Elems(ts) + {}, if cond then Elems(fs) + {}
        else Elems(fs) + {pc};
    BodyOk(p0, p, nact, n, rest, t, ts, f, fs);
    CondJumpShape(p0, p, p', nact, n, rest, test, pc, t, ts, f, fs);
    TestContinues(p, Body(p, rest), p', n, r, a, rest, cond, NO_JUMP, ts', fs');
    BuiltCondJump(p0, p, p', nact, n, rest, Decided(!cond), test, pc, t, ts, f, fs, ts', fs', e);
    ElemsOne(pc);
  }

  /** The new exit joins its list. */
  lemma BuiltJoinExit(p0: Snap, p: Snap, p': Snap, nact: int, n: int, truth: bool, pc: int, pcs: seq<int>,
                      t: int, ts: seq<int>, f: int, fs: seq<int>, t': int, ts': seq<int>, f': int, fs': seq<int>,
                          e: Expr)
    requires Branched(p0, p, nact, n, truth, pc, pcs, t, ts, f, fs, e)
    requires |p'.code| == |p.code| && p' == p.(code := p'.code)
    requires forall i | 0 <= i < |p.code| ::
               p'.code[i] == p.code[i] || (i in Elems(if truth then fs else ts) && p.code[i].Jmp? && p'.code[i].Jmp?)
    requires if truth then t' == t && ts' == ts && fs' == fs + pcs && IsList(p'.code, f', fs')
             else f' == f && fs' == fs && ts' == ts + pcs && IsList(p'.code, t', ts')
    ensures Built(p0, p', nact, n, -1, Decided(truth), t', ts', f', fs', e)
  {
    hide Means, InScope, OpenOk, Wf, Eval, Keeps, SameTests, IsList, Extends, ExitOk, Run;
    RelinkExtends(p0, p, p');
    ElemsAppend(ts, pcs);
    ElemsAppend(fs, pcs);
    if truth { ListKept(p.code, p'.code, t, ts); } else { ListKept(p.code, p'.code, f, fs); }
    MeansRelink(p0, p, p', n, -1, Decided(truth), Elems(ts) + (if truth then {} else Elems(pcs)),
                Elems(fs) + (if truth then Elems(pcs) else {}), e);
    assert Elems(ts) + (if truth then {} else Elems(pcs)) == Elems(ts') + {};
    assert Elems(fs) + (if truth then Elems(pcs) else {}) == Elems(fs');
  }

  /** The other list is sent here. */
  lemma BuiltToHere(p0: Snap, p: Snap, p': Snap, nact: int, n: int, truth: bool,
                    t: int, ts: seq<int>, f: int, fs: seq<int>, e: Expr)
    requires Built(p0, p, nact, n, -1, Decided(truth), t, ts, f, fs, e)
    requires var js := Elems(if truth then ts else fs);
             p' == p.(here := p.here + js, open := p.open - js, lab := |p.code|)
    ensures Built(p0, p', nact, n, -1, Decided(truth), if truth then NO_JUMP else t, if truth then [] else ts,
                  if truth then f else NO_JUMP, if truth then fs else [], e)
  {
    var js := Elems(if truth then ts else fs);
    WfToHere(p, p', js);
    assert Elems([]) == {} && Elems(ts) + {} == Elems(ts);
    forall i | 0 <= i < |p0.code| ensures SameTest(p0.code, p'.code, i) { assert SameTest(p0.code, p.code, i); }
    MeansToHere(p0, p, p', n, truth, js, if truth then {} else Elems(ts), if truth then Elems(fs) else {}, e);
  }

  // ---------- not ----------

  lemma StrippedSame(p: Snap, js: set<int>, p': Snap)
    requires Wf(p) && js <= p.open && p' == p.(code := Stripped(p.code, js))
    ensures SameRuns(p.code, p'.code, p.here + p.open)
    ensures forall j | 0 <= j < |p.code| && p.code[j].Jmp? :: p'.code[j] == p.code[j]
    ensures forall j | j in p.open - js :: KeptAt(p.code, p'.code, j)
  {
    forall i | 0 <= i < |p.code|
      ensures p'.code[i] == p.code[i]
           || (p.code[i].TestSet? && p.code[i].a == NO_REG && p'.code[i] == Instr.Test(p.code[i].b, p.code[i].accept))
    {
      WfAt(p, i);
    }
  }

  lemma StrippedShape(p0: Snap, p: Snap, p': Snap, nact: int, n: int, rest: Rest, js: set<int>,
                      t: int, ts: seq<int>, f: int, fs: seq<int>)
    requires Shaped(p0, p, nact, n, rest, t, ts, f, fs) && js == Elems(ts) + Elems(fs)
    requires p' == p.(code := Stripped(p.code, js))
    ensures Wf(p') && Extends(p0, p') && IsList(p'.code, t, ts) && IsList(p'.code, f, fs)
  {
    StrippedSame(p, js, p');
    WfSame(p, p');
    ListElems(p.code, t, ts);
    ListElems(p.code, f, fs);
    ListKept(p.code, p'.code, t, ts);
    ListKept(p.code, p'.code, f, fs);
    ExtendsTrans(p0, p, p', p0.open);
  }

  lemma StrippedMore(code: seq<Instr>, js: set<int>, pc: int)
    requires pc >= 1 && pc - 1 < |code| && !code[pc - 1].TestSet?
    ensures Stripped(code, js + {pc}) == Stripped(code, js)
  {
  }

  /** `not` of a constant or of a value in a register. */
  lemma BuiltNot(p0: Snap, p: Snap, p': Snap, nact: int, n: int, k: Kind, js: set<int>,
                 t: int, ts: seq<int>, f: int, fs: seq<int>, e: Expr)
    requires Built(p0, p, nact, n, -1, Yields(k), t, ts, f, fs, e)
    requires Negatable(p, k) && !k.VJmp? && js == Elems(ts) + Elems(fs)
    requires p' == p.(code := Stripped(p.code, js))
    ensures Built(p0, p', nact, n, -1, NotRest(k), f, fs, t, ts, EUn(Not, e))
  {
    StrippedShape(p0, p, p', nact, n, Yields(k), js, t, ts, f, fs);
    assert Elems(ts) + {} == Elems(ts) && Elems(fs) + {} == Elems(fs);
    MeansNot(p0, p, p', n, k, Elems(ts), Elems(fs), e);
  }

  /** `not` of a comparison: the jump is inverted. */
  lemma BuiltNotJump(p0: Snap, p: Snap, p1: Snap, p': Snap, nact: int, n: int, pc: int, js: set<int>,
                     t: int, ts: seq<int>, f: int, fs: seq<int>, e: Expr)
    requires Built(p0, p, nact, n, -1, Yields(VJmp(pc)), t, ts, f, fs, e)
    requires js == Elems(ts) + Elems(fs)
    requires p1 == p.(code := Stripped(p.code, js))
    requires p' == p1.(code := Inverted(p1.code))
    ensures Built(p0, p', nact, n, -1, Yields(VJmp(pc)), f, fs, t, ts, EUn(Not, e))
  {
    StrippedShape(p0, p, p1, nact, n, Yields(VJmp(pc)), js, t, ts, f, fs);
    StrippedSame(p, js, p1);
    StrippedMore(p.code, js, pc);
    assert Elems(ts) + {pc} + Elems(fs) == js + {pc};
    MeansNot(p0, p, p1, n, VJmp(pc), Elems(ts) + {pc}, Elems(fs), e);
    assert EndsInJump(p1, pc);
    InvertShape(p0, p1, p', nact, n, pc, f, fs, t, ts);
    MeansInvert(p0, p1, p', pc, n, VTrue, VJmp(pc), Elems(fs), Elems(ts),
                Elems(fs), Elems(ts) + {pc}, Elems(fs) + {pc}, Elems(ts), EUn(Not, e));
  }

  /** Emitting the NOT and stripping the lists commute. */
  lemma StripEmitted(p: Snap, p1: Snap, js: set<int>, i: Instr)
    requires Wf(p) && js <= p.open && !i.TestSet?
    requires p1 == p.(code := Stripped(p.code, js))
    ensures Stripped(Discharged(p) + [i], js) == Discharged(p1) + [i]
  {
    StrippedSame(p, js, p1);
    var a, b := Stripped(Discharged(p) + [i], js), Discharged(p1) + [i];
    forall k | 0 <= k < |a| ensures a[k] == b[k] {
      if k < |p.code| {
        assert Discharged(p)[k] == PatchAt(p.code, p.here, NO_REG, |p.code|, |p.code|, k);
        assert Discharged(p1)[k] == PatchAt(p1.code, p.here, NO_REG, |p.code|, |p.code|, k);
        WfAt(p, k);
      }
    }
  }

  lemma StripInverted(code: seq<Instr>, js: set<int>)
    requires |code| >= 2 && code[|code| - 2].Compare?
    ensures Stripped(Inverted(code), js) == Inverted(Stripped(code, js))
  {
  }

  lemma StripTwice(code: seq<Instr>, a: set<int>, b: set<int>)
    ensures Stripped(Stripped(code, a), b) == Stripped(code, a + b)
  {
  }

  // ---------- and, or ----------

  lemma ComposeExtends(p0: Snap, p1: Snap, p2: Snap)
    requires Extends(p0, p1) && Extends(p1, p2) && p0.open <= p1.open
    ensures Extends(p0, p2)
  {
    ExtendsTrans(p0, p1, p2, p1.open);
  }

  lemma KindLater(p0: Snap, p1: Snap, p2: Snap, nact: int, n: int, k: Kind)
    requires Extends(p0, p1) && KindOk(p1, p2, nact, n, k)
    ensures KindOk(p0, p2, nact, n, k)
  {
  }

  /** The first operand of `and` or `or` has been coded: it exits through `js` when it decides. */
  ghost predicate FirstBuilt(p0: Snap, p1: Snap, nact: int, n: int, op: BinOpr, j: int, js: seq<int>, l: Expr) {
    if op == And then Built(p0, p1, nact, n, -1, Decided(true), NO_JUMP, [], j, js, l)
    else Built(p0, p1, nact, n, -1, Decided(false), j, js, NO_JUMP, [], l)
  }

  lemma FirstFacts(p0: Snap, p1: Snap, nact: int, n: int, op: BinOpr, j: int, js: seq<int>, l: Expr)
    requires FirstBuilt(p0, p1, nact, n, op, j, js, l) && (op == And || op == Or)
    ensures Means(p0, p1, n, -1, Decided(op == And), if op == Or then Elems(js) else {}, if op == And then Elems(js)
            else {}, l)
    ensures Extends(p0, p1) && Wf(p1) && p1.open == p0.open + Elems(js) && p0.open !! Elems(js) && InScope(l, nact)
    ensures IsList(p1.code, j, js)
  {
    assert Elems([]) == {} && Elems([]) + {} == {} && Elems(js) + {} == Elems(js);
  }

  /** The exits of the first operand join those of the second. */
  lemma BuiltAndOr(p0: Snap, p1: Snap, p: Snap, p': Snap, nact: int, n: int, op: BinOpr, k: Kind,
                   j: int, js: seq<int>, t: int, ts: seq<int>, f: int, fs: seq<int>,
                   t': int, ts': seq<int>, f': int, fs': seq<int>, l: Expr, r: Expr)
    requires op == And || op == Or
    requires FirstBuilt(p0, p1, nact, n, op, j, js, l)
    requires Built(p1, p, nact, n, -1, Yields(k), t, ts, f, fs, r)
    requires |p'.code| == |p.code| && p' == p.(code := p'.code)
    requires forall i | 0 <= i < |p.code| ::
               p'.code[i] == p.code[i]
                   || (i in Elems(if op == And then fs else ts) && p.code[i].Jmp? && p'.code[i].Jmp?)
    requires if op == And then t' == t && ts' == ts && fs' == fs + js && IsList(p'.code, f', fs')
             else f' == f && fs' == fs && ts' == ts + js && IsList(p'.code, t', ts')
    ensures Built(p0, p', nact, n, -1, Yields(k), t', ts', f', fs', EBin(op, l, r))
  {
    FirstFacts(p0, p1, nact, n, op, j, js, l);
    ComposeExtends(p0, p1, p);
    KindLater(p0, p1, p, nact, n, k);
    AndOrMeans(p0, p1, p, p', nact, n, op, Yields(k), js, ts, fs, ts', fs', l, r);
    AndOrShape(p0, p1, p, p', nact, n, op, k, js, t, ts, f, fs, t', ts', f', fs');
  }

  lemma AndOrMeans(p0: Snap, p1: Snap, p: Snap, p': Snap, nact: int, n: int, op: BinOpr, rest: Rest,
                   js: seq<int>, ts: seq<int>, fs: seq<int>, ts': seq<int>, fs': seq<int>, l: Expr, r: Expr)
    requires op == And || op == Or
    requires Means(p0, p1, n, -1, Decided(op == And), if op == Or then Elems(js) else {}, if op == And then Elems(js)
            else {}, l)
    requires Means(p1, p, n, -1, rest, Elems(ts) + JumpOf(rest), Elems(fs), r)
    requires Extends(p0, p1) && Extends(p1, p) && Wf(p1) && Wf(p) && Elems(js) <= p1.open && InScope(r, nact)
            && nact <= n
    requires Elems(ts) + Elems(fs) <= p.open
    requires |p'.code| == |p.code| && p' == p.(code := p'.code)
    requires forall i | 0 <= i < |p.code| ::
               p'.code[i] == p.code[i]
                   || (i in Elems(if op == And then fs else ts) && p.code[i].Jmp? && p'.code[i].Jmp?)
    requires rest.Yields? && rest.k.VReloc? ==> |p.code| > 0 && IsReloc(p.code[|p.code| - 1])
    requires if op == And then ts' == ts && fs' == fs + js else fs' == fs && ts' == ts + js
    ensures Means(p0, p', n, -1, rest, Elems(ts') + JumpOf(rest), Elems(fs'), EBin(op, l, r))
  {
    ElemsAppend(ts, js);
    ElemsAppend(fs, js);
    var ts1 := if op == Or then Elems(ts) + JumpOf(rest) + Elems(js) else Elems(ts) + JumpOf(rest);
    var fs1 := if op == And then Elems(fs) + Elems(js) else Elems(fs);
    MeansAndOr(p0, p1, p, nact, n, op, rest, Elems(js), Elems(ts) + JumpOf(rest), Elems(fs), ts1, fs1, l, r);
    RelinkBody(p0, p, p', n, rest, ts1, fs1, EBin(op, l, r));
    assert ts1 == Elems(ts') + JumpOf(rest) && fs1 == Elems(fs');
  }

  lemma RelinkBody(p0: Snap, p: Snap, p': Snap, n: int, rest: Rest, ts: set<int>, fs: set<int>, e: Expr)
    requires Means(p0, p, n, -1, rest, ts, fs, e) && Wf(p)
    requires |p'.code| == |p.code| && p' == p.(code := p'.code)
    requires forall i | 0 <= i < |p.code| ::
               p'.code[i] == p.code[i] || (i in p.open && p.code[i].Jmp? && p'.code[i].Jmp?)
    requires rest.Yields? && rest.k.VReloc? ==> |p.code| > 0 && IsReloc(p.code[|p.code| - 1])
    ensures Means(p0, p', n, -1, rest, ts, fs, e)
  {
    MeansRelink(p0, p, p', n, -1, rest, ts, fs, e);
  }

  lemma AndOrShape(p0: Snap, p1: Snap, p: Snap, p': Snap, nact: int, n: int, op: BinOpr, k: Kind,
                   js: seq<int>, t: int, ts: seq<int>, f: int, fs: seq<int>,
                   t': int, ts': seq<int>, f': int, fs': seq<int>)
    requires op == And || op == Or
    requires Shaped(p1, p, nact, n, Yields(k), t, ts, f, fs) && Extends(p0, p) && KindOk(p0, p, nact, n, k)
    requires p0.open !! Elems(js) && p1.open == p0.open + Elems(js)
    requires |p'.code| == |p.code| && p' == p.(code := p'.code)
    requires forall i | 0 <= i < |p.code| ::
               p'.code[i] == p.code[i]
                   || (i in Elems(if op == And then fs else ts) && p.code[i].Jmp? && p'.code[i].Jmp?)
    requires if op == And then t' == t && ts' == ts && fs' == fs + js && IsList(p'.code, f', fs')
             else f' == f && fs' == fs && ts' == ts + js && IsList(p'.code, t', ts')
    ensures Shaped(p0, p', nact, n, Yields(k), t', ts', f', fs')
  {
    ElemsAppend(ts, js);
    ElemsAppend(fs, js);
    RelinkExtends(p0, p, p');
    RelinkKind(p0, p, p', nact, n, k);
    if op == And { ListKept(p.code, p'.code, t, ts); } else { ListKept(p.code, p'.code, f, fs); }
  }

  // ---------- strict operators ----------

  lemma BuiltStrict(p0: Snap, p1: Snap, p: Snap, nact: int, n: int, n1: int, op: BinOpr,
                    k1: Kind, k2: Kind, o1: int, o2: int, l: Expr, r: Expr)
    requires op != And && op != Or && op != Ari(OpUnm)
    requires Built(p0, p1, nact, n, -1, Yields(k1), NO_JUMP, [], NO_JUMP, [], l)
    requires Built(p1, p, nact, n1, -1, Yields(k2), NO_JUMP, [], NO_JUMP, [], r)
    requires IsRk(k1, o1) && IsRk(k2, o2) && (k1.VNonReloc? ==> k1.info < n1) && n <= n1
    ensures Built(p0, p, nact, n, -1, StrictRest(op, o1, o2), NO_JUMP, [], NO_JUMP, [], EBin(op, l, r))
  {
    assert Elems([]) == {} && Elems([]) + {} == {};
    ComposeExtends(p0, p1, p);
    MeansStrict(p0, p1, p, nact, n, n1, op, k1, k2, o1, o2, l, r);
  }

  lemma BuiltNumeralLate(p0: Snap, p1: Snap, p2: Snap, p: Snap, nact: int, n: int, n2: int, op: ArithOp,
                         k1: Kind, k2: Kind, o1: int, o2: int, c: real, l: Expr, r: Expr)
    requires op != OpUnm
    requires Built(p0, p1, nact, n, -1, Yields(VKNum(c)), NO_JUMP, [], NO_JUMP, [], l)
    requires Built(p1, p2, nact, n, -1, Yields(k2), NO_JUMP, [], NO_JUMP, [], r)
    requires Built(p2, p, nact, n2, -1, Yields(k1), NO_JUMP, [], NO_JUMP, [], ENum(c))
    requires IsRk(k1, o1) && IsRk(k2, o2) && (k2.VNonReloc? ==> k2.info < n2) && n <= n2
    ensures Built(p0, p, nact, n, -1, Applied(Arith(op, 0, o1, o2)), NO_JUMP, [], NO_JUMP, [], EBin(Ari(op), l, r))
  {
    assert Elems([]) == {} && Elems([]) + {} == {};
    ComposeExtends(p0, p1, p2);
    ComposeExtends(p0, p2, p);
    MeansNumeralLate(p0, p1, p2, p, nact, n, n, n2, op, k1, k2, o1, o2, c, l, r);
  }

  lemma BuiltFold(p0: Snap, p1: Snap, p: Snap, nact: int, n: int, op: ArithOp, a: real, b: real, l: Expr, r: Expr)
    requires op != OpUnm
    requires Built(p0, p1, nact, n, -1, Yields(VKNum(a)), NO_JUMP, [], NO_JUMP, [], l)
    requires Built(p1, p, nact, n, -1, Yields(VKNum(b)), NO_JUMP, [], NO_JUMP, [], r)
    ensures Built(p0, p, nact, n, -1, Yields(VKNum(p.num(op, a, b))), NO_JUMP, [], NO_JUMP, [], EBin(Ari(op), l, r))
  {
    assert Elems([]) == {} && Elems([]) + {} == {};
    ComposeExtends(p0, p1, p);
    MeansFold(p0, p1, p, nact, n, op, a, b, l, r);
  }

  lemma BuiltFoldMinus(p0: Snap, p: Snap, nact: int, n: int, a: real, e: Expr)
    requires Built(p0, p, nact, n, -1, Yields(VKNum(a)), NO_JUMP, [], NO_JUMP, [], e)
    ensures Built(p0, p, nact, n, -1, Yields(VKNum(p.num(OpUnm, a, a))), NO_JUMP, [], NO_JUMP, [], EUn(Minus, e))
  {
    assert Elems([]) == {} && Elems([]) + {} == {};
    MeansFoldMinus(p0, p, n, a, e);
  }

  lemma BuiltUnary(p0: Snap, p: Snap, nact: int, n: int, op: UnOpr, r: int, e: Expr)
    requires op == Minus || op == Length
    requires Built(p0, p, nact, n, -1, Yields(VNonReloc(r)), NO_JUMP, [], NO_JUMP, [], e)
    ensures Built(p0, p, nact, n, -1, Applied(if op == Minus then Unm(0, r) else Len(0, r)), NO_JUMP, [], NO_JUMP, [],
            EUn(op, e))
  {
    assert Elems([]) == {} && Elems([]) + {} == {};
    MeansUnary(p0, p, n, op, r, e);
  }

  /** A comparison of two operands becomes a jump. */
  lemma BuiltCompare(p0: Snap, p: Snap, p': Snap, nact: int, n: int, i: Instr, pc: int, e: Expr)
    requires Built(p0, p, nact, n, -1, Compared(i), NO_JUMP, [], NO_JUMP, [], e) && i.Compare?
    requires Emits(p, p', [i, Jmp(NO_JUMP)], {pc}) && pc == |p.code| + 1 && p'.lab == p.lab
    ensures Built(p0, p', nact, n, -1, Yields(VJmp(pc)), NO_JUMP, [], NO_JUMP, [], e)
  {
    assert Elems([]) == {} && Elems([]) + {} == {};
    CondJumpShape(p0, p, p', nact, n, Compared(i), i, pc, NO_JUMP, [], NO_JUMP, []);
    CompareContinues(p, p', n, i, Yields(VJmp(pc)), NO_JUMP, {pc}, {});
    BuiltCondJump(p0, p, p', nact, n, Compared(i), Yields(VJmp(pc)), i, pc, NO_JUMP, [], NO_JUMP, [], {pc}, {}, e);
    assert Elems([]) + {pc} == {pc};
  }
}
