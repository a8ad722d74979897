/** The code generator: instructions are appended, and jumps patched, in place. */
module LuaCodeGen {
  import opened LuaVm
  import opened LuaExpr
  import opened LuaJumps
  import opened LuaSem
  import opened LuaSteps
  import opened LuaJoin
  import opened LuaPatch
  import opened LuaShape
  import opened LuaBuilt
  import opened LuaOps

  const MAXVARS: int := 200

  /** Compilation stops with an error when a jump is too long, the registers run out, or there are
      too many constants. */
  datatype Result<+T> = Done(value: T) | Err(msg: string) {
    predicate IsFailure() { Err? }

    function PropagateFailure<U>(): Result<U>
      requires Err?
    {
      Err(msg)
    }

    function Extract(): T
      requires Done?
    {
      value
    }
  }

  /** An expression descriptor: where the value is, and the lists of jumps that leave the
      expression when it is true (`t`) or false (`f`). */
  datatype ExpDesc = Exp(k: Kind, t: int, f: int)

  predicate HasJumps(e: ExpDesc) { e.t != e.f }

  predicate IsNumeral(e: ExpDesc) { e.k.VKNum? && e.t == NO_JUMP && e.f == NO_JUMP }

  function Abs(x: int): int { if x < 0 then -x else x }

  class FuncState {
    var code: seq<Instr>      // f->code[0..pc)
    var jpc: int              // list of pending jumps to the next instruction
    var lasttarget: int
    var freereg: int
    var maxstacksize: int
    var k: seq<Value>         // constants
    const nactvar: int
    const num: (ArithOp, real, real) -> real

    ghost var hereList: seq<int>   // the elements of the list `jpc`
    ghost var open: set<int>       // all other jumps without a target

    ghost function Now(): Snap
      reads this
    {
      Snap(code, Elems(hereList), open, lasttarget, k, num)
    }

    ghost predicate Valid()
      reads this
    {
      && Wf(Now())
      && IsList(code, jpc, hereList)
      && 0 <= nactvar <= freereg <= maxstacksize < MAXSTACK
    }

    /** A new function whose parameters are its first local variables. */
    constructor (params: nat, num: (ArithOp, real, real) -> real)
      requires params <= MAXVARS
      ensures Valid() && Now() == Snap([], {}, {}, 0, [], num) && nactvar == freereg == params && this.num == num
    {
      code, jpc, lasttarget, k := [], NO_JUMP, 0, [];
      nactvar, freereg, maxstacksize := params, params, if params < 2 then 2 else params;
      this.num := num;
      hereList, open := [], {};
      new;
      ElemsNone();
    }

    /** A jump may be too long. */
    predicate Long()
      reads this`code
    {
      |code| > MAXARG_SBX
    }

    /** What makes compilation fail: a jump that may be too long, too many constants, or no register above
        the first `n`. */
    predicate Full(n: int)
      reads this`code, this`k
    {
      Long() || |k| > MAXARG_AX || n + 1 >= MAXSTACK
    }

    // ---------- jump lists ----------

    method FixJump(pc: int, dest: int) returns (st: Result<()>)
      requires 0 <= pc < |code| && code[pc].Jmp? && dest != NO_JUMP
      modifies this`code
      ensures st.Done? ==> code == old(code)[pc := Jmp(dest - (pc + 1))]
      ensures st.Err? ==> Abs(dest - (pc + 1)) > MAXARG_SBX && code == old(code)
    {
      var offset := dest - (pc + 1);
      if Abs(offset) > MAXARG_SBX {
        return Err("control structure too long");
      }
      code := code[pc := Jmp(offset)];
      return Done(());
    }

    method GetLabel() returns (pc: int)
      modifies this`lasttarget
      ensures pc == lasttarget == |code|
    {
      lasttarget := |code|;
      return |code|;
    }

    /** Appends list `l2` to list `l1`. */
    method Concat(l1: int, l2: int, ghost a: seq<int>, ghost b: seq<int>) returns (st: Result<int>)
      requires IsList(code, l1, a) && IsList(code, l2, b) && Elems(a) !! Elems(b)
      modifies this`code
      ensures |code| == |old(code)|
      ensures st.Err? ==> Long()
      ensures st.Done? ==> IsList(code, st.value, a + b)
      ensures st.Done? && (a == [] || b == []) ==> code == old(code)
      ensures st.Done? ==> forall i | 0 <= i < |code| ::
                code[i] == old(code)[i] || (i in Elems(a) && code[i].Jmp? && old(code)[i].Jmp?)
    {
      ListElems(code, l1, a);
      ListElems(code, l2, b);
      if l2 == NO_JUMP {
        assert a + b == a;
        return Done(l1);
      } else if l1 == NO_JUMP {
        assert a + b == b;
        return Done(l2);
      }
      var list := l1;
      var next := NextJump(code, list);
      ghost var before, rest := [], a;
      ListElems(code, next, a[1..]);
      while next != NO_JUMP
        invariant rest != [] && a == before + rest && IsList(code, list, rest)
        invariant list == rest[0] && next == NextJump(code, list) && IsList(code, next, rest[1..])
        invariant next == NO_JUMP <==> rest[1..] == []
        invariant code == old(code)
        decreases |rest|
      {
        before, rest := before + [rest[0]], rest[1..];
        list := next;
        ListElems(code, list, rest);
        next := NextJump(code, list);
        ListElems(code, next, rest[1..]);
      }
      assert rest == [list] && a[|a| - 1] == list;
      ListAppend(code, code[list := Jmp(l2 - (list + 1))], l1, a, l2, b);
      assert list in Elems(a);
      var _ :- FixJump(list, l2);
      return Done(l1);
    }

    /** Whether some jump in the list does not carry its value. */
    method NeedValue(list: int, ghost js: seq<int>) returns (b: bool)
      requires IsList(code, list, js)
      ensures b <==> !AllCarry(code, js)
    {
      var l := list;
      ghost var done, rest := [], js;
      ListElems(code, list, js);
      while l != NO_JUMP
        invariant js == done + rest && IsList(code, l, rest)
        invariant l == NO_JUMP <==> rest == []
        invariant forall j <- done :: 0 <= j < |code| && Carries(code, j)
        decreases |rest|
      {
        if !Carries(code, l) {
          assert l in js;
          return true;
        }
        done, rest := done + [l], rest[1..];
        l := NextJump(code, l);
        ListElems(code, l, rest);
      }
      assert js == done;
      return false;
    }

    /** A TESTSET before the jump gets its register, or becomes a TEST if none is wanted. */
    method PatchTestReg(node: int, reg: int) returns (patched: bool)
      requires 0 <= node < |code| && code[node].Jmp?
      modifies this`code
      ensures patched == Carries(old(code), node)
      ensures patched ==> node >= 1 && old(code)[node - 1].TestSet?
                          && code == old(code)[node - 1 := Retarget(old(code)[node - 1], reg)]
      ensures !patched ==> code == old(code)
    {
      var i := ControlPos(code, node);
      if !code[i].TestSet? {
        return false;
      }
      code := code[i := Retarget(code[i], reg)];
      return true;
    }

    /** The jumps of a list lose the values they carry. */
    method RemoveValues(list: int, ghost js: seq<int>)
      requires IsList(code, list, js)
      modifies this`code
      ensures code == Stripped(old(code), Elems(js))
    {
      var l := list;
      ghost var done, rest := [], js;
      ListElems(code, list, js);
      assert code == Stripped(old(code), Elems(done));
      while l != NO_JUMP
        invariant js == done + rest && IsList(code, l, rest)
        invariant l == NO_JUMP <==> rest == []
        invariant code == Stripped(old(code), Elems(done))
        decreases |rest|
      {
        ghost var before := code;
        ListElems(code, l, rest);
        var _ := PatchTestReg(l, NO_REG);
        StripOne(old(code), before, code, done, l);
        ListKept(before, code, l, rest);
        done, rest := done + [l], rest[1..];
        l := NextJump(code, l);
        ListElems(code, l, rest);
      }
      assert js == done;
    }

    /** Every jump of the list goes to `vtarget` if it carries a value, which is put in `reg`,
        and to `dtarget` otherwise. */
    method PatchListAux(list: int, vtarget: int, reg: int, dtarget: int, ghost js: seq<int>) returns (st: Result<()>)
      requires IsList(code, list, js)
      requires 0 <= vtarget <= |code| && NO_JUMP <= dtarget <= |code|
      requires dtarget == NO_JUMP ==> AllCarry(code, js)
      modifies this`code
      ensures |code| == |old(code)|
      ensures st.Err? ==> Long()
      ensures st.Done? ==> code == PatchCode(old(code), Elems(js), reg, vtarget, dtarget)
    {
      hide Partly, PatchCode;
      var l := list;
      ghost var code0 := code;
      ghost var done, rest := [], js;
      PartlyStart(code, js, l, reg, vtarget, dtarget);
      while l != NO_JUMP
        invariant js == done + rest && Partly(code0, code, done, rest, l, reg, vtarget, dtarget)
        invariant |code| == |old(code)|
        decreases |rest|
      {
        PartlyHead(code0, code, done, rest, l, reg, vtarget, dtarget);
        ghost var before := code;
        var next := NextJump(code, l);
        var carries := PatchTestReg(l, reg);
        assert carries ==> vtarget != NO_JUMP;
        assert !carries ==> dtarget != NO_JUMP by { assert l in js; }
        var _ :- FixJump(l, if carries then vtarget else dtarget);
        PartlyStep(code0, before, code, done, rest, l, reg, vtarget, dtarget);
        done, rest := done + [l], rest[1..];
        l := next;
      }
      PartlyDone(code0, code, done, rest, l, reg, vtarget, dtarget);
      assert js == done;
      return Done(());
    }

    // ---------- emitting code ----------

    /** Appends an instruction; the jumps pending here now go to it. */
    method Code(i: Instr) returns (st: Result<int>)
      requires IsList(code, jpc, hereList)
      modifies this`code, this`jpc, this`hereList
      ensures |code| <= |old(code)| + 1
      ensures st.Err? ==> Long()
      ensures st.Done?
              ==> code == Discharged(old(Now())) + [i] && jpc == NO_JUMP && hereList == []
                  && st.value == |old(code)|
    {
      var pc := |code|;
      var _ :- PatchListAux(jpc, pc, NO_REG, pc, hereList);
      jpc := NO_JUMP;
      hereList := [];
      code := code + [i];
      return Done(pc);
    }

    /** An unconditional jump without a target; the jumps pending here join its list. */
    method Jump() returns (st: Result<int>)
      requires IsList(code, jpc, hereList)
      modifies this`code, this`jpc, this`hereList, this`open
      ensures |code| <= |old(code)| + 1
      ensures st.Err? ==> Long()
      ensures st.Done? ==> st.value == |old(code)| && IsList(code, st.value, [st.value] + old(hereList))
      ensures st.Done? ==> |code| == st.value + 1 && code[st.value].Jmp? && code[..st.value] == old(code)
      ensures st.Done? ==> jpc == NO_JUMP && hereList == [] && open == old(open) + Elems(old(hereList)) + {st.value}
      ensures st.Done? && old(hereList) == [] ==> code[st.value] == Jmp(NO_JUMP)
    {
      ghost var here, before := hereList, code;
      var saved := jpc;
      jpc := NO_JUMP;
      hereList := [];
      DischargedNothing(Now());
      var j :- Code(Jmp(NO_JUMP));
      assert code == before + [Jmp(NO_JUMP)];
      ListElems(before, saved, here);
      ListKept(before, code, saved, here);
      SingleList(code, j);
      ghost var single := code;
      var l :- Concat(j, saved, [j], here);
      ListElems(code, l, [j] + here);
      assert code[..j] == before;
      open := open + Elems(here) + {j};
      return Done(j);
    }

    /** A test and the jump it controls. */
    method CondJump(test: Instr) returns (st: Result<int>)
      requires IsList(code, jpc, hereList)
      modifies this`code, this`jpc, this`hereList, this`open
      ensures |code| <= |old(code)| + 2
      ensures st.Err? ==> Long()
      ensures st.Done? ==> st.value == |old(code)| + 1 && code == Discharged(old(Now())) + [test, Jmp(NO_JUMP)]
      ensures st.Done? ==> jpc == NO_JUMP && hereList == [] && open == old(open) + {st.value}
    {
      var _ :- Code(test);
      ghost var mid := code;
      var j :- Jump();
      assert code == mid + [Jmp(NO_JUMP)];
      return Done(j);
    }

    /** The jumps of a list now wait for the next instruction. */
    method PatchToHere(list: int, ghost js: seq<int>) returns (st: Result<()>)
      requires Wf(Now().(lab := |code|)) && IsList(code, jpc, hereList) && IsList(code, list, js) && Elems(js) <= open
      modifies this`code, this`jpc, this`hereList, this`open, this`lasttarget
      ensures |code| == |old(code)|
      ensures st.Err? ==> Long()
      ensures st.Done?
              ==> Wf(Now()) && IsList(code, jpc, hereList) && hereList == old(hereList) + js
                  && open == old(open) - Elems(js)
      ensures st.Done? ==> lasttarget == |code| == |old(code)|
      ensures st.Done? && (old(hereList) == [] || js == []) ==> code == old(code)
      ensures st.Done? ==> forall i | 0 <= i < |code| ::
                code[i] == old(code)[i] || (i in Elems(old(hereList)) && code[i].Jmp? && old(code)[i].Jmp?)
    {
      var _ := GetLabel();
      ghost var p := Now();
      assert p.here !! Elems(js);
      var l :- Concat(jpc, list, hereList, js);
      ghost var p1 := p.(code := code);
      WfSame(p, p1);
      jpc := l;
      ElemsAppend(hereList, js);
      hereList := hereList + js;
      open := open - Elems(js);
      WfToHere(p1, Now(), Elems(js));
      return Done(());
    }

    // ---------- constants and registers ----------

    /** The index of a constant, which is added if it is not there yet. */
    method AddK(v: Value) returns (st: Result<int>)
      modifies this`k
      ensures |k| <= |old(k)| + 1
      ensures st.Err? ==> |k| > MAXARG_AX && k == old(k)
      ensures st.Done? ==> old(k) <= k && 0 <= st.value < |k| && k[st.value] == v
      ensures st.Done? ==> k == old(k) || k == old(k) + [v]
    {
      var i := 0;
      while i < |k|
        invariant 0 <= i <= |k| && k == old(k)
      {
        if k[i] == v {
          return Done(i);
        }
        i := i + 1;
      }
      if |k| > MAXARG_AX {
        return Err("too many constants");
      }
      k := k + [v];
      return Done(i);
    }

    method CheckStack(n: int) returns (st: Result<()>)
      requires 0 <= freereg <= maxstacksize < MAXSTACK && n >= 0
      modifies this`maxstacksize
      ensures st.Done? ==> freereg + n <= maxstacksize < MAXSTACK
      ensures st.Err? ==> freereg + n >= MAXSTACK && maxstacksize == old(maxstacksize)
    {
      var newstack := freereg + n;
      if newstack > maxstacksize {
        if newstack >= MAXSTACK {
          return Err("function or expression too complex");
        }
        maxstacksize := newstack;
      }
      return Done(());
    }

    method ReserveRegs(n: int) returns (st: Result<()>)
      requires Valid() && n >= 0
      modifies this`maxstacksize, this`freereg
      ensures st.Done? ==> Valid() && freereg == old(freereg) + n && Now() == old(Now())
      ensures st.Err? ==> old(freereg) + n >= MAXSTACK
    {
      var _ :- CheckStack(n);
      freereg := freereg + n;
      return Done(());
    }

    /** How many temporaries the descriptor occupies. */
    function Held(kind: Kind): int { if kind.VNonReloc? && kind.info >= nactvar then 1 else 0 }

    /** The register of a temporary is free again; it is always the last one in use. */
    method FreeExp(e: ExpDesc)
      requires Valid() && freereg - Held(e.k) >= nactvar
      requires Held(e.k) == 1 ==> e.k.info == freereg - 1
      modifies this`freereg
      ensures Valid() && freereg == old(freereg) - Held(e.k) && Now() == old(Now())
    {
      if e.k.VNonReloc? && !IsK(e.k.info) && e.k.info >= nactvar {
        freereg := freereg - 1;
        assert e.k.info == freereg;
      }
    }

    // ---------- from descriptors to registers ----------

    /** The descriptor `e`, with its lists, denotes the expression `x`. */
    ghost predicate Denotes(p0: Snap, n: int, skip: int, e: ExpDesc, ts: seq<int>, fs: seq<int>, x: Expr)
      reads this
    {
      Built(p0, Now(), nactvar, n, skip, Yields(e.k), e.t, ts, e.f, fs, x)
    }

    /** A variable becomes a value in a register, or an instruction that reads it. */
    method DischargeVars(e: ExpDesc, ghost p0: Snap, ghost n: int, ghost ts: seq<int>, ghost fs: seq<int>,
                         ghost x: Expr)
      returns (st: Result<ExpDesc>)
      requires Valid() && Denotes(p0, n, -1, e, ts, fs, x)
      modifies this`code, this`jpc, this`hereList
      ensures |code| <= |old(code)| + 1
      ensures st.Err? ==> Long()
      ensures st.Done? ==> Valid() && Denotes(p0, n, -1, st.value, ts, fs, x)
      ensures st.Done? ==> st.value.t == e.t && st.value.f == e.f && !st.value.k.VLocal? && !st.value.k.VUpval?
      ensures st.Done? && !e.k.VUpval? ==> Now() == old(Now()) && hereList == old(hereList)
      ensures st.Done? && e.k.VUpval? ==> st.value.k.VReloc?
      ensures st.Done? && e.k.VLocal? ==> st.value.k == VNonReloc(e.k.info)
      ensures st.Done? && !e.k.VLocal? && !e.k.VUpval? ==> st.value == e
    {
      if e.k.VLocal? {
        BuiltLocal(p0, Now(), nactvar, n, e.k.info, e.t, ts, e.f, fs, x);
        return Done(e.(k := VNonReloc(e.k.info)));
      } else if e.k.VUpval? {
        ghost var p := Now();
        var pc :- Code(GetUpval(0, e.k.info));
        BuiltApply(p0, p, Now(), nactvar, n, Yields(e.k), GetUpval(0, e.k.info), pc, e.t, ts, e.f, fs, x);
        return Done(e.(k := VReloc(pc)));
      }
      return Done(e);
    }

    /** Registers from, ..., from+n-1 become nil; a LOADNIL just before is widened if nothing jumps
        between the two. */
    method LoadNils(from: int, n: int) returns (st: Result<()>)
      requires Valid() && n >= 1
      modifies this`code, this`jpc, this`hereList
      ensures |code| <= |old(code)| + 1
      ensures st.Err? ==> Long()
      ensures st.Done? ==>
                || (code == Discharged(old(Now())) + [LoadNil(from, n - 1)] && jpc == NO_JUMP && hereList == [])
                || (var p := old(Now());
                    && EndsInNil(p) && jpc == NO_JUMP && hereList == []
                    && var l := p.code[|p.code| - 1];
                       var a := if l.a < from then l.a else from;
                       var b := if l.a + l.n > from + n - 1 then l.a + l.n else from + n - 1;
                       && l.a - n <= from <= l.a + l.n + 1
                       && code == p.code[|p.code| - 1 := LoadNil(a, b - a)])
    {
      var l := from + n - 1;
      if |code| > lasttarget {
        var previous := code[|code| - 1];
        if previous.LoadNil? {
          var pfrom := previous.a;
          var pl := pfrom + previous.n;
          if (pfrom <= from && from <= pl + 1) || (from <= pfrom && pfrom <= l + 1) {
            WfAt(Now(), |code| - 1);
            var a := if pfrom < from then pfrom else from;
            var b := if pl > l then pl else l;
            ElemsEmpty(hereList);
            code := code[|code| - 1 := LoadNil(a, b - a)];
            return Done(());
          }
        }
      }
      var _ :- Code(LoadNil(from, n - 1));
      return Done(());
    }

    method CodeK(reg: int, i: int) returns (st: Result<()>)
      requires Valid()
      modifies this`code, this`jpc, this`hereList
      ensures |code| <= |old(code)| + 2
      ensures st.Err? ==> Long()
      ensures st.Done?
              ==> code == Discharged(old(Now())) + LoadCode(old(Now()), VK(i), reg) && jpc == NO_JUMP
                  && hereList == []
    {
      if i <= MAXARG_BX {
        var _ :- Code(LoadK(reg, i));
      } else {
        var _ :- Code(LoadKX(reg));
        DischargedNothing(Now());
        var _ :- Code(ExtraArg(i));
      }
      return Done(());
    }

    /** Puts nil, a boolean or a constant in a register. */
    method LoadConstant(e: ExpDesc, reg: int,
                        ghost p0: Snap, ghost n: int, ghost ts: seq<int>, ghost fs: seq<int>, ghost x: Expr)
      returns (st: Result<()>)
      requires Valid() && Denotes(p0, n, -1, e, ts, fs, x)
      requires e.k.VNil? || e.k.VTrue? || e.k.VFalse? || e.k.VK?
      requires 0 <= reg < nactvar || reg == n
      modifies this`code, this`jpc, this`hereList
      ensures |code| <= |old(code)| + 2
      ensures st.Err? ==> Long()
      ensures st.Done? ==> Valid() && Denotes(p0, n, reg, e.(k := VNonReloc(reg)), ts, fs, x)
    {
      hide Means, Extends, SameTests, Keeps, InScope, OpenOk;
      ghost var p := Now();
      if e.k.VNil? {
        var _ :- LoadNils(reg, 1);
        if |code| > |p.code| {
          BuiltLoad(p0, p, Now(), nactvar, n, e.k, reg, e.t, ts, e.f, fs, x);
        } else {
          ghost var m := code[|code| - 1];
          BuiltMerge(p0, p, Now(), nactvar, n, reg, m.a, m.n, e.t, ts, e.f, fs, x);
        }
        EmptyList(code);
        return Done(());
      }
      if e.k.VK? {
        var _ :- CodeK(reg, e.k.info);
      } else {
        var _ :- Code(LoadBool(reg, e.k.VTrue?, false));
      }
      BuiltLoad(p0, p, Now(), nactvar, n, e.k, reg, e.t, ts, e.f, fs, x);
      return Done(());
    }

    /** Gives the value computed last, or held in another register, its place in `reg`. */
    method MoveTo(e: ExpDesc, reg: int,
                  ghost p0: Snap, ghost n: int, ghost ts: seq<int>, ghost fs: seq<int>, ghost x: Expr)
      returns (st: Result<()>)
      requires Valid() && Denotes(p0, n, -1, e, ts, fs, x)
      requires e.k.VReloc? || e.k.VNonReloc?
      requires 0 <= reg < nactvar || reg == n
      modifies this`code, this`jpc, this`hereList
      ensures |code| <= |old(code)| + 1
      ensures st.Err? ==> Long()
      ensures st.Done? ==> Valid() && Denotes(p0, n, reg, e.(k := VNonReloc(reg)), ts, fs, x)
    {
      ghost var p := Now();
      if e.k.VReloc? {
        code := code[e.k.info := WithTarget(code[e.k.info], reg)];
        DischargedNothing(Body(p, Yields(e.k)));
        assert code == Body(p, Yields(e.k)).code + LoadCode(p, e.k, reg);
        ElemsEmpty(hereList);
        ListKept(p.code, code, jpc, hereList);
        BuiltLoad(p0, p, Now(), nactvar, n, e.k, reg, e.t, ts, e.f, fs, x);
      } else if reg != e.k.info {
        var _ :- Code(Move(reg, e.k.info));
        BuiltLoad(p0, p, Now(), nactvar, n, e.k, reg, e.t, ts, e.f, fs, x);
      } else {
        MeansFree(p0, p, n, -1, reg, Yields(e.k), Elems(ts) + {}, Elems(fs), x);
      }
      return Done(());
    }

    /** The value is put in register `reg`, unless it is only known as a jump. */
    method Discharge2Reg(e: ExpDesc, reg: int,
                         ghost p0: Snap, ghost n: int, ghost ts: seq<int>, ghost fs: seq<int>, ghost x: Expr)
      returns (st: Result<ExpDesc>)
      requires Valid() && Denotes(p0, n, -1, e, ts, fs, x)
      requires 0 <= reg < nactvar || reg == n
      modifies this`code, this`jpc, this`hereList, this`k
      ensures |code| <= |old(code)| + 3 && |k| <= |old(k)| + 1
      ensures st.Err? ==> Full(0)
      ensures st.Done? ==> Valid() && Denotes(p0, n, if e.k.VJmp? then -1 else reg, st.value, ts, fs, x)
      ensures st.Done? ==> st.value.t == e.t && st.value.f == e.f
      ensures st.Done? && !e.k.VJmp? ==> st.value.k == VNonReloc(reg)
      ensures st.Done? && e.k.VJmp? ==> st.value == e && Now() == old(Now()) && hereList == old(hereList)
    {
      hide Wf, IsList, Means, Extends, InScope;
      var d :- DischargeVars(e, p0, n, ts, fs, x);
      if d.k.VJmp? {
        return Done(d);
      }
      if d.k.VReloc? || d.k.VNonReloc? {
        var _ :- MoveTo(d, reg, p0, n, ts, fs, x);
      } else {
        if d.k.VKNum? {
          ghost var p := Now();
          var i :- AddK(Number(d.k.nval));
          BuiltConstant(p0, p, Now(), nactvar, n, d.k, i, Number(d.k.nval), d.t, ts, d.f, fs, x);
          d := d.(k := VK(i));
        }
        var _ :- LoadConstant(d, reg, p0, n, ts, fs, x);
      }
      return Done(d.(k := VNonReloc(reg)));
    }

    method CodeLabel(reg: int, v: bool, skip: bool) returns (st: Result<int>)
      requires IsList(code, jpc, hereList)
      modifies this`code, this`jpc, this`hereList, this`lasttarget
      ensures |code| <= |old(code)| + 1
      ensures st.Err? ==> Long()
      ensures st.Done? ==> code == Discharged(old(Now())) + [LoadBool(reg, v, skip)] && jpc == NO_JUMP && hereList == []
      ensures st.Done? ==> st.value == lasttarget == |old(code)|
    {
      var _ := GetLabel();
      var pc :- Code(LoadBool(reg, v, skip));
      return Done(pc);
    }

    /** The two loads that deliver false and true to the jumps that carry no value. */
    method CodeLoads(reg: int) returns (st: Result<int>)
      requires IsList(code, jpc, hereList)
      modifies this`code, this`jpc, this`hereList, this`lasttarget
      ensures |code| <= |old(code)| + 2
      ensures st.Err? ==> Long()
      ensures st.Done? ==> code == Discharged(old(Now())) + Loads(reg) && jpc == NO_JUMP && hereList == []
      ensures st.Done? ==> st.value == |old(code)|
    {
      var pf :- CodeLabel(reg, false, true);
      DischargedNothing(Now());
      var _ :- CodeLabel(reg, true, false);
      return Done(pf);
    }

    /** After a comparison: what falls through finds false in the first load. */
    method LoadsAfterTest(reg: int, t: int, f: int,
                          ghost p0: Snap, ghost n: int, ghost ts: seq<int>, ghost fs: seq<int>, ghost x: Expr)
      returns (st: Result<int>)
      requires Valid() && (0 <= reg < nactvar || reg == n)
      requires Built(p0, Now(), nactvar, n, -1, Yields(VFalse), t, ts, f, fs, x)
      modifies this`code, this`jpc, this`hereList, this`open, this`lasttarget
      ensures |code| <= |old(code)| + 2
      ensures st.Err? ==> Long()
      ensures st.Done? ==> Valid() && Built(p0, Now(), nactvar, n, reg, Yields(VNonReloc(reg)), t, ts, f, fs, x)
      ensures st.Done? ==> EndsInLoads(code, reg) && st.value == |code| - 2
    {
      hide Means, InScope, Extends, Keeps, SameTests, OpenOk, Wf, IsList;
      ghost var p := Now();
      var pf :- CodeLoads(reg);
      ghost var p' := Now().(lab := |code|);
      BuiltLoads(p0, p, p', nactvar, n, reg, t, ts, f, fs, x);
      ElemsNone();
      var _ :- PatchToHere(NO_JUMP, []);
      assert hereList == [];
      EmptyList(code);
      return Done(pf);
    }

    /** A jump over the two loads, without a target yet. */
    method JumpOverLoads(reg: int) returns (st: Result<int>)
      requires Valid()
      modifies this`code, this`jpc, this`hereList, this`open, this`lasttarget
      ensures |code| <= |old(code)| + 3
      ensures st.Err? ==> Long()
      ensures st.Done? ==> jpc == NO_JUMP && hereList == [] && st.value == |old(code)|
      ensures st.Done? ==> IsList(code, st.value, [st.value] + old(hereList))
      ensures st.Done? ==> |code| == |old(code)| + 3 && code[..|old(code)|] == old(code) && code[st.value].Jmp?
                           && code[st.value + 1..] == Loads(reg)
      ensures st.Done? ==> open == old(open) + Elems(old(hereList)) + {st.value}
    {
      ghost var js := [|code|] + hereList;
      var fj :- Jump();
      ghost var c1 := code;
      DischargedNothing(Now());
      var _ :- CodeLoads(reg);
      ListElems(c1, fj, js);
      ListKept(c1, code, fj, js);
      return Done(fj);
    }

    /** After a value in `reg`: a jump skips the two loads. */
    method LoadsAfterValue(reg: int, t: int, f: int,
                           ghost p0: Snap, ghost n: int, ghost ts: seq<int>, ghost fs: seq<int>, ghost x: Expr)
      returns (st: Result<int>)
      requires Valid() && (0 <= reg < nactvar || reg == n)
      requires Built(p0, Now(), nactvar, n, reg, Yields(VNonReloc(reg)), t, ts, f, fs, x)
      modifies this`code, this`jpc, this`hereList, this`open, this`lasttarget
      ensures |code| <= |old(code)| + 3
      ensures st.Err? ==> Long()
      ensures st.Done? ==> Valid() && Built(p0, Now(), nactvar, n, reg, Yields(VNonReloc(reg)), t, ts, f, fs, x)
      ensures st.Done? ==> EndsInLoads(code, reg) && st.value == |code| - 2
    {
      hide Means, Extends, SameTests, Keeps, InScope, OpenOk, PatchCode, Wf, IsList, AllCarry, Built, Discharged;
      ghost var p, js := Now(), [|code|] + hereList;
      var fj :- JumpOverLoads(reg);
      ghost var p2 := Now().(lab := |code|);
      ghost var p' := SkipTo(p, p2, nactvar, n, reg, js, old(hereList), p0, t, ts, f, fs, x);
      var _ :- PatchToHere(fj, js);
      assert Now() == p';
      return Done(fj + 1);
    }

    /** The false exits are sent to the position after the expression, by way of a load if they need it. */
    method ResolveFalse(t: int, f: int, reg: int, pf: int,
                        ghost p0: Snap, ghost n: int, ghost ts: seq<int>, ghost fs: seq<int>, ghost x: Expr)
      returns (st: Result<()>)
      requires Valid() && (0 <= reg < nactvar || reg == n) && reg < NO_REG
      requires Built(p0, Now(), nactvar, n, reg, Yields(VNonReloc(reg)), t, ts, f, fs, x)
      requires (AllCarry(code, fs) && pf == NO_JUMP) || (EndsInLoads(code, reg) && pf == |code| - 2)
      requires Deliverable(Now(), ts, reg)
      modifies this`code, this`open, this`lasttarget
      ensures |code| == |old(code)|
      ensures st.Err? ==> Long()
      ensures st.Done? ==> Valid() && Built(p0, Now(), nactvar, n, reg, Yields(VNonReloc(reg)), t, ts, NO_JUMP, [], x)
      ensures st.Done?
              ==> |code| == |old(code)| && Deliverable(Now(), ts, reg)
                  && (AllCarry(old(code), ts) ==> AllCarry(code, ts))
    {
      hide Wf, IsList, PatchCode, AllCarry, Deliverable;
      ghost var p := Now();
      var final := GetLabel();
      var _ :- PatchListAux(f, final, reg, pf, fs);
      open := open - Elems(fs);
      BuiltPatchFalse(p0, p, Now(), nactvar, n, reg, pf, t, ts, f, fs, x);
      PatchKeepsDeliverable(p, Now(), f, fs, t, ts, reg, pf);
      HereKept(p, Now(), jpc, hereList, f, fs, reg, pf);
      return Done(());
    }

    /** The true exits are sent to the position after the expression. */
    method ResolveTrue(t: int, reg: int, pt: int, ghost p0: Snap, ghost n: int, ghost ts: seq<int>, ghost x: Expr)
      returns (st: Result<()>)
      requires Valid() && (0 <= reg < nactvar || reg == n) && reg < NO_REG
      requires Built(p0, Now(), nactvar, n, reg, Yields(VNonReloc(reg)), t, ts, NO_JUMP, [], x)
      requires Deliverable(Now(), ts, reg) && ((AllCarry(code, ts) && pt == NO_JUMP) || pt == |code| - 1)
      modifies this`code, this`open, this`lasttarget
      ensures |code| == |old(code)|
      ensures st.Err? ==> Long()
      ensures st.Done? ==>
              Valid() && Built(p0, Now(), nactvar, n, reg, Yields(VNonReloc(reg)), NO_JUMP, [], NO_JUMP, [], x)
    {
      hide Wf, IsList, Means, Keeps, AllCarry;
      ghost var p := Now();
      var final := GetLabel();
      var _ :- PatchListAux(t, final, reg, pt, ts);
      open := open - Elems(ts);
      BuiltPatchTrue(p0, p, Now(), nactvar, n, reg, pt, t, ts, x);
      HereKept(p, Now(), jpc, hereList, t, ts, reg, pt);
      return Done(());
    }

    /** The jump that stands for the value joins the true exits. */
    method JoinJump(e: ExpDesc, ghost p0: Snap, ghost n: int, ghost ts: seq<int>, ghost fs: seq<int>, ghost x: Expr)
      returns (st: Result<int>)
      requires Valid() && Denotes(p0, n, -1, e, ts, fs, x) && e.k.VJmp?
      modifies this`code
      ensures |code| == |old(code)|
      ensures st.Err? ==> Long()
      ensures st.Done? ==> Valid() && hereList == []
      ensures st.Done? ==> Built(p0, Now(), nactvar, n, -1, Yields(VFalse), st.value, ts + [e.k.info], e.f, fs, x)
      ensures st.Done? ==> !AllCarry(code, ts + [e.k.info])
    {
      hide Means, SameTests;
      ghost var p := Now();
      var t :- Concat(e.t, e.k.info, ts, [e.k.info]);
      BuiltJoinJump(p0, p, Now(), nactvar, n, -1, e.k.info, e.t, ts, e.f, fs, t, x);
      ElemsEmpty(hereList);
      assert e.k.info in ts + [e.k.info] && !Carries(code, e.k.info);
      return Done(t);
    }

    /** The loads, if some jump needs them. */
    method LoadsIfNeeded(isJump: bool, reg: int, t: int, f: int,
                         ghost p0: Snap, ghost n: int, ghost ts: seq<int>, ghost fs: seq<int>, ghost x: Expr)
      returns (st: Result<int>)
      requires Valid() && (0 <= reg < nactvar || reg == n)
      requires if isJump then Built(p0, Now(), nactvar, n, -1, Yields(VFalse), t, ts, f, fs, x) && !AllCarry(code, ts)
               else Built(p0, Now(), nactvar, n, reg, Yields(VNonReloc(reg)), t, ts, f, fs, x)
      modifies this`code, this`jpc, this`hereList, this`open, this`lasttarget
      ensures |code| <= |old(code)| + 3
      ensures st.Err? ==> Long()
      ensures st.Done? ==> Valid() && Built(p0, Now(), nactvar, n, reg, Yields(VNonReloc(reg)), t, ts, f, fs, x)
      ensures st.Done? ==> if st.value == NO_JUMP then AllCarry(code, ts) && AllCarry(code, fs)
                           else EndsInLoads(code, reg) && st.value == |code| - 2
    {
      var needT := NeedValue(t, ts);
      var needF := NeedValue(f, fs);
      var pf := NO_JUMP;
      if needT || needF {
        if isJump {
          pf :- LoadsAfterTest(reg, t, f, p0, n, ts, fs, x);
        } else {
          pf :- LoadsAfterValue(reg, t, f, p0, n, ts, fs, x);
        }
      }
      return Done(pf);
    }

    /** The value of the expression is put in register `reg`: all its jumps are resolved. */
    method Exp2Reg(e: ExpDesc, reg: int,
                   ghost p0: Snap, ghost n: int, ghost ts: seq<int>, ghost fs: seq<int>, ghost x: Expr)
      returns (st: Result<ExpDesc>)
      requires Valid() && Denotes(p0, n, -1, e, ts, fs, x)
      requires (0 <= reg < nactvar || reg == n) && reg < NO_REG
      modifies this`code, this`jpc, this`hereList, this`open, this`lasttarget, this`k
      ensures |code| <= |old(code)| + 6 && |k| <= |old(k)| + 1
      ensures st.Err? ==> Full(0)
      ensures st.Done? ==> Valid() && Denotes(p0, n, reg, st.value, [], [], x)
      ensures st.Done? ==> st.value == Exp(VNonReloc(reg), NO_JUMP, NO_JUMP)
    {
      hide Wf, Means, Extends, SameTests, Keeps, InScope;
      var d :- Discharge2Reg(e, reg, p0, n, ts, fs, x);
      var t := d.t;
      ghost var ts1 := ts;
      if d.k.VJmp? {
        t :- JoinJump(d, p0, n, ts, fs, x);
        ts1 := ts + [d.k.info];
      }
      var _ :- ResolveJumps(d.k.VJmp?, reg, t, d.f, p0, n, ts1, fs, x);
      return Done(Exp(VNonReloc(reg), NO_JUMP, NO_JUMP));
    }

    /** All exits are sent to the position after the expression. */
    method ResolveJumps(isJump: bool, reg: int, t: int, f: int,
                        ghost p0: Snap, ghost n: int, ghost ts: seq<int>, ghost fs: seq<int>, ghost x: Expr)
      returns (st: Result<()>)
      requires Valid() && (0 <= reg < nactvar || reg == n) && reg < NO_REG
      requires if isJump then Built(p0, Now(), nactvar, n, -1, Yields(VFalse), t, ts, f, fs, x) && !AllCarry(code, ts)
               else Built(p0, Now(), nactvar, n, reg, Yields(VNonReloc(reg)), t, ts, f, fs, x)
      modifies this`code, this`jpc, this`hereList, this`open, this`lasttarget
      ensures |code| <= |old(code)| + 3
      ensures st.Err? ==> Long()
      ensures st.Done? ==> Valid() && Denotes(p0, n, reg, Exp(VNonReloc(reg), NO_JUMP, NO_JUMP), [], [], x)
    {
      hide Wf, Means, Extends, SameTests, Keeps, InScope;
      NoJumps(code, t, ts, f, fs);
      if t != f {
        var pf :- LoadsIfNeeded(isJump, reg, t, f, p0, n, ts, fs, x);
        var pt := if pf == NO_JUMP then NO_JUMP else pf + 1;
        var _ :- ResolveFalse(t, f, reg, pf, p0, n, ts, fs, x);
        var _ :- ResolveTrue(t, reg, pt, p0, n, ts, x);
      }
      return Done(());
    }

    // ---------- operands ----------

    /** The registers in use: the locals, the temporaries below `n`, and the one that `e` occupies. */
    ghost predicate Room(n: int, e: ExpDesc)
      reads this
    {
      freereg == n + Held(e.k)
    }

    /** The value goes to the first free register. */
    method Exp2NextReg(e: ExpDesc, ghost p0: Snap, ghost n: int, ghost ts: seq<int>, ghost fs: seq<int>, ghost x: Expr)
      returns (st: Result<ExpDesc>)
      requires Valid() && Denotes(p0, n, -1, e, ts, fs, x) && Room(n, e)
      modifies this
      ensures |code| <= |old(code)| + 7 && |k| <= |old(k)| + 1
      ensures st.Err? ==> Full(n)
      ensures st.Done? ==> Valid() && Denotes(p0, n, -1, st.value, [], [], x)
      ensures st.Done? ==> st.value == Exp(VNonReloc(n), NO_JUMP, NO_JUMP) && freereg == n + 1
    {
      hide Wf, Means, Extends, SameTests, Keeps, IsList;
      var d :- DischargeVars(e, p0, n, ts, fs, x);
      FreeExp(d);
      var _ :- ReserveRegs(1);
      var r :- Exp2Reg(d, freereg - 1, p0, n, ts, fs, x);
      BuiltFree(p0, Now(), nactvar, n, n, r.k, r.t, [], r.f, [], x);
      return Done(r);
    }

    /** The value is in some register. */
    method Exp2AnyReg(e: ExpDesc, ghost p0: Snap, ghost n: int, ghost ts: seq<int>, ghost fs: seq<int>, ghost x: Expr)
      returns (st: Result<ExpDesc>)
      requires Valid() && Denotes(p0, n, -1, e, ts, fs, x) && Room(n, e)
      modifies this
      ensures |code| <= |old(code)| + 8 && |k| <= |old(k)| + 1
      ensures st.Err? ==> Full(n)
      ensures st.Done? ==> Valid() && Denotes(p0, n, -1, st.value, [], [], x) && Room(n, st.value)
      ensures st.Done? ==> st.value.k.VNonReloc? && st.value.t == NO_JUMP && st.value.f == NO_JUMP
      ensures st.Done? ==> 0 <= st.value.k.info < MAXSTACK
    {
      hide Wf, Means, Extends, SameTests, Keeps, OpenOk;
      var d :- DischargeVars(e, p0, n, ts, fs, x);
      if d.k.VNonReloc? {
        NoJumps(code, d.t, ts, d.f, fs);
        if !HasJumps(d) {
          return Done(d);
        }
        if d.k.info >= nactvar {
          var r :- Exp2Reg(d, d.k.info, p0, n, ts, fs, x);
          BuiltFree(p0, Now(), nactvar, n, n, r.k, r.t, [], r.f, [], x);
          return Done(r);
        }
      }
      var r :- Exp2NextReg(d, p0, n, ts, fs, x);
      return Done(r);
    }

    /** The value is somewhere, and no jump is pending. */
    method Exp2Val(e: ExpDesc, ghost p0: Snap, ghost n: int, ghost ts: seq<int>, ghost fs: seq<int>, ghost x: Expr)
      returns (st: Result<ExpDesc>)
      requires Valid() && Denotes(p0, n, -1, e, ts, fs, x) && Room(n, e)
      modifies this
      ensures |code| <= |old(code)| + 8 && |k| <= |old(k)| + 1
      ensures st.Err? ==> Full(n)
      ensures st.Done? ==> Valid() && Denotes(p0, n, -1, st.value, [], [], x) && Room(n, st.value)
      ensures st.Done? ==> st.value.t == NO_JUMP && st.value.f == NO_JUMP && !st.value.k.VLocal? && !st.value.k.VUpval?
    {
      hide Wf, Means, Extends, SameTests, Keeps;
      NoJumps(code, e.t, ts, e.f, fs);
      var r;
      if HasJumps(e) {
        r :- Exp2AnyReg(e, p0, n, ts, fs, x);
      } else {
        r :- DischargeVars(e, p0, n, ts, fs, x);
      }
      return Done(r);
    }

    /** An operand that needs no more code. */
    predicate IsOperand(e: ExpDesc) {
      e.t == NO_JUMP && e.f == NO_JUMP &&
      ((e.k.VK? && 0 <= e.k.info <= MAXINDEXRK) || (e.k.VNonReloc? && 0 <= e.k.info < MAXSTACK))
    }

    /** The value becomes an operand: a constant with a small index, or a register. */
    method Exp2RK(e: ExpDesc, ghost p0: Snap, ghost n: int, ghost ts: seq<int>, ghost fs: seq<int>, ghost x: Expr)
      returns (st: Result<ExpDesc>)
      requires Valid() && (IsOperand(e) || (Denotes(p0, n, -1, e, ts, fs, x) && Room(n, e)))
      modifies this
      ensures |code| <= |old(code)| + 16 && |k| <= |old(k)| + 3
      ensures st.Err? ==> Full(n)
      ensures st.Done? ==> Valid() && IsOperand(st.value)
      ensures st.Done? && IsOperand(e)
              ==> st.value == e && Now() == old(Now()) && hereList == old(hereList)
                  && freereg == old(freereg)
      ensures st.Done? && old(!IsOperand(e) || (Denotes(p0, n, -1, e, ts, fs, x) && Room(n, e))) ==>
                Denotes(p0, n, -1, st.value, [], [], x) && Room(n, st.value)
    {
      hide Wf, Means, Extends, SameTests, Keeps, InScope, AllCarry;
      if IsOperand(e) {
        if Denotes(p0, n, -1, e, ts, fs, x) {
          ListElems(code, e.t, ts);
          ListElems(code, e.f, fs);
        }
        return Done(e);
      }
      var d :- Exp2Val(e, p0, n, ts, fs, x);
      var r :- Val2RK(d, p0, n, x);
      return Done(r);
    }

    /** A value without pending jumps becomes an operand. */
    method Val2RK(e: ExpDesc, ghost p0: Snap, ghost n: int, ghost x: Expr) returns (st: Result<ExpDesc>)
      requires Valid() && Denotes(p0, n, -1, e, [], [], x) && Room(n, e)
      requires e.t == NO_JUMP && e.f == NO_JUMP && !e.k.VLocal? && !e.k.VUpval?
      modifies this
      ensures |code| <= |old(code)| + 8 && |k| <= |old(k)| + 2
      ensures st.Err? ==> Full(n)
      ensures st.Done? ==> Valid() && IsOperand(st.value)
      ensures st.Done? ==> Denotes(p0, n, -1, st.value, [], [], x) && Room(n, st.value)
    {
      hide Wf, Means, Extends, SameTests, Keeps, InScope, AllCarry;
      var d := e;
      if (d.k.VTrue? || d.k.VFalse? || d.k.VNil?) && |k| <= MAXINDEXRK {
        var v := if d.k.VNil? then Nil else Bool(d.k.VTrue?);
        ghost var p := Now();
        var i := AddK(v);
        assert i.Done?;
        BuiltConstant(p0, p, Now(), nactvar, n, d.k, i.value, v, d.t, [], d.f, [], x);
        return Done(d.(k := VK(i.value)));
      }
      if d.k.VKNum? {
        ghost var p := Now();
        var i :- AddK(Number(d.k.nval));
        BuiltConstant(p0, p, Now(), nactvar, n, d.k, i, Number(d.k.nval), d.t, [], d.f, [], x);
        d := d.(k := VK(i));
      }
      if d.k.VK? && d.k.info <= MAXINDEXRK {
        return Done(d);
      }
      var r :- Exp2AnyReg(d, p0, n, [], [], x);
      return Done(r);
    }

    /** The operand encoding of a descriptor. */
    function RkOf(e: ExpDesc): (o: int)
      requires IsOperand(e)
      ensures IsRk(e.k, o)
    {
      if e.k.VK? then e.k.info + BITRK else e.k.info
    }

    // ---------- conditional jumps ----------

    method Discharge2AnyReg(e: ExpDesc, ghost p0: Snap, ghost n: int, ghost ts: seq<int>, ghost fs: seq<int>,
                            ghost x: Expr)
      returns (st: Result<ExpDesc>)
      requires Valid() && Denotes(p0, n, -1, e, ts, fs, x) && Room(n, e) && !e.k.VJmp?
      modifies this
      ensures |code| <= |old(code)| + 3 && |k| <= |old(k)| + 1
      ensures st.Err? ==> Full(n)
      ensures st.Done? ==> Valid() && Denotes(p0, n, -1, st.value, ts, fs, x) && Room(n, st.value)
      ensures st.Done? ==> st.value.t == e.t && st.value.f == e.f && st.value.k.VNonReloc?
    {
      if e.k.VNonReloc? {
        return Done(e);
      }
      var _ :- ReserveRegs(1);
      var d :- Discharge2Reg(e, freereg - 1, p0, n, ts, fs, x);
      BuiltFree(p0, Now(), nactvar, n, n, d.k, d.t, ts, d.f, fs, x);
      return Done(d);
    }

    /** Jumps when the truth of `e` is `cond`.  A NOT just emitted is taken back and its operand
        tested for the opposite. */
    method JumpOnCond(e: ExpDesc, cond: bool,
                      ghost p0: Snap, ghost n: int, ghost ts: seq<int>, ghost fs: seq<int>, ghost x: Expr)
      returns (st: Result<int>)
      requires Valid() && Denotes(p0, n, -1, e, ts, fs, x) && Room(n, e) && !e.k.VJmp?
      modifies this
      ensures |code| <= |old(code)| + 5 && |k| <= |old(k)| + 1
      ensures st.Err? ==> Full(n)
      ensures st.Done? ==> Valid() && freereg == n
      ensures st.Done? ==> Branched(p0, Now(), nactvar, n, !cond, st.value, [st.value], e.t, ts, e.f, fs, x)
    {
      hide Means, Extends, SameTests, Keeps, InScope, OpenOk, PatchCode;
      if e.k.VReloc? {
        var i := code[e.k.info];
        if i.NotI? {
          ghost var p := Now();
          code := code[..|code| - 1];
          ElemsEmpty(hereList);
          ghost var b := Now();
          var pc :- CondJump(Instr.Test(i.b, !cond));
          BranchTestNot(p0, p, Now(), nactvar, n, i.a, i.b, cond, pc, e.t, ts, e.f, fs, x);
          return Done(pc);
        }
      }
      var d :- Discharge2AnyReg(e, p0, n, ts, fs, x);
      FreeExp(d);
      ghost var p := Now();
      var pc :- CondJump(TestSet(NO_REG, d.k.info, cond));
      BranchTestSet(p0, p, Now(), nactvar, n, d.k.info, cond, pc, d.t, ts, d.f, fs, x);
      return Done(pc);
    }

    /** Exchanges the outcomes of the comparison that the last jump belongs to. */
    method InvertJump(pc: int)
      requires EndsInJump(Now(), pc)
      modifies this`code
      ensures |code| == |old(code)|
      ensures code == Inverted(old(code))
    {
      var c := code[pc - 1];
      code := code[pc - 1 := Compare(c.cmp, !c.accept, c.b, c.c)];
    }

    /** Expressions whose value is a constant that is not nil or false. */
    ghost predicate Plain(e: ExpDesc)
      reads this
    {
      e.k.VK? ==> 0 <= e.k.info < |k| && !IsFalse(k[e.k.info])
    }

    /** The new exit joins its list. */
    method JoinExit(truth: bool, t: int, f: int, pc: int,
                    ghost p0: Snap, ghost n: int, ghost pcs: seq<int>, ghost ts: seq<int>, ghost fs: seq<int>,
                        ghost x: Expr)
      returns (st: Result<int>)
      requires Valid() && Branched(p0, Now(), nactvar, n, truth, pc, pcs, t, ts, f, fs, x)
      modifies this`code
      ensures |code| == |old(code)|
      ensures st.Err? ==> Long()
      ensures st.Done? ==> Valid()
      ensures st.Done? && truth ==> Built(p0, Now(), nactvar, n, -1, Decided(true), t, ts, st.value, fs + pcs, x)
      ensures st.Done? && !truth ==> Built(p0, Now(), nactvar, n, -1, Decided(false), st.value, ts + pcs, f, fs, x)
    {
      ghost var p := Now();
      var l :- Concat(if truth then f else t, pc, if truth then fs else ts, pcs);
      BuiltJoinExit(p0, p, Now(), nactvar, n, truth, pc, pcs, t, ts, f, fs,
                    if truth then t else l, if truth then ts else ts + pcs,
                    if truth then l else f, if truth then fs + pcs else fs, x);
      JpcKept(p, Now(), jpc, hereList, if truth then fs else ts);
      return Done(l);
    }

    /** The exits that agree with `truth` are sent here. */
    method SendHere(truth: bool, t: int, f: int,
                    ghost p0: Snap, ghost n: int, ghost ts: seq<int>, ghost fs: seq<int>, ghost x: Expr)
      returns (st: Result<()>)
      requires Valid() && Built(p0, Now(), nactvar, n, -1, Decided(truth), t, ts, f, fs, x)
      modifies this`code, this`jpc, this`hereList, this`open, this`lasttarget
      ensures |code| == |old(code)|
      ensures st.Err? ==> Long()
      ensures st.Done? ==> Valid()
      ensures st.Done? ==>
              Built(p0, Now(), nactvar, n, -1, Decided(truth), if truth then NO_JUMP else t, if truth then [] else ts,
                                 if truth then f else NO_JUMP, if truth then fs else [], x)
    {
      ghost var p := Now();
      ghost var js := if truth then ts else fs;
      WfRelabel(p);
      var _ :- PatchToHere(if truth then t else f, js);
      ElemsAppend(old(hereList), js);
      SentHere(p0, p, ToHere(p, js), Now(), nactvar, n, truth, t, ts, f, fs, x);
      return Done(());
    }

    /** The jump taken when the value is false, if its truth is not known already. */
    method JumpIfFalse(d: ExpDesc, ghost p0: Snap, ghost n: int, ghost ts: seq<int>, ghost fs: seq<int>, ghost x: Expr)
      returns (st: Result<int>)
      requires Valid() && Denotes(p0, n, -1, d, ts, fs, x) && Room(n, d) && Plain(d)
      modifies this
      ensures |code| <= |old(code)| + 5 && |k| <= |old(k)| + 1
      ensures st.Err? ==> Full(n)
      ensures st.Done? ==> Valid() && freereg == n
      ensures st.Done? ==>
              Branched(p0, Now(), nactvar, n, true, st.value, if st.value == NO_JUMP then [] else [st.value],
                                    d.t, ts, d.f, fs, x)
    {
      if d.k.VJmp? {
        ghost var p := Now();
        InvertJump(d.k.info);
        ElemsEmpty(hereList);
        BranchInverted(p0, p, Now(), nactvar, n, d.k.info, d.t, ts, d.f, fs, x);
        return Done(d.k.info);
      } else if d.k.VK? || d.k.VKNum? || d.k.VTrue? {
        BranchConstant(p0, Now(), nactvar, n, true, d.k, d.t, ts, d.f, fs, x);
        return Done(NO_JUMP);
      }
      var pc :- JumpOnCond(d, false, p0, n, ts, fs, x);
      return Done(pc);
    }

    /** The jump taken when the value is true, if its truth is not known already. */
    method JumpIfTrue(d: ExpDesc, ghost p0: Snap, ghost n: int, ghost ts: seq<int>, ghost fs: seq<int>, ghost x: Expr)
      returns (st: Result<int>)
      requires Valid() && Denotes(p0, n, -1, d, ts, fs, x) && Room(n, d)
      modifies this
      ensures |code| <= |old(code)| + 5 && |k| <= |old(k)| + 1
      ensures st.Err? ==> Full(n)
      ensures st.Done? ==> Valid() && freereg == n
      ensures st.Done? ==>
              Branched(p0, Now(), nactvar, n, false, st.value, if st.value == NO_JUMP then [] else [st.value],
                                    d.t, ts, d.f, fs, x)
    {
      if d.k.VJmp? {
        BranchJump(p0, Now(), nactvar, n, d.k.info, d.t, ts, d.f, fs, x);
        return Done(d.k.info);
      } else if d.k.VNil? || d.k.VFalse? {
        BranchConstant(p0, Now(), nactvar, n, false, d.k, d.t, ts, d.f, fs, x);
        return Done(NO_JUMP);
      }
      var pc :- JumpOnCond(d, true, p0, n, ts, fs, x);
      return Done(pc);
    }

    /** Control goes on here when the expression is true; it leaves through the false exits otherwise. */
    method GoIfTrue(e: ExpDesc, ghost p0: Snap, ghost n: int, ghost ts: seq<int>, ghost fs: seq<int>, ghost x: Expr)
      returns (st: Result<int>, ghost js: seq<int>)
      requires Valid() && Denotes(p0, n, -1, e, ts, fs, x) && Room(n, e) && Plain(e)
      modifies this
      ensures |code| <= |old(code)| + 6 && |k| <= |old(k)| + 1
      ensures st.Err? ==> Full(n)
      ensures st.Done? ==> Valid() && freereg == n
      ensures st.Done? ==> FirstBuilt(p0, Now(), nactvar, n, And, st.value, js, x)
    {
      hide Wf, Means, Extends, SameTests, Keeps, IsList, InScope;
      js := [];
      var d :- DischargeVars(e, p0, n, ts, fs, x);
      var pc :- JumpIfFalse(d, p0, n, ts, fs, x);
      ghost var pcs := if pc == NO_JUMP then [] else [pc];
      var f :- JoinExit(true, d.t, d.f, pc, p0, n, pcs, ts, fs, x);
      js := fs + pcs;
      var _ :- SendHere(true, d.t, f, p0, n, ts, js, x);
      return Done(f), js;
    }

    /** Control goes on here when the expression is false; it leaves through the true exits otherwise. */
    method GoIfFalse(e: ExpDesc, ghost p0: Snap, ghost n: int, ghost ts: seq<int>, ghost fs: seq<int>, ghost x: Expr)
      returns (st: Result<int>, ghost js: seq<int>)
      requires Valid() && Denotes(p0, n, -1, e, ts, fs, x) && Room(n, e)
      modifies this
      ensures |code| <= |old(code)| + 6 && |k| <= |old(k)| + 1
      ensures st.Err? ==> Full(n)
      ensures st.Done? ==> Valid() && freereg == n
      ensures st.Done? ==> FirstBuilt(p0, Now(), nactvar, n, Or, st.value, js, x)
    {
      hide Wf, Means, Extends, SameTests, Keeps, IsList;
      js := [];
      var d :- DischargeVars(e, p0, n, ts, fs, x);
      var pc :- JumpIfTrue(d, p0, n, ts, fs, x);
      ghost var pcs := if pc == NO_JUMP then [] else [pc];
      var t :- JoinExit(false, d.t, d.f, pc, p0, n, pcs, ts, fs, x);
      js := ts + pcs;
      var _ :- SendHere(false, t, d.f, p0, n, js, fs, x);
      return Done(t), js;
    }

    // ---------- not, arithmetic, comparisons ----------

    /** The lists are exchanged and lose the values they carried. */
    method SwapLists(t: int, f: int, ghost ts: seq<int>, ghost fs: seq<int>)
      requires IsList(code, t, ts) && IsList(code, f, fs)
      modifies this`code
      ensures |code| == |old(code)|
      ensures code == Stripped(old(code), Elems(ts) + Elems(fs))
    {
      ghost var c := code;
      RemoveValues(t, ts);
      StripKept(c, Elems(ts), f, fs);
      RemoveValues(f, fs);
      StripTwice(c, Elems(ts), Elems(fs));
    }

    method CodeNot(e: ExpDesc, ghost p0: Snap, ghost n: int, ghost ts: seq<int>, ghost fs: seq<int>, ghost x: Expr)
      returns (st: Result<ExpDesc>)
      requires Valid() && Denotes(p0, n, -1, e, ts, fs, x) && Room(n, e) && Plain(e)
      modifies this
      ensures |code| <= |old(code)| + 5 && |k| <= |old(k)| + 1
      ensures st.Err? ==> Full(n)
      ensures st.Done?
              ==> Valid() && Denotes(p0, n, -1, st.value, fs, ts, EUn(Not, x)) && Room(n, st.value)
                  && Plain(st.value)
      ensures st.Done? ==> st.value.t == e.f && st.value.f == e.t
    {
      var d :- DischargeVars(e, p0, n, ts, fs, x);
      var kind;
      if d.k.VJmp? {
        CodeNotJump(d, p0, n, ts, fs, x);
        kind := d.k;
      } else if d.k.VReloc? || d.k.VNonReloc? {
        kind :- CodeNotReg(d, p0, n, ts, fs, x);
      } else {
        kind := CodeNotConstant(d, p0, n, ts, fs, x);
      }
      return Done(Exp(kind, d.f, d.t));
    }

    /** NOT of a constant is folded. */
    method CodeNotConstant(d: ExpDesc, ghost p0: Snap, ghost n: int, ghost ts: seq<int>, ghost fs: seq<int>,
                           ghost x: Expr)
      returns (kind: Kind)
      requires Valid() && Denotes(p0, n, -1, d, ts, fs, x) && Plain(d)
      requires d.k.VNil? || d.k.VFalse? || d.k.VTrue? || d.k.VK? || d.k.VKNum?
      modifies this`code
      ensures |code| == |old(code)|
      ensures Valid() && Denotes(p0, n, -1, Exp(kind, d.f, d.t), fs, ts, EUn(Not, x))
      ensures kind.VTrue? || kind.VFalse?
    {
      ghost var p := Now();
      ghost var js := Elems(ts) + Elems(fs);
      StripKept(code, js, jpc, hereList);
      SwapLists(d.t, d.f, ts, fs);
      BuiltNot(p0, p, Now(), nactvar, n, d.k, js, d.t, ts, d.f, fs, x);
      return if d.k.VNil? || d.k.VFalse? then VTrue else VFalse;
    }

    /** NOT of a comparison inverts its jump. */
    method CodeNotJump(d: ExpDesc, ghost p0: Snap, ghost n: int, ghost ts: seq<int>, ghost fs: seq<int>, ghost x: Expr)
      requires Valid() && Denotes(p0, n, -1, d, ts, fs, x) && d.k.VJmp?
      modifies this`code
      ensures |code| == |old(code)|
      ensures Valid() && Denotes(p0, n, -1, Exp(d.k, d.f, d.t), fs, ts, EUn(Not, x))
    {
      hide Wf, Means, Extends, InScope;
      ghost var p := Now();
      ghost var js := Elems(ts) + Elems(fs);
      InvertJump(d.k.info);
      InvertShape(p0, p, Now(), nactvar, n, d.k.info, d.t, ts, d.f, fs);
      SwapLists(d.t, d.f, ts, fs);
      StripInverted(p.code, js);
      ElemsEmpty(hereList);
      BuiltNotJump(p0, p, p.(code := Stripped(p.code, js)), Now(), nactvar, n, d.k.info, js, d.t, ts, d.f, fs, x);
    }

    /** NOT of a value in a register, or of one computed last. */
    method CodeNotReg(d: ExpDesc, ghost p0: Snap, ghost n: int, ghost ts: seq<int>, ghost fs: seq<int>, ghost x: Expr)
      returns (st: Result<Kind>)
      requires Valid() && Denotes(p0, n, -1, d, ts, fs, x) && Room(n, d) && (d.k.VReloc? || d.k.VNonReloc?)
      modifies this
      ensures |code| <= |old(code)| + 4 && |k| <= |old(k)| + 1
      ensures st.Err? ==> Full(n)
      ensures st.Done? ==> Valid() && Denotes(p0, n, -1, Exp(st.value, d.f, d.t), fs, ts, EUn(Not, x))
      ensures st.Done? ==> st.value.VReloc? && freereg == n
    {
      hide Wf, Means, Extends, SameTests, Keeps, Stripped, PatchCode;
      var r :- Discharge2AnyReg(d, p0, n, ts, fs, x);
      FreeExp(r);
      var pc :- EmitNot(r, p0, n, ts, fs, x);
      return Done(VReloc(pc));
    }

    /** The NOT itself, and the exchange of the lists. */
    method EmitNot(r: ExpDesc, ghost p0: Snap, ghost n: int, ghost ts: seq<int>, ghost fs: seq<int>, ghost x: Expr)
      returns (st: Result<int>)
      requires Valid() && Denotes(p0, n, -1, r, ts, fs, x) && r.k.VNonReloc?
      modifies this`code, this`jpc, this`hereList
      ensures |code| <= |old(code)| + 1
      ensures st.Err? ==> Long()
      ensures st.Done? ==> Valid() && Denotes(p0, n, -1, Exp(VReloc(st.value), r.f, r.t), fs, ts, EUn(Not, x))
    {
      hide Wf, IsList, Means, Extends, SameTests, Keeps, Stripped, PatchCode, InScope;
      ghost var p := Now();
      var pc :- Code(NotI(0, r.k.info));
      ghost var p1 := Now();
      EmitKept(p, p1, NotI(0, r.k.info), r.t, ts);
      EmitKept(p, p1, NotI(0, r.k.info), r.f, fs);
      SwapLists(r.t, r.f, ts, fs);
      NotEmitted(p0, p, Now(), nactvar, n, r.k.info, pc, r.t, ts, r.f, fs, x);
      EmptyList(code);
      return Done(pc);
    }

    /** The registers of two operands are the next ones in use. */
    predicate Stacked(n: int, r1: ExpDesc, r2: ExpDesc)
      reads this
    {
      && IsOperand(r1) && IsOperand(r2) && freereg == n + Held(r1.k) + Held(r2.k)
      && if Held(r1.k) == 1 && Held(r2.k) == 1
         then (r1.k.info, r2.k.info) == (n, n + 1) || (r1.k.info, r2.k.info) == (n + 1, n)
         else (Held(r1.k) == 1 ==> r1.k.info == n) && (Held(r2.k) == 1 ==> r2.k.info == n)
    }

    /** Both operands give back their registers, the later one first. */
    method FreeOperands(e1: ExpDesc, e2: ExpDesc)
      requires Valid() && IsOperand(e1) && IsOperand(e2)
      requires Stacked(freereg - Held(e1.k) - Held(e2.k), e1, e2) && freereg - Held(e1.k) - Held(e2.k) >= nactvar
      modifies this`freereg
      ensures Valid() && Now() == old(Now()) && freereg == old(freereg) - Held(e1.k) - Held(e2.k)
    {
      if RkOf(e1) > RkOf(e2) {
        FreeExp(e1);
        FreeExp(e2);
      } else {
        FreeExp(e2);
        FreeExp(e1);
      }
    }

    /** The first operand of a strict operator: an operand, or a numeral that may still be folded. */
    ghost predicate Strictly(p0: Snap, p1: Snap, n: int, e1: ExpDesc, l: Expr) {
      && e1.t == NO_JUMP && e1.f == NO_JUMP && (IsOperand(e1) || e1.k.VKNum?)
      && Built(p0, p1, nactvar, n, -1, Yields(e1.k), NO_JUMP, [], NO_JUMP, [], l)
    }

    /** The second value becomes an operand; the first one already is one, so Exp2RK would leave it as it is. */
    method Operands(op: BinOpr, e1: ExpDesc, e2: ExpDesc, ghost p0: Snap, ghost p1: Snap, ghost n: int,
                    ghost ts: seq<int>, ghost fs: seq<int>, ghost l: Expr, ghost r: Expr)
      returns (st: Result<ExpDesc>)
      requires Valid() && op != And && op != Or && op != Ari(OpUnm) && Strictly(p0, p1, n, e1, l) && IsOperand(e1)
      requires Denotes(p1, n + Held(e1.k), -1, e2, ts, fs, r) && Room(n + Held(e1.k), e2)
      modifies this
      ensures |code| <= |old(code)| + 16 && |k| <= |old(k)| + 3
      ensures st.Err? ==> Full(n + 1)
      ensures st.Done? ==> Valid() && Stacked(n, e1, st.value)
      ensures st.Done? ==> Held(e1.k) == 1 && Held(st.value.k) == 1 ==> st.value.k.info == n + 1
      ensures st.Done? ==> Built(p0, Now(), nactvar, n, -1, StrictRest(op, RkOf(e1), RkOf(st.value)),
                                 NO_JUMP, [], NO_JUMP, [], EBin(op, l, r))
    {
      hide Wf, Means, Extends, SameTests, Keeps;
      ghost var n1 := n + Held(e1.k);
      var r2 :- Exp2RK(e2, p1, n1, ts, fs, r);
      BuiltStrict(p0, p1, Now(), nactvar, n, n1, op, e1.k, r2.k, RkOf(e1), RkOf(r2), l, r);
      return Done(r2);
    }

    /** A numeral kept for folding becomes an operand after the second one. */
    method OperandsLate(op: ArithOp, e1: ExpDesc, e2: ExpDesc, ghost p0: Snap, ghost p1: Snap, ghost n: int,
                        ghost ts: seq<int>, ghost fs: seq<int>, ghost l: Expr, ghost r: Expr)
      returns (st: Result<(ExpDesc, ExpDesc)>)
      requires Valid() && op != OpUnm && Strictly(p0, p1, n, e1, l) && e1.k.VKNum?
      requires Denotes(p1, n, -1, e2, ts, fs, r) && Room(n, e2)
      modifies this
      ensures |code| <= |old(code)| + 32 && |k| <= |old(k)| + 6
      ensures st.Err? ==> Full(n + 1)
      ensures st.Done? ==> Valid() && Stacked(n, st.value.0, st.value.1)
      ensures st.Done? ==> Built(p0, Now(), nactvar, n, -1, Applied(Arith(op, 0, RkOf(st.value.0), RkOf(st.value.1))),
                                 NO_JUMP, [], NO_JUMP, [], EBin(Ari(op), l, r))
    {
      hide Wf, Means, Extends, SameTests, Keeps;
      var r2 :- Exp2RK(e2, p1, n, ts, fs, r);
      ghost var p2 := Now();
      ghost var n2 := n + Held(r2.k);
      var r1 :- NumeralOperand(e1, n2);
      BuiltNumeralLate(p0, p1, p2, Now(), nactvar, n, n2, op, r1.k, r2.k, RkOf(r1), RkOf(r2), e1.k.nval, l, r);
      return Done((r1, r2));
    }

    /** An arithmetic operator on two operands.  Two numerals are folded, except for a division or
        modulo by zero. */
    method CodeArith(op: ArithOp, e1: ExpDesc, e2: ExpDesc, ghost p0: Snap, ghost p1: Snap, ghost n: int,
                     ghost ts: seq<int>, ghost fs: seq<int>, ghost l: Expr, ghost r: Expr)
      returns (st: Result<ExpDesc>)
      requires Valid() && op != OpUnm && Strictly(p0, p1, n, e1, l)
      requires Denotes(p1, n + Held(e1.k), -1, e2, ts, fs, r) && Room(n + Held(e1.k), e2)
      modifies this
      ensures |code| <= |old(code)| + 33 && |k| <= |old(k)| + 6
      ensures st.Err? ==> Full(n + 1)
      ensures st.Done? ==> Valid() && Denotes(p0, n, -1, st.value, [], [], EBin(Ari(op), l, r)) && Room(n, st.value)
      ensures st.Done? ==> st.value.k.VKNum? || st.value.k.VReloc?
    {
      hide Wf, Means, Extends;
      if IsNumeral(e1) && IsNumeral(e2) && !((op.OpDiv? || op.OpMod?) && e2.k.nval == 0.0) {
        ListElems(code, e2.t, ts);
        ListElems(code, e2.f, fs);
        BuiltFold(p0, p1, Now(), nactvar, n, op, e1.k.nval, e2.k.nval, l, r);
        return Done(e1.(k := VKNum(num(op, e1.k.nval, e2.k.nval))));
      }
      if e1.k.VKNum? {
        var rs :- OperandsLate(op, e1, e2, p0, p1, n, ts, fs, l, r);
        var e :- EmitArith(op, rs.0, rs.1, p0, n, EBin(Ari(op), l, r));
        return Done(e);
      }
      var r2 :- Operands(Ari(op), e1, e2, p0, p1, n, ts, fs, l, r);
      var e :- EmitArith(op, e1, r2, p0, n, EBin(Ari(op), l, r));
      return Done(e);
    }

    method EmitArith(op: ArithOp, r1: ExpDesc, r2: ExpDesc, ghost p0: Snap, ghost n: int, ghost x: Expr)
      returns (st: Result<ExpDesc>)
      requires Valid() && Stacked(n, r1, r2) && n >= nactvar
      requires Built(p0, Now(), nactvar, n, -1, Applied(Arith(op, 0, RkOf(r1), RkOf(r2))), NO_JUMP, [], NO_JUMP, [], x)
      modifies this
      ensures |code| <= |old(code)| + 1 && |k| <= |old(k)| + 0
      ensures st.Err? ==> Long()
      ensures st.Done? ==> Valid() && Denotes(p0, n, -1, st.value, [], [], x) && Room(n, st.value)
      ensures st.Done? ==> st.value.k.VReloc?
    {
      hide Wf;
      FreeOperands(r1, r2);
      ghost var p := Now();
      var i := Arith(op, 0, RkOf(r1), RkOf(r2));
      var pc :- Code(i);
      BuiltApply(p0, p, Now(), nactvar, n, Applied(i), i, pc, NO_JUMP, [], NO_JUMP, [], x);
      return Done(Exp(VReloc(pc), NO_JUMP, NO_JUMP));
    }

    /** A numeral that was not folded becomes an operand after the second operand. */
    method NumeralOperand(e: ExpDesc, ghost n: int) returns (st: Result<ExpDesc>)
      requires Valid() && e.k.VKNum? && e.t == NO_JUMP && e.f == NO_JUMP && freereg == n
      modifies this
      ensures |code| <= |old(code)| + 16 && |k| <= |old(k)| + 3
      ensures st.Err? ==> Full(n)
      ensures st.Done? ==> Valid() && IsOperand(st.value) && Room(n, st.value)
      ensures st.Done? ==> Denotes(old(Now()), n, -1, st.value, [], [], ENum(e.k.nval))
    {
      ghost var p := Now();
      MeansNoCode(p, n, e.k, ENum(e.k.nval));
      BuiltNoCode(p, nactvar, n, e.k, ENum(e.k.nval));
      var r :- Exp2RK(e, p, n, [], [], ENum(e.k.nval));
      return Done(r);
    }

    /** The instruction of a comparison: `>` and `>=` exchange their operands, `~=` negates `==`. */
    function CompareInstr(op: BinOpr, o1: int, o2: int): (i: Instr)
      requires !op.Ari? && op != And && op != Or
      ensures i.Compare? && StrictRest(op, o1, o2) == Compared(i)
    {
      var cond := op.Eq? || op.LessThan? || op.LessEq?;
      var c := match op
        case Eq => OpEq
        case NotEq => OpEq
        case LessThan => OpLt
        case Greater => OpLt
        case _ => OpLe;
      if !cond && c != OpEq then Compare(c, true, o2, o1) else Compare(c, cond, o1, o2)
    }

    /** A comparison becomes a conditional jump. */
    method CodeComp(op: BinOpr, e1: ExpDesc, e2: ExpDesc, ghost p0: Snap, ghost p1: Snap, ghost n: int,
                    ghost ts: seq<int>, ghost fs: seq<int>, ghost l: Expr, ghost r: Expr)
      returns (st: Result<ExpDesc>)
      requires Valid() && !op.Ari? && op != And && op != Or && Strictly(p0, p1, n, e1, l) && IsOperand(e1)
      requires Denotes(p1, n + Held(e1.k), -1, e2, ts, fs, r) && Room(n + Held(e1.k), e2)
      modifies this
      ensures |code| <= |old(code)| + 18 && |k| <= |old(k)| + 3
      ensures st.Err? ==> Full(n + 1)
      ensures st.Done? ==> Valid() && Denotes(p0, n, -1, st.value, [], [], EBin(op, l, r)) && Room(n, st.value)
      ensures st.Done? ==> st.value.k.VJmp?
    {
      hide Wf, Means, Extends, SameTests, Keeps, InScope, PatchCode, Eval, IsList, Discharged;
      var r2 :- Operands(op, e1, e2, p0, p1, n, ts, fs, l, r);
      FreeExp(r2);
      FreeExp(e1);
      ghost var p := Now();
      var i := CompareInstr(op, RkOf(e1), RkOf(r2));
      var pc :- CondJump(i);
      BuiltCompare(p0, p, Now(), nactvar, n, i, pc, EBin(op, l, r));
      return Done(Exp(VJmp(pc), NO_JUMP, NO_JUMP));
    }

    // ---------- operators ----------

    /** A prefix operator has been read and its operand coded. */
    method Prefix(op: UnOpr, e: ExpDesc, ghost p0: Snap, ghost n: int, ghost ts: seq<int>, ghost fs: seq<int>,
                  ghost x: Expr)
      returns (st: Result<ExpDesc>, ghost ts': seq<int>, ghost fs': seq<int>)
      requires Valid() && Denotes(p0, n, -1, e, ts, fs, x) && Room(n, e) && Plain(e)
      modifies this
      ensures |code| <= |old(code)| + 9 && |k| <= |old(k)| + 1
      ensures st.Err? ==> Full(n)
      ensures st.Done?
              ==> Valid() && Denotes(p0, n, -1, st.value, ts', fs', EUn(op, x)) && Room(n, st.value)
                  && Plain(st.value)
    {
      ts', fs' := fs, ts;
      if op == Not {
        var r :- CodeNot(e, p0, n, ts, fs, x);
        return Done(r), fs, ts;
      }
      ts', fs' := [], [];
      if op == Minus && IsNumeral(e) {
        ListElems(code, e.t, ts);
        ListElems(code, e.f, fs);
        BuiltFoldMinus(p0, Now(), nactvar, n, e.k.nval, x);
        return Done(e.(k := VKNum(num(OpUnm, e.k.nval, e.k.nval)))), [], [];
      }
      var r :- CodeUnary(op, e, p0, n, ts, fs, x);
      return Done(r), [], [];
    }

    /** `-` and `#` need their operand in a register. */
    method CodeUnary(op: UnOpr, e: ExpDesc, ghost p0: Snap, ghost n: int, ghost ts: seq<int>, ghost fs: seq<int>,
                     ghost x: Expr)
      returns (st: Result<ExpDesc>)
      requires Valid() && Denotes(p0, n, -1, e, ts, fs, x) && Room(n, e) && op != Not
      modifies this
      ensures |code| <= |old(code)| + 9 && |k| <= |old(k)| + 1
      ensures st.Err? ==> Full(n)
      ensures st.Done? ==> Valid() && Denotes(p0, n, -1, st.value, [], [], EUn(op, x)) && Room(n, st.value)
      ensures st.Done? ==> st.value.k.VReloc?
    {
      hide Wf, Means, Extends, SameTests, Keeps, IsList, InScope;
      var r :- Exp2AnyReg(e, p0, n, ts, fs, x);
      FreeExp(r);
      ghost var p := Now();
      var i := if op == Minus then Unm(0, r.k.info) else Len(0, r.k.info);
      BuiltUnary(p0, p, nactvar, n, op, r.k.info, x);
      var pc :- Code(i);
      BuiltApply(p0, p, Now(), nactvar, n, Applied(i), i, pc, NO_JUMP, [], NO_JUMP, [], EUn(op, x));
      return Done(Exp(VReloc(pc), NO_JUMP, NO_JUMP));
    }

    /** A binary operator has been read after its first operand: `l` is decided or is an operand, and
        the second operand is to be coded from `p1` on. */
    ghost predicate Half(op: BinOpr, p0: Snap, p1: Snap, n: int, e1: ExpDesc, js: seq<int>, l: Expr) {
      if op == And then e1.t == NO_JUMP && FirstBuilt(p0, p1, nactvar, n, And, e1.f, js, l)
      else if op == Or then e1.f == NO_JUMP && FirstBuilt(p0, p1, nactvar, n, Or, e1.t, js, l)
      else Strictly(p0, p1, n, e1, l) && (op.Ari? || IsOperand(e1))
    }

    /** The first free register for the second operand. */
    function Next(op: BinOpr, n: int, e1: ExpDesc): int {
      if op == And || op == Or then n else n + Held(e1.k)
    }

    method Infix(op: BinOpr, e: ExpDesc, ghost p0: Snap, ghost n: int, ghost ts: seq<int>, ghost fs: seq<int>,
                 ghost x: Expr)
      returns (st: Result<ExpDesc>, ghost js: seq<int>)
      requires Valid() && Denotes(p0, n, -1, e, ts, fs, x) && Room(n, e) && Plain(e)
      modifies this
      ensures |code| <= |old(code)| + 16 && |k| <= |old(k)| + 3
      ensures st.Err? ==> Full(n)
      ensures st.Done? ==> Valid() && Half(op, p0, Now(), n, st.value, js, x) && freereg == Next(op, n, st.value)
    {
      hide Wf, Means, Extends, SameTests, Keeps;
      js := [];
      match op {
        case And =>
          var f;
          f, js := GoIfTrue(e, p0, n, ts, fs, x);
          if f.Err? { return Err(f.msg), js; }
          return Done(Exp(e.k, NO_JUMP, f.value)), js;
        case Or =>
          var t;
          t, js := GoIfFalse(e, p0, n, ts, fs, x);
          if t.Err? { return Err(t.msg), js; }
          return Done(Exp(e.k, t.value, NO_JUMP)), js;
        case _ =>
          if op.Ari? && IsNumeral(e) {
            ListElems(code, e.t, ts);
            ListElems(code, e.f, fs);
            return Done(e), js;
          }
          var r :- Exp2RK(e, p0, n, ts, fs, x);
          return Done(r), js;
      }
    }

    /** Both operands have been coded. */
    method Posfix(op: BinOpr, e1: ExpDesc, e2: ExpDesc, ghost p0: Snap, ghost p1: Snap, ghost n: int,
                  ghost js: seq<int>, ghost ts: seq<int>, ghost fs: seq<int>, ghost l: Expr, ghost r: Expr)
      returns (st: Result<ExpDesc>, ghost ts': seq<int>, ghost fs': seq<int>)
      requires Valid() && Half(op, p0, p1, n, e1, js, l) && op != Ari(OpUnm)
      requires Denotes(p1, Next(op, n, e1), -1, e2, ts, fs, r) && Room(Next(op, n, e1), e2) && Plain(e2)
      modifies this
      ensures |code| <= |old(code)| + 34 && |k| <= |old(k)| + 6
      ensures st.Err? ==> Full(n + 1)
      ensures st.Done?
              ==> Valid() && Denotes(p0, n, -1, st.value, ts', fs', EBin(op, l, r)) && Room(n, st.value)
                  && Plain(st.value)
    {
      hide Wf, Means, Extends, SameTests, Keeps;
      ts', fs' := [], [];
      match op {
        case And =>
          var d :- DischargeVars(e2, p1, n, ts, fs, r);
          var e :- JoinExits(op, e1.f, d, p0, p1, n, js, ts, fs, l, r);
          return Done(e), ts, fs + js;
        case Or =>
          var d :- DischargeVars(e2, p1, n, ts, fs, r);
          var e :- JoinExits(op, e1.t, d, p0, p1, n, js, ts, fs, l, r);
          return Done(e), ts + js, fs;
        case Ari(a) =>
          var e :- CodeArith(a, e1, e2, p0, p1, n, ts, fs, l, r);
          return Done(e), [], [];
        case _ =>
          var e :- CodeComp(op, e1, e2, p0, p1, n, ts, fs, l, r);
          return Done(e), [], [];
      }
    }

    /** The exits of the first operand join those of the second. */
    method JoinExits(op: BinOpr, j: int, d: ExpDesc, ghost p0: Snap, ghost p1: Snap, ghost n: int,
                     ghost js: seq<int>, ghost ts: seq<int>, ghost fs: seq<int>, ghost l: Expr, ghost r: Expr)
      returns (st: Result<ExpDesc>)
      requires Valid() && (op == And || op == Or) && FirstBuilt(p0, p1, nactvar, n, op, j, js, l)
      requires Denotes(p1, n, -1, d, ts, fs, r) && Room(n, d) && Plain(d)
      modifies this`code
      ensures |code| == |old(code)|
      ensures st.Err? ==> Long()
      ensures st.Done? ==> Valid() && Room(n, st.value) && Plain(st.value)
      ensures st.Done? ==>
              Denotes(p0, n, -1, st.value, if op == Or then ts + js else ts, if op == And then fs + js
              else fs, EBin(op, l, r))
    {
      hide Means, Keeps, IsList, OpenOk, FirstBuilt, InScope;
      ghost var p := Now();
      FirstFacts(p0, p1, nactvar, n, op, j, js, l);
      ListKeepsOf(p1.code, code, j, js, p1.open);
      var h :- Concat(if op == And then d.f else d.t, j, if op == And then fs else ts, js);
      var t, f := if op == Or then h else d.t, if op == And then h else d.f;
      JpcKept(p, Now(), jpc, hereList, if op == And then fs else ts);
      BuiltAndOr(p0, p1, p, Now(), nactvar, n, op, d.k, j, js, d.t, ts, d.f, fs,
                 t, if op == Or then ts + js else ts, f, if op == And then fs + js else fs, l, r);
      return Done(Exp(d.k, t, f));
    }
  }

  /** A NOT emitted before the lists are exchanged. */
  lemma NotEmitted(p0: Snap, p: Snap, p': Snap, nact: int, n: int, r: int, pc: int,
                   t: int, ts: seq<int>, f: int, fs: seq<int>, x: Expr)
    requires Built(p0, p, nact, n, -1, Yields(VNonReloc(r)), t, ts, f, fs, x) && pc == |p.code|
    requires p' == p.(code := Stripped(Discharged(p) + [NotI(0, r)], Elems(ts) + Elems(fs)), here := {})
    ensures Built(p0, p', nact, n, -1, Yields(VReloc(pc)), f, fs, t, ts, EUn(Not, x))
  {
    var js := Elems(ts) + Elems(fs);
    var p1 := p.(code := Stripped(p.code, js));
    BuiltNot(p0, p, p1, nact, n, VNonReloc(r), js, t, ts, f, fs, x);
    StripEmitted(p, p1, js, NotI(0, r));
    BuiltApply(p0, p1, p', nact, n, Applied(NotI(0, r)), NotI(0, r), pc, f, fs, t, ts, EUn(Not, x));
  }

  lemma StripKept(code: seq<Instr>, js: set<int>, t: int, ts: seq<int>)
    requires IsList(code, t, ts)
    ensures IsList(Stripped(code, js), t, ts)
  {
    ListElems(code, t, ts);
    ListKept(code, Stripped(code, js), t, ts);
  }

  lemma EmitKept(p: Snap, p': Snap, i: Instr, t: int, ts: seq<int>)
    requires Wf(p) && Emits(p, p', [i], {}) && IsList(p.code, t, ts) && Elems(ts) <= p.open
    ensures IsList(p'.code, t, ts)
  {
    EmitsAppends(p, p', [i], {});
    forall j <- Elems(ts) ensures KeptAt(p.code, p'.code, j) { ControlKept(p, p', j); }
    ListKeeps(p.code, p'.code, t, ts);
  }

  lemma WfRelabel(p: Snap)
    requires Wf(p)
    ensures Wf(p.(lab := |p.code|))
  {
    WfToHere(p, p.(lab := |p.code|), {});
  }

  lemma SentHere(p0: Snap, p: Snap, p1: Snap, p': Snap, nact: int, n: int, truth: bool,
                 t: int, ts: seq<int>, f: int, fs: seq<int>, x: Expr)
    requires Built(p0, p, nact, n, -1, Decided(truth), t, ts, f, fs, x)
    requires p1 == ToHere(p, if truth then ts else fs)
    requires |p'.code| == |p.code| && p' == p1.(code := p'.code)
    requires forall i | 0 <= i < |p.code| ::
               p'.code[i] == p.code[i] || (i in p.here && p.code[i].Jmp? && p'.code[i].Jmp?)
    ensures Built(p0, p', nact, n, -1, Decided(truth), if truth then NO_JUMP else t, if truth then [] else ts,
                  if truth then f else NO_JUMP, if truth then fs else [], x)
  {
    BuiltToHere(p0, p, p1, nact, n, truth, t, ts, f, fs, x);
    var t', ts', f', fs' := if truth then NO_JUMP else t, if truth then [] else ts, if truth then f
        else NO_JUMP, if truth then fs else [];
    assert Relinks(p0, p1, p');
    forall j | j in ts' || j in fs' ensures 0 <= j < |p.code| ==> p'.code[j] == p1.code[j] {
      assert j in ts' ==> j in Elems(ts');
      assert j in fs' ==> j in Elems(fs');
    }
    ListKept(p1.code, p'.code, t', ts');
    ListKept(p1.code, p'.code, f', fs');
    BuiltRelink(p0, p1, p', nact, n, -1, Decided(truth), t', ts', f', fs', t', ts', f', fs', x);
  }

  ghost function ToHere(p: Snap, js: seq<int>): Snap {
    p.(here := p.here + Elems(js), open := p.open - Elems(js), lab := |p.code|)
  }

  lemma JpcKept(p: Snap, p': Snap, jpc: int, here: seq<int>, js: seq<int>)
    requires IsList(p.code, jpc, here) && Elems(here) == p.here && p.here !! p.open && Elems(js) <= p.open
    requires |p'.code| == |p.code| && forall i | 0 <= i < |p.code| ::
               p'.code[i] == p.code[i] || (i in Elems(js) && p.code[i].Jmp? && p'.code[i].Jmp?)
    ensures IsList(p'.code, jpc, here)
  {
    forall j | j in here ensures 0 <= j < |p.code| ==> j < |p'.code| && p'.code[j] == p.code[j] {
      assert j in Elems(here);
    }
    ListKept(p.code, p'.code, jpc, here);
  }

  lemma SingleList(code: seq<Instr>, j: int)
    requires 0 <= j < |code| && code[j] == Jmp(NO_JUMP)
    ensures IsList(code, j, [j]) && Elems([j]) == {j}
  {
    assert [j][1..] == [];
    assert IsList(code, NextJump(code, j), []);
  }

  lemma EmptyList(code: seq<Instr>)
    ensures IsList(code, NO_JUMP, []) && Elems([]) == {}
  {
  }

  lemma ElemsNone()
    ensures Elems([]) == {}
  {
  }

  lemma SkipTo(p: Snap, p2: Snap, nact: int, n: int, reg: int, js: seq<int>, here: seq<int>,
               p0: Snap, t: int, ts: seq<int>, f: int, fs: seq<int>, x: Expr) returns (p': Snap)
    requires Built(p0, p, nact, n, reg, Yields(VNonReloc(reg)), t, ts, f, fs, x)
    requires |p2.code| == |p.code| + 3 && p2.code[..|p.code|] == p.code && p2.code[|p.code|].Jmp?
    requires p2.code[|p.code| + 1..] == Loads(reg)
    requires p2 == p.(code := p2.code, here := {}, open := p.open + p.here + {|p.code|}, lab := |p2.code|)
    requires js == [|p.code|] + here && Elems(here) == p.here
    ensures Wf(p2) && Elems(js) <= p2.open && p2.open - Elems(js) == p.open
    ensures p' == p2.(here := Elems(js), open := p.open)
    ensures Built(p0, p', nact, n, reg, Yields(VNonReloc(reg)), t, ts, f, fs, x) && EndsInLoads(p'.code, reg)
  {
    var link := p2.code[|p.code|].sbx;
    var p1 := p.(code := p.code + [Jmp(link)], here := {}, open := p.open + p.here + {|p.code|});
    assert p2.code == p1.code + Loads(reg);
    ElemsAppend([|p.code|], here);
    ElemsOne(|p.code|);
    SkipWf(p, p1, p2, reg, link);
    p' := p2.(here := p.here + {|p.code|}, open := p.open);
    BuiltSkip(p0, p, p1, p2, p', nact, n, reg, reg, link, t, ts, f, fs, x);
  }

  lemma HereKept(p: Snap, p': Snap, jpc: int, here: seq<int>, t: int, js: seq<int>, reg: int, dtarget: int)
    requires Wf(p) && IsList(p.code, jpc, here) && Elems(here) == p.here
    requires IsList(p.code, t, js) && Elems(js) <= p.open
    requires p'.code == PatchCode(p.code, Elems(js), reg, |p.code|, dtarget)
    ensures IsList(p'.code, jpc, here)
  {
    ListElems(p.code, jpc, here);
    forall j | j in here ensures 0 <= j < |p.code| ==> j < |p'.code| && p'.code[j] == p.code[j] {
      assert j in Elems(here);
      assert p'.code[j] == PatchAt(p.code, Elems(js), reg, |p.code|, dtarget, j);
    }
    ListKept(p.code, p'.code, jpc, here);
  }

  /** The jumps in `done` are patched, those in `rest` still form the list `l`. */
  ghost predicate Partly(code0: seq<Instr>, code: seq<Instr>, done: seq<int>, rest: seq<int>, l: int,
                         reg: int, vtarget: int, dtarget: int) {
    && IsList(code, l, rest)
    && Elems(done) !! Elems(rest)
    && (forall j <- done :: 0 <= j < |code0| && code0[j].Jmp?)
    && code == PatchCode(code0, Elems(done), reg, vtarget, dtarget)
  }

  lemma CarriesKept(code0: seq<Instr>, code: seq<Instr>, done: seq<int>, l: int, reg: int, vtarget: int, dtarget: int)
    requires code == PatchCode(code0, Elems(done), reg, vtarget, dtarget)
    requires forall j <- done :: 0 <= j < |code0| && code0[j].Jmp?
    requires 0 <= l < |code| && code[l].Jmp? && l !in Elems(done)
    ensures code0[l].Jmp? && Carries(code, l) == Carries(code0, l)
    ensures l >= 1 && code[l - 1].TestSet? ==> code[l - 1] == code0[l - 1]
  {
    assert code[l] == PatchAt(code0, Elems(done), reg, vtarget, dtarget, l);
    if l >= 1 {
      assert code[l - 1] == PatchAt(code0, Elems(done), reg, vtarget, dtarget, l - 1);
      assert l - 1 in Elems(done) ==> l - 1 in done;
    }
  }

  lemma RestKept(code: seq<Instr>, code': seq<Instr>, l: int, rest: seq<int>)
    requires rest != [] && IsList(code, l, rest) && |code'| == |code|
    requires forall i | 0 <= i < |code| && i != l && code[i].Jmp? :: code'[i] == code[i]
    ensures IsList(code', NextJump(code, l), rest[1..])
    ensures l == rest[0] && l !in rest[1..]
  {
    ListElems(code, NextJump(code, l), rest[1..]);
    ListKept(code, code', NextJump(code, l), rest[1..]);
  }

  lemma PartlyStart(code: seq<Instr>, js: seq<int>, l: int, reg: int, vtarget: int, dtarget: int)
    requires IsList(code, l, js)
    ensures Partly(code, code, [], js, l, reg, vtarget, dtarget)
  {
  }

  lemma PartlyHead(code0: seq<Instr>, code: seq<Instr>, done: seq<int>, rest: seq<int>, l: int,
                   reg: int, vtarget: int, dtarget: int)
    requires Partly(code0, code, done, rest, l, reg, vtarget, dtarget) && l != NO_JUMP
    ensures rest != [] && rest[0] == l && 0 <= l < |code| && code[l].Jmp? && |code| == |code0|
    ensures Carries(code, l) == Carries(code0, l)
  {
    ListElems(code, l, rest);
    CarriesKept(code0, code, done, l, reg, vtarget, dtarget);
  }

  lemma PartlyDone(code0: seq<Instr>, code: seq<Instr>, done: seq<int>, rest: seq<int>, l: int,
                   reg: int, vtarget: int, dtarget: int)
    requires Partly(code0, code, done, rest, l, reg, vtarget, dtarget) && l == NO_JUMP
    ensures rest == [] && code == PatchCode(code0, Elems(done), reg, vtarget, dtarget)
  {
    ListElems(code, l, rest);
  }

  lemma PartlyStep(code0: seq<Instr>, code: seq<Instr>, code': seq<Instr>, done: seq<int>, rest: seq<int>, l: int,
                   reg: int, vtarget: int, dtarget: int)
    requires Partly(code0, code, done, rest, l, reg, vtarget, dtarget) && l != NO_JUMP
    requires 0 <= l < |code| && code[l].Jmp? && rest != []
    requires Carries(code, l) ==> l >= 1 && code[l - 1].TestSet?
    requires code' == if Carries(code, l) && l >= 1 && code[l - 1].TestSet?
                      then code[l - 1 := Retarget(code[l - 1], reg)][l := Jmp(vtarget - (l + 1))]
                      else code[l := Jmp(dtarget - (l + 1))]
    ensures Partly(code0, code', done + [l], rest[1..], NextJump(code, l), reg, vtarget, dtarget)
  {
    ListElems(code, l, rest);
    CarriesKept(code0, code, done, l, reg, vtarget, dtarget);
    PatchOne(code0, code, code', done, l, reg, vtarget, dtarget);
    RestKept(code, code', l, rest);
    ElemsCons(rest);
    ElemsAppend(done, [l]);
    assert Elems([l]) == {l};
  }

  lemma PatchOne(code0: seq<Instr>, code: seq<Instr>, code': seq<Instr>, done: seq<int>, l: int,
                 reg: int, vtarget: int, dtarget: int)
    requires code == PatchCode(code0, Elems(done), reg, vtarget, dtarget)
    requires forall j <- done :: 0 <= j < |code0| && code0[j].Jmp?
    requires 0 <= l < |code| && code[l].Jmp? && l !in Elems(done)
    requires code' == if Carries(code, l) && l >= 1 && code[l - 1].TestSet?
                      then code[l - 1 := Retarget(code[l - 1], reg)][l := Jmp(vtarget - (l + 1))]
                      else code[l := Jmp(dtarget - (l + 1))]
    requires Carries(code, l) ==> l >= 1 && code[l - 1].TestSet?
    ensures code' == PatchCode(code0, Elems(done + [l]), reg, vtarget, dtarget)
  {
    ElemsAppend(done, [l]);
    assert Elems(done + [l]) == Elems(done) + {l};
    CarriesKept(code0, code, done, l, reg, vtarget, dtarget);
    forall i | 0 <= i < |code0|
      ensures code'[i] == PatchAt(code0, Elems(done + [l]), reg, vtarget, dtarget, i)
    {
      assert code[i] == PatchAt(code0, Elems(done), reg, vtarget, dtarget, i);
    }
  }

  lemma StripOne(code0: seq<Instr>, code: seq<Instr>, code': seq<Instr>, done: seq<int>, l: int)
    requires code == Stripped(code0, Elems(done)) && 0 <= l < |code| && code[l].Jmp?
    requires if Carries(code, l) && l >= 1 && code[l - 1].TestSet? then code'
            == code[l - 1 := Retarget(code[l - 1], NO_REG)] else code' == code
    ensures code' == Stripped(code0, Elems(done + [l]))
  {
    ElemsAppend(done, [l]);
  }
}
