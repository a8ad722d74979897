/** The shape of the code: well-formedness, untouched outer jumps and intact lists are kept by
    every change the code generator makes. */
module LuaShape {
  import opened LuaVm
  import opened LuaJumps
  import opened LuaSem
  import opened LuaSteps
  import opened LuaPatch

  // ---------- lists ----------

  lemma {:induction false} ListElems(code: seq<Instr>, head: int, js: seq<int>)
    requires IsList(code, head, js)
    ensures forall j <- js :: 0 <= j < |code| && code[j].Jmp?
    ensures head == NO_JUMP <==> js == []
    ensures head in js <==> js != []
    decreases |js|
  {
    if js != [] {
      ListElems(code, NextJump(code, head), js[1..]);
      assert js == [js[0]] + js[1..];
    }
  }

  /** A list only depends on its own jumps. */
  lemma {:induction false} ListKept(code: seq<Instr>, code': seq<Instr>, head: int, js: seq<int>)
    requires IsList(code, head, js)
    requires forall j <- js :: 0 <= j < |code| ==> j < |code'| && code'[j] == code[j]
    ensures IsList(code', head, js)
    decreases |js|
  {
    if js != [] {
      assert js == [js[0]] + js[1..];
      assert js[0] in js && code'[head] == code[head];
      forall j | j in js[1..] ensures 0 <= j < |code| ==> j < |code'| && code'[j] == code[j] { assert j in js; }
      ListKept(code, code', NextJump(code, head), js[1..]);
    }
  }

  /** Linking the last element of `a` to the head of `b` appends the lists. */
  lemma {:induction false} ListAppend(code: seq<Instr>, code': seq<Instr>, h1: int, a: seq<int>, h2: int, b: seq<int>)
    requires a != [] && b != [] && IsList(code, h1, a) && IsList(code, h2, b) && Elems(a) !! Elems(b)
    requires 0 <= a[|a| - 1] < |code|
    requires code' == code[a[|a| - 1] := Jmp(h2 - (a[|a| - 1] + 1))]
    ensures IsList(code', h1, a + b)
    decreases |a|
  {
    var last := a[|a| - 1];
    ListElems(code, h1, a);
    ListElems(code, h2, b);
    assert last in a && h2 in b;
    assert last in Elems(a) && h2 in Elems(b);
    assert last != h2;
    assert (a + b)[1..] == a[1..] + b;
    assert h1 !in a[1..] + b by { assert h1 in Elems(a); }
    if |a| == 1 {
      assert a[1..] + b == b;
      forall j | j in b ensures code'[j] == code[j] { assert j in Elems(b); }
      ListKept(code, code', h2, b);
      assert NextJump(code', h1) == h2;
    } else {
      assert a[1..][|a[1..]| - 1] == last;
      assert code'[h1] == code[h1] by { assert last in a[1..]; }
      assert Elems(a[1..]) <= Elems(a);
      ListAppend(code, code', NextJump(code, h1), a[1..], h2, b);
    }
  }

  lemma ElemsAppend(a: seq<int>, b: seq<int>)
    ensures Elems(a + b) == Elems(a) + Elems(b)
  {
  }

  lemma ElemsCons(a: seq<int>)
    requires a != []
    ensures Elems(a) == {a[0]} + Elems(a[1..])
  {
    assert a == [a[0]] + a[1..];
    ElemsAppend([a[0]], a[1..]);
  }

  // ---------- untouched jumps ----------

  lemma ListKeeps(code: seq<Instr>, code': seq<Instr>, head: int, js: seq<int>)
    requires IsList(code, head, js) && Keeps(code, code', Elems(js))
    ensures IsList(code', head, js)
  {
    forall j | j in js ensures 0 <= j < |code| ==> j < |code'| && code'[j] == code[j] {
      assert j in Elems(js);
      assert KeptAt(code, code', j);
    }
    ListKept(code, code', head, js);
  }

  lemma ListKeepsOf(code: seq<Instr>, code': seq<Instr>, head: int, js: seq<int>, all: set<int>)
    requires IsList(code, head, js) && Keeps(code, code', all) && Elems(js) <= all
    ensures IsList(code', head, js)
  {
    forall j <- Elems(js) ensures KeptAt(code, code', j) { assert j in all; }
    ListKeeps(code, code', head, js);
  }

  lemma ExtendsTrans(p0: Snap, p: Snap, p': Snap, kept: set<int>)
    requires Extends(p0, p) && p.lab <= p'.lab && p.k <= p'.k && p'.num == p.num
    requires SameTests(p.code, p'.code) && Keeps(p.code, p'.code, kept) && p0.open <= kept
    ensures Extends(p0, p')
  {
    forall i | 0 <= i < |p0.code| ensures SameTest(p0.code, p'.code, i) {
      assert SameTest(p0.code, p.code, i) && SameTest(p.code, p'.code, i);
    }
    forall j <- p0.open ensures KeptAt(p0.code, p'.code, j) {
      assert KeptAt(p0.code, p.code, j) && KeptAt(p.code, p'.code, j);
    }
  }

  // ---------- well-formedness ----------

  /** Code that may be appended at position `base`. */
  ghost predicate Fragment(x: seq<Instr>, base: int, newOpen: set<int>, lab: int) {
    && (forall i | 0 <= i < |x| :: IsTest(x[i]) ==> i + 1 < |x| && x[i + 1].Jmp?)
    && (forall i | 0 <= i < |x| :: x[i].Jmp? ==> base + i in newOpen)
    && (forall j <- newOpen :: base <= j < base + |x| && x[j - base].Jmp?)
    && (forall i | 0 <= i < |x| && x[i].TestSet? :: x[i].a == NO_REG)
    && (forall i | 0 <= i < |x| && x[i].LoadNil? :: x[i].n >= 0)
    && (forall i | 0 <= i < |x| && x[i].LoadBool? && x[i].skip ::
       base + i + 2 <= lab && (i + 1 < |x| ==> !IsTest(x[i + 1])))
  }

  lemma EmitAt(b: Snap, p': Snap, x: seq<Instr>, newOpen: set<int>, i: int)
    requires Wf(b) && Emits(b, p', x, newOpen) && 0 <= i < |p'.code|
    ensures i < |b.code| ==> p'.code[i] == PatchAt(b.code, b.here, NO_REG, |b.code|, |b.code|, i)
    ensures i >= |b.code| ==> p'.code[i] == x[i - |b.code|]
    ensures i < |b.code| ==> (IsTest(p'.code[i]) <==> IsTest(b.code[i]))
    ensures i < |b.code| ==> (p'.code[i].Jmp? <==> b.code[i].Jmp?)
  {
  }

  lemma EmitInstr(b: Snap, p': Snap, x: seq<Instr>, newOpen: set<int>, i: int)
    requires Wf(b) && Emits(b, p', x, newOpen) && Fragment(x, |b.code|, newOpen, p'.lab)
    requires b.lab <= p'.lab <= |p'.code| && 0 <= i < |p'.code|
    ensures InstrOk(p'.code, p'.open, i) && LabelOk(p'.code, p'.open, p'.lab, i)
  {
    EmitAt(b, p', x, newOpen, i);
    if i + 1 < |p'.code| {
      EmitAt(b, p', x, newOpen, i + 1);
    }
    if i < |b.code| {
      WfAt(b, i);
      if p'.code[i].Jmp? && i !in p'.open && p'.code[i].sbx >= 0 {
        var t := i + 1 + p'.code[i].sbx;
        assert t <= |b.code|;
        assert t >= 1 && Entry(b.code, t) by { WfAt(b, t - 1); }
        EmitAt(b, p', x, newOpen, t - 1);
      }
    }
  }

  lemma WfEmits(b: Snap, p': Snap, x: seq<Instr>, newOpen: set<int>)
    requires Wf(b) && Emits(b, p', x, newOpen) && Fragment(x, |b.code|, newOpen, p'.lab)
    requires b.lab <= p'.lab <= |p'.code|
    ensures Wf(p')
    ensures SameTests(b.code, p'.code) && Keeps(b.code, p'.code, b.open)
  {
    EmitsAppends(b, p', x, newOpen);
    assert p'.here + p'.open == p'.open;
    forall i | 0 <= i < |p'.code|
      ensures InstrOk(p'.code, p'.open, i) && LabelOk(p'.code, p'.open, p'.lab, i)
      ensures i < |b.code| ==> (IsTest(p'.code[i]) <==> IsTest(b.code[i]))
    {
      EmitAt(b, p', x, newOpen, i);
      EmitInstr(b, p', x, newOpen, i);
    }
    forall j | j in b.open
      ensures 0 <= j < |b.code| && p'.code[j] == b.code[j] && Control(p'.code, j) == Control(b.code, j)
    {
      ControlKept(b, p', j);
    }
    forall j | j in p'.open ensures 0 <= j < |p'.code| && p'.code[j].Jmp? {
      if j in newOpen { EmitAt(b, p', x, newOpen, j); }
    }
  }

  /** Taking back the last, value-producing instruction. */
  lemma WfBody(p: Snap, b: Snap)
    requires Wf(p) && |p.code| > 0 && IsReloc(p.code[|p.code| - 1]) && p.here == {} && p.lab < |p.code|
    requires b == p.(code := p.code[..|p.code| - 1])
    ensures Wf(b)
    ensures Keeps(p.code, b.code, p.open)
  {
    forall i | 0 <= i < |b.code|
      ensures InstrOk(b.code, b.here + b.open, i) && LabelOk(b.code, b.here + b.open, b.lab, i)
    {
      WfAt(p, i);
      WfAt(p, i + 1);
    }
  }

  /** Changing links of open jumps, or turning their TESTSETs into TESTs. */
  lemma WfSame(p: Snap, p': Snap)
    requires Wf(p) && p' == p.(code := p'.code) && SameRuns(p.code, p'.code, p.here + p.open)
    ensures Wf(p') && SameTests(p.code, p'.code)
  {
    forall i | 0 <= i < |p.code|
      ensures InstrOk(p'.code, p.here + p.open, i) && LabelOk(p'.code, p.here + p.open, p.lab, i)
    {
      WfAt(p, i);
    }
  }

  lemma WfToHere(p: Snap, p': Snap, js: set<int>)
    requires Wf(p) && js <= p.open
    requires p' == p.(here := p.here + js, open := p.open - js, lab := |p.code|)
    ensures Wf(p')
  {
    assert p'.here + p'.open == p.here + p.open;
    forall i | 0 <= i < |p.code| ensures LabelOk(p'.code, p'.here + p'.open, p'.lab, i) { WfAt(p, i); }
  }

  lemma WfInvert(p: Snap, p': Snap, pc: int)
    requires EndsInJump(p, pc) && p' == p.(code := Inverted(p.code))
    ensures EndsInJump(p', pc) && SameTests(p.code, p'.code)
    ensures Keeps(p.code, p'.code, p.open - {pc})
  {
    forall i | 0 <= i < |p.code|
      ensures InstrOk(p'.code, p.here + p.open, i) && LabelOk(p'.code, p.here + p.open, p.lab, i)
    {
      WfAt(p, i);
    }
  }

  lemma WfMerge(p: Snap, p': Snap, a: int, n: int)
    requires EndsInNil(p) && p' == p.(code := p.code[|p.code| - 1 := LoadNil(a, n)]) && n >= 0
    ensures Wf(p') && SameTests(p.code, p'.code) && Keeps(p.code, p'.code, p.open)
  {
    forall i | 0 <= i < |p.code|
      ensures InstrOk(p'.code, p.here + p.open, i) && LabelOk(p'.code, p.here + p.open, p.lab, i)
    {
      WfAt(p, i);
    }
  }

  /** An unconditional jump that takes over the jumps pending here. */
  lemma WfSkip(p: Snap, p': Snap, link: int)
    requires Wf(p)
    requires p' == p.(code := p.code + [Jmp(link)], here := {}, open := p.open + p.here + {|p.code|})
    ensures Wf(p') && SameTests(p.code, p'.code) && Keeps(p.code, p'.code, p.open + p.here)
  {
    assert p'.here + p'.open == p.here + p.open + {|p.code|};
    forall j | j in p.open + p.here ensures Control(p'.code, j) == Control(p.code, j) {
      PrefixControl(p.code, p'.code, j);
    }
    forall i | 0 <= i < |p'.code|
      ensures InstrOk(p'.code, p'.here + p'.open, i) && LabelOk(p'.code, p'.here + p'.open, p'.lab, i)
    {
      if i < |p.code| {
        assert p'.code[i] == p.code[i];
        WfAt(p, i);
      }
    }
  }

  lemma PatchInstr(p: Snap, p': Snap, js: set<int>, reg: int, vtarget: int, dtarget: int, i: int)
    requires Wf(p) && Patched(p, p', js, reg, vtarget, dtarget) && reg != NO_REG
    requires p'.lab == |p.code| && 0 <= i < |p.code|
    requires forall j <- js ::
            Target(p.code, j, vtarget, dtarget) <= |p.code|
            && Entry(p.code, Target(p.code, j, vtarget, dtarget))
    ensures InstrOk(p'.code, p.here + p.open - js, i) && LabelOk(p'.code, p.here + p.open - js, p'.lab, i)
    ensures IsTest(p'.code[i]) <==> IsTest(p.code[i])
  {
    WfAt(p, i);
    forall k | 0 <= k < |p.code| ensures IsTest(p'.code[k]) <==> IsTest(p.code[k]) {
      assert p'.code[k] == PatchAt(p.code, js, reg, vtarget, dtarget, k);
    }
    assert forall q :: Entry(p'.code, q) == Entry(p.code, q);
    assert p'.code[i] == PatchAt(p.code, js, reg, vtarget, dtarget, i);
    if i + 1 < |p.code| {
      assert p'.code[i + 1] == PatchAt(p.code, js, reg, vtarget, dtarget, i + 1);
    }
  }

  lemma WfPatch(p: Snap, p': Snap, js: set<int>, reg: int, vtarget: int, dtarget: int)
    requires Wf(p) && Patched(p, p', js, reg, vtarget, dtarget) && reg != NO_REG
    requires p'.lab == |p.code|
    requires forall j <- js ::
            Target(p.code, j, vtarget, dtarget) <= |p.code|
            && Entry(p.code, Target(p.code, j, vtarget, dtarget))
    ensures Wf(p') && SameTests(p.code, p'.code) && Keeps(p.code, p'.code, p.open - js)
  {
    assert p'.here + p'.open == p.here + p.open - js;
    forall i | 0 <= i < |p.code|
      ensures InstrOk(p'.code, p.here + p.open - js, i) && LabelOk(p'.code, p.here + p.open - js, p'.lab, i)
      ensures IsTest(p'.code[i]) <==> IsTest(p.code[i])
    {
      PatchInstr(p, p', js, reg, vtarget, dtarget, i);
    }
    forall j | j in p.here + p.open - js ensures p'.code[j].Jmp? {
      assert p'.code[j] == PatchAt(p.code, js, reg, vtarget, dtarget, j);
    }
    forall j | j in p.open - js ensures Control(p'.code, j) == Control(p.code, j) {
      ControlPatched(p, p', js, reg, vtarget, dtarget, j);
    }
  }
}
