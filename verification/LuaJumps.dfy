/** Jump lists threaded through the code, and the effect of patching them on what the code does. */
module LuaJumps {
  import opened LuaVm

  /** The jump instruction at `j`, when it ends a list, points to itself. */
  function NextJump(code: seq<Instr>, j: int): int
    requires 0 <= j < |code| && code[j].Jmp?
  {
    if code[j].sbx == NO_JUMP then NO_JUMP else j + 1 + code[j].sbx
  }

  /** `head` is the first link of a chain of jump offsets that visits exactly `js`, in order. */
  ghost predicate IsList(code: seq<Instr>, head: int, js: seq<int>)
    decreases |js|
  {
    if js == [] then head == NO_JUMP
    else
      && head == js[0]
      && 0 <= head < |code|
      && code[head].Jmp?
      && head !in js[1..]
      && IsList(code, NextJump(code, head), js[1..])
  }

  ghost function Elems(js: seq<int>): set<int> { set j | j in js }

  /** The position of the instruction that controls the jump at `j`. */
  function ControlPos(code: seq<Instr>, j: int): int
    requires 0 <= j < |code|
  {
    if j >= 1 && IsTest(code[j - 1]) then j - 1 else j
  }

  function Control(code: seq<Instr>, j: int): Instr
    requires 0 <= j < |code|
  {
    code[ControlPos(code, j)]
  }

  /** A jump that carries the tested value with it. */
  predicate Carries(code: seq<Instr>, j: int)
    requires 0 <= j < |code|
  {
    Control(code, j).TestSet?
  }

  /** PatchTestReg: what becomes of a TESTSET when the value is wanted in `reg`. */
  function Retarget(i: Instr, reg: int): Instr
    requires i.TestSet?
  {
    if reg != NO_REG && reg != i.b then TestSet(reg, i.b, i.accept) else Test(i.b, i.accept)
  }

  function Target(code: seq<Instr>, j: int, vtarget: int, dtarget: int): int
    requires 0 <= j < |code|
  {
    if Carries(code, j) then vtarget else dtarget
  }

  /** The code after every jump in `js` has been sent to its target. */
  function PatchAt(code: seq<Instr>, js: set<int>, reg: int, vtarget: int, dtarget: int, i: int): Instr
    requires 0 <= i < |code|
  {
    if i in js then Jmp(Target(code, i, vtarget, dtarget) - (i + 1))
    else if i + 1 in js && code[i].TestSet? then Retarget(code[i], reg)
    else code[i]
  }

  function PatchCode(code: seq<Instr>, js: set<int>, reg: int, vtarget: int, dtarget: int): seq<Instr> {
    seq(|code|, i requires 0 <= i < |code| => PatchAt(code, js, reg, vtarget, dtarget, i))
  }

  /** The state after a patched jump: a carried value lands in `reg`. */
  function Landed(code: seq<Instr>, j: int, reg: int, s: State): State
    requires 0 <= j < |code|
  {
    if Carries(code, j) && reg != NO_REG && reg != Control(code, j).b
    then Set(s, reg, Get(s.regs, Control(code, j).b))
    else s
  }

  /** No test ends just before `q`, so control may arrive at `q`. */
  predicate Entry(code: seq<Instr>, q: int) {
    1 <= q <= |code| ==> !IsTest(code[q - 1])
  }

  /** A test is followed by its jump; a TESTSET has no register exactly when it controls an open jump;
      control never arrives between a test and its jump. */
  ghost predicate InstrOk(code: seq<Instr>, open: set<int>, i: int)
    requires 0 <= i < |code|
  {
    && (IsTest(code[i]) ==> i + 1 < |code| && code[i + 1].Jmp?)
    && (code[i].TestSet? ==> (i + 1 in open <==> code[i].a == NO_REG))
    && (code[i].Jmp? && i !in open && code[i].sbx >= 0 ==> Entry(code, i + 1 + code[i].sbx))
    && (code[i].LoadBool? && code[i].skip ==> Entry(code, i + 2))
    && (code[i].LoadNil? ==> code[i].n >= 0)
  }

  ghost predicate OpenOk(code: seq<Instr>, open: set<int>) {
    && (forall j <- open :: 0 <= j < |code| && code[j].Jmp?)
    && (forall i | 0 <= i < |code| :: InstrOk(code, open, i))
  }

  ghost predicate Patches(
    code: seq<Instr>, open: set<int>, code': seq<Instr>, open': set<int>,
    js: set<int>, reg: int, vtarget: int, dtarget: int)
  {
    && OpenOk(code, open)
    && js <= open
    && |code| <= |code'| && code'[..|code|] == PatchCode(code, js, reg, vtarget, dtarget)
    && (forall j | 0 <= j < |code| :: j in open' <==> j in open - js)
    && (forall j <- js :: Target(code, j, vtarget, dtarget) > j)
  }

  lemma PatchedAt(
    code: seq<Instr>, open: set<int>, code': seq<Instr>, open': set<int>,
    js: set<int>, reg: int, vtarget: int, dtarget: int, i: int)
    requires Patches(code, open, code', open', js, reg, vtarget, dtarget)
    requires 0 <= i < |code|
    ensures code'[i] == PatchAt(code, js, reg, vtarget, dtarget, i)
  {
    assert code'[i] == code'[..|code|][i];
  }

  /** How one run of the old code relates to one run of the patched code. */
  ghost predicate Simulates(
    code: seq<Instr>, open: set<int>, code': seq<Instr>, open': set<int>,
    js: set<int>, reg: int, vtarget: int, dtarget: int, env: Env, out: Outcome, out': Outcome)
  {
    match out
    case Stuck => true
    case Fall(s1) => out' == Run(code', open', env, |code|, s1)
    case Exit(j, s1) =>
      && 0 <= j < |code| && j in open
      && out' == if j in js
                 then Run(code', open', env, Target(code, j, vtarget, dtarget), Landed(code, j, reg, s1))
                 else Exit(j, s1)
  }

  ghost predicate StepSimulates(
    code: seq<Instr>, open: set<int>, js: set<int>, reg: int, vtarget: int, dtarget: int,
    q: int, step: Step, step': Step)
  {
    match step
    case Halt => true
    case Goto(q1, s1) => step' == step && q1 > q && Entry(code, q1)
    case Leave(j, s1) =>
      && 0 <= j < |code| && j in open
      && step' == if j in js
                  then Goto(Target(code, j, vtarget, dtarget), Landed(code, j, reg, s1))
                  else step
  }

  lemma BranchSim(
    code: seq<Instr>, open: set<int>, code': seq<Instr>, open': set<int>,
    js: set<int>, reg: int, vtarget: int, dtarget: int, q: int, s: State, s': State, taken: bool)
    requires Patches(code, open, code', open', js, reg, vtarget, dtarget)
    requires 0 <= q < |code| && IsTest(code[q])
    requires s' == if taken && q + 1 in js then Landed(code, q + 1, reg, s) else s
    ensures StepSimulates(code, open, js, reg, vtarget, dtarget, q,
                          Branch(code, open, q, s, taken), Branch(code', open', q, s', taken))
  {
    assert InstrOk(code, open, q) && InstrOk(code, open, q + 1);
    PatchedAt(code, open, code', open', js, reg, vtarget, dtarget, q + 1);
  }

  lemma TestSetSim(
    code: seq<Instr>, open: set<int>, code': seq<Instr>, open': set<int>,
    js: set<int>, reg: int, vtarget: int, dtarget: int, env: Env, q: int, s: State)
    requires Patches(code, open, code', open', js, reg, vtarget, dtarget)
    requires 0 <= q < |code| && Entry(code, q) && code[q].TestSet?
    ensures StepSimulates(code, open, js, reg, vtarget, dtarget, q,
                          Next(code, open, env, q, s), Next(code', open', env, q, s))
  {
    assert InstrOk(code, open, q);
    PatchedAt(code, open, code', open', js, reg, vtarget, dtarget, q);
    var i := code[q];
    var v := Get(s.regs, i.b);
    var taken := IsFalse(v) != i.accept;
    if q + 1 in js {
      assert i.a == NO_REG;
      assert Control(code, q + 1) == i;
      var s' := if taken then Landed(code, q + 1, reg, s) else s;
      BranchSim(code, open, code', open', js, reg, vtarget, dtarget, q, s, s', taken);
    } else {
      assert code'[q] == i;
      var s1 := if taken && i.a != NO_REG then Set(s, i.a, v) else s;
      BranchSim(code, open, code', open', js, reg, vtarget, dtarget, q, s1, s1, taken);
    }
  }

  lemma NextSim(
    code: seq<Instr>, open: set<int>, code': seq<Instr>, open': set<int>,
    js: set<int>, reg: int, vtarget: int, dtarget: int, env: Env, q: int, s: State)
    requires Patches(code, open, code', open', js, reg, vtarget, dtarget)
    requires 0 <= q < |code| && Entry(code, q)
    ensures StepSimulates(code, open, js, reg, vtarget, dtarget, q,
                          Next(code, open, env, q, s), Next(code', open', env, q, s))
  {
    assert InstrOk(code, open, q);
    PatchedAt(code, open, code', open', js, reg, vtarget, dtarget, q);
    var i := code[q];
    if i.TestSet? {
      TestSetSim(code, open, code', open', js, reg, vtarget, dtarget, env, q, s);
    } else if i.Compare? {
      var ev := Comparison(i.cmp, RK(env, s, i.b), RK(env, s, i.c));
      var s1 := s.(tr := s.tr + [ev]);
      assert q + 1 in js ==> !Carries(code, q + 1);
      BranchSim(code, open, code', open', js, reg, vtarget, dtarget, q, s1, s1, env.holds(s.tr, ev) == i.accept);
    } else if i.Test? {
      assert q + 1 in js ==> !Carries(code, q + 1);
      BranchSim(code, open, code', open', js, reg, vtarget, dtarget, q, s, s, IsFalse(Get(s.regs, i.a)) != i.accept);
    } else if i.Jmp? {
      assert !Carries(code, q);
    } else {
      assert code'[q] == i;
      if i.LoadKX? && q + 1 < |code| {
        PatchedAt(code, open, code', open', js, reg, vtarget, dtarget, q + 1);
      }
    }
  }

  /** Patching the open jumps in `js` and appending code changes a run only by sending the
      patched exits, and the fall through the old end, on their way. */
  lemma {:induction false} RunSim(
    code: seq<Instr>, open: set<int>, code': seq<Instr>, open': set<int>,
    js: set<int>, reg: int, vtarget: int, dtarget: int, env: Env, q: int, s: State)
    requires Patches(code, open, code', open', js, reg, vtarget, dtarget)
    requires Entry(code, q)
    ensures Simulates(code, open, code', open', js, reg, vtarget, dtarget, env,
                      Run(code, open, env, q, s), Run(code', open', env, q, s))
    decreases |code| - q
  {
    if 0 <= q < |code| {
      NextSim(code, open, code', open', js, reg, vtarget, dtarget, env, q, s);
      match Next(code, open, env, q, s) {
        case Halt =>
        case Leave(j, s1) =>
        case Goto(q1, s1) =>
          RunSim(code, open, code', open', js, reg, vtarget, dtarget, env, q1, s1);
      }
    }
  }
}
