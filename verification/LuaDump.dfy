/** Writing a chunk to a writer that may fail. */
module LuaDump {
  import opened LuaChunk
  import LuaCut

  /** What the writer returns for a block, and how much of the block it takes if that is an error. */
  datatype Answer = Answer(status: int, taken: nat)

  lemma Plus(a: Bytes, b: Bytes, c: Bytes)
    ensures a + b + c == a + (b + c)
  {
  }

  lemma AllParts<T>(a: Bytes, xs: seq<T>, i: nat, f: T -> Bytes)
    requires i <= |xs|
    ensures i == |xs| ==> a + DumpAll(xs[i..], f) == a
    ensures i < |xs| ==> a + DumpAll(xs[i..], f) == a + f(xs[i]) + DumpAll(xs[i + 1..], f)
  {
    if i < |xs| {
      assert xs[i..][1..] == xs[i + 1..];
      Plus(a, f(xs[i]), DumpAll(xs[i + 1..], f));
    }
  }

  lemma VectorParts<T>(a: Bytes, xs: seq<T>, f: T -> Bytes)
    ensures a + DumpInt(|xs|) + DumpAll(xs[0..], f) == a + DumpVector(xs, f)
  {
    hide DumpInt, DumpAll;
    assert xs[0..] == xs;
    Plus(a, DumpInt(|xs|), DumpAll(xs, f));
  }

  lemma LocVarParts(a: Bytes, l: LocVar)
    ensures a + DumpString(l.varname) + DumpInt(l.startpc) + DumpInt(l.endpc) == a + DumpLocVar(l)
  {
    hide DumpString, DumpInt;
    Plus(a, DumpString(l.varname), DumpInt(l.startpc));
    Plus(a, DumpString(l.varname) + DumpInt(l.startpc), DumpInt(l.endpc));
  }

  lemma DebugParts(a: Bytes, d: Debug, us: seq<Upvalue>, strip: bool)
    ensures var s, l, v, u := DumpString(if strip then None else d.source),
              DumpVector(if strip then [] else d.lineinfo, DumpWord),
              DumpVector(if strip then [] else d.locvars, DumpLocVar), DumpVector(if strip then [] else us, DumpName);
            a + s + l + v + u == a + DumpDebug(d, us, strip)
  {
    hide DumpString, DumpInt, DumpWord, DumpLocVar, DumpName;
    var s := DumpString(if strip then None else d.source);
    var l := DumpVector(if strip then [] else d.lineinfo, DumpWord);
    var v := DumpVector(if strip then [] else d.locvars, DumpLocVar);
    assert DumpInt(0) + [] == DumpInt(0);
    Plus(a, s, l);
    Plus(a, s + l, v);
    Plus(a, s + l + v, DumpVector(if strip then [] else us, DumpName));
  }

  lemma StartParts(a: Bytes, f: Proto)
    ensures a + DumpInt(f.linedefined) + DumpInt(f.lastlinedefined) + [f.numparams] + [f.isVararg] + [f.maxstacksize]
            + DumpVector(f.code, DumpWord) + DumpVector(f.k, DumpConstant) + DumpInt(|f.p|) == a + DumpStart(f)
  {
    hide DumpVector, DumpInt, DumpWord, DumpConstant;
    var i := DumpInt(f.linedefined) + DumpInt(f.lastlinedefined);
    var b: Bytes := [f.numparams, f.isVararg, f.maxstacksize];
    Plus(a, DumpInt(f.linedefined), DumpInt(f.lastlinedefined));
    assert a + i + [f.numparams] + [f.isVararg] + [f.maxstacksize] == a + i + b;
    Plus(a, i, b);
    Plus(a, i + b, DumpVector(f.code, DumpWord));
    Plus(a, i + b + DumpVector(f.code, DumpWord), DumpVector(f.k, DumpConstant));
    Plus(a, i + b + DumpVector(f.code, DumpWord) + DumpVector(f.k, DumpConstant), DumpInt(|f.p|));
  }

  lemma FunctionParts(a: Bytes, f: Proto, strip: bool)
    ensures a + DumpStart(f) + DumpProtos(f, 0, strip) + DumpVector(f.upvalues, DumpUpvalue)
            + DumpDebug(f.debug, f.upvalues, strip) == a + DumpFunction(f, strip)
  {
    hide DumpStart, DumpProtos, DumpVector, DumpDebug, DumpUpvalue;
    var u, d := DumpVector(f.upvalues, DumpUpvalue), DumpDebug(f.debug, f.upvalues, strip);
    Plus(a, DumpStart(f), DumpProtos(f, 0, strip));
    Plus(a + (DumpStart(f) + DumpProtos(f, 0, strip)), u, d);
    Plus(a, DumpStart(f) + DumpProtos(f, 0, strip), u + d);
  }

  lemma ProtosParts(a: Bytes, f: Proto, i: nat, strip: bool)
    requires i <= |f.p|
    ensures i == |f.p| ==> a + DumpProtos(f, i, strip) == a
    ensures i < |f.p| ==>
              a + DumpProtos(f, i, strip) == a + DumpFunction(f.p[i], strip) + DumpProtos(f, i + 1, strip)
  {
    hide DumpFunction;
    if i < |f.p| { Plus(a, DumpFunction(f.p[i], strip), DumpProtos(f, i + 1, strip)); }
  }

  class DumpState {
    const strip: bool
    var answers: seq<Answer>
    var out: Bytes
    var status: int
    /** Every byte that was to be written. */
    ghost var asked: Bytes

    constructor (answers: seq<Answer>, strip: bool)
      ensures Valid() && asked == [] && this.strip == strip
    {
      this.answers, this.strip, out, status, asked := answers, strip, [], 0, [];
    }

    ghost predicate Valid() reads this { out <= asked && (status == 0 ==> out == asked) }

    /** `d` was to be written; nothing is written after an error. */
    twostate predicate Asked(d: Bytes)
      reads this
    {
      Valid() && asked == old(asked) + d && (old(status) != 0 ==> out == old(out) && status == old(status))
    }

    /** A writer that is not told otherwise takes the whole block. */
    method Block(b: Bytes)
      requires Valid()
      modifies this
      ensures Asked(b)
    {
      asked := asked + b;
      if status == 0 {
        var a := if answers == [] then Answer(0, 0) else answers[0];
        answers := if answers == [] then [] else answers[1..];
        status := a.status;
        out := out + if status == 0 || a.taken > |b| then b else b[..a.taken];
      }
    }

    method Int(x: nat)
      requires Valid()
      modifies this
      ensures Asked(DumpInt(x))
    {
      Block(Little(x, 4));
    }

    method String(s: Option<Bytes>)
      requires Valid()
      modifies this
      ensures Asked(DumpString(s))
    {
      if s.None? {
        Block(Little(0, 8));
      } else {
        Block(Little(|s.value| + 1, 8));
        Block(s.value + [0]);
        assert DumpString(s) == Little(|s.value| + 1, 8) + (s.value + [0]);
      }
    }

    /** Words go out in one block. */
    method Words(xs: seq<nat>)
      requires Valid()
      modifies this
      ensures Asked(DumpVector(xs, DumpWord))
    {
      Int(|xs|);
      Block(DumpAll(xs, DumpWord));
    }

    method Constant(c: Constant)
      requires Valid()
      modifies this
      ensures Asked(DumpConstant(c))
    {
      hide Little, DumpString;
      match c {
        case Nil => Block([LUA_TNIL]);
        case Boolean(b) => Block([LUA_TBOOLEAN]); Block([if b then 1 else 0]);
        case Number(n) => Block([LUA_TNUMBER]); Block(Little(n, 8));
        case Str(s) => Block([LUA_TSTRING]); String(Some(s));
      }
    }

    method Constants(k: seq<Constant>)
      requires Valid()
      modifies this
      ensures Asked(DumpVector(k, DumpConstant))
    {
      hide DumpVector, DumpAll, DumpInt, DumpConstant, DumpString;
      VectorParts(asked, k, DumpConstant);
      Int(|k|);
      ghost var all := asked + DumpAll(k[0..], DumpConstant);
      for i := 0 to |k|
        invariant Valid() && asked + DumpAll(k[i..], DumpConstant) == all
        invariant old(status) != 0 ==> out == old(out) && status == old(status)
      {
        AllParts(asked, k, i, DumpConstant);
        Constant(k[i]);
      }
      AllParts(asked, k, |k|, DumpConstant);
    }

    method Upvalues(us: seq<Upvalue>)
      requires Valid()
      modifies this
      ensures Asked(DumpVector(us, DumpUpvalue))
    {
      hide DumpVector, DumpAll, DumpInt, Little;
      VectorParts(asked, us, DumpUpvalue);
      Int(|us|);
      ghost var all := asked + DumpAll(us[0..], DumpUpvalue);
      for i := 0 to |us|
        invariant Valid() && asked + DumpAll(us[i..], DumpUpvalue) == all
        invariant old(status) != 0 ==> out == old(out) && status == old(status)
      {
        AllParts(asked, us, i, DumpUpvalue);
        Plus(asked, [us[i].instack], [us[i].idx]);
        Block([us[i].instack]);
        Block([us[i].idx]);
      }
      AllParts(asked, us, |us|, DumpUpvalue);
    }

    method LocVars(ls: seq<LocVar>)
      requires Valid()
      modifies this
      ensures Asked(DumpVector(ls, DumpLocVar))
    {
      hide DumpVector, DumpAll, DumpInt, DumpLocVar, DumpString;
      VectorParts(asked, ls, DumpLocVar);
      Int(|ls|);
      ghost var all := asked + DumpAll(ls[0..], DumpLocVar);
      for i := 0 to |ls|
        invariant Valid() && asked + DumpAll(ls[i..], DumpLocVar) == all
        invariant old(status) != 0 ==> out == old(out) && status == old(status)
      {
        AllParts(asked, ls, i, DumpLocVar);
        LocVarParts(asked, ls[i]);
        String(ls[i].varname);
        Int(ls[i].startpc);
        Int(ls[i].endpc);
      }
      AllParts(asked, ls, |ls|, DumpLocVar);
    }

    method Names(us: seq<Upvalue>)
      requires Valid()
      modifies this
      ensures Asked(DumpVector(us, DumpName))
    {
      hide DumpVector, DumpAll, DumpInt, Little;
      VectorParts(asked, us, DumpName);
      Int(|us|);
      ghost var all := asked + DumpAll(us[0..], DumpName);
      for i := 0 to |us|
        invariant Valid() && asked + DumpAll(us[i..], DumpName) == all
        invariant old(status) != 0 ==> out == old(out) && status == old(status)
      {
        AllParts(asked, us, i, DumpName);
        String(us[i].name);
      }
      AllParts(asked, us, |us|, DumpName);
    }

    method Debug(d: Debug, us: seq<Upvalue>)
      requires Valid()
      modifies this
      ensures Asked(DumpDebug(d, us, strip))
    {
      hide DumpString, DumpVector, DumpWord, DumpLocVar, DumpName, DumpDebug;
      DebugParts(asked, d, us, strip);
      String(if strip then None else d.source);
      Words(if strip then [] else d.lineinfo);
      LocVars(if strip then [] else d.locvars);
      Names(if strip then [] else us);
    }

    method Function(f: Proto)
      requires Valid()
      modifies this
      ensures Asked(DumpFunction(f, strip))
      decreases f, 1
    {
      hide DumpInt, DumpVector, DumpWord, DumpConstant, DumpUpvalue, DumpStart, DumpProtos, DumpDebug, DumpFunction;
      StartParts(asked, f);
      FunctionParts(asked, f, strip);
      Int(f.linedefined);
      Int(f.lastlinedefined);
      Block([f.numparams]);
      Block([f.isVararg]);
      Block([f.maxstacksize]);
      Words(f.code);
      Constants(f.k);
      Plus(asked, DumpInt(|f.p|), DumpProtos(f, 0, strip));
      Protos(f);
      Upvalues(f.upvalues);
      Debug(f.debug, f.upvalues);
    }

    method Protos(f: Proto)
      requires Valid()
      modifies this
      ensures Asked(DumpInt(|f.p|) + DumpProtos(f, 0, strip))
      decreases f, 0
    {
      hide DumpInt, DumpFunction, DumpProtos;
      Plus(asked, DumpInt(|f.p|), DumpProtos(f, 0, strip));
      Int(|f.p|);
      ghost var all := asked + DumpProtos(f, 0, strip);
      for i := 0 to |f.p|
        invariant Valid() && asked + DumpProtos(f, i, strip) == all
        invariant old(status) != 0 ==> out == old(out) && status == old(status)
      {
        ProtosParts(asked, f, i, strip);
        Function(f.p[i]);
      }
      ProtosParts(asked, f, |f.p|, strip);
    }
  }

  /** Dumps a prototype. Without an error all of it is written; what a failing writer took is rejected as truncated,
      unless it was everything. */
  method Dump(f: Proto, answers: seq<Answer>, strip: bool) returns (out: Bytes, status: int)
    ensures status == 0 ==> out == DumpChunk(f, strip)
    ensures out <= DumpChunk(f, strip)
    ensures Fits(f) && out != [] && out != DumpChunk(f, strip) ==> LoadChunk(out[1..]) == Bad(Truncated)
  {
    hide LoadChunk, DumpFunction, Fits;
    var d := new DumpState(answers, strip);
    d.Block(HEADER);
    d.Function(f);
    out, status := d.out, d.status;
    if Fits(f) && out != [] && out != DumpChunk(f, strip) {
      assert DumpChunk(f, strip)[..|out|] == out;
      LuaCut.CutShort(f, strip, |out|);
    }
  }
}
