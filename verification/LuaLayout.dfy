/** Where the parts of a prototype stand in its binary form, byte by byte. */
module LuaLayout {
  import opened LuaChunk

  /** A whole number takes four bytes, the lowest first. */
  lemma IntLayout(x: nat)
    ensures Little(x, 4) == [x % 256, x / 256 % 256, x / 65536 % 256, x / 16777216 % 256]
  {
    hide Little;
    var y, z, u := x / 256, x / 256 / 256, x / 256 / 256 / 256;
    LittleStep(x, 3);
    LittleStep(y, 2);
    LittleStep(z, 1);
    LittleStep(u, 0);
    assert z == x / 65536 && u == x / 16777216;
  }

  lemma LittleStep(x: nat, n: nat)
    ensures Little(x, n + 1) == [x % 256] + Little(x / 256, n) && Little(x, 0) == []
  {
  }

  /** Eight bytes are two times four. */
  lemma SizeLayout(x: nat)
    ensures Little(x, 8) == Little(x, 4) + Little(x / 0x1_0000_0000, 4)
  {
    hide Little;
    LittleSplit(x, 4, 4);
    assert Shift(x, 4) == Shift(x / 256, 3) == Shift(x / 256 / 256, 2) == x / 256 / 256 / 256 / 256;
  }

  function Shift(x: nat, n: nat): nat { if n == 0 then x else Shift(x / 256, n - 1) }

  lemma {:induction false} LittleSplit(x: nat, m: nat, n: nat)
    ensures Little(x, m + n) == Little(x, m) + Little(Shift(x, m), n)
  {
    if m > 0 {
      LittleSplit(x / 256, m - 1, n);
      assert (m + n) - 1 == (m - 1) + n;
    }
  }

  /** Elements that take four bytes each. */
  lemma {:induction false} EvenParts(xs: seq<nat>, i: nat)
    requires i < |xs|
    ensures |DumpAll(xs, DumpWord)| == 4 * |xs| && DumpAll(xs, DumpWord)[4 * i..4 * i + 4] == Little(xs[i], 4)
  {
    hide Little, DumpAll;
    AllStep(xs);
    EvenLength(xs[1..]);
    var d, rest := DumpAll(xs, DumpWord), DumpAll(xs[1..], DumpWord);
    if i > 0 {
      EvenParts(xs[1..], i - 1);
      assert d[4 * i..4 * i + 4] == rest[4 * (i - 1)..4 * (i - 1) + 4];
    } else {
      assert d[..4] == Little(xs[0], 4);
    }
  }

  lemma AllStep(xs: seq<nat>)
    requires xs != []
    ensures DumpAll(xs, DumpWord) == Little(xs[0], 4) + DumpAll(xs[1..], DumpWord)
  {
  }

  lemma {:induction false} EvenLength(xs: seq<nat>)
    ensures |DumpAll(xs, DumpWord)| == 4 * |xs|
  {
    if xs != [] {
      AllStep(xs);
      EvenLength(xs[1..]);
    }
  }

  /** The fixed part of a prototype, its instructions, and the number of its constants. */
  lemma FunctionLayout(f: Proto, strip: bool)
    ensures var d, n := DumpFunction(f, strip), |f.code|;
            && |d| >= 19 + 4 * n
            && d[..4] == Little(f.linedefined, 4) && d[4..8] == Little(f.lastlinedefined, 4)
            && d[8] == f.numparams && d[9] == f.isVararg && d[10] == f.maxstacksize
            && d[11..15] == Little(n, 4)
            && (forall i | 0 <= i < n :: d[15 + 4 * i..19 + 4 * i] == Little(f.code[i], 4))
            && d[15 + 4 * n..19 + 4 * n] == Little(|f.k|, 4)
  {
    hide Little, DumpAll, DumpFunction, Fixed;
    var d, n := DumpFunction(f, strip), |f.code|;
    var code, k := DumpAll(f.code, DumpWord), Little(|f.k|, 4);
    EvenLength(f.code);
    FunctionParts(f, strip);
    var rest := d[19 + 4 * n..];
    assert d == Fixed(f) + (code + (k + rest));
    FixedLayout(f);
    assert d[..15] == Fixed(f) && d[15..15 + 4 * n] == code;
    forall i | 0 <= i < n ensures d[15 + 4 * i..19 + 4 * i] == Little(f.code[i], 4) {
      EvenParts(f.code, i);
      assert d[15 + 4 * i..19 + 4 * i] == code[4 * i..4 * i + 4];
    }
  }

  function Fixed(f: Proto): Bytes {
    Little(f.linedefined, 4) + Little(f.lastlinedefined, 4) + [f.numparams, f.isVararg, f.maxstacksize]
    + Little(|f.code|, 4)
  }

  lemma FixedLayout(f: Proto)
    ensures var d := Fixed(f);
            && |d| == 15 && d[..4] == Little(f.linedefined, 4) && d[4..8] == Little(f.lastlinedefined, 4)
            && d[8] == f.numparams && d[9] == f.isVararg && d[10] == f.maxstacksize && d[11..15] == Little(|f.code|, 4)
  {
    hide Little;
  }

  lemma FunctionParts(f: Proto, strip: bool)
    ensures var d, code, k := DumpFunction(f, strip), DumpAll(f.code, DumpWord), Little(|f.k|, 4);
            |d| >= 19 + |code| && d == Fixed(f) + (code + (k + d[19 + |code|..]))
  {
    hide Little, DumpConstant, DumpAll, DumpProtos, DumpEnd, DumpWord;
    var d, code, k := DumpFunction(f, strip), DumpAll(f.code, DumpWord), Little(|f.k|, 4);
    var rest := DumpAll(f.k, DumpConstant) + DumpInt(|f.p|) + DumpProtos(f, 0, strip) + DumpEnd(f, strip);
    assert d == Fixed(f) + (code + (k + rest));
    assert d[19 + |code|..] == rest;
  }

  /** A constant starts with the number of its type. */
  lemma ConstantLayout(c: Constant)
    ensures var d := DumpConstant(c);
            && d != []
            && d[0] == (if c.Nil? then 0 else if c.Boolean? then 1 else if c.Number? then 3 else 4)
            && (c.Nil? ==> |d| == 1)
            && (c.Boolean? ==> |d| == 2 && d[1] == if c.b then 1 else 0)
            && (c.Number? ==> d[1..] == Little(c.bits, 8))
            && (c.Str? ==> |d| == 10 + |c.s| && d[1..9] == Little(|c.s| + 1, 8))
            && (c.Str? ==> d[9..|d| - 1] == c.s && d[|d| - 1] == 0)
  {
  }

  /** Escape and name, version and format, byte order, four sizes, kind of numbers, tail. */
  lemma HeaderLayout()
    ensures |HEADER| == 18
    ensures HEADER[0] == 27 && forall i | 0 <= i < 3 :: HEADER[1 + i] as char == "Lua"[i]
    ensures HEADER[4] == 5 * 16 + 2 && HEADER[5] == 0 && HEADER[6] == 1
    ensures HEADER[7..12] == [4, 8, 4, 8, 0]
    ensures HEADER[12] == 0x19 && HEADER[13] == 0x93 && HEADER[14] as char == '\r' && HEADER[15] as char == '\n'
            && HEADER[16] == 26 && HEADER[17] as char == '\n'
  {
    assert "Lua" == ['L', 'u', 'a'];
  }
}
