/** The binary form of a function prototype. */
module LuaChunk {

  type Byte = x: nat | x < 256

  datatype Option<+T> = None | Some(value: T)

  type Bytes = seq<Byte>

  /** A number is kept as its 64 bits; a string that is absent is none. */
  datatype Constant = Nil | Boolean(b: bool) | Number(bits: nat) | Str(s: Bytes)

  datatype Upvalue = Upvalue(instack: Byte, idx: Byte, name: Option<Bytes>)

  datatype LocVar = LocVar(varname: Option<Bytes>, startpc: nat, endpc: nat)

  /** The debug data of a prototype, except the names of upvalues. */
  datatype Debug = Debug(source: Option<Bytes>, lineinfo: seq<nat>, locvars: seq<LocVar>)

  datatype Proto = Proto(
    linedefined: nat, lastlinedefined: nat, numparams: Byte, isVararg: Byte, maxstacksize: Byte,
    code: seq<nat>, k: seq<Constant>, p: seq<Proto>, upvalues: seq<Upvalue>, debug: Debug)

  const INT_RANGE: nat := 0x8000_0000
  const WORD_RANGE: nat := 0x1_0000_0000
  const SIZE_RANGE: nat := 0x1_0000_0000_0000_0000

  const LUA_TNIL: Byte := 0
  const LUA_TBOOLEAN: Byte := 1
  const LUA_TNUMBER: Byte := 3
  const LUA_TSTRING: Byte := 4

  /** Signature, version 5.2, format 0, little endian, the sizes of int, size_t, instructions and numbers, no
      integral numbers, and the tail that detects converted files. */
  const HEADER: Bytes := [0x1b, 0x4c, 0x75, 0x61, 0x52, 0, 1, 4, 8, 4, 8, 0, 0x19, 0x93, 0x0d, 0x0a, 0x1a, 0x0a]

  // ---------- what is written ----------

  function Pow256(n: nat): nat { if n == 0 then 1 else 256 * Pow256(n - 1) }

  /** The `n` bytes of a number, the lowest first. */
  function Little(x: nat, n: nat): (r: Bytes)
    ensures |r| == n
  {
    if n == 0 then [] else [x % 256] + Little(x / 256, n - 1)
  }

  function OfLittle(b: Bytes): nat { if b == [] then 0 else b[0] + 256 * OfLittle(b[1..]) }

  lemma {:induction false} LittleBack(x: nat, n: nat)
    requires x < Pow256(n)
    ensures OfLittle(Little(x, n)) == x
  {
    if n > 0 { LittleBack(x / 256, n - 1); }
  }

  function DumpInt(x: nat): Bytes { Little(x, 4) }

  function DumpString(s: Option<Bytes>): Bytes {
    match s
    case None => Little(0, 8)
    case Some(b) => Little(|b| + 1, 8) + b + [0]
  }

  function DumpConstant(c: Constant): Bytes {
    match c
    case Nil => [LUA_TNIL]
    case Boolean(b) => [LUA_TBOOLEAN, if b then 1 else 0]
    case Number(n) => [LUA_TNUMBER] + Little(n, 8)
    case Str(s) => [LUA_TSTRING] + DumpString(Some(s))
  }

  function DumpUpvalue(u: Upvalue): Bytes { [u.instack, u.idx] }

  function DumpLocVar(l: LocVar): Bytes { DumpString(l.varname) + DumpInt(l.startpc) + DumpInt(l.endpc) }

  function DumpName(u: Upvalue): Bytes { DumpString(u.name) }

  function DumpWord(x: nat): Bytes { Little(x, 4) }

  function DumpAll<T>(xs: seq<T>, f: T -> Bytes): Bytes {
    if xs == [] then [] else f(xs[0]) + DumpAll(xs[1..], f)
  }

  /** The number of elements and the elements. */
  function DumpVector<T>(xs: seq<T>, f: T -> Bytes): Bytes { DumpInt(|xs|) + DumpAll(xs, f) }

  function DumpDebug(d: Debug, us: seq<Upvalue>, strip: bool): Bytes {
    if strip then DumpString(None) + DumpInt(0) + DumpInt(0) + DumpInt(0)
    else DumpString(d.source) + DumpVector(d.lineinfo, DumpWord) + DumpVector(d.locvars, DumpLocVar)
         + DumpVector(us, DumpName)
  }

  /** What comes before the nested prototypes. */
  function DumpStart(f: Proto): Bytes {
    DumpInt(f.linedefined) + DumpInt(f.lastlinedefined) + [f.numparams, f.isVararg, f.maxstacksize]
    + DumpVector(f.code, DumpWord) + DumpVector(f.k, DumpConstant) + DumpInt(|f.p|)
  }

  /** What comes after them. */
  function DumpEnd(f: Proto, strip: bool): Bytes {
    DumpVector(f.upvalues, DumpUpvalue) + DumpDebug(f.debug, f.upvalues, strip)
  }

  function DumpFunction(f: Proto, strip: bool): Bytes
    decreases f, |f.p| + 2
  {
    DumpStart(f) + DumpProtos(f, 0, strip) + DumpEnd(f, strip)
  }

  /** The nested prototypes from number `i` on. */
  function DumpProtos(f: Proto, i: nat, strip: bool): Bytes
    requires i <= |f.p|
    decreases f, |f.p| + 1 - i
  {
    if i == |f.p| then [] else DumpFunction(f.p[i], strip) + DumpProtos(f, i + 1, strip)
  }

  // ---------- what is read ----------

  datatype Failure = Truncated | Corrupted | NotAChunk | VersionMismatch | Incompatible

  datatype Loaded<+T> = Ok(value: T, rest: Bytes) | Bad(why: Failure)

  function LoadBlock(s: Bytes, n: nat): (r: Loaded<Bytes>)
    ensures r.Ok? ==> |r.rest| + n == |s| && |r.value| == n
  {
    if n <= |s| then Ok(s[..n], s[n..]) else Bad(Truncated)
  }

  function LoadByte(s: Bytes): (r: Loaded<Byte>)
    ensures r.Ok? ==> |r.rest| < |s|
  { if s == [] then Bad(Truncated) else Ok(s[0], s[1..]) }

  function LoadWord(s: Bytes): (r: Loaded<nat>)
    ensures r.Ok? ==> |r.rest| < |s|
  {
    match LoadBlock(s, 4)
    case Bad(e) => Bad(e)
    case Ok(b, rest) => Ok(OfLittle(b), rest)
  }

  /** A negative number is an error. */
  function LoadInt(s: Bytes): (r: Loaded<nat>)
    ensures r.Ok? ==> |r.rest| < |s|
  {
    match LoadWord(s)
    case Bad(e) => Bad(e)
    case Ok(x, rest) => if x >= INT_RANGE then Bad(Corrupted) else Ok(x, rest)
  }

  function LoadString(s: Bytes): (r: Loaded<Option<Bytes>>)
    ensures r.Ok? ==> |r.rest| < |s|
  {
    match LoadBlock(s, 8)
    case Bad(e) => Bad(e)
    case Ok(b, rest) =>
      var size := OfLittle(b);
      if size == 0 then Ok(None, rest)
      else match LoadBlock(rest, size)
        case Bad(e) => Bad(e)
        case Ok(t, rest') => Ok(Some(t[..size - 1]), rest')
  }

  /** What follows the tag of a constant; an unknown tag leaves nil. */
  function LoadTagged(t: Byte, s: Bytes): (r: Loaded<Constant>)
    ensures r.Ok? ==> |r.rest| <= |s|
  {
    if t == LUA_TBOOLEAN then
      match LoadByte(s)
      case Bad(e) => Bad(e)
      case Ok(b, rest) => Ok(Boolean(b != 0), rest)
    else if t == LUA_TNUMBER then
      match LoadBlock(s, 8)
      case Bad(e) => Bad(e)
      case Ok(b, rest) => Ok(Number(OfLittle(b)), rest)
    else if t == LUA_TSTRING then
      match LoadString(s)
      case Bad(e) => Bad(e)
      case Ok(o, rest) => Ok(if o.None? then Nil else Str(o.value), rest)
    else Ok(Nil, s)
  }

  function LoadConstant(s: Bytes): (r: Loaded<Constant>)
    ensures r.Ok? ==> |r.rest| < |s|
  {
    match LoadByte(s)
    case Bad(e) => Bad(e)
    case Ok(t, rest) => LoadTagged(t, rest)
  }

  function LoadUpvalue(s: Bytes): (r: Loaded<Upvalue>)
    ensures r.Ok? ==> |r.rest| < |s|
  {
    match LoadBlock(s, 2)
    case Bad(e) => Bad(e)
    case Ok(b, rest) => Ok(Upvalue(b[0], b[1], None), rest)
  }

  function LoadLocVar(s: Bytes): (r: Loaded<LocVar>)
    ensures r.Ok? ==> |r.rest| < |s|
  {
    match LoadString(s)
    case Bad(e) => Bad(e)
    case Ok(name, s1) =>
      match LoadInt(s1)
      case Bad(e) => Bad(e)
      case Ok(start, s2) =>
        match LoadInt(s2)
        case Bad(e) => Bad(e)
        case Ok(end, rest) => Ok(LocVar(name, start, end), rest)
  }

  /** Reading takes bytes away. */
  ghost predicate Shrinks<T>(f: Bytes -> Loaded<T>) { forall s :: f(s).Ok? ==> |f(s).rest| <= |s| }

  function LoadAll<T>(s: Bytes, n: nat, f: Bytes -> Loaded<T>): (r: Loaded<seq<T>>)
    requires Shrinks(f)
    ensures r.Ok? ==> |r.value| == n && |r.rest| <= |s|
    decreases n
  {
    if n == 0 then Ok([], s)
    else match f(s)
      case Bad(e) => Bad(e)
      case Ok(x, s1) =>
        match LoadAll(s1, n - 1, f)
        case Bad(e) => Bad(e)
        case Ok(xs, rest) => Ok([x] + xs, rest)
  }

  function LoadVector<T>(s: Bytes, f: Bytes -> Loaded<T>): (r: Loaded<seq<T>>)
    requires Shrinks(f)
    ensures r.Ok? ==> |r.rest| < |s|
  {
    match LoadInt(s)
    case Bad(e) => Bad(e)
    case Ok(n, rest) => LoadAll(rest, n, f)
  }

  // ---------- reading gives back what was written ----------

  lemma BlockBack(b: Bytes, rest: Bytes)
    ensures LoadBlock(b + rest, |b|) == Ok(b, rest)
  {
  }

  lemma WordBack(x: nat, rest: Bytes)
    requires x < WORD_RANGE
    ensures LoadWord(DumpWord(x) + rest) == Ok(x, rest) && DumpInt(x) == DumpWord(x)
    ensures x < INT_RANGE ==> LoadInt(DumpInt(x) + rest) == Ok(x, rest)
  {
    assert Pow256(4) == WORD_RANGE;
    LittleBack(x, 4);
    BlockBack(DumpWord(x), rest);
  }

  lemma SizeBack(x: nat)
    requires x < SIZE_RANGE
    ensures OfLittle(Little(x, 8)) == x
  {
    assert Pow256(4) == WORD_RANGE;
    assert Pow256(8) == SIZE_RANGE;
    LittleBack(x, 8);
  }

  predicate StringFits(s: Option<Bytes>) { s.Some? ==> |s.value| + 1 < SIZE_RANGE }

  lemma StringBack(s: Option<Bytes>, rest: Bytes)
    requires StringFits(s)
    ensures LoadString(DumpString(s) + rest) == Ok(s, rest)
  {
    var size := if s.None? then 0 else |s.value| + 1;
    SizeBack(size);
    var more := if s.None? then rest else s.value + [0] + rest;
    assert DumpString(s) + rest == Little(size, 8) + more;
    BlockBack(Little(size, 8), more);
    if s.Some? {
      BlockBack(s.value + [0], rest);
      assert (s.value + [0])[..size - 1] == s.value;
    }
  }

  predicate ConstantFits(c: Constant) {
    (c.Number? ==> c.bits < SIZE_RANGE) && (c.Str? ==> StringFits(Some(c.s)))
  }

  lemma ConstantBack(c: Constant, rest: Bytes)
    requires ConstantFits(c)
    ensures LoadConstant(DumpConstant(c) + rest) == Ok(c, rest)
  {
    hide Little, OfLittle, LoadBlock, LoadString, DumpString;
    var s := DumpConstant(c) + rest;
    match c {
      case Nil => assert s[1..] == rest;
      case Boolean(b) => assert s[1..][1..] == rest;
      case Number(n) =>
        SizeBack(n);
        assert s[1..] == Little(n, 8) + rest;
        BlockBack(Little(n, 8), rest);
      case Str(t) =>
        assert s[1..] == DumpString(Some(t)) + rest;
        StringBack(Some(t), rest);
    }
  }

  lemma UpvalueBack(u: Upvalue, rest: Bytes)
    ensures LoadUpvalue(DumpUpvalue(u) + rest) == Ok(u.(name := None), rest)
  {
    BlockBack(DumpUpvalue(u), rest);
  }

  predicate LocVarFits(l: LocVar) { StringFits(l.varname) && l.startpc < INT_RANGE && l.endpc < INT_RANGE }

  lemma LocVarBack(l: LocVar, rest: Bytes)
    requires LocVarFits(l)
    ensures LoadLocVar(DumpLocVar(l) + rest) == Ok(l, rest)
  {
    var s2 := DumpInt(l.endpc) + rest;
    var s1 := DumpInt(l.startpc) + s2;
    assert DumpLocVar(l) + rest == DumpString(l.varname) + s1;
    StringBack(l.varname, s1);
    WordBack(l.startpc, s2);
    WordBack(l.endpc, rest);
  }

  function Each<T, U>(xs: seq<T>, back: T -> U): (r: seq<U>)
    ensures |r| == |xs| && forall i | 0 <= i < |xs| :: r[i] == back(xs[i])
  {
    if xs == [] then [] else [back(xs[0])] + Each(xs[1..], back)
  }

  /** Element by element: `back` is what is read for an element. */
  lemma {:induction false} AllBack<T,
                                         U>(xs: seq<T>, enc: T -> Bytes, dec: Bytes -> Loaded<U>, back: T -> U,
                                         rest: Bytes)
    requires Shrinks(dec) && forall x, r | x in xs :: dec(enc(x) + r) == Ok(back(x), r)
    ensures LoadAll(DumpAll(xs, enc) + rest, |xs|, dec) == Ok(Each(xs, back), rest)
  {
    if xs == [] {
      assert DumpAll(xs, enc) + rest == rest;
    } else {
      var s1 := DumpAll(xs[1..], enc) + rest;
      assert DumpAll(xs, enc) + rest == enc(xs[0]) + s1;
      AllBack(xs[1..], enc, dec, back, rest);
    }
  }

  lemma VectorBack<T, U>(xs: seq<T>, enc: T -> Bytes, dec: Bytes -> Loaded<U>, back: T -> U, rest: Bytes)
    requires Shrinks(dec) && |xs| < INT_RANGE && forall x, r | x in xs :: dec(enc(x) + r) == Ok(back(x), r)
    ensures LoadVector(DumpVector(xs, enc) + rest, dec) == Ok(Each(xs, back), rest)
  {
    hide DumpInt, DumpAll, LoadInt, LoadAll, Each;
    assert DumpVector(xs, enc) + rest == DumpInt(|xs|) + (DumpAll(xs, enc) + rest);
    WordBack(|xs|, DumpAll(xs, enc) + rest);
    AllBack(xs, enc, dec, back, rest);
  }

  /** A vector whose elements are read as they were written. */
  lemma SameBack<T>(xs: seq<T>, enc: T -> Bytes, dec: Bytes -> Loaded<T>, rest: Bytes)
    requires Shrinks(dec) && |xs| < INT_RANGE && forall x, r | x in xs :: dec(enc(x) + r) == Ok(x, r)
    ensures LoadVector(DumpVector(xs, enc) + rest, dec) == Ok(xs, rest)
  {
    VectorBack(xs, enc, dec, x => x, rest);
    assert Each(xs, x => x) == xs;
  }

  // ---------- whole prototypes ----------

  function LoadDebug(s: Bytes, n: nat): (r: Loaded<(Debug, seq<Option<Bytes>>)>)
    ensures r.Ok? ==> |r.rest| < |s|
  {
    match LoadString(s)
    case Bad(e) => Bad(e)
    case Ok(source, s1) =>
      match LoadVector(s1, LoadWord)
      case Bad(e) => Bad(e)
      case Ok(lines, s2) =>
        match LoadVector(s2, LoadLocVar)
        case Bad(e) => Bad(e)
        case Ok(locs, s3) =>
          match LoadVector(s3, LoadString)
          case Bad(e) => Bad(e)
          case Ok(names, rest) =>
            if |names| > n then Bad(Corrupted) else Ok((Debug(source, lines, locs), names), rest)
  }

  /** The names are given to the first upvalues. */
  function Named(us: seq<Upvalue>, names: seq<Option<Bytes>>): (r: seq<Upvalue>)
    ensures |r| == |us|
  {
    seq(|us|, i requires 0 <= i < |us| => if i < |names| then us[i].(name := names[i]) else us[i])
  }

  /** What comes before the nested prototypes, and their number. */
  function LoadStart(s: Bytes): (r: Loaded<(Proto, nat)>)
    ensures r.Ok? ==> |r.rest| < |s|
  {
    match LoadInt(s)
    case Bad(e) => Bad(e)
    case Ok(first, s1) =>
      match LoadInt(s1)
      case Bad(e) => Bad(e)
      case Ok(last, s2) =>
        match LoadBlock(s2, 3)
        case Bad(e) => Bad(e)
        case Ok(b, s3) =>
          match LoadVector(s3, LoadWord)
          case Bad(e) => Bad(e)
          case Ok(code, s4) =>
            match LoadVector(s4, LoadConstant)
            case Bad(e) => Bad(e)
            case Ok(k, s5) =>
              match LoadInt(s5)
              case Bad(e) => Bad(e)
              case Ok(n, rest) =>
                Ok((Proto(first, last, b[0], b[1], b[2], code, k, [], [], Debug(None, [], [])), n), rest)
  }

  function LoadFunction(s: Bytes): (r: Loaded<Proto>)
    ensures r.Ok? ==> |r.rest| < |s|
    decreases |s|, 0
  {
    match LoadStart(s)
    case Bad(e) => Bad(e)
    case Ok((f, n), s1) =>
      match LoadProtos(s1, n)
      case Bad(e) => Bad(e)
      case Ok(ps, s2) =>
        match LoadVector(s2, LoadUpvalue)
        case Bad(e) => Bad(e)
        case Ok(us, s3) =>
          match LoadDebug(s3, |us|)
          case Bad(e) => Bad(e)
          case Ok((d, names), rest) => Ok(f.(p := ps, upvalues := Named(us, names), debug := d), rest)
  }

  function LoadProtos(s: Bytes, n: nat): (r: Loaded<seq<Proto>>)
    ensures r.Ok? ==> |r.rest| <= |s| && |r.value| == n
    decreases |s|, 1
  {
    if n == 0 then Ok([], s)
    else match LoadFunction(s)
      case Bad(e) => Bad(e)
      case Ok(f, s1) =>
        match LoadProtos(s1, n - 1)
        case Bad(e) => Bad(e)
        case Ok(fs, rest) => Ok([f] + fs, rest)
  }

  // ---------- the round trip ----------

  /** The prototype with its debug data erased. */
  function Stripped(f: Proto, strip: bool): Proto {
    f.(p := seq(|f.p|, i requires 0 <= i < |f.p| => Stripped(f.p[i], strip)),
       upvalues := if strip then Each(f.upvalues, Unnamed) else f.upvalues,
       debug := if strip then Debug(None, [], []) else f.debug)
  }

  function Unnamed(u: Upvalue): Upvalue { u.(name := None) }

  predicate DebugFits(d: Debug) {
    && StringFits(d.source) && |d.lineinfo| < INT_RANGE && |d.locvars| < INT_RANGE
    && (forall x <- d.lineinfo :: x < WORD_RANGE) && forall l <- d.locvars :: LocVarFits(l)
  }

  /** Numbers and sizes are within the ranges of their C types. */
  predicate Fits(f: Proto) {
    && f.linedefined < INT_RANGE && f.lastlinedefined < INT_RANGE
    && |f.code| < INT_RANGE && |f.k| < INT_RANGE && |f.p| < INT_RANGE && |f.upvalues| < INT_RANGE
    && (forall x <- f.code :: x < WORD_RANGE) && (forall c <- f.k :: ConstantFits(c))
    && (forall u <- f.upvalues :: StringFits(u.name)) && DebugFits(f.debug)
    && forall g <- f.p :: Fits(g)
  }

  lemma NamesBack(us: seq<Upvalue>, names: seq<Option<Bytes>>)
    requires |names| == |us| && forall i | 0 <= i < |us| :: names[i] == us[i].name
    ensures Named(Each(us, Unnamed), names) == us
  {
  }

  lemma WordsBack(xs: seq<nat>, rest: Bytes)
    requires |xs| < INT_RANGE && forall x <- xs :: x < WORD_RANGE
    ensures LoadVector(DumpVector(xs, DumpWord) + rest, LoadWord) == Ok(xs, rest)
  {
    forall x, r | x in xs ensures LoadWord(DumpWord(x) + r) == Ok(x, r) { WordBack(x, r); }
    SameBack(xs, DumpWord, LoadWord, rest);
  }

  lemma ConstantsBack(xs: seq<Constant>, rest: Bytes)
    requires |xs| < INT_RANGE && forall c <- xs :: ConstantFits(c)
    ensures LoadVector(DumpVector(xs, DumpConstant) + rest, LoadConstant) == Ok(xs, rest)
  {
    forall x, r | x in xs ensures LoadConstant(DumpConstant(x) + r) == Ok(x, r) { ConstantBack(x, r); }
    SameBack(xs, DumpConstant, LoadConstant, rest);
  }

  lemma LocVarsBack(xs: seq<LocVar>, rest: Bytes)
    requires |xs| < INT_RANGE && forall l <- xs :: LocVarFits(l)
    ensures LoadVector(DumpVector(xs, DumpLocVar) + rest, LoadLocVar) == Ok(xs, rest)
  {
    forall x, r | x in xs ensures LoadLocVar(DumpLocVar(x) + r) == Ok(x, r) { LocVarBack(x, r); }
    SameBack(xs, DumpLocVar, LoadLocVar, rest);
  }

  lemma UpvaluesBack(us: seq<Upvalue>, rest: Bytes)
    requires |us| < INT_RANGE
    ensures LoadVector(DumpVector(us, DumpUpvalue) + rest, LoadUpvalue) == Ok(Each(us, Unnamed), rest)
  {
    forall x, r | x in us ensures LoadUpvalue(DumpUpvalue(x) + r) == Ok(Unnamed(x), r) { UpvalueBack(x, r); }
    VectorBack(us, DumpUpvalue, LoadUpvalue, Unnamed, rest);
  }

  function NameOf(u: Upvalue): Option<Bytes> { u.name }

  lemma UpvalueNamesBack(us: seq<Upvalue>, rest: Bytes)
    requires |us| < INT_RANGE && forall u <- us :: StringFits(u.name)
    ensures LoadVector(DumpVector(us, DumpName) + rest, LoadString) == Ok(Each(us, NameOf), rest)
  {
    forall x, r | x in us ensures LoadString(DumpName(x) + r) == Ok(NameOf(x), r) { StringBack(x.name, r); }
    VectorBack(us, DumpName, LoadString, NameOf, rest);
  }

  lemma NoneBack<T>(dec: Bytes -> Loaded<T>, rest: Bytes)
    requires Shrinks(dec)
    ensures LoadVector(DumpInt(0) + rest, dec) == Ok([], rest)
  {
    WordBack(0, rest);
  }

  /** Debug data is read piece by piece. */
  lemma DebugRead(s: Bytes, s1: Bytes, s2: Bytes, s3: Bytes, d: Debug, names: seq<Option<Bytes>>, n: nat, rest: Bytes)
    requires LoadString(s) == Ok(d.source, s1) && LoadVector(s1, LoadWord) == Ok(d.lineinfo, s2)
    requires LoadVector(s2, LoadLocVar) == Ok(d.locvars, s3) && LoadVector(s3, LoadString) == Ok(names, rest)
    requires |names| <= n
    ensures LoadDebug(s, n) == Ok((d, names), rest)
  {
    hide LoadString, LoadVector, LoadWord, LoadLocVar;
  }

  lemma NoDebugBack(d: Debug, us: seq<Upvalue>, rest: Bytes)
    ensures LoadDebug(DumpDebug(d, us, true) + rest, |us|) == Ok((Debug(None, [], []), []), rest)
  {
    hide LoadDebug, LoadString, LoadVector, DumpVector, DumpString, LoadWord, LoadLocVar, DumpInt;
    var s3 := DumpInt(0) + rest;
    var s2 := DumpInt(0) + s3;
    var s1 := DumpInt(0) + s2;
    assert DumpDebug(d, us, true) + rest == DumpString(None) + s1;
    StringBack(None, s1);
    NoneBack(LoadWord, s2);
    NoneBack(LoadLocVar, s3);
    NoneBack(LoadString, rest);
    DebugRead(DumpString(None) + s1, s1, s2, s3, Debug(None, [], []), [], |us|, rest);
  }

  lemma DebugBack(d: Debug, us: seq<Upvalue>, rest: Bytes)
    requires DebugFits(d) && |us| < INT_RANGE && forall u <- us :: StringFits(u.name)
    ensures LoadDebug(DumpDebug(d, us, false) + rest, |us|) == Ok((d, Each(us, NameOf)), rest)
  {
    hide LoadDebug, LoadString, LoadVector, DumpVector, DumpString, LoadWord, LoadLocVar, DumpInt, Each, StringFits,
        LocVarFits;
    var s3 := DumpVector(us, DumpName) + rest;
    var s2 := DumpVector(d.locvars, DumpLocVar) + s3;
    var s1 := DumpVector(d.lineinfo, DumpWord) + s2;
    assert DumpDebug(d, us, false) + rest == DumpString(d.source) + s1;
    StringBack(d.source, s1);
    WordsBack(d.lineinfo, s2);
    LocVarsBack(d.locvars, s3);
    UpvalueNamesBack(us, rest);
    DebugRead(DumpString(d.source) + s1, s1, s2, s3, d, Each(us, NameOf), |us|, rest);
  }

  lemma StartBack(f: Proto, rest: Bytes)
    requires Fits(f)
    ensures LoadStart(DumpStart(f) + rest)
            == Ok((f.(p := [], upvalues := [], debug := Debug(None, [], [])), |f.p|), rest)
  {
    hide LoadString, LoadVector, DumpVector, LoadWord, LoadConstant, DumpInt, LoadInt, LoadBlock;
    var b: Bytes := [f.numparams, f.isVararg, f.maxstacksize];
    var s5 := DumpInt(|f.p|) + rest;
    var s4 := DumpVector(f.k, DumpConstant) + s5;
    var s3 := DumpVector(f.code, DumpWord) + s4;
    var s2 := b + s3;
    var s1 := DumpInt(f.lastlinedefined) + s2;
    assert DumpStart(f) + rest == DumpInt(f.linedefined) + s1;
    WordBack(f.linedefined, s1);
    WordBack(f.lastlinedefined, s2);
    BlockBack(b, s3);
    WordsBack(f.code, s4);
    ConstantsBack(f.k, s5);
    WordBack(|f.p|, rest);
  }

  /** Reading a dumped prototype gives it back, at every depth, without debug data if it was stripped. */
  lemma {:induction false} FunctionBack(f: Proto, strip: bool, rest: Bytes)
    requires Fits(f)
    ensures LoadFunction(DumpFunction(f, strip) + rest) == Ok(Stripped(f, strip), rest)
    decreases f, |f.p| + 2
  {
    hide LoadVector, DumpVector, LoadStart, DumpStart, LoadDebug, DumpDebug, LoadProtos, DumpProtos, LoadUpvalue;
    var s3 := DumpDebug(f.debug, f.upvalues, strip) + rest;
    var s2 := DumpVector(f.upvalues, DumpUpvalue) + s3;
    var s1 := DumpProtos(f, 0, strip) + s2;
    assert DumpFunction(f, strip) + rest == DumpStart(f) + s1;
    StartBack(f, s1);
    ProtosBack(f, 0, strip, s2);
    UpvaluesBack(f.upvalues, s3);
    if strip {
      NoDebugBack(f.debug, f.upvalues, rest);
      assert Named(Each(f.upvalues, Unnamed), []) == Each(f.upvalues, Unnamed);
    } else {
      DebugBack(f.debug, f.upvalues, rest);
      NamesBack(f.upvalues, Each(f.upvalues, NameOf));
    }
    assert Nested(f, 0, strip) == Stripped(f, strip).p;
  }

  /** The nested prototypes from number `i` on. */
  function Nested(f: Proto, i: nat, strip: bool): seq<Proto>
    requires i <= |f.p|
  {
    seq(|f.p| - i, j requires 0 <= j < |f.p| - i => Stripped(f.p[i + j], strip))
  }

  lemma NestedHead(f: Proto, i: nat, strip: bool)
    requires i <= |f.p|
    ensures Nested(f, i, strip)
            == if i == |f.p| then [] else [Stripped(f.p[i], strip)] + Nested(f, i + 1, strip)
  {
    hide Stripped;
  }

  lemma {:induction false} ProtosBack(f: Proto, i: nat, strip: bool, rest: Bytes)
    requires Fits(f) && i <= |f.p|
    ensures LoadProtos(DumpProtos(f, i, strip) + rest, |f.p| - i) == Ok(Nested(f, i, strip), rest)
    decreases f, |f.p| + 1 - i
  {
    hide LoadFunction, DumpFunction, Stripped, Nested;
    if i == |f.p| {
      assert DumpProtos(f, i, strip) + rest == rest;
      NestedHead(f, i, strip);
    } else {
      var s1 := DumpProtos(f, i + 1, strip) + rest;
      assert DumpProtos(f, i, strip) + rest == DumpFunction(f.p[i], strip) + s1;
      FunctionBack(f.p[i], strip, s1);
      ProtosBack(f, i + 1, strip, rest);
      NestedHead(f, i, strip);
    }
  }

  // ---------- whole chunks ----------

  function DumpChunk(f: Proto, strip: bool): Bytes { HEADER + DumpFunction(f, strip) }

  /** The header without its first byte, which is already read; the first difference decides the error. */
  function LoadHeader(s: Bytes): (r: Loaded<Bytes>)
    ensures r.Ok? ==> |r.rest| < |s|
  {
    match LoadBlock(s, |HEADER| - 1)
    case Bad(e) => Bad(e)
    case Ok(b, rest) =>
      var h := [HEADER[0]] + b;
      if h == HEADER then Ok(h, rest)
      else if h[..4] != HEADER[..4] then Bad(NotAChunk)
      else if h[..6] != HEADER[..6] then Bad(VersionMismatch)
      else if h[..12] != HEADER[..12] then Bad(Incompatible)
      else Bad(Corrupted)
  }

  /** A chunk without its first byte. */
  function LoadChunk(s: Bytes): Loaded<Proto> {
    match LoadHeader(s)
    case Bad(e) => Bad(e)
    case Ok(_, rest) => LoadFunction(rest)
  }

  lemma ChunkBack(f: Proto, strip: bool, rest: Bytes)
    requires Fits(f)
    ensures LoadChunk((DumpChunk(f, strip) + rest)[1..]) == Ok(Stripped(f, strip), rest)
  {
    hide LoadFunction, DumpFunction, Stripped, Fits;
    var s := DumpFunction(f, strip) + rest;
    assert (DumpChunk(f, strip) + rest)[1..] == HEADER[1..] + s;
    BlockBack(HEADER[1..], s);
    assert [HEADER[0]] + HEADER[1..] == HEADER;
    FunctionBack(f, strip, rest);
  }
}
