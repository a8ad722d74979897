/** Reading a chunk from a reader that hands out its bytes piece by piece. */
module LuaUndump {
  import opened LuaChunk
  import LuaCut

  /** What a reader delivers: it ends with the first empty piece. */
  function Input(pieces: seq<Bytes>): Bytes {
    if pieces == [] || pieces[0] == [] then [] else pieces[0] + Input(pieces[1..])
  }

  function Joined(pieces: seq<Bytes>): Bytes { if pieces == [] then [] else pieces[0] + Joined(pieces[1..]) }

  lemma {:induction false} InputJoined(pieces: seq<Bytes>)
    requires [] !in pieces
    ensures Input(pieces) == Joined(pieces)
  {
    if pieces != [] { InputJoined(pieces[1..]); }
  }

  lemma PutBack(c: Byte, buff: Bytes, rest: Bytes)
    requires buff != [] && buff[0] == c
    ensures buff[0..] + rest == [c] + (buff[1..] + rest)
  {
  }

  lemma Taken(b: Bytes, buff: Bytes, p: nat, m: nat, rest: Bytes)
    requires p + m <= |buff|
    ensures (b + buff[p..p + m]) + (buff[p + m..] + rest) == b + (buff[p..] + rest)
  {
  }

  /** A buffered stream: `n` bytes of the current piece, from position `p` on, are unread. */
  class Zio {
    var pieces: seq<Bytes>
    var buff: Bytes
    var p: nat
    var n: nat

    constructor (input: seq<Bytes>)
      ensures Valid() && Rest() == Input(input)
    {
      pieces, buff, p, n := input, [], 0, 0;
    }

    ghost predicate Valid() reads this { p + n == |buff| }

    ghost function Rest(): Bytes
      reads this
      requires Valid()
    {
      buff[p..] + Input(pieces)
    }

    /** Takes the next piece and consumes its first byte; none at the end of the stream. */
    method Fill() returns (c: Option<Byte>)
      requires Valid() && n == 0
      modifies this
      ensures Valid() && (c.None? <==> old(Rest()) == [])
      ensures c.Some? ==> [c.value] + Rest() == old(Rest()) && p == 1 && buff[0] == c.value
      ensures c.None? ==> n == 0
    {
      if pieces == [] { return None; }
      var piece := pieces[0];
      pieces := pieces[1..];
      if piece == [] { return None; }
      buff, p, n := piece, 1, |piece| - 1;
      return Some(piece[0]);
    }

    method Getc() returns (c: Option<Byte>)
      requires Valid()
      modifies this
      ensures Valid() && (c.None? <==> old(Rest()) == [])
      ensures c.Some? ==> [c.value] + Rest() == old(Rest())
    {
      if n > 0 {
        c := Some(buff[p]);
        n, p := n - 1, p + 1;
      } else {
        c := Fill();
      }
    }

    /** Reads up to `want` bytes and returns how many are missing. */
    method Read(want: nat) returns (b: Bytes, missing: nat)
      requires Valid()
      modifies this
      ensures Valid() && |b| + missing == want
      ensures missing == 0 ==> b + Rest() == old(Rest())
      ensures missing > 0 ==> b == old(Rest())
    {
      hide Input;
      b, missing := [], want;
      assert [] + Rest() == Rest();
      while missing > 0
        invariant Valid() && |b| + missing == want && b + Rest() == old(Rest())
        decreases missing
      {
        if n == 0 {
          var c := Fill();
          if c.None? {
            assert b + [] == b;
            return;
          }
          PutBack(c.value, buff, Input(pieces));
          n, p := n + 1, p - 1;
        }
        var m := if missing <= n then missing else n;
        Taken(b, buff, p, m, Input(pieces));
        b := b + buff[p..p + m];
        n, p, missing := n - m, p + m, missing - m;
      }
    }
  }

  datatype Outcome<+T> = Done(value: T) | Fail(why: Failure)

  /** The stream was read as `r` says; after an error nothing is promised about it. */
  ghost predicate Reads<T>(r: Loaded<T>, out: Outcome<T>, rest: Bytes) {
    match r
    case Ok(v, t) => out == Done(v) && rest == t
    case Bad(e) => out == Fail(e)
  }

  /** Elements already read before the others. */
  ghost function After<T>(xs: seq<T>, r: Loaded<seq<T>>): Loaded<seq<T>> {
    if r.Ok? then Ok(xs + r.value, r.rest) else r
  }

  lemma AllStep<T>(xs: seq<T>, s: Bytes, n: nat, f: Bytes -> Loaded<T>)
    requires Shrinks(f)
    ensures n == 0 ==> After(xs, LoadAll(s, n, f)) == Ok(xs, s)
    ensures n > 0 && f(s).Bad? ==> After(xs, LoadAll(s, n, f)) == Bad(f(s).why)
    ensures n > 0 && f(s).Ok? ==> After(xs, LoadAll(s, n, f)) == After(xs + [f(s).value], LoadAll(f(s).rest, n - 1, f))
  {
    assert xs + [] == xs;
    if n > 0 && f(s).Ok? && LoadAll(f(s).rest, n - 1, f).Ok? {
      var x, ys := f(s).value, LoadAll(f(s).rest, n - 1, f).value;
      assert xs + ([x] + ys) == xs + [x] + ys;
    }
  }

  lemma AfterNone<T>(r: Loaded<seq<T>>)
    ensures After([], r) == r
  {
    if r.Ok? { assert [] + r.value == r.value; }
  }

  lemma ProtosStep(xs: seq<Proto>, s: Bytes, n: nat)
    ensures n == 0 ==> After(xs, LoadProtos(s, n)) == Ok(xs, s)
    ensures n > 0 ==>
              match LoadFunction(s)
              case Bad(e) => After(xs, LoadProtos(s, n)) == Bad(e)
              case Ok(f, rest) => After(xs, LoadProtos(s, n)) == After(xs + [f], LoadProtos(rest, n - 1))
  {
    hide LoadFunction;
    assert xs + [] == xs;
    if n > 0 && LoadFunction(s).Ok? && LoadProtos(LoadFunction(s).rest, n - 1).Ok? {
      var x, ys := LoadFunction(s).value, LoadProtos(LoadFunction(s).rest, n - 1).value;
      assert xs + ([x] + ys) == xs + [x] + ys;
    }
  }

  lemma AllShrink()
    ensures Shrinks(LoadWord) && Shrinks(LoadConstant) && Shrinks(LoadUpvalue) && Shrinks(LoadLocVar)
            && Shrinks(LoadString)
  {
  }

  function WordsOf(b: Bytes): seq<nat>
    requires |b| % 4 == 0
  {
    if b == [] then [] else [OfLittle(b[..4])] + WordsOf(b[4..])
  }

  /** Words are read in one block. */
  lemma {:induction false} AllWords(s: Bytes, n: nat)
    ensures LoadAll(s, n, LoadWord) == if 4 * n <= |s| then Ok(WordsOf(s[..4 * n]), s[4 * n..]) else Bad(Truncated)
    decreases n
  {
    hide OfLittle;
    if n > 0 && 4 <= |s| {
      AllWords(s[4..], n - 1);
      if 4 * n <= |s| {
        assert s[..4 * n][..4] == s[..4] && s[..4 * n][4..] == s[4..][..4 * (n - 1)];
        assert s[4..][4 * (n - 1)..] == s[4 * n..];
      }
    }
  }

  class LoadState {
    const z: Zio

    constructor (z: Zio)
      ensures this.z == z
    {
      this.z := z;
    }

    method Block(size: nat) returns (out: Outcome<Bytes>)
      requires z.Valid()
      modifies z
      ensures z.Valid() && Reads(LoadBlock(old(z.Rest()), size), out, z.Rest())
    {
      var b, missing := z.Read(size);
      assert missing == 0 ==> old(z.Rest())[..size] == b && old(z.Rest())[size..] == z.Rest();
      return if missing != 0 then Fail(Truncated) else Done(b);
    }

    method Char() returns (out: Outcome<Byte>)
      requires z.Valid()
      modifies z
      ensures z.Valid() && Reads(LoadByte(old(z.Rest())), out, z.Rest())
    {
      var b := Block(1);
      return if b.Fail? then Fail(b.why) else Done(b.value[0]);
    }

    method Int() returns (out: Outcome<nat>)
      requires z.Valid()
      modifies z
      ensures z.Valid() && Reads(LoadInt(old(z.Rest())), out, z.Rest())
    {
      var b := Block(4);
      if b.Fail? { return Fail(b.why); }
      var x := OfLittle(b.value);
      return if x >= INT_RANGE then Fail(Corrupted) else Done(x);
    }

    method String() returns (out: Outcome<Option<Bytes>>)
      requires z.Valid()
      modifies z
      ensures z.Valid() && Reads(LoadString(old(z.Rest())), out, z.Rest())
    {
      var b := Block(8);
      if b.Fail? { return Fail(b.why); }
      var size := OfLittle(b.value);
      if size == 0 { return Done(None); }
      var t := Block(size);
      return if t.Fail? then Fail(t.why) else Done(Some(t.value[..size - 1]));
    }

    /** A vector of words: code or line numbers. */
    method Words() returns (out: Outcome<seq<nat>>)
      requires z.Valid()
      modifies z
      ensures z.Valid() && Reads(LoadVector(old(z.Rest()), LoadWord), out, z.Rest())
    {
      var n := Int();
      if n.Fail? { return Fail(n.why); }
      AllWords(z.Rest(), n.value);
      var b := Block(4 * n.value);
      return if b.Fail? then Fail(b.why) else Done(WordsOf(b.value));
    }

    method Constant() returns (out: Outcome<Constant>)
      requires z.Valid()
      modifies z
      ensures z.Valid() && Reads(LoadConstant(old(z.Rest())), out, z.Rest())
    {
      var t := Char();
      if t.Fail? { return Fail(t.why); }
      if t.value == LUA_TBOOLEAN {
        var b := Char();
        return if b.Fail? then Fail(b.why) else Done(Boolean(b.value != 0));
      } else if t.value == LUA_TNUMBER {
        var b := Block(8);
        return if b.Fail? then Fail(b.why) else Done(Number(OfLittle(b.value)));
      } else if t.value == LUA_TSTRING {
        var s := String();
        return if s.Fail? then Fail(s.why) else Done(if s.value.None? then Nil else Str(s.value.value));
      }
      return Done(Nil);
    }

    method Constants() returns (out: Outcome<seq<Constant>>)
      requires z.Valid()
      modifies z
      ensures z.Valid() && Reads(LoadVector(old(z.Rest()), LoadConstant), out, z.Rest())
    {
      hide Shrinks, LoadAll, After, LoadInt, LoadConstant;
      AllShrink();
      var n := Int();
      if n.Fail? { return Fail(n.why); }
      var k: seq<Constant> := [];
      ghost var all := LoadAll(z.Rest(), n.value, LoadConstant);
      AfterNone(all);
      for i := 0 to n.value
        invariant z.Valid() && After(k, LoadAll(z.Rest(), n.value - i, LoadConstant)) == all
      {
        AllStep(k, z.Rest(), n.value - i, LoadConstant);
        var c := Constant();
        if c.Fail? { return Fail(c.why); }
        k := k + [c.value];
      }
      AllStep(k, z.Rest(), 0, LoadConstant);
      return Done(k);
    }

    method Upvalues() returns (out: Outcome<seq<Upvalue>>)
      requires z.Valid()
      modifies z
      ensures z.Valid() && Reads(LoadVector(old(z.Rest()), LoadUpvalue), out, z.Rest())
    {
      hide Shrinks, LoadAll, After, LoadInt;
      AllShrink();
      var n := Int();
      if n.Fail? { return Fail(n.why); }
      var us: seq<Upvalue> := [];
      ghost var all := LoadAll(z.Rest(), n.value, LoadUpvalue);
      AfterNone(all);
      for i := 0 to n.value
        invariant z.Valid() && After(us, LoadAll(z.Rest(), n.value - i, LoadUpvalue)) == all
      {
        AllStep(us, z.Rest(), n.value - i, LoadUpvalue);
        ghost var s := z.Rest();
        var instack := Char();
        if instack.Fail? { return Fail(instack.why); }
        var idx := Char();
        if idx.Fail? { return Fail(idx.why); }
        assert s[2..] == s[1..][1..];
        us := us + [Upvalue(instack.value, idx.value, None)];
      }
      AllStep(us, z.Rest(), 0, LoadUpvalue);
      return Done(us);
    }

    method LocVars() returns (out: Outcome<seq<LocVar>>)
      requires z.Valid()
      modifies z
      ensures z.Valid() && Reads(LoadVector(old(z.Rest()), LoadLocVar), out, z.Rest())
    {
      hide Shrinks, LoadAll, After, LoadInt, LoadString;
      AllShrink();
      var n := Int();
      if n.Fail? { return Fail(n.why); }
      var ls: seq<LocVar> := [];
      ghost var all := LoadAll(z.Rest(), n.value, LoadLocVar);
      AfterNone(all);
      for i := 0 to n.value
        invariant z.Valid() && After(ls, LoadAll(z.Rest(), n.value - i, LoadLocVar)) == all
      {
        AllStep(ls, z.Rest(), n.value - i, LoadLocVar);
        var name := String();
        if name.Fail? { return Fail(name.why); }
        var startpc := Int();
        if startpc.Fail? { return Fail(startpc.why); }
        var endpc := Int();
        if endpc.Fail? { return Fail(endpc.why); }
        ls := ls + [LocVar(name.value, startpc.value, endpc.value)];
      }
      AllStep(ls, z.Rest(), 0, LoadLocVar);
      return Done(ls);
    }

    method Names() returns (out: Outcome<seq<Option<Bytes>>>)
      requires z.Valid()
      modifies z
      ensures z.Valid() && Reads(LoadVector(old(z.Rest()), LoadString), out, z.Rest())
    {
      hide Shrinks, LoadAll, After, LoadInt, LoadString;
      AllShrink();
      var n := Int();
      if n.Fail? { return Fail(n.why); }
      var names: seq<Option<Bytes>> := [];
      ghost var all := LoadAll(z.Rest(), n.value, LoadString);
      AfterNone(all);
      for i := 0 to n.value
        invariant z.Valid() && After(names, LoadAll(z.Rest(), n.value - i, LoadString)) == all
      {
        AllStep(names, z.Rest(), n.value - i, LoadString);
        var s := String();
        if s.Fail? { return Fail(s.why); }
        names := names + [s.value];
      }
      AllStep(names, z.Rest(), 0, LoadString);
      return Done(names);
    }

    method Debug(n: nat) returns (out: Outcome<(Debug, seq<Option<Bytes>>)>)
      requires z.Valid()
      modifies z
      ensures z.Valid() && Reads(LoadDebug(old(z.Rest()), n), out, z.Rest())
    {
      hide LoadString, LoadVector, LoadWord, LoadLocVar;
      var source := String();
      if source.Fail? { return Fail(source.why); }
      var lines := Words();
      if lines.Fail? { return Fail(lines.why); }
      var locs := LocVars();
      if locs.Fail? { return Fail(locs.why); }
      var names := Names();
      if names.Fail? { return Fail(names.why); }
      return if |names.value| > n then Fail(Corrupted)
             else Done((LuaChunk.Debug(source.value, lines.value, locs.value), names.value));
    }

    /** What comes before the nested prototypes, and their number. */
    method Start() returns (out: Outcome<(Proto, nat)>)
      requires z.Valid()
      modifies z
      ensures z.Valid() && Reads(LoadStart(old(z.Rest())), out, z.Rest())
    {
      hide LoadInt, LoadVector, LoadWord, LoadConstant, LoadBlock;
      var first := Int();
      if first.Fail? { return Fail(first.why); }
      var last := Int();
      if last.Fail? { return Fail(last.why); }
      var b := Block(3);
      if b.Fail? { return Fail(b.why); }
      var code := Words();
      if code.Fail? { return Fail(code.why); }
      var k := Constants();
      if k.Fail? { return Fail(k.why); }
      var n := Int();
      if n.Fail? { return Fail(n.why); }
      return Done((Proto(first.value, last.value, b.value[0], b.value[1], b.value[2], code.value, k.value, [], [],
                         LuaChunk.Debug(None, [], [])), n.value));
    }

    method Function() returns (out: Outcome<Proto>)
      requires z.Valid()
      modifies z
      ensures z.Valid() && Reads(LoadFunction(old(z.Rest())), out, z.Rest())
      decreases |z.Rest()|, 0
    {
      hide LoadStart, LoadVector, LoadUpvalue, LoadDebug, LoadProtos;
      var start := Start();
      if start.Fail? { return Fail(start.why); }
      var f := start.value.0;
      var ps := Protos(start.value.1);
      if ps.Fail? { return Fail(ps.why); }
      var us := Upvalues();
      if us.Fail? { return Fail(us.why); }
      var d := Debug(|us.value|);
      if d.Fail? { return Fail(d.why); }
      return Done(f.(p := ps.value, upvalues := Named(us.value, d.value.1), debug := d.value.0));
    }

    method Protos(n: nat) returns (out: Outcome<seq<Proto>>)
      requires z.Valid()
      modifies z
      ensures z.Valid() && Reads(LoadProtos(old(z.Rest()), n), out, z.Rest())
      decreases |z.Rest()|, 1
    {
      hide LoadFunction, LoadProtos, After;
      AfterNone(LoadProtos(z.Rest(), n));
      var ps: seq<Proto> := [];
      for i := 0 to n
        invariant z.Valid() && |z.Rest()| <= |old(z.Rest())|
        invariant After(ps, LoadProtos(z.Rest(), n - i)) == LoadProtos(old(z.Rest()), n)
      {
        ProtosStep(ps, z.Rest(), n - i);
        var f := Function();
        if f.Fail? { return Fail(f.why); }
        ps := ps + [f.value];
      }
      ProtosStep(ps, z.Rest(), 0);
      return Done(ps);
    }

    method Header() returns (out: Outcome<Bytes>)
      requires z.Valid()
      modifies z
      ensures z.Valid() && Reads(LoadHeader(old(z.Rest())), out, z.Rest())
    {
      var b := Block(|HEADER| - 1);
      if b.Fail? { return Fail(b.why); }
      var h := [HEADER[0]] + b.value;
      if h == HEADER { return Done(h); }
      if h[..4] != HEADER[..4] { return Fail(NotAChunk); }
      if h[..6] != HEADER[..6] { return Fail(VersionMismatch); }
      return Fail(if h[..12] != HEADER[..12] then Incompatible else Corrupted);
    }

    method Chunk() returns (out: Outcome<Proto>)
      requires z.Valid()
      modifies z
      ensures z.Valid() && Reads(LoadChunk(old(z.Rest())), out, z.Rest())
    {
      hide LoadHeader, LoadFunction;
      var h := Header();
      if h.Fail? { return Fail(h.why); }
      out := Function();
    }
  }

  lemma Delivered(pieces: seq<Bytes>, f: Proto, strip: bool)
    requires Fits(f) && [] !in pieces
    ensures Joined(pieces) == DumpChunk(f, strip) ==> pieces != []
    ensures Joined(pieces) <= DumpChunk(f, strip) && pieces != [] ==>
            Input(pieces) != [] && Input(pieces)[0] == HEADER[0]
    ensures Joined(pieces) == DumpChunk(f, strip) ==> LoadChunk(Input(pieces)[1..]) == Ok(Stripped(f, strip), [])
    ensures Joined(pieces) < DumpChunk(f, strip) && pieces != [] ==> LoadChunk(Input(pieces)[1..]) == Bad(Truncated)
  {
    hide LoadChunk, DumpFunction, Stripped, Fits;
    InputJoined(pieces);
    var s, all := Joined(pieces), DumpChunk(f, strip);
    assert all[0] == HEADER[0];
    if s == all {
      assert all + [] == all;
      ChunkBack(f, strip, []);
    } else if s < all && pieces != [] {
      assert all[..|s|] == s;
      LuaCut.CutShort(f, strip, |s|);
    }
  }

  /** Loads a binary chunk; none when the first byte says that it is not one. For a dumped chunk, however it is cut
      into non-empty pieces, this is the dumped prototype; a proper prefix of it is truncated. */
  method Load(pieces: seq<Bytes>) returns (out: Option<Outcome<Proto>>)
    ensures out.None? <==> (Input(pieces) == [] || Input(pieces)[0] != HEADER[0])
    ensures out.Some? ==>
            out.value == match LoadChunk(Input(pieces)[1..]) case Ok(f, _) => Done(f) case Bad(e) => Fail(e)
    ensures forall f, strip | Fits(f) && Joined(pieces) == DumpChunk(f, strip) && [] !in pieces
              :: out == Some(Done(Stripped(f, strip)))
    ensures forall f, strip | Fits(f) && Joined(pieces) < DumpChunk(f, strip) && [] !in pieces && pieces != []
              :: out == Some(Fail(Truncated))
  {
    hide LoadChunk, DumpChunk, Stripped, Fits, Input;
    var z := new Zio(pieces);
    var c := z.Getc();
    forall f, strip | Fits(f) && Joined(pieces) <= DumpChunk(f, strip) && [] !in pieces
      ensures Joined(pieces) == DumpChunk(f, strip) ==> pieces != []
      ensures pieces != [] ==> Input(pieces) != [] && Input(pieces)[0] == HEADER[0]
      ensures Joined(pieces) == DumpChunk(f, strip) ==> LoadChunk(Input(pieces)[1..]) == Ok(Stripped(f, strip), [])
      ensures Joined(pieces) < DumpChunk(f, strip) && pieces != [] ==> LoadChunk(Input(pieces)[1..]) == Bad(Truncated)
    {
      Delivered(pieces, f, strip);
    }
    if c != Some(HEADER[0]) { return None; }
    var s := new LoadState(z);
    assert z.Rest() == Input(pieces)[1..];
    var r := s.Chunk();
    out := Some(r);
  }
}
