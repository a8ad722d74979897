/** A chunk that is cut short is never accepted, and what follows a chunk is never looked at. */
module LuaCut {
  import opened LuaChunk

  /** `cut` is what reading the first `k` bytes of `s` gives, if reading `s` gives `whole`. */
  ghost predicate Cut<T>(whole: Loaded<T>, cut: Loaded<T>, s: Bytes, k: nat)
    requires k <= |s|
  {
    whole.Ok? ==>
      && |whole.rest| <= |s| && whole.rest == s[|s| - |whole.rest|..]
      && cut == if k < |s| - |whole.rest| then Bad(Truncated) else Ok(whole.value, s[|s| - |whole.rest|..k])
  }

  /** How much is left of a cut input. */
  ghost function Kept<T>(cut: Loaded<T>): nat { if cut.Ok? then |cut.rest| else 0 }

  /** One read after another. */
  lemma CutNext<T, U>(a: Loaded<T>, cut: Loaded<T>, b: Loaded<U>, next: Loaded<U>, s: Bytes, k: nat)
    requires k <= |s| && a.Ok? && Cut(a, cut, s, k)
    requires Kept(cut) <= |a.rest| ==> Cut(b, next, a.rest, Kept(cut))
    ensures Kept(cut) <= |a.rest| && (cut.Ok? ==> cut.rest == a.rest[..Kept(cut)])
    ensures Cut(b, if cut.Ok? then next else Bad(Truncated), s, k)
  {
    if b.Ok? {
      var n, m := |s| - |a.rest|, |s| - |b.rest|;
      assert b.rest == s[n..][m - n..] == s[m..];
      if cut.Ok? {
        assert a.rest[..Kept(cut)] == s[n..k];
        if m <= k {
          assert a.rest[m - n..k - n] == s[m..k];
        }
      }
    }
  }

  lemma CutBlock(s: Bytes, n: nat, k: nat)
    requires k <= |s|
    ensures Cut(LoadBlock(s, n), LoadBlock(s[..k], n), s, k)
  {
    if n <= k {
      assert s[..k][..n] == s[..n] && s[..k][n..] == s[n..k];
    }
  }

  lemma CutByte(s: Bytes, k: nat)
    requires k <= |s|
    ensures Cut(LoadByte(s), LoadByte(s[..k]), s, k)
  {
  }

  lemma CutWord(s: Bytes, k: nat)
    requires k <= |s|
    ensures Cut(LoadWord(s), LoadWord(s[..k]), s, k) && Cut(LoadInt(s), LoadInt(s[..k]), s, k)
  {
    CutBlock(s, 4, k);
  }

  lemma CutString(s: Bytes, k: nat)
    requires k <= |s|
    ensures Cut(LoadString(s), LoadString(s[..k]), s, k)
  {
    hide OfLittle, LoadBlock;
    CutBlock(s, 8, k);
    var a, cut := LoadBlock(s, 8), LoadBlock(s[..k], 8);
    if a.Ok? {
      var size := OfLittle(a.value);
      CutBlock(a.rest, size, Kept(cut));
      CutNext(a, cut, LoadBlock(a.rest, size), LoadBlock(a.rest[..Kept(cut)], size), s, k);
    }
  }

  lemma CutTagged(t: Byte, s: Bytes, k: nat)
    requires k <= |s|
    ensures Cut(LoadTagged(t, s), LoadTagged(t, s[..k]), s, k)
  {
    hide OfLittle, LoadString, LoadBlock, LoadByte;
    CutByte(s, k);
    CutBlock(s, 8, k);
    CutString(s, k);
  }

  lemma CutConstant(s: Bytes, k: nat)
    requires k <= |s|
    ensures Cut(LoadConstant(s), LoadConstant(s[..k]), s, k)
  {
    hide LoadTagged, LoadByte;
    CutByte(s, k);
    var a, cut := LoadByte(s), LoadByte(s[..k]);
    if a.Ok? {
      CutTagged(a.value, a.rest, Kept(cut));
      CutNext(a, cut, LoadTagged(a.value, a.rest), LoadTagged(a.value, a.rest[..Kept(cut)]), s, k);
    }
  }

  lemma CutUpvalue(s: Bytes, k: nat)
    requires k <= |s|
    ensures Cut(LoadUpvalue(s), LoadUpvalue(s[..k]), s, k)
  {
    CutBlock(s, 2, k);
  }

  lemma CutLocVar(s: Bytes, k: nat)
    requires k <= |s|
    ensures Cut(LoadLocVar(s), LoadLocVar(s[..k]), s, k)
  {
    hide LoadString, LoadInt;
    CutString(s, k);
    var a, cut := LoadString(s), LoadString(s[..k]);
    if a.Ok? {
      var b, cut' := CutInt(a, cut, s, k);
      if b.Ok? {
        var _, _ := CutInt(b, cut', s, k);
      }
    }
  }

  /** A number after something else. */
  lemma CutInt<T>(a: Loaded<T>, cut: Loaded<T>, s: Bytes, k: nat) returns (b: Loaded<nat>, cut': Loaded<nat>)
    requires k <= |s| && a.Ok? && Cut(a, cut, s, k)
    ensures b == LoadInt(a.rest) && cut' == (if cut.Ok? then LoadInt(cut.rest) else Bad(Truncated))
    ensures Cut(b, cut', s, k)
  {
    CutWord(a.rest, Kept(cut));
    b, cut' := LoadInt(a.rest), if cut.Ok? then LoadInt(cut.rest) else Bad(Truncated);
    CutNext(a, cut, b, LoadInt(a.rest[..Kept(cut)]), s, k);
  }

  /** Every input of a loader can be cut. */
  ghost predicate Steady<T(!new)>(f: Bytes -> Loaded<T>) {
    forall s, k: nat | k <= |s| :: Cut(f(s), f(s[..k]), s, k)
  }

  lemma {:induction false} CutAll<T(!new)>(s: Bytes, n: nat, f: Bytes -> Loaded<T>, k: nat)
    requires k <= |s| && Shrinks(f) && Steady(f)
    ensures Cut(LoadAll(s, n, f), LoadAll(s[..k], n, f), s, k)
    decreases n
  {
    if n > 0 {
      var a, cut := f(s), f(s[..k]);
      if a.Ok? {
        assert Cut(a, cut, s, k);
        CutAll(a.rest, n - 1, f, if Kept(cut) <= |a.rest| then Kept(cut) else 0);
        CutNext(a, cut, LoadAll(a.rest, n - 1, f), LoadAll(a.rest[..Kept(cut)], n - 1, f), s, k);
      }
    }
  }

  lemma CutVector<T(!new)>(s: Bytes, f: Bytes -> Loaded<T>, k: nat)
    requires k <= |s| && Shrinks(f) && Steady(f)
    ensures Cut(LoadVector(s, f), LoadVector(s[..k], f), s, k)
  {
    hide LoadInt, LoadAll, Steady, Shrinks;
    CutWord(s, k);
    var a, cut := LoadInt(s), LoadInt(s[..k]);
    if a.Ok? {
      CutAll(a.rest, a.value, f, Kept(cut));
      CutNext(a, cut, LoadAll(a.rest, a.value, f), LoadAll(a.rest[..Kept(cut)], a.value, f), s, k);
    }
  }

  /** A vector after something else. */
  lemma CutItems<T(!new), U(!new)>(a: Loaded<T>, cut: Loaded<T>, f: Bytes -> Loaded<U>, s: Bytes, k: nat)
    returns (b: Loaded<seq<U>>, cut': Loaded<seq<U>>)
    requires k <= |s| && a.Ok? && Cut(a, cut, s, k) && Shrinks(f) && Steady(f)
    ensures b == LoadVector(a.rest, f) && cut' == (if cut.Ok? then LoadVector(cut.rest, f) else Bad(Truncated))
    ensures Cut(b, cut', s, k)
  {
    hide LoadVector, Steady, Shrinks;
    CutVector(a.rest, f, Kept(cut));
    b, cut' := LoadVector(a.rest, f), if cut.Ok? then LoadVector(cut.rest, f) else Bad(Truncated);
    CutNext(a, cut, b, LoadVector(a.rest[..Kept(cut)], f), s, k);
  }

  lemma AllSteady()
    ensures Steady(LoadWord) && Steady(LoadConstant) && Steady(LoadUpvalue) && Steady(LoadLocVar) && Steady(LoadString)
  {
    hide LoadWord, LoadConstant, LoadUpvalue, LoadLocVar, LoadString, Cut;
    forall s: Bytes, k: nat | k <= |s|
      ensures Cut(LoadWord(s), LoadWord(s[..k]), s, k) && Cut(LoadConstant(s), LoadConstant(s[..k]), s, k)
      ensures Cut(LoadUpvalue(s), LoadUpvalue(s[..k]), s, k) && Cut(LoadLocVar(s), LoadLocVar(s[..k]), s, k)
      ensures Cut(LoadString(s), LoadString(s[..k]), s, k)
    {
      CutWord(s, k);
      CutConstant(s, k);
      CutUpvalue(s, k);
      CutLocVar(s, k);
      CutString(s, k);
    }
  }

  lemma CutDebug(s: Bytes, n: nat, k: nat)
    requires k <= |s|
    ensures Cut(LoadDebug(s, n), LoadDebug(s[..k], n), s, k)
  {
    hide LoadWord, LoadLocVar, LoadString, LoadVector, Steady;
    AllSteady();
    CutString(s, k);
    var a, cut := LoadString(s), LoadString(s[..k]);
    if a.Ok? {
      var b, cut1 := CutItems(a, cut, LoadWord, s, k);
      if b.Ok? {
        var c, cut2 := CutItems(b, cut1, LoadLocVar, s, k);
        if c.Ok? {
          var _, _ := CutItems(c, cut2, LoadString, s, k);
        }
      }
    }
  }

  lemma CutStart(s: Bytes, k: nat)
    requires k <= |s|
    ensures Cut(LoadStart(s), LoadStart(s[..k]), s, k)
  {
    hide LoadInt, LoadBlock, LoadWord, LoadConstant, LoadVector, Steady;
    AllSteady();
    CutWord(s, k);
    var a, cut := LoadInt(s), LoadInt(s[..k]);
    if a.Ok? {
      var b, cut1 := CutInt(a, cut, s, k);
      if b.Ok? {
        CutBlock(b.rest, 3, Kept(cut1));
        var c, cut2 := LoadBlock(b.rest, 3), if cut1.Ok? then LoadBlock(cut1.rest, 3) else Bad(Truncated);
        CutNext(b, cut1, c, LoadBlock(b.rest[..Kept(cut1)], 3), s, k);
        if c.Ok? {
          var d, cut3 := CutItems(c, cut2, LoadWord, s, k);
          if d.Ok? {
            var e, cut4 := CutItems(d, cut3, LoadConstant, s, k);
            if e.Ok? {
              var _, _ := CutInt(e, cut4, s, k);
            }
          }
        }
      }
    }
  }

  lemma {:induction false} CutFunction(s: Bytes, k: nat)
    requires k <= |s|
    ensures Cut(LoadFunction(s), LoadFunction(s[..k]), s, k)
    decreases |s|, 0
  {
    hide LoadStart, LoadVector, LoadUpvalue, LoadDebug, LoadProtos, Steady;
    AllSteady();
    CutStart(s, k);
    var a, cut := LoadStart(s), LoadStart(s[..k]);
    if a.Ok? {
      var n := a.value.1;
      CutProtos(a.rest, n, Kept(cut));
      var b, cut1 := LoadProtos(a.rest, n), if cut.Ok? then LoadProtos(cut.rest, n) else Bad(Truncated);
      CutNext(a, cut, b, LoadProtos(a.rest[..Kept(cut)], n), s, k);
      if b.Ok? {
        var c, cut2 := CutItems(b, cut1, LoadUpvalue, s, k);
        if c.Ok? {
          CutDebug(c.rest, |c.value|, Kept(cut2));
          CutNext(c, cut2, LoadDebug(c.rest, |c.value|), LoadDebug(c.rest[..Kept(cut2)], |c.value|), s, k);
        }
      }
    }
  }

  lemma {:induction false} CutProtos(s: Bytes, n: nat, k: nat)
    requires k <= |s|
    ensures Cut(LoadProtos(s, n), LoadProtos(s[..k], n), s, k)
    decreases |s|, 1
  {
    hide LoadFunction;
    if n > 0 {
      CutFunction(s, k);
      var a, cut := LoadFunction(s), LoadFunction(s[..k]);
      if a.Ok? {
        CutProtos(a.rest, n - 1, Kept(cut));
        CutNext(a, cut, LoadProtos(a.rest, n - 1), LoadProtos(a.rest[..Kept(cut)], n - 1), s, k);
      }
    }
  }

  lemma CutChunk(s: Bytes, k: nat)
    requires k <= |s|
    ensures Cut(LoadChunk(s), LoadChunk(s[..k]), s, k)
  {
    hide LoadBlock, LoadFunction;
    CutBlock(s, |HEADER| - 1, k);
    var a, cut := LoadHeader(s), LoadHeader(s[..k]);
    if a.Ok? {
      CutFunction(a.rest, Kept(cut));
      CutNext(a, cut, LoadFunction(a.rest), LoadFunction(a.rest[..Kept(cut)]), s, k);
    }
  }

  /** Every proper prefix of a dumped chunk is reported as truncated. */
  lemma CutShort(f: Proto, strip: bool, k: nat)
    requires Fits(f) && 0 < k < |DumpChunk(f, strip)|
    ensures LoadChunk(DumpChunk(f, strip)[..k][1..]) == Bad(Truncated)
  {
    hide LoadChunk, DumpChunk, Stripped, Fits;
    var s := DumpChunk(f, strip);
    assert s + [] == s && s[..k][1..] == s[1..][..k - 1];
    ChunkBack(f, strip, []);
    CutChunk(s[1..], k - 1);
  }
}
