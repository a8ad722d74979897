/** Growing byte buffers with a window of valid bytes. */
module SpeBuf {

  const NUL: char := '\0'

  /** `key` occurs at position `i`. */
  predicate OccursAt(s: string, key: string, i: int) { 0 <= i && i + |key| <= |s| && s[i..i + |key|] == key }

  /** The first position from `i` on at which `key` occurs, or -1. */
  function FindFrom(s: string, key: string, i: nat): (r: int)
    requires i <= |s|
    ensures r == -1 ==> forall j | i <= j :: !OccursAt(s, key, j)
    ensures r != -1 ==> i <= r && OccursAt(s, key, r) && forall j | i <= j < r :: !OccursAt(s, key, j)
    decreases |s| - i
  {
    if OccursAt(s, key, i) then i
    else if i == |s| then -1
    else FindFrom(s, key, i + 1)
  }

  function Find(s: string, key: string): int { FindFrom(s, key, 0) }

  /** What C takes as the string: the characters before the first NUL. */
  function CString(s: string): (r: string)
    ensures r <= s && NUL !in r && (NUL !in s ==> r == s)
  {
    if s == [] || s[0] == NUL then [] else [s[0]] + CString(s[1..])
  }

  /** An occurrence that is the first in a part of the text is the first in the whole. */
  lemma FindPrefix(s: string, t: string, key: string)
    requires Find(s, key) != -1
    ensures Find(s + t, key) == Find(s, key)
  {
    var r := Find(s, key);
    forall j | 0 <= j && j + |key| <= |s| ensures OccursAt(s + t, key, j) == OccursAt(s, key, j) {
      assert (s + t)[j..j + |key|] == s[j..j + |key|];
    }
    FindUnique(s + t, key, r);
  }

  lemma FindUnique(s: string, key: string, r: int)
    requires OccursAt(s, key, r) && forall j | 0 <= j < r :: !OccursAt(s, key, j)
    ensures Find(s, key) == r
  {
  }

  /** `mem` is the allocation, `off` where the window starts and `len` its length. */
  class Buf {
    var mem: array<char>
    var off: nat
    var len: nat

    /** The window and the terminator after it are inside the allocation. */
    ghost predicate Valid()
      reads this, mem
    {
      if mem.Length == 0 then off == 0 && len == 0
      else off + len < mem.Length && (len > 0 ==> mem[off + len] == NUL)
    }

    function Text(): string
      requires Valid()
      reads this, mem
    {
      mem[off..off + len]
    }

    constructor ()
      ensures Valid() && fresh(mem) && Text() == ""
    {
      mem, off, len := new char[0], 0, 0;
    }

    /** Moves the window to the start of the allocation. */
    method Rewind()
      requires Valid()
      modifies this`off, mem
      ensures Valid() && off == 0 && Text() == old(Text())
    {
      if off != 0 {
        ghost var text := Text();
        forall i | 0 <= i < len { mem[i] := mem[off + i]; }
        assert mem[..len] == text;
        off := 0;
        mem[len] := NUL;
        assert mem[..len] == text;
      }
    }

    /** A larger allocation. */
    method Expand(n: nat)
      requires Valid() && n > mem.Length
      modifies this`mem, this`off, mem
      ensures Valid() && fresh(mem) && mem.Length == 25 * n / 16 && off == 0 && Text() == old(Text())
    {
      Rewind();
      ghost var text := Text();
      var bigger := new char[25 * n / 16];
      forall i | 0 <= i < mem.Length { bigger[i] := mem[i]; }
      assert bigger[..len] == text;
      mem := bigger;
    }

    /** Puts bytes after the window, where there is room for them and for the terminator. */
    method Put(src: string)
      requires Valid() && off + len + |src| < mem.Length
      modifies this`len, mem
      ensures Valid() && Text() == old(Text()) + src
    {
      ghost var text := Text();
      forall i | 0 <= i < |src| { mem[off + len + i] := src[i]; }
      assert mem[off..off + len] == text;
      assert mem[off + len..off + len + |src|] == src;
      len := len + |src|;
      mem[off + len] := NUL;
      assert mem[off..off + len] == text + src;
    }

    method Append(src: string)
      requires Valid()
      modifies this, mem
      ensures Valid() && Text() == old(Text()) + src && (mem == old(mem) || fresh(mem))
    {
      if mem.Length - len < |src| + 1 {
        Expand(mem.Length + |src| + 1);
      }
      if mem.Length - len - off < |src| + 1 {
        Rewind();
      }
      Put(src);
    }

    method Clean()
      requires Valid()
      modifies this`off, this`len, mem
      ensures Valid() && Text() == ""
    {
      off, len := 0, 0;
      if mem.Length > 0 { mem[0] := NUL; }
    }

    /** Takes bytes away from the front. */
    method LConsume(n0: nat)
      requires Valid() && mem.Length > 0
      modifies this`off, this`len, mem
      ensures Valid() && Text() == if n0 > |old(Text())| then "" else old(Text())[n0..]
    {
      ghost var text := Text();
      var n := if n0 > len then len else n0;
      off, len := off + n, len - n;
      mem[off + len] := NUL;
      assert mem[off..off + len] == text[n..];
    }

    /** The first occurrence of `key`, or -1. */
    method Search(key: string) returns (r: int)
      requires Valid() && key != ""
      ensures r == Find(CString(Text()), key)
    {
      if len == 0 { return -1; }
      r := FindIn(CString(Text()), key);
    }

    /** Reads up to the free space into the buffer, after making room for `n` bytes. */
    method ReadAppend(fd: Stream, n: nat) returns (res: ReadResult)
      requires Valid() && n > 0
      modifies this, mem, fd
      ensures Valid() && (mem == old(mem) || fresh(mem)) && mem.Length > 0
      ensures res.Got? ==> res.bytes != "" && Text() == old(Text()) + res.bytes
      ensures !res.Got? ==> Text() == old(Text())
      ensures Reads(old(fd.chunks), fd.fails, res, fd.chunks)
    {
      if mem.Length - len < n + 1 {
        Expand(mem.Length + n + 1);
      }
      Rewind();
      res := fd.Read(mem.Length - len - 1);
      if res.Got? { Put(res.bytes); }
    }
  }

  /** What `strstr` does. */
  method FindIn(s: string, key: string) returns (r: int)
    ensures r == Find(s, key)
  {
    r := 0;
    while r + |key| <= |s|
      invariant 0 <= r <= |s| + 1 && forall j | 0 <= j < r :: !OccursAt(s, key, j)
    {
      if s[r..r + |key|] == key {
        FindUnique(s, key, r);
        return;
      }
      r := r + 1;
    }
    r := -1;
  }

  // ---------- where the bytes come from ----------

  datatype ReadResult = Got(bytes: string) | Eof | Interrupted | Failed

  /** All bytes that are still to come. */
  function Concat(chunks: seq<string>): string {
    if chunks == [] then "" else chunks[0] + Concat(chunks[1..])
  }

  /** What one read does to the input: some of the bytes are taken, or one interruption. */
  ghost predicate Reads(chunks: seq<string>, fails: bool, res: ReadResult, chunks': seq<string>) {
    match res
    case Got(bytes) => Concat(chunks) == bytes + Concat(chunks') && |chunks'| <= |chunks|
    case Interrupted => Concat(chunks') == Concat(chunks) && |chunks'| < |chunks|
    case Eof => !fails && chunks == chunks' == []
    case Failed => fails && chunks == chunks' == []
  }

  /** A descriptor that delivers its bytes in arbitrary pieces; an empty piece is an interrupted call.
      After the last one comes the end of the file or an error. */
  class Stream {
    var chunks: seq<string>
    const fails: bool

    constructor (chunks: seq<string>, fails: bool)
      ensures this.chunks == chunks && this.fails == fails
    {
      this.chunks, this.fails := chunks, fails;
    }

    method Read(n: nat) returns (res: ReadResult)
      requires n > 0
      modifies this
      ensures Reads(old(chunks), fails, res, chunks)
      ensures res.Got? ==> 0 < |res.bytes| <= n
    {
      if chunks == [] {
        return if fails then Failed else Eof;
      }
      var c := chunks[0];
      if c == "" {
        chunks := chunks[1..];
        return Interrupted;
      }
      if |c| <= n {
        chunks := chunks[1..];
        return Got(c);
      }
      var rest := chunks[1..];
      chunks := [c[n..]] + rest;
      assert chunks[1..] == rest && c == c[..n] + c[n..];
      res := Got(c[..n]);
    }
  }
}
