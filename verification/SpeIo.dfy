/** Reading records from a descriptor, however its bytes are divided into pieces. */
module SpeIo {

  import opened SpeBuf

  const BUF_LEN: nat := 4096
  const NONE: int := -1

  datatype Mode = Some | Bytes(n: nat) | Until(delim: string)

  /** The number of bytes of a record; the end of the input, or an error, with what was left before it; or
      a call after that. */
  datatype Result = Record(n: nat) | Ended | Broken | Closed | Error

  /** Where the next record ends in a text that is not complete yet, or -1. */
  function EndOf(mode: Mode, text: string): int
  {
    match mode
    case Some => if |text| > 0 then |text| else -1
    case Bytes(n) => if n <= |text| then n else -1
    case Until(delim) => var pos := Find(CString(text), delim); if pos == -1 then -1 else pos + |delim|
  }

  /** The first record of a text and what comes after it. */
  function First(text: string, delim: string): string {
    var pos := Find(text, delim);
    if pos == -1 then text else text[..pos + |delim|]
  }

  function Rest(text: string, delim: string): string {
    var pos := Find(text, delim);
    if pos == -1 then "" else text[pos + |delim|..]
  }

  /** The records of a text: each but the last ends with its first delimiter. */
  function Frames(text: string, delim: string): seq<string>
    requires delim != ""
    decreases |text|
  {
    if Find(text, delim) == -1 then [text] else [First(text, delim)] + Frames(Rest(text, delim), delim)
  }

  function Join(records: seq<string>): string {
    if records == [] then "" else records[0] + Join(records[1..])
  }

  class Io {
    const rbuf: Buf
    const fd: Stream
    var closed: bool
    var error: bool

    ghost predicate Valid()
      reads this, rbuf, rbuf.mem
    {
      rbuf.Valid() && (closed || error ==> rbuf.Text() == "")
    }

    /** The bytes that have not been delivered: those in the buffer, and those still to come. */
    ghost function Left(): string
      requires rbuf.Valid()
      reads this, rbuf, rbuf.mem, fd
    {
      rbuf.Text() + Concat(fd.chunks)
    }

    /** The caller's buffer is not the one of the descriptor. */
    ghost predicate Apart(buf: Buf)
      reads this, buf, rbuf
    {
      buf != rbuf && buf.mem != rbuf.mem
    }

    constructor (fd: Stream)
      ensures Valid() && this.fd == fd && !closed && !error && fresh(rbuf) && fresh(rbuf.mem)
      ensures Left() == Concat(fd.chunks)
    {
      this.fd, closed, error := fd, false, false;
      rbuf := new Buf();
    }

    /** Delivers the first `n` bytes of the buffer. */
    method Deliver(buf: Buf, n: nat)
      requires Valid() && buf.Valid() && Apart(buf) && n <= |rbuf.Text()| && rbuf.mem.Length > 0
      modifies rbuf, rbuf.mem, buf, buf.mem
      ensures rbuf.Valid() && buf.Valid() && Apart(buf) && Fresh(buf, old(buf.mem)) && rbuf.mem == old(rbuf.mem)
      ensures buf.Text() == old(buf.Text()) + old(rbuf.Text())[..n] && rbuf.Text() == old(rbuf.Text())[n..]
    {
      buf.Append(rbuf.Text()[..n]);
      rbuf.LConsume(n);
    }

    static twostate predicate Fresh(buf: Buf, mem: array<char>)
      reads buf
    {
      buf.mem == mem || fresh(buf.mem)
    }

    /** Reads until the buffer holds a whole record of `n` bytes, or to the end of the input. */
    method Fill(mode: Mode) returns (n: int, failed: bool)
      requires rbuf.Valid() && (mode.Until? ==> mode.delim != "") && (mode.Bytes? ==> mode.n > 0)
      modifies rbuf, rbuf.mem, fd
      ensures rbuf.Valid() && Left() == old(Left()) && rbuf.mem.Length > 0 && Fresh(rbuf, old(rbuf.mem))
      ensures n == EndOf(mode, rbuf.Text()) && NONE <= n <= |rbuf.Text()|
      ensures n == NONE ==> fd.chunks == [] && failed == fd.fails
      ensures old(EndOf(mode, rbuf.Text())) != NONE ==> rbuf.Text() == old(rbuf.Text())
    {
      hide EndOf, CString, Find, FindFrom;
      failed := false;
      while true
        invariant rbuf.Valid() && Fresh(rbuf, old(rbuf.mem)) && Left() == old(Left())
        invariant old(EndOf(mode, rbuf.Text())) != NONE ==> rbuf.Text() == old(rbuf.Text())
        decreases |Concat(fd.chunks)|, |fd.chunks|
      {
        n := Complete(mode);
        if n != NONE {
          return;
        }
        ghost var text, chunks := rbuf.Text(), fd.chunks;
        var res := rbuf.ReadAppend(fd, BUF_LEN);
        StillLeft(text, chunks, fd.fails, res, fd.chunks);
        if res.Eof? || res.Failed? {
          failed := res.Failed?;
          return;
        }
      }
    }

    /** The input has come to an end: what is left is delivered. */
    method Finish(failed: bool, buf: Buf) returns (r: Result)
      requires Valid() && buf.Valid() && Apart(buf) && rbuf.mem.Length > 0
      modifies this, rbuf, rbuf.mem, buf, buf.mem
      ensures Valid() && buf.Valid() && Apart(buf) && Fresh(buf, old(buf.mem)) && rbuf.mem == old(rbuf.mem)
      ensures buf.Text() == old(buf.Text()) + old(rbuf.Text()) && rbuf.Text() == ""
      ensures if failed then r == Broken && error && closed == old(closed)
              else r == Ended && closed && error == old(error)
    {
      ghost var text := rbuf.Text();
      assert text[..|text|] == text;
      Deliver(buf, rbuf.len);
      if failed { error, r := true, Broken; } else { closed, r := true, Ended; }
    }

    /** Delivers the next record, or what is left at the end of the input. */
    method ReadCommon(mode: Mode, buf: Buf) returns (r: Result)
      requires Valid() && buf.Valid() && Apart(buf) && !closed && !error
      requires (mode.Until? ==> mode.delim != "") && (mode.Bytes? ==> mode.n > 0)
      modifies this, rbuf, rbuf.mem, buf, buf.mem, fd
      ensures Valid() && buf.Valid() && Apart(buf) && Fresh(buf, old(buf.mem)) && Fresh(rbuf, old(rbuf.mem))
      ensures buf.Text() + Left() == old(buf.Text()) + old(Left())
      ensures r.Record? ==> |buf.Text()| == |old(buf.Text())| + r.n && !closed && !error
      ensures r.Record? ==> exists t :: t <= old(Left()) && EndOf(mode, t) == r.n
      ensures old(EndOf(mode, rbuf.Text())) != NONE ==> r == Record(old(EndOf(mode, rbuf.Text())))
      ensures r == Ended || r == Broken ==> Left() == "" && EndOf(mode, old(Left())) == -1
      ensures r == Ended ==> closed && !error && !fd.fails
      ensures r == Broken ==> error && !closed && fd.fails
      ensures r.Record? || r == Ended || r == Broken
    {
      hide EndOf, CString, Find, FindFrom, Concat;
      ghost var all := Left();
      var n, failed := Fill(mode);
      ghost var before, text, chunks := buf.Text(), rbuf.Text(), fd.chunks;
      assert text <= all;
      if n != NONE {
        Deliver(buf, n);
        Parted(before, text, n, Concat(chunks));
        return Record(n);
      }
      NothingToCome(chunks);
      assert all == text;
      r := Finish(failed, buf);
    }

    // ---------- the three ways of reading ----------

    /** Whatever is in the buffer, or else what comes first. */
    method Read(buf: Buf) returns (r: Result)
      requires Valid() && buf.Valid() && Apart(buf)
      modifies this, rbuf, rbuf.mem, buf, buf.mem, fd
      ensures Valid() && buf.Valid() && Apart(buf) && Fresh(buf, old(buf.mem)) && Fresh(rbuf, old(rbuf.mem))
      ensures buf.Text() + Left() == old(buf.Text()) + old(Left())
      ensures old(closed) || old(error) ==>
                r == (if old(closed) then Closed else Error) && buf.Text() == old(buf.Text())
      ensures !old(closed) && !old(error) ==>
                && var all := old(Left());
                   (if all != "" then r.Record? && 0 < r.n <= |all| else r == if fd.fails then Broken else Ended)
                   && (r.Record? ==> buf.Text() == old(buf.Text()) + all[..r.n] && Left() == all[r.n..])
                   && (old(rbuf.Text()) != "" ==> r == Record(|old(rbuf.Text())|))
    {
      if closed { return Closed; }
      if error { return Error; }
      ghost var before, all := buf.Text(), Left();
      r := ReadCommon(Some, buf);
      Delivered(before, all, buf.Text(), Left());
    }

    /** The next `n` bytes, or fewer at the end of the input. */
    method ReadBytes(n: nat, buf: Buf) returns (r: Result)
      requires Valid() && buf.Valid() && Apart(buf) && n > 0
      modifies this, rbuf, rbuf.mem, buf, buf.mem, fd
      ensures Valid() && buf.Valid() && Apart(buf) && Fresh(buf, old(buf.mem)) && Fresh(rbuf, old(rbuf.mem))
      ensures old(closed) || old(error) ==>
                r == (if old(closed) then Closed else Error) && buf.Text() == old(buf.Text())
      ensures !old(closed) && !old(error) ==>
                && var all := old(Left());
                   (if n <= |all| then r == Record(n) else r == if fd.fails then Broken else Ended)
                   && buf.Text() == old(buf.Text()) + (if n <= |all| then all[..n] else all)
                   && Left() == if n <= |all| then all[n..] else ""
    {
      if closed { return Closed; }
      if error { return Error; }
      ghost var before, all := buf.Text(), Left();
      r := ReadCommon(Bytes(n), buf);
      Delivered(before, all, buf.Text(), Left());
    }

    /** The bytes up to the end of the first delimiter, or all that are left if there is none. */
    method ReadUntil(delim: string, buf: Buf) returns (r: Result)
      requires Valid() && buf.Valid() && Apart(buf) && delim != "" && NUL !in Left()
      modifies this, rbuf, rbuf.mem, buf, buf.mem, fd
      ensures Valid() && buf.Valid() && Apart(buf) && Fresh(buf, old(buf.mem)) && Fresh(rbuf, old(rbuf.mem))
      ensures old(closed) || old(error) ==>
                r == (if old(closed) then Closed else Error) && buf.Text() == old(buf.Text())
      ensures !old(closed) && !old(error) ==>
                && var all := old(Left());
                   var pos := Find(all, delim);
                   (if pos != -1 then r == Record(pos + |delim|) else r == if fd.fails then Broken else Ended)
                   && buf.Text() == old(buf.Text()) + First(all, delim) && Left() == Rest(all, delim)
                   && (closed || error <==> pos == -1)
    {
      hide Concat, FindFrom;
      if closed { return Closed; }
      if error { return Error; }
      ghost var before, all := buf.Text(), Left();
      r := ReadCommon(Until(delim), buf);
      if r.Record? {
        ghost var t :| t <= all && EndOf(Until(delim), t) == r.n;
        UntilPrefix(t, all, delim);
      } else {
        assert CString(all) == all;
      }
      Delivered(before, all, buf.Text(), Left());
    }

    /** All records of an input. */
    method ReadAll(delim: string) returns (records: seq<string>)
      requires Valid() && !closed && !error && delim != "" && NUL !in Left()
      modifies this, rbuf, rbuf.mem, fd
      ensures Valid()
      ensures records == Frames(old(Left()), delim) && Left() == "" && (closed || error)
      ensures Join(records) == old(Left())
    {
      hide Concat, Find, FindFrom, First, Rest, Frames, Join;
      records := [];
      ghost var all := Left();
      while !closed && !error
        invariant Valid() && Fresh(rbuf, old(rbuf.mem)) && NUL !in Left()
        invariant if closed || error then Left() == "" && records == Frames(all, delim)
                  else records + Frames(Left(), delim) == Frames(all, delim)
        decreases if closed || error then 0 else |Left()| + 1
      {
        ghost var here := Left();
        FramesStep(here, delim);
        var record := ReadOne(delim);
        Regroup(records, record, Frames(Left(), delim));
        records := records + [record];
      }
      FramesJoin(all, delim);
    }

    /** One record, in a buffer of its own. */
    method ReadOne(delim: string) returns (record: string)
      requires Valid() && !closed && !error && delim != "" && NUL !in Left()
      modifies this, rbuf, rbuf.mem, fd
      ensures Valid() && Fresh(rbuf, old(rbuf.mem))
      ensures record == First(old(Left()), delim) && Left() == Rest(old(Left()), delim)
      ensures closed || error <==> Find(old(Left()), delim) == NONE
    {
      hide Concat, Find, FindFrom, First, Rest;
      var buf := new Buf();
      var _ := ReadUntil(delim, buf);
      record := buf.Text();
    }

    method Complete(mode: Mode) returns (n: int)
      requires rbuf.Valid()
      requires mode.Until? ==> mode.delim != ""
      ensures n == EndOf(mode, rbuf.Text()) && NONE <= n <= |rbuf.Text()|
      ensures n != NONE && (mode.Bytes? ==> mode.n > 0) ==> rbuf.mem.Length > 0
    {
      match mode {
        case Some => n := if rbuf.len > 0 then rbuf.len else -1;
        case Bytes(k) => n := if k <= rbuf.len then k else -1;
        case Until(delim) =>
          var pos := rbuf.Search(delim);
          n := if pos == -1 then -1 else pos + |delim|;
      }
    }
  }

  /** A read moves bytes into the buffer and loses none. */
  lemma StillLeft(text: string, chunks: seq<string>, fails: bool, res: ReadResult, chunks': seq<string>)
    requires Reads(chunks, fails, res, chunks')
    ensures (text + if res.Got? then res.bytes else "") + Concat(chunks') == text + Concat(chunks)
    ensures res.Got? && res.bytes != "" ==> |Concat(chunks')| < |Concat(chunks)|
    ensures res.Interrupted? ==> |Concat(chunks')| == |Concat(chunks)| && |chunks'| < |chunks|
    ensures res.Eof? || res.Failed? ==> chunks' == []
  {
  }

  lemma Regroup(records: seq<string>, record: string, more: seq<string>)
    ensures records + [record] + more == records + ([record] + more) && records + ([record] + []) == records + [record]
  {
  }

  lemma NothingToCome(chunks: seq<string>)
    ensures chunks == [] ==> Concat(chunks) == ""
  {
  }

  lemma Parted(before: string, text: string, n: nat, more: string)
    requires n <= |text|
    ensures (before + text[..n]) + (text[n..] + more) == before + (text + more)
    ensures text[|text|..] == "" && text[..|text|] == text && text + "" == text
  {
  }

  /** Bytes are delivered from the front. */
  lemma Delivered(before: string, all: string, text: string, left: string)
    requires text + left == before + all && |text| >= |before|
    ensures var n := |text| - |before|;
            n <= |all| && text == before + all[..n] && left == all[n..]
  {
    var n := |text| - |before|;
    assert text == (text + left)[..|text|] && left == (text + left)[|text|..];
    assert (before + all)[..|before| + n] == before + all[..n];
    assert (before + all)[|before| + n..] == all[n..];
  }

  /** A record that is complete in a part of the input is the first of the whole. */
  lemma UntilPrefix(t: string, all: string, delim: string)
    requires t <= all && NUL !in all && EndOf(Until(delim), t) != -1
    ensures EndOf(Until(delim), t) == Find(all, delim) + |delim| && Find(all, delim) != -1
  {
    assert CString(t) == t;
    FindPrefix(t, all[|t|..], delim);
    assert t + all[|t|..] == all;
  }

  lemma FramesStep(text: string, delim: string)
    requires delim != ""
    ensures Frames(text, delim)
            == [First(text, delim)] + if Find(text, delim) == NONE then [] else Frames(Rest(text, delim), delim)
    ensures Find(text, delim) != -1 ==> |Rest(text, delim)| < |text|
    ensures forall c :: c in Rest(text, delim) ==> c in text
    ensures Find(text, delim) == NONE ==> Rest(text, delim) == ""
  {
  }

  /** The records are the text; a record with more after it ends with its only delimiter. */
  lemma {:induction false} FramesJoin(text: string, delim: string)
    requires delim != ""
    ensures Join(Frames(text, delim)) == text
    ensures forall i | 0 <= i < |Frames(text, delim)| - 1 ::
              Find(Frames(text, delim)[i], delim) == |Frames(text, delim)[i]| - |delim|
    decreases |text|
  {
    hide Find, First, Rest, Join;
    FramesStep(text, delim);
    var first, rest, fs := First(text, delim), Rest(text, delim), Frames(text, delim);
    JoinFirst(fs, text, delim);
    if Find(text, delim) != NONE {
      FramesJoin(rest, delim);
      FirstFound(text, delim);
      var gs := Frames(rest, delim);
      assert fs[1..] == gs;
      forall i | 0 <= i < |fs| - 1 ensures Find(fs[i], delim) == |fs[i]| - |delim| {
        if i > 0 { assert fs[i] == gs[i - 1]; }
      }
    }
  }

  lemma JoinFirst(fs: seq<string>, text: string, delim: string)
    requires fs != []
    ensures Join(fs) == fs[0] + Join(fs[1..]) && Join([]) == ""
    ensures First(text, delim) + Rest(text, delim) == text
    ensures Find(text, delim) == NONE ==> First(text, delim) == text
  {
  }

  lemma FirstFound(text: string, delim: string)
    requires Find(text, delim) != -1
    ensures Find(First(text, delim), delim) == |First(text, delim)| - |delim|
  {
    var first := First(text, delim);
    forall j | 0 <= j && j + |delim| <= |first| ensures OccursAt(first, delim, j) == OccursAt(text, delim, j) {
      assert first[j..j + |delim|] == text[j..j + |delim|];
    }
    FindUnique(first, delim, Find(text, delim));
  }
}
