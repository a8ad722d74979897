/** Printing JSON values into buffers whose sizes are computed beforehand. */
module JsonPrint {
  import opened JsonText
  import opened JsonBack

  method Put(out: array<char>, at: nat, c: char)
    requires at < out.Length
    modifies out
    ensures out[..at + 1] == old(out[..at]) + [c]
  {
    out[at] := c;
  }

  /** Copies a string and its terminator. */
  method StrCpy(out: array<char>, at: nat, s: string)
    requires at + |s| < out.Length
    modifies out
    ensures out[..at + |s|] == old(out[..at]) + s && out[at + |s|] == '\0'
  {
    for i := 0 to |s|
      invariant out[..at + i] == old(out[..at]) + s[..i]
    {
      out[at + i] := s[i];
    }
    out[at + |s|] := '\0';
  }

  method PutTabs(out: array<char>, at: nat, n: int) returns (ptr: nat)
    requires at + |Tabs(n)| < out.Length
    modifies out
    ensures ptr == at + |Tabs(n)| && out[..ptr] == old(out[..at]) + Tabs(n)
  {
    ptr := at;
    var i := 0;
    assert old(out[..at]) + Tabs(n) == out[..at] + Tabs(n - 0);
    while i < n
      invariant 0 <= i && (i <= n || i == 0) && at <= ptr < out.Length
      invariant ptr + |Tabs(n - i)| == at + |Tabs(n)| && out[..ptr] + Tabs(n - i) == old(out[..at]) + Tabs(n)
    {
      assert out[..ptr] + Tabs(n - i) == (out[..ptr] + ['\t']) + Tabs(n - i - 1);
      Put(out, ptr, '\t');
      ptr, i := ptr + 1, i + 1;
    }
    assert out[..ptr] + "" == out[..ptr];
  }

  // ---------- numbers and strings ----------

  lemma {:induction false} DigitsFit(n: nat, k: nat, bound: nat)
    requires k > 0 && n < bound && bound == Pow10(k)
    ensures 1 <= |Digits(n)| <= k
    decreases k
  {
    if n >= 10 { DigitsFit(n / 10, k - 1, Pow10(k - 1)); }
  }

  function Pow10(k: nat): nat { if k == 0 then 1 else 10 * Pow10(k - 1) }

  lemma NumberFits(n: Int)
    ensures 1 <= |PrintNumber(n)| <= 11
  {
    assert Pow10(5) == 100000;
    assert Pow10(10) == 10000000000;
    DigitsFit(if n < 0 then -(n as int) else n, 10, Pow10(10));
  }

  method Number(n: Int) returns (r: string)
    ensures r == PrintNumber(n)
  {
    var str := new char[21];
    NumberFits(n);
    StrCpy(str, 0, PrintNumber(n));
    r := str[..|PrintNumber(n)|];
  }

  /** The length of a string between its quotes. */
  method Length(str: Text) returns (len: nat)
    ensures len == |PrintChars(str)|
  {
    len := 0;
    for i := 0 to |str|
      invariant len + |PrintChars(str[i..])| == |PrintChars(str)|
    {
      var token := str[i];
      assert str[i..][1..] == str[i + 1..];
      len := len + 1;
      if token in "\"\\\n\r\t" || token == BACKSPACE || token == FORMFEED {
        len := len + 1;
      } else if token < 32 as char {
        len := len + 5;
      }
    }
  }

  /** A character or its escape sequence. */
  method Char(out: array<char>, ptr: nat, c: char) returns (end: nat)
    requires c != '\0' && ptr + |PrintChar(c)| < out.Length
    modifies out
    ensures end == ptr + |PrintChar(c)| && out[..end] == old(out[..ptr]) + PrintChar(c)
  {
    if Plain(c) {
      Put(out, ptr, c);
      return ptr + 1;
    }
    Put(out, ptr, '\\');
    var token := if c == '\\' || c == '\"' then c
                 else if c == BACKSPACE then 'b'
                 else if c == FORMFEED then 'f'
                 else if c == '\n' then 'n'
                 else if c == '\r' then 'r'
                 else if c == '\t' then 't'
                 else '\0';
    if token != '\0' {
      Put(out, ptr + 1, token);
      return ptr + 2;
    }
    StrCpy(out, ptr + 1, "u00" + [Hex(c as int / 16), Hex(c as int % 16)]);
    return ptr + 6;
  }

  /** A quoted and escaped string, in a buffer with no room to spare. */
  method String(str: Text) returns (r: string)
    ensures r == PrintString(str)
  {
    hide PrintChar;
    var len := Length(str);
    var out := new char[len + 3];
    var ptr := 1;
    Put(out, 0, '\"');
    assert str[0..] == str;
    for i := 0 to |str|
      invariant 1 <= ptr && ptr + |PrintChars(str[i..])| == 1 + len
      invariant out[..ptr] + PrintChars(str[i..]) == "\"" + PrintChars(str)
    {
      assert str[i..][1..] == str[i + 1..];
      assert out[..ptr] + PrintChars(str[i..]) == (out[..ptr] + PrintChar(str[i])) + PrintChars(str[i + 1..]);
      ptr := Char(out, ptr, str[i]);
    }
    assert out[..ptr] + "" == out[..ptr];
    Put(out, ptr, '\"');
    out[ptr + 1] := '\0';
    r := out[..ptr + 1];
  }

  // ---------- arrays and objects ----------

  method Value(v: Json, depth: nat, fmt: bool) returns (r: string)
    ensures r == Print(v, depth, fmt)
    decreases v, 1
  {
    match v
    case Null => r := "null";
    case False => r := "false";
    case True => r := "true";
    case Number(n) => r := Number(n);
    case Str(s) => r := String(s);
    case Array(_) => r := Array(v, depth, fmt);
    case Object(_) => r := Object(v, depth, fmt);
  }

  /** How much of an array's text an item and what follows it are. */
  lemma ItemRoom(v: Json, i: nat, depth: nat, fmt: bool)
    requires v.Array? && i < |v.items|
    ensures |PrintItems(v, i, depth, fmt)|
            <= |Print(v.items[i], depth + 1, fmt)| + 2 + (if fmt then 1 else 0) + |PrintItems(v, i + 1, depth, fmt)|
    ensures |PrintItems(v, i, depth, fmt)|
            == |Print(v.items[i], depth + 1, fmt)| + |ItemEnd(i + 1 == |v.items|, fmt)| + |PrintItems(v, i + 1, depth,
                fmt)|
  {
    hide Print;
  }

  /** The printed items of an array. */
  method Entries(v: Json, depth: nat, fmt: bool) returns (entries: seq<string>, len: nat)
    requires v.Array?
    ensures |entries| == |v.items|
    ensures forall j | 0 <= j < |entries| :: entries[j] == Print(v.items[j], depth + 1, fmt)
    ensures |PrintItems(v, 0, depth, fmt)| + 5 <= len
    decreases v, 0, 0
  {
    hide Print, PrintItems;
    entries, len := [], 5;
    for i := 0 to |v.items|
      invariant |entries| == i && forall j | 0 <= j < i :: entries[j] == Print(v.items[j], depth + 1, fmt)
      invariant 5 <= len && |PrintItems(v, 0, depth, fmt)| + 5 <= len + |PrintItems(v, i, depth, fmt)|
    {
      var ret := Value(v.items[i], depth + 1, fmt);
      ItemRoom(v, i, depth, fmt);
      entries := entries + [ret];
      len := len + |ret| + 2 + if fmt then 1 else 0;
    }
    ItemsEnd(v, depth, fmt);
  }

  method Array(v: Json, depth: nat, fmt: bool) returns (r: string)
    requires v.Array?
    ensures r == Print(v, depth, fmt)
    decreases v, 0, 1
  {
    hide Print, PrintItems;
    ArrayParts(v, depth, fmt);
    if v.items == [] {
      var out := new char[3];
      StrCpy(out, 0, "[]");
      ItemsEnd(v, depth, fmt);
      return out[..2];
    }
    var entries, len := Entries(v, depth, fmt);
    var out := new char[len];
    var ptr := 1;
    Put(out, 0, '[');
    out[1] := '\0';
    for i := 0 to |entries|
      invariant 1 <= ptr && ptr + |PrintItems(v, i, depth, fmt)| == 1 + |PrintItems(v, 0, depth, fmt)|
      invariant out[..ptr] + PrintItems(v, i, depth, fmt) == "[" + PrintItems(v, 0, depth, fmt)
    {
      ghost var was := out[..ptr];
      ItemRoom(v, i, depth, fmt);
      StrCpy(out, ptr, entries[i]);
      ptr := ptr + |entries[i]|;
      if i != |entries| - 1 {
        Put(out, ptr, ',');
        ptr := ptr + 1;
        if fmt {
          Put(out, ptr, ' ');
          ptr := ptr + 1;
        }
        out[ptr] := '\0';
      }
      ItemPut(v, i, depth, fmt, was, out[..ptr]);
    }
    ItemsEnd(v, depth, fmt);
    assert out[..ptr] + "" == out[..ptr];
    Put(out, ptr, ']');
    out[ptr + 1] := '\0';
    r := out[..ptr + 1];
  }

  lemma ArrayParts(v: Json, depth: nat, fmt: bool)
    requires v.Array?
    ensures Print(v, depth, fmt) == "[" + PrintItems(v, 0, depth, fmt) + "]"
  {
  }

  lemma ItemPut(v: Json, i: nat, depth: nat, fmt: bool, was: string, now: string)
    requires v.Array? && i < |v.items|
    requires now == was + Print(v.items[i], depth + 1, fmt) + ItemEnd(i + 1 == |v.items|, fmt)
    ensures was + PrintItems(v, i, depth, fmt) == now + PrintItems(v, i + 1, depth, fmt)
  {
    hide Print, ItemEnd;
  }

  /** How much of an object's text a member is. */
  lemma MemberRoom(v: Json, i: nat, depth: nat, fmt: bool)
    requires v.Object? && i < |v.members|
    ensures |PrintMembers(v, i, depth, fmt)|
            == |MemberStart(v.members[i].0, depth, fmt)| + |Print(v.members[i].1, depth + 1, fmt)|
               + |MemberEnd(i + 1 == |v.members|, fmt)| + |PrintMembers(v, i + 1, depth, fmt)|
    ensures |MemberStart(v.members[i].0, depth, fmt)| + |MemberEnd(i + 1 == |v.members|, fmt)|
            <= |PrintString(v.members[i].0)| + 2 + if fmt then |Tabs(depth + 1)| + 2 else 0
  {
    hide Print, PrintString, Tabs;
  }

  lemma {:induction false} TabsLength(n: int)
    ensures |Tabs(n)| == if n <= 0 then 0 else n
  {
    if n > 0 { TabsLength(n - 1); }
  }

  /** The printed names and values of an object. */
  method Members(v: Json, depth: nat, fmt: bool) returns (names: seq<string>, entries: seq<string>, len: nat)
    requires v.Object?
    ensures |names| == |entries| == |v.members|
    ensures forall j | 0 <= j < |entries| ::
              names[j] == PrintString(v.members[j].0) && entries[j] == Print(v.members[j].1, depth + 1, fmt)
    ensures |PrintMembers(v, 0, depth, fmt)| + 7 + (if fmt then depth + 1 else 0) <= len
    decreases v, 0, 0
  {
    hide Print, PrintMembers, PrintString, Tabs;
    names, entries, len := [], [], 7;
    if fmt { len := len + (depth + 1); }
    ghost var start := len;
    for i := 0 to |v.members|
      invariant |names| == |entries| == i
      invariant forall j | 0 <= j < i ::
                  names[j] == PrintString(v.members[j].0) && entries[j] == Print(v.members[j].1, depth + 1, fmt)
      invariant start <= len && |PrintMembers(v, 0, depth, fmt)| + start <= len + |PrintMembers(v, i, depth, fmt)|
    {
      var str := String(v.members[i].0);
      var ret := Value(v.members[i].1, depth + 1, fmt);
      MemberRoom(v, i, depth, fmt);
      TabsLength(depth + 1);
      names, entries := names + [str], entries + [ret];
      len := len + |ret| + |str| + 2 + if fmt then 2 + (depth + 1) else 0;
    }
    MembersEnd(v, depth, fmt);
  }

  /** An object without members, in its own buffer. */
  method Empty(depth: nat, fmt: bool) returns (r: string)
    ensures r == Print(JsonText.Object([]), depth, fmt)
  {
    hide Tabs;
    TabsLength(depth - 1);
    var out := new char[if fmt then depth + 4 else 3];
    var ptr := 1;
    Put(out, 0, '{');
    if fmt {
      Put(out, 1, '\n');
      ptr := PutTabs(out, 2, depth - 1);
    }
    Put(out, ptr, '}');
    out[ptr + 1] := '\0';
    r := out[..ptr + 1];
  }

  /** A name and its colon at `ptr`. */
  method Name(out: array<char>, ptr: nat, ghost str: string, name: string, depth: nat, fmt: bool) returns (end: nat)
    requires name == PrintString(str) && ptr + |MemberStart(str, depth, fmt)| < out.Length
    modifies out
    ensures end == ptr + |MemberStart(str, depth, fmt)|
    ensures out[..end] == old(out[..ptr]) + MemberStart(str, depth, fmt)
  {
    hide Tabs, PrintString;
    end := ptr;
    if fmt { end := PutTabs(out, end, depth + 1); }
    StrCpy(out, end, name);
    end := end + |name|;
    Put(out, end, ':');
    end := end + 1;
    if fmt {
      Put(out, end, '\t');
      end := end + 1;
    }
  }

  /** A value and what follows it at `ptr`. */
  method Entry(out: array<char>, ptr: nat, entry: string, fmt: bool, last: bool) returns (end: nat)
    requires ptr + |entry| + |MemberEnd(last, fmt)| < out.Length
    modifies out
    ensures end == ptr + |entry| + |MemberEnd(last, fmt)|
    ensures out[..end] == old(out[..ptr]) + entry + MemberEnd(last, fmt)
  {
    StrCpy(out, ptr, entry);
    end := ptr + |entry|;
    if !last {
      Put(out, end, ',');
      end := end + 1;
    }
    if fmt {
      Put(out, end, '\n');
      end := end + 1;
    }
    out[end] := '\0';
  }

  method Object(v: Json, depth: nat, fmt: bool) returns (r: string)
    requires v.Object?
    ensures r == Print(v, depth, fmt)
    decreases v, 0, 1
  {
    hide Print, PrintMembers, PrintString, MemberStart, MemberEnd, Tabs;
    if v.members == [] {
      r := Empty(depth, fmt);
      return;
    }
    var names, entries, len := Members(v, depth, fmt);
    TabsLength(depth);
    var out := new char[len];
    Put(out, 0, '{');
    var ptr := 1;
    if fmt {
      Put(out, 1, '\n');
      ptr := 2;
    }
    out[ptr] := '\0';
    ghost var nl := out[..ptr];
    for i := 0 to |entries|
      invariant |nl| <= ptr && ptr + |PrintMembers(v, i, depth, fmt)| == |nl| + |PrintMembers(v, 0, depth, fmt)|
      invariant out[..ptr] + PrintMembers(v, i, depth, fmt) == nl + PrintMembers(v, 0, depth, fmt)
    {
      ghost var was := out[..ptr];
      MemberRoom(v, i, depth, fmt);
      ptr := Name(out, ptr, v.members[i].0, names[i], depth, fmt);
      ptr := Entry(out, ptr, entries[i], fmt, i == |entries| - 1);
      MemberPut(v, i, depth, fmt, was, out[..ptr]);
    }
    MembersEnd(v, depth, fmt);
    assert out[..ptr] + "" == out[..ptr];
    if fmt { ptr := PutTabs(out, ptr, depth); }
    Put(out, ptr, '}');
    out[ptr + 1] := '\0';
    r := out[..ptr + 1];
    ObjectParts(v, depth, fmt, "");
    assert Print(v, depth, fmt) + "" == Print(v, depth, fmt);
  }

  lemma MemberPut(v: Json, i: nat, depth: nat, fmt: bool, was: string, now: string)
    requires v.Object? && i < |v.members|
    requires now == was + MemberStart(v.members[i].0, depth, fmt) + Print(v.members[i].1, depth + 1, fmt)
                    + MemberEnd(i + 1 == |v.members|, fmt)
    ensures was + PrintMembers(v, i, depth, fmt) == now + PrintMembers(v, i + 1, depth, fmt)
  {
    hide Print, MemberStart, MemberEnd;
  }
}
