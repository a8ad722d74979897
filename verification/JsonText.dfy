/** JSON values, their two printed forms, and what the parser and the minifier read. */
module JsonText {

  datatype Option<+T> = None | Some(value: T)

  const INT_MIN: int := -0x8000_0000
  const INT_MAX: int := 0x7fff_ffff

  type Int = n: int | INT_MIN <= n <= INT_MAX

  /** A string of C: no character of it is the terminator. Characters stand for bytes. */
  type Text = s: string | '\0' !in s

  datatype Json =
    | Null | False | True
    | Number(n: Int)
    | Str(s: Text)
    | Array(items: seq<Json>)
    | Object(members: seq<(Text, Json)>)

  const BACKSPACE: char := 8 as char
  const FORMFEED: char := 12 as char

  // ---------- printing ----------

  function Digit(d: nat): char
    requires d < 10
  {
    ('0' as int + d) as char
  }

  function Digits(n: nat): string { if n < 10 then [Digit(n)] else Digits(n / 10) + [Digit(n % 10)] }

  function PrintNumber(n: int): string { if n < 0 then "-" + Digits(-n) else Digits(n) }

  function Hex(d: nat): char
    requires d < 16
  {
    if d < 10 then Digit(d) else ('a' as int + d - 10) as char
  }

  predicate Plain(c: char) { c > 31 as char && c != '\"' && c != '\\' }

  /** What stands for a character after a backslash. */
  function Escape(c: char): string
    requires !Plain(c)
  {
    if c == '\\' then "\\"
    else if c == '\"' then "\""
    else if c == BACKSPACE then "b"
    else if c == FORMFEED then "f"
    else if c == '\n' then "n"
    else if c == '\r' then "r"
    else if c == '\t' then "t"
    else "u00" + [Hex(c as int / 16), Hex(c as int % 16)]
  }

  function PrintChar(c: char): string { if Plain(c) then [c] else "\\" + Escape(c) }

  function PrintChars(s: string): string { if s == "" then "" else PrintChar(s[0]) + PrintChars(s[1..]) }

  function PrintString(s: string): string { "\"" + PrintChars(s) + "\"" }

  function Tabs(n: int): string { if n <= 0 then "" else "\t" + Tabs(n - 1) }

  function Children(v: Json): nat { if v.Array? then |v.items| else if v.Object? then |v.members| else 0 }

  /** The text of a value at nesting `depth`; an empty object is one tab short of its depth. */
  function Print(v: Json, depth: nat, fmt: bool): string
    decreases v, Children(v) + 1
  {
    match v
    case Null => "null"
    case False => "false"
    case True => "true"
    case Number(n) => PrintNumber(n)
    case Str(s) => PrintString(s)
    case Array(_) => "[" + PrintItems(v, 0, depth, fmt) + "]"
    case Object(ms) =>
      if ms == [] then "{" + (if fmt then "\n" + Tabs(depth - 1) else "") + "}"
      else "{" + (if fmt then "\n" else "") + PrintMembers(v, 0, depth, fmt) + (if fmt then Tabs(depth) else "") + "}"
  }

  function Comma(last: bool): string { if last then "" else "," }

  /** The items of an array from number `i` on. */
  function PrintItems(v: Json, i: nat, depth: nat, fmt: bool): string
    requires v.Array? && i <= |v.items|
    decreases v, |v.items| - i
  {
    if i == |v.items| then ""
    else Print(v.items[i], depth + 1, fmt) + ItemEnd(i + 1 == |v.items|, fmt) + PrintItems(v, i + 1, depth, fmt)
  }

  function ItemEnd(last: bool, fmt: bool): string { if last then "" else if fmt then ", " else "," }

  /** The members of an object from number `i` on. */
  function PrintMembers(v: Json, i: nat, depth: nat, fmt: bool): string
    requires v.Object? && i <= |v.members|
    decreases v, |v.members| - i
  {
    if i == |v.members| then ""
    else MemberStart(v.members[i].0, depth, fmt) + Print(v.members[i].1, depth + 1, fmt)
         + MemberEnd(i + 1 == |v.members|, fmt) + PrintMembers(v, i + 1, depth, fmt)
  }

  function MemberStart(name: string, depth: nat, fmt: bool): string {
    (if fmt then Tabs(depth + 1) else "") + PrintString(name) + ":" + (if fmt then "\t" else "")
  }

  function MemberEnd(last: bool, fmt: bool): string { Comma(last) + if fmt then "\n" else "" }

  // ---------- parsing ----------

  type Parsed<+T> = Option<(T, Text)>

  function Skip(s: Text): (r: Text)
    ensures |r| <= |s| && (r == "" || r[0] > ' ')
  {
    if s != "" && s[0] <= ' ' then Skip(s[1..]) else s
  }

  predicate IsDigit(c: char) { '0' <= c <= '9' }

  /** Decimal digits after those that make `n`. */
  function ParseDigits(n: nat, s: Text): (r: (nat, Text))
    ensures |r.1| <= |s|
    decreases |s|
  {
    if s != "" && IsDigit(s[0]) then ParseDigits(10 * n + (s[0] as int - '0' as int), s[1..]) else (n, s)
  }

  function ParseNatural(s: Text): (r: (nat, Text))
    ensures |r.1| <= |s| && (s != "" && IsDigit(s[0]) ==> |r.1| < |s|)
  {
    var t := if s != "" && s[0] == '0' then s[1..] else s;
    if t != "" && '1' <= t[0] <= '9' then ParseDigits(t[0] as int - '0' as int, t[1..]) else (0, t)
  }

  /** A whole number; fractions, exponents and numbers out of range are not modelled. */
  function ParseNumber(s: Text): (r: Parsed<Int>)
    requires s != "" && (s[0] == '-' || IsDigit(s[0]))
    ensures r.Some? ==> |r.value.1| < |s|
  {
    var (n, rest) := ParseNatural(if s[0] == '-' then s[1..] else s);
    var x: int := if s[0] == '-' then -(n as int) else n;
    if rest != "" && (rest[0] == 'e' || rest[0] == 'E' || (rest[0] == '.' && |rest| > 1 && IsDigit(rest[1]))) then None
    else if INT_MIN <= x <= INT_MAX then Some((x, rest))
    else None
  }

  function HexValue(c: char): Option<nat> {
    if IsDigit(c) then Some(c as int - '0' as int)
    else if 'A' <= c <= 'F' then Some(10 + c as int - 'A' as int)
    else if 'a' <= c <= 'f' then Some(10 + c as int - 'a' as int)
    else None
  }

  /** Zero unless there are four digits. */
  function Hex4(s: string): (r: nat)
    requires |s| >= 4
    ensures r < 0x10000
  {
    var (a, b, c, d) := (HexValue(s[0]), HexValue(s[1]), HexValue(s[2]), HexValue(s[3]));
    if a.None? || b.None? || c.None? || d.None? then 0
    else
      assert a.value < 16 && b.value < 16 && c.value < 16 && d.value < 16;
      4096 * a.value + 256 * b.value + 16 * c.value + d.value
  }

  function Utf8(c: nat): (r: Text)
    requires 0 < c < 0x110000
    ensures r != ""
  {
    if c < 0x80 then [c as char]
    else if c < 0x800 then [(0xC0 + c / 64) as char, (0x80 + c % 64) as char]
    else if c < 0x10000 then [(0xE0 + c / 4096) as char, (0x80 + c / 64 % 64) as char, (0x80 + c % 64) as char]
    else [(0xF0 + c / 262144) as char, (0x80 + c / 4096 % 64) as char, (0x80 + c / 64 % 64) as char,
          (0x80 + c % 64) as char]
  }

  /** What follows a backslash and a `u`: invalid units and lone surrogates leave nothing. */
  function ParseUnit(s: Text): (r: Parsed<Text>)
    ensures r.Some? ==> |r.value.1| < |s|
  {
    if |s| < 4 then None
    else
      var (c, rest) := (Hex4(s[..4]), s[4..]);
      if c == 0 || 0xDC00 <= c < 0xE000 then Some(("", rest))
      else if !(0xD800 <= c < 0xDC00) then Some((Utf8(c), rest))
      else if |rest| < 2 || rest[0] != '\\' || rest[1] != 'u' then Some(("", rest))
      else if |rest| < 6 then None
      else
        var d := Hex4(rest[2..6]);
        Some((if 0xDC00 <= d < 0xE000 then Utf8(0x10000 + c % 1024 * 1024 + d % 1024) else "", rest[6..]))
  }

  /** What follows a backslash. */
  function ParseEscape(s: Text): (r: Parsed<Text>)
    ensures r.Some? ==> |r.value.1| < |s|
  {
    if s == "" then None
    else if s[0] == 'u' then ParseUnit(s[1..])
    else Some(([if s[0] == 'b' then BACKSPACE
                else if s[0] == 'f' then FORMFEED
                else if s[0] == 'n' then '\n'
                else if s[0] == 'r' then '\r'
                else if s[0] == 't' then '\t'
                else s[0]], s[1..]))
  }

  /** The characters up to a quote, which is consumed, or to the end of the text. */
  function ParseChars(s: Text): (r: Parsed<Text>)
    ensures r.Some? ==> |r.value.1| <= |s|
    decreases |s|
  {
    if s == "" then Some(("", ""))
    else if s[0] == '\"' then Some(("", s[1..]))
    else if s[0] != '\\' then
      match ParseChars(s[1..])
      case None => None
      case Some((t, rest)) => Some(([s[0]] + t, rest))
    else
      match ParseEscape(s[1..])
      case None => None
      case Some((c, s1)) =>
        match ParseChars(s1)
        case None => None
        case Some((t, rest)) => Some((c + t, rest))
  }

  /** How many characters the parser reserves for a string: a backslash and what follows it count once. */
  function Units(s: string): nat
    decreases |s|
  {
    if s == "" || s[0] == '\"' then 0
    else if s[0] != '\\' then 1 + Units(s[1..])
    else if |s| == 1 then 1
    else 1 + Units(s[2..])
  }

  /** A string that does not end within the text, or needs more room than was reserved for it, is not modelled. */
  function ParseString(s: Text): (r: Parsed<Text>)
    ensures r.Some? ==> |r.value.1| < |s|
  {
    if s == "" || s[0] != '\"' then None
    else match ParseChars(s[1..])
      case None => None
      case Some((t, rest)) => if |t| > Units(s[1..]) then None else Some((t, rest))
  }

  predicate Starts(s: string, word: string) { word <= s }

  function ParseValue(s: Text): (r: Parsed<Json>)
    ensures r.Some? ==> |r.value.1| < |s|
    decreases |s|, 1
  {
    if Starts(s, "null") then Some((Null, s[4..]))
    else if Starts(s, "false") then Some((False, s[5..]))
    else if Starts(s, "true") then Some((True, s[4..]))
    else if s == "" then None
    else if s[0] == '\"' then
      match ParseString(s)
      case None => None
      case Some((t, rest)) => Some((Str(t), rest))
    else if s[0] == '-' || IsDigit(s[0]) then
      match ParseNumber(s)
      case None => None
      case Some((n, rest)) => Some((Number(n), rest))
    else if s[0] == '[' then
      var t := Skip(s[1..]);
      if t != "" && t[0] == ']' then Some((Array([]), t[1..]))
      else match ParseItems(t)
        case None => None
        case Some((vs, rest)) => Some((Array(vs), rest))
    else if s[0] == '{' then
      var t := Skip(s[1..]);
      if t != "" && t[0] == '}' then Some((Object([]), t[1..]))
      else match ParseMembers(t)
        case None => None
        case Some((ms, rest)) => Some((Object(ms), rest))
    else None
  }

  /** Items and commas up to the bracket that ends them. */
  function ParseItems(s: Text): (r: Parsed<seq<Json>>)
    ensures r.Some? ==> |r.value.1| < |s|
    decreases |s|, 2
  {
    match ParseValue(Skip(s))
    case None => None
    case Some((v, s1)) =>
      var t := Skip(s1);
      if t == "" then None
      else if t[0] == ']' then Some(([v], t[1..]))
      else if t[0] != ',' then None
      else match ParseItems(t[1..])
        case None => None
        case Some((vs, rest)) => Some(([v] + vs, rest))
  }

  function ParseMember(s: Text): (r: Parsed<(Text, Json)>)
    ensures r.Some? ==> |r.value.1| < |s|
    decreases |s|, 2
  {
    match ParseString(Skip(s))
    case None => None
    case Some((name, s1)) =>
      var t := Skip(s1);
      if t == "" || t[0] != ':' then None
      else match ParseValue(Skip(t[1..]))
        case None => None
        case Some((v, rest)) => Some(((name, v), rest))
  }

  function ParseMembers(s: Text): (r: Parsed<seq<(Text, Json)>>)
    ensures r.Some? ==> |r.value.1| < |s|
    decreases |s|, 3
  {
    match ParseMember(s)
    case None => None
    case Some((m, s1)) =>
      var t := Skip(s1);
      if t == "" then None
      else if t[0] == '}' then Some(([m], t[1..]))
      else if t[0] != ',' then None
      else match ParseMembers(t[1..])
        case None => None
        case Some((ms, rest)) => Some(([m] + ms, rest))
  }

  /** The whole text; `whole` says that nothing but white space may follow the value. */
  function Parse(s: Text, whole: bool): Option<Json> {
    match ParseValue(Skip(s))
    case None => None
    case Some((v, rest)) => if whole && Skip(rest) != "" then None else Some(v)
  }
}
