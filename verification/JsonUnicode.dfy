/** Escaped characters: the bytes that a string holds after parsing are the UTF-8 form of what the
    escapes name. */
module JsonUnicode {
  import opened JsonBack
  import opened JsonText

  // ---------- UTF-8, as in RFC 3629 ----------

  /** A code point that is no half of a surrogate pair. */
  predicate Scalar(c: nat) { c < 0xD800 || 0xE000 <= c <= 0x10FFFF }

  predicate Tail(s: string, i: nat) { i < |s| && 0x80 <= s[i] as int <= 0xBF }

  /** What the byte after the leading one may be: this excludes forms that are longer than needed,
      surrogates, and numbers past the last code point. */
  predicate Second(lead: int, b: int) {
    match lead
    case 0xE0 => 0xA0 <= b <= 0xBF
    case 0xED => 0x80 <= b <= 0x9F
    case 0xF0 => 0x90 <= b <= 0xBF
    case 0xF4 => 0x80 <= b <= 0x8F
    case _ => 0x80 <= b <= 0xBF
  }

  /** How many bytes a character has, by the first of them. */
  function Width(lead: int): nat {
    if lead <= 0x7F then 1
    else if 0xC2 <= lead <= 0xDF then 2
    else if 0xE0 <= lead <= 0xEF then 3
    else if 0xF0 <= lead <= 0xF4 then 4
    else 0
  }

  /** The low six bits. */
  function Low(c: char): int { c as int % 64 }

  /** The first character of a text of bytes, and what follows it. */
  function Decode(s: string): (r: Option<(nat, string)>)
    ensures r.Some? ==> |r.value.1| < |s|
  {
    if s == "" then None
    else
      var b := s[0] as int;
      if Width(b) == 1 then Some((b, s[1..]))
      else if Width(b) == 2 && Tail(s, 1) then Some((b % 32 * 64 + Low(s[1]), s[2..]))
      else if Width(b) == 3 && Tail(s, 1) && Second(b, s[1] as int) && Tail(s, 2) then
        Some((b % 16 * 4096 + Low(s[1]) * 64 + Low(s[2]), s[3..]))
      else if Width(b) == 4 && Tail(s, 1) && Second(b, s[1] as int) && Tail(s, 2) && Tail(s, 3) then
        Some((b % 8 * 262144 + Low(s[1]) * 4096 + Low(s[2]) * 64 + Low(s[3]), s[4..]))
      else None
  }

  /** All characters of a text of bytes. */
  function DecodeAll(s: string): Option<seq<nat>>
    decreases |s|
  {
    if s == "" then Some([])
    else match Decode(s)
      case None => None
      case Some((c, rest)) =>
        match DecodeAll(rest)
        case None => None
        case Some(cs) => Some([c] + cs)
  }

  lemma SixBits(c: nat)
    ensures c == c / 4096 * 4096 + c / 64 % 64 * 64 + c % 64
    ensures c == c / 262144 * 262144 + c / 4096 % 64 * 4096 + c / 64 % 64 * 64 + c % 64
  {
    assert c / 4096 == c / 64 / 64 && c / 262144 == c / 4096 / 64;
  }

  /** What `Decode` reads from bytes that have the right form. */
  lemma Decoded(t: string, rest: string)
    requires t != "" && Width(t[0] as int) == |t| && forall i | 1 <= i < |t| :: Tail(t, i)
    requires |t| > 2 ==> Second(t[0] as int, t[1] as int)
    ensures var b := t[0] as int;
            Decode(t + rest) == Some((if |t| == 1 then b
                                      else if |t| == 2 then b % 32 * 64 + Low(t[1])
                                      else if |t| == 3 then b % 16 * 4096 + Low(t[1]) * 64 + Low(t[2])
                                      else b % 8 * 262144 + Low(t[1]) * 4096 + Low(t[2]) * 64 + Low(t[3]), rest))
  {
    hide Low;
    var s := t + rest;
    assert s[|t|..] == rest;
    forall i | 1 <= i < |t| ensures Tail(s, i) { assert Tail(t, i); }
  }

  lemma LeadForm(c: nat)
    requires c <= 0x10FFFF
    ensures 0x80 <= c < 0x800 ==> Width(0xC0 + c / 64) == 2
    ensures 0x800 <= c < 0x10000 ==> Width(0xE0 + c / 4096) == 3
    ensures 0x10000 <= c ==> Width(0xF0 + c / 262144) == 4
  {
  }

  lemma SecondForm(c: nat)
    requires Scalar(c)
    ensures 0x800 <= c < 0x10000 ==> Second(0xE0 + c / 4096, 0x80 + c / 64 % 64)
    ensures 0x10000 <= c ==> Second(0xF0 + c / 262144, 0x80 + c / 4096 % 64)
  {
    assert c / 4096 == c / 64 / 64 && c / 262144 == c / 4096 / 64;
    assert c / 64 == c / 64 / 64 * 64 + c / 64 % 64 && c / 4096 == c / 4096 / 64 * 64 + c / 4096 % 64;
  }

  /** The bytes that the parser stores have the form of their code point. */
  lemma Utf8Form(c: nat)
    requires Scalar(c) && c > 0
    ensures var t := Utf8(c);
            && |t| == (if c <= 0x7F then 1 else if c <= 0x7FF then 2 else if c <= 0xFFFF then 3 else 4)
            && Width(t[0] as int) == |t| && (forall i | 1 <= i < |t| :: Tail(t, i))
            && (|t| > 2 ==> Second(t[0] as int, t[1] as int))
  {
    hide Second;
    LeadForm(c);
    SecondForm(c);
  }

  lemma TailBits(x: nat)
    ensures Low((0x80 + x % 64) as char) == x % 64
  {
  }

  lemma LeadBits(c: nat)
    ensures c < 0x800 ==> (0xC0 + c / 64) % 32 == c / 64
    ensures c < 0x10000 ==> (0xE0 + c / 4096) % 16 == c / 4096
    ensures c < 0x110000 ==> (0xF0 + c / 262144) % 8 == c / 262144
    ensures c < 0x800 ==> c == c / 64 * 64 + c % 64
  {
  }

  /** Decoding the bytes that the parser stores gives the code point back. */
  lemma Utf8Decodes(c: nat, rest: string)
    requires Scalar(c) && c > 0
    ensures Decode(Utf8(c) + rest) == Some((c, rest))
  {
    hide Decode, Width, Second, Tail, Low;
    SixBits(c);
    LeadBits(c);
    TailBits(c);
    TailBits(c / 64);
    TailBits(c / 4096);
    Utf8Form(c);
    Decoded(Utf8(c), rest);
  }

  // ---------- units of four hexadecimal digits, as in RFC 8259 section 7 ----------

  /** A digit in either case. */
  predicate IsDigitOf(h: char, d: nat) {
    d < 16 && (h == "0123456789abcdef"[d] || h == "0123456789ABCDEF"[d])
  }

  predicate IsUnitOf(h: string, n: nat) {
    && |h| == 4 && n < 0x10000
    && IsDigitOf(h[0], n / 4096) && IsDigitOf(h[1], n / 256 % 16) && IsDigitOf(h[2], n / 16 % 16)
    && IsDigitOf(h[3], n % 16)
  }

  /** The escapes that stand for a code point: one unit, or the two halves of a surrogate pair. */
  predicate Spells(u: string, c: nat) {
    if c < 0x10000 then |u| == 6 && u[..2] == "\\u" && IsUnitOf(u[2..], c)
    else && |u| == 12 && u[..2] == "\\u" && IsUnitOf(u[2..6], 0xD800 + (c - 0x10000) / 1024)
         && u[6..8] == "\\u" && IsUnitOf(u[8..], 0xDC00 + (c - 0x10000) % 1024)
  }

  lemma DigitValue(h: char, d: nat)
    requires IsDigitOf(h, d)
    ensures HexValue(h) == Some(d) && h != '\0' && h != '\"' && h != '\\'
  {
    assert "0123456789abcdef"[d] as int == if d < 10 then 48 + d else 87 + d;
    assert "0123456789ABCDEF"[d] as int == if d < 10 then 48 + d else 55 + d;
  }

  lemma UnitValue(h: string, n: nat)
    requires IsUnitOf(h, n)
    ensures |h| == 4 && Hex4(h) == n && forall x <- h :: x != '\0' && x != '\"' && x != '\\'
  {
    hide IsDigitOf;
    DigitValue(h[0], n / 4096);
    DigitValue(h[1], n / 256 % 16);
    DigitValue(h[2], n / 16 % 16);
    DigitValue(h[3], n % 16);
    assert n / 256 == n / 16 / 16 && n / 4096 == n / 256 / 16;
    assert h == [h[0], h[1], h[2], h[3]];
  }

  /** An escaped code point, in either case of its digits, leaves bytes that decode to it. */
  lemma EscapeDecodes(u: string, c: nat, rest: Text) returns (t: Text)
    requires Scalar(c) && c > 0 && Spells(u, c)
    ensures '\0' !in u && u != "" && u[0] == '\\'
    ensures ParseEscape(u[1..] + rest) == Some((t, rest))
    ensures forall more :: Decode(t + more) == Some((c, more))
  {
    hide Utf8, Decode;
    t := Utf8(c);
    forall more ensures Decode(t + more) == Some((c, more)) { Utf8Decodes(c, more); }
    if c < 0x10000 {
      SingleRead(u, c, rest);
    } else {
      PairRead(u, c, rest);
    }
  }

  lemma SingleRead(u: string, c: nat, rest: Text)
    requires Scalar(c) && 0 < c < 0x10000 && Spells(u, c)
    ensures '\0' !in u && u != "" && u[0] == '\\'
    ensures ParseEscape(u[1..] + rest) == Some((Utf8(c), rest))
  {
    hide Utf8, Hex4, IsUnitOf;
    UnitValue(u[2..], c);
    assert u == u[..2] + u[2..];
    var s := u[1..] + rest;
    assert s[0] == 'u' && s[1..] == u[2..] + rest && s[1..][..4] == u[2..] && s[1..][4..] == rest;
  }

  lemma PairRead(u: string, c: nat, rest: Text)
    requires 0x10000 <= c <= 0x10FFFF && Spells(u, c)
    ensures '\0' !in u && u != "" && u[0] == '\\'
    ensures ParseEscape(u[1..] + rest) == Some((Utf8(c), rest))
  {
    hide Utf8, Hex4, IsUnitOf;
    var hi, lo := 0xD800 + (c - 0x10000) / 1024, 0xDC00 + (c - 0x10000) % 1024;
    UnitValue(u[2..6], hi);
    UnitValue(u[8..], lo);
    assert u == u[..2] + u[2..6] + u[6..8] + u[8..];
    var s := u[1..] + rest;
    assert s[0] == 'u';
    var x := s[1..];
    assert x[..4] == u[2..6] && x[4..] == u[6..] + rest;
    var y := x[4..];
    assert y[0] == u[6..8][0] && y[1] == u[6..8][1] && y[2..6] == u[8..] && y[6..] == rest;
    assert 0x10000 + hi % 1024 * 1024 + lo % 1024 == c;
  }

  /** A unit of zero, or of the second half of a pair alone, leaves nothing behind. */
  lemma UnitDropped(h: string, n: nat, rest: Text)
    requires IsUnitOf(h, n) && (n == 0 || 0xDC00 <= n <= 0xDFFF)
    ensures '\0' !in h && ParseEscape("u" + h + rest) == Some(("", rest))
  {
    hide Utf8, Hex4, IsUnitOf;
    UnitValue(h, n);
    var s := "u" + h + rest;
    assert s[1..][..4] == h && s[1..][4..] == rest;
  }

  /** So does the first half of a pair alone. */
  lemma HalfDropped(h: string, n: nat, rest: Text)
    requires IsUnitOf(h, n) && 0xD800 <= n <= 0xDBFF && !("\\u" <= rest)
    ensures '\0' !in h && ParseEscape("u" + h + rest) == Some(("", rest))
  {
    hide Utf8, Hex4, IsUnitOf;
    UnitValue(h, n);
    var s := "u" + h + rest;
    assert s[1..][..4] == h && s[1..][4..] == rest;
  }

  // ---------- whole literals, as in RFC 8259 section 7 ----------

  const LETTERS: string := "\"\\/bfnrt"
  const NAMED: seq<nat> := [0x22, 0x5C, 0x2F, 0x08, 0x0C, 0x0A, 0x0D, 0x09]

  predicate Ordinary(u: string) { forall x <- u :: x != '\"' && x != '\\' && x != '\0' }

  /** A character may stand for itself, be named by a letter after a backslash, or be given by its number. */
  predicate Names(u: string, c: nat) {
    || (Ordinary(u) && Decode(u) == Some((c, "")))
    || (|u| == 2 && u[0] == '\\' && exists i | 0 <= i < |LETTERS| :: u[1] == LETTERS[i] && c == NAMED[i])
    || (Scalar(c) && c > 0 && Spells(u, c))
  }

  function Joined(us: seq<string>): string { if us == [] then "" else us[0] + Joined(us[1..]) }

  /** `u` leaves the bytes `t`, which are those of `c`, and there is room for them. */
  ghost predicate Leaves(u: string, c: nat, t: Text, s: Text) {
    && '\0' !in u
    && (match ParseChars(s)
        case None => ParseChars(u + s) == None
        case Some((x, rest)) => ParseChars(u + s) == Some((t + x, rest)))
    && |t| + Units(s) <= Units(u + s)
    && forall more :: Decode(t + more) == Some((c, more))
  }

  lemma OrdinaryChar(c: char, s: Text)
    requires c != '\"' && c != '\\' && c != '\0'
    ensures '\0' !in [c] && Units([c] + s) == 1 + Units(s)
    ensures match ParseChars(s)
            case None => ParseChars([c] + s) == None
            case Some((x, rest)) => ParseChars([c] + s) == Some(([c] + x, rest))
  {
    assert ([c] + s)[1..] == s;
  }

  lemma {:induction false} OrdinaryRead(u: string, s: Text)
    requires Ordinary(u)
    ensures '\0' !in u && Units(u + s) == |u| + Units(s)
    ensures match ParseChars(s)
            case None => ParseChars(u + s) == None
            case Some((x, rest)) => ParseChars(u + s) == Some((u + x, rest))
  {
    hide ParseChars, Units;
    if u == "" {
      assert u + s == s;
      if ParseChars(s).Some? { assert u + ParseChars(s).value.0 == ParseChars(s).value.0; }
    } else {
      assert u == [u[0]] + u[1..] && forall x <- u[1..] :: x in u;
      OrdinaryRead(u[1..], s);
      assert u[0] in u;
      OrdinaryChar(u[0], u[1..] + s);
      assert u + s == [u[0]] + (u[1..] + s);
      if ParseChars(s).Some? { assert u + ParseChars(s).value.0 == [u[0]] + (u[1..] + ParseChars(s).value.0); }
    }
  }

  /** What follows the bytes of a character makes no difference to it. */
  lemma DecodeMore(u: string, c: nat, more: string)
    requires Decode(u) == Some((c, ""))
    ensures Decode(u + more) == Some((c, more))
  {
    hide Width, Second, Low;
    assert |u| == Width(u[0] as int);
    assert (u + more)[|u|..] == more;
  }

  lemma EscapeRead(e: string, t: Text, s: Text)
    requires '\0' !in e && e != "" && e[0] == '\\' && ParseEscape(e[1..] + s) == Some((t, s))
    ensures match ParseChars(s)
            case None => ParseChars(e + s) == None
            case Some((x, rest)) => ParseChars(e + s) == Some((t + x, rest))
  {
    assert (e + s)[1..] == e[1..] + s;
  }

  lemma LetterRead(u: string, c: nat, s: Text, i: nat) returns (t: Text)
    requires |u| == 2 && u[0] == '\\' && i < 8 && u[1] == LETTERS[i] && c == NAMED[i]
    ensures Leaves(u, c, t, s)
  {
    hide ParseChars;
    assert 0 < c < 0x80;
    t := [c as char];
    assert u[1..] + s == [u[1]] + s && ([u[1]] + s)[1..] == s && (u + s)[2..] == s;
    assert ParseEscape(u[1..] + s) == Some((t, s));
    EscapeRead(u, t, s);
    forall more ensures Decode(t + more) == Some((c, more)) { assert (t + more)[1..] == more; }
  }

  lemma NumberRead(u: string, c: nat, s: Text) returns (t: Text)
    requires Scalar(c) && c > 0 && Spells(u, c)
    ensures Leaves(u, c, t, s)
  {
    hide ParseChars, Spells, ParseEscape, Units, Decode, Scalar;
    t := EscapeDecodes(u, c, s);
    EscapeRead(u, t, s);
    Room(u, c, t, s);
  }

  /** There is room for the bytes of an escape. */
  lemma Room(u: string, c: nat, t: Text, s: Text)
    requires Scalar(c) && c > 0 && Spells(u, c) && Decode(t + "") == Some((c, ""))
    ensures |t| + Units(s) <= Units(u + s)
  {
    hide Decode, Units, IsUnitOf;
    if c < 0x10000 {
      UnitRoom(u, c, s);
    } else {
      UnitRoom(u[..6], 0xD800 + (c - 0x10000) / 1024, u[6..] + s);
      UnitRoom(u[6..], 0xDC00 + (c - 0x10000) % 1024, s);
      assert u + s == u[..6] + (u[6..] + s);
    }
    Bytes(t, c);
  }

  lemma UnitRoom(u: string, n: nat, s: string)
    requires |u| == 6 && u[..2] == "\\u" && IsUnitOf(u[2..], n)
    ensures Units(u + s) == 5 + Units(s)
  {
    hide Units, IsUnitOf;
    var h := u[2..];
    UnitValue(h, n);
    assert forall x <- [h[0], h[1], h[2], h[3]] :: x in h;
    UnitsOfHex(h[0], h[1], h[2], h[3], s);
    assert h == [h[0], h[1], h[2], h[3]] && (u + s)[2..] == h + s;
    assert u[..2][0] == (u + s)[0];
    UnitsEscaped(u + s);
  }

  lemma Bytes(t: string, c: nat)
    requires Decode(t + "") == Some((c, ""))
    ensures |t| <= 4 && (c < 0x10000 ==> |t| <= 3)
  {
    assert t + "" == t;
  }

  lemma {:induction false} PieceRead(u: string, c: nat, s: Text) returns (t: Text)
    requires Names(u, c)
    ensures Leaves(u, c, t, s)
  {
    hide ParseChars, Units, Decode, Spells, Scalar;
    if Ordinary(u) && Decode(u) == Some((c, "")) {
      OrdinaryRead(u, s);
      t := u;
      forall more ensures Decode(t + more) == Some((c, more)) { DecodeMore(u, c, more); }
    } else if Scalar(c) && c > 0 && Spells(u, c) {
      t := NumberRead(u, c, s);
    } else {
      var i :| 0 <= i < |LETTERS| && u[1] == LETTERS[i] && c == NAMED[i];
      t := LetterRead(u, c, s, i);
    }
  }

  lemma QuoteRead(rest: Text)
    ensures ParseChars("\"" + rest) == Some(("", rest))
  {
    assert ("\"" + rest)[1..] == rest;
  }

  /** The characters of a literal, each in any of its forms, are read as the bytes of those characters. */
  lemma {:induction false} CharsRead(us: seq<string>, cs: seq<nat>, rest: Text) returns (t: Text)
    requires |us| == |cs| && forall i | 0 <= i < |us| :: Names(us[i], cs[i])
    ensures '\0' !in Joined(us) && ParseChars(Joined(us) + ("\"" + rest)) == Some((t, rest))
    ensures DecodeAll(t) == Some(cs) && |t| <= Units(Joined(us) + ("\"" + rest))
  {
    hide Decode, Names, ParseChars, Units;
    if us == [] {
      t := "";
      QuoteRead(rest);
      assert Joined(us) + ("\"" + rest) == "\"" + rest;
    } else {
      var s := Joined(us[1..]) + ("\"" + rest);
      var x := CharsRead(us[1..], cs[1..], rest);
      var y := PieceRead(us[0], cs[0], s);
      t := y + x;
      assert Joined(us) + ("\"" + rest) == us[0] + s;
      assert Decode(y + x) == Some((cs[0], x));
      assert cs == [cs[0]] + cs[1..];
    }
  }

  /** A literal is read as the string of the characters that are named in it. */
  lemma LiteralRead(us: seq<string>, cs: seq<nat>, whole: bool) returns (t: Text)
    requires |us| == |cs| && forall i | 0 <= i < |us| :: Names(us[i], cs[i])
    ensures '\0' !in Joined(us) && DecodeAll(t) == Some(cs)
    ensures Parse("\"" + Joined(us) + "\"", whole) == Some(Str(t))
  {
    hide Decode, Names, ParseChars, DecodeAll, Units, Joined;
    t := CharsRead(us, cs, "");
    var s := "\"" + Joined(us) + "\"";
    assert s[1..] == Joined(us) + ("\"" + "");
    assert Skip(s) == s && Skip("") == "";
  }

  /** Printing writes each seven-bit character in a form that names it. */
  lemma PrintNames(c: char)
    requires 0 < c as int < 0x80
    ensures Names(PrintChar(c), c as int)
  {
    hide Decode, Spells, Hex;
    if Plain(c) {
      PlainDecodes(c);
    } else if Escape(c)[0] == 'u' {
      ControlSpells(c);
    } else {
      LetterNames(c);
      assert PrintChar(c) == "\\" + Escape(c);
    }
  }

  lemma PlainDecodes(c: char)
    requires 0 < c as int < 0x80
    ensures Decode([c]) == Some((c as int, ""))
  {
  }

  lemma ControlSpells(c: char)
    requires !Plain(c) && Escape(c)[0] == 'u' && c != '\0'
    ensures Spells(PrintChar(c), c as int)
  {
    hide Hex, IsUnitOf;
    var u := PrintChar(c);
    ControlUnit(c as int);
    assert u == "\\u00" + [Hex(c as int / 16), Hex(c as int % 16)];
    assert u[2..] == ['0', '0', Hex(c as int / 16), Hex(c as int % 16)];
  }

  lemma ControlUnit(n: nat)
    requires n < 32
    ensures IsUnitOf(['0', '0', Hex(n / 16), Hex(n % 16)], n)
  {
    hide Hex, IsDigitOf;
    HexDigits(0);
    HexDigits(n / 16);
    HexDigits(n % 16);
  }

  lemma HexDigits(d: nat)
    requires d < 16
    ensures IsDigitOf(Hex(d), d) && (d == 0 ==> Hex(d) == '0')
  {
    assert "0123456789abcdef"[d] as int == if d < 10 then 48 + d else 87 + d;
  }

  lemma LetterNames(c: char)
    requires !Plain(c) && Escape(c)[0] != 'u'
    ensures |Escape(c)| == 1 && exists i | 0 <= i < |LETTERS| :: Escape(c)[0] == LETTERS[i] && c as int == NAMED[i]
  {
    var i := if c == '\"' then 0 else if c == '\\' then 1 else if c == BACKSPACE then 3 else if c == FORMFEED then 4
      else if c == '\n' then 5 else if c == '\r' then 6 else 7;
    assert Escape(c)[0] == LETTERS[i] && c as int == NAMED[i];
  }
}
