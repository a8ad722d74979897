/** Parsing a printed value gives it back. */
module JsonBack {
  import opened JsonText

  /** What follows a number must not continue it. */
  predicate Stops(s: string) { s == "" || !(IsDigit(s[0]) || s[0] == '.' || s[0] == 'e' || s[0] == 'E') }

  // ---------- numbers ----------

  lemma DigitIs(d: nat)
    requires d < 10
    ensures Digit(d) == "0123456789"[d]
  {
    assert "0123456789"[d] as int == 48 + d;
  }

  lemma {:induction false} DigitsMore(n: nat, rest: Text)
    ensures '\0' !in Digits(n) && IsDigit(Digits(n)[0]) && (n > 0 ==> Digits(n)[0] != '0')
    ensures ParseDigits(0, Digits(n) + rest) == ParseDigits(n, rest)
  {
    if n < 10 {
      assert Digits(n) + rest == [Digit(n)] + rest && ([Digit(n)] + rest)[1..] == rest;
    } else {
      var d := [Digit(n % 10)];
      DigitsMore(n / 10, d + rest);
      assert Digits(n) + rest == Digits(n / 10) + (d + rest) && (d + rest)[1..] == rest;
    }
  }

  lemma NaturalBack(n: nat, rest: Text)
    requires Stops(rest)
    ensures '\0' !in Digits(n) && Digits(n) != "" && IsDigit(Digits(n)[0])
            && ParseNatural(Digits(n) + rest) == (n, rest)
  {
    var s := Digits(n) + rest;
    DigitsMore(n, rest);
    if n == 0 {
      assert Digits(0) == ['0'] && s[1..] == rest;
    }
  }

  lemma NumberBack(n: Int, rest: Text)
    requires Stops(rest)
    ensures var s := PrintNumber(n); '\0' !in s && s != "" && (s[0] == '-' || IsDigit(s[0]))
    ensures ParseNumber(PrintNumber(n) + rest) == Some((n, rest))
  {
    hide Digits, ParseNatural;
    var m: nat := if n < 0 then -(n as int) else n;
    NaturalBack(m, rest);
    if n < 0 {
      assert (PrintNumber(n) + rest)[1..] == Digits(m) + rest;
    }
  }

  // ---------- strings ----------

  lemma HexBack(c: char)
    requires '\0' < c <= 31 as char
    ensures HexValue(Hex(c as int / 16)) == Some(c as int / 16) && HexValue(Hex(c as int % 16)) == Some(c as int % 16)
  {
  }

  lemma ControlBack(c: char, rest: Text)
    requires '\0' < c <= 31 as char
    ensures var u := ['0', '0', Hex(c as int / 16), Hex(c as int % 16)];
            '\0' !in u
            && ParseUnit(u + rest) == Some(([c], rest))
  {
    HexBack(c);
    var u := ['0', '0', Hex(c as int / 16), Hex(c as int % 16)];
    assert (u + rest)[..4] == u && (u + rest)[4..] == rest;
    assert Hex4(u) == c as int;
  }

  lemma OneUnit(c: char, rest: string)
    requires c != '\"' && c != '\\'
    ensures Units([c] + rest) == 1 + Units(rest)
  {
    assert ([c] + rest)[1..] == rest;
  }

  lemma UnitsOfHex(a: char, b: char, c: char, d: char, rest: string)
    requires forall x <- [a, b, c, d] :: x != '\"' && x != '\\'
    ensures Units([a, b, c, d] + rest) == 4 + Units(rest)
  {
    hide Units;
    assert forall x <- [a, b, c, d] :: x == a || x == b || x == c || x == d;
    assert a in [a, b, c, d] && b in [a, b, c, d] && c in [a, b, c, d] && d in [a, b, c, d];
    OneUnit(d, rest);
    OneUnit(c, [d] + rest);
    OneUnit(b, [c] + ([d] + rest));
    OneUnit(a, [b] + ([c] + ([d] + rest)));
    assert [a, b, c, d] + rest == [a] + ([b] + ([c] + ([d] + rest)));
  }

  lemma EscapeBack(c: char, rest: Text)
    requires !Plain(c) && c != '\0'
    ensures '\0' !in Escape(c) && ParseEscape(Escape(c) + rest) == Some(([c], rest))
    ensures Units("\\" + Escape(c) + rest) >= 1 + Units(rest)
  {
    hide ParseUnit, Units, Hex;
    var e := Escape(c);
    var s := "\\" + e + rest;
    if e[0] == 'u' {
      var u := ['0', '0', Hex(c as int / 16), Hex(c as int % 16)];
      ControlBack(c, rest);
      HexPlain(c as int / 16);
      HexPlain(c as int % 16);
      assert (e + rest)[1..] == u + rest && s[2..] == u + rest;
      UnitsOfHex('0', '0', Hex(c as int / 16), Hex(c as int % 16), rest);
      UnitsEscaped(s);
    } else {
      assert (e + rest)[1..] == rest && s[2..] == rest;
      UnitsEscaped(s);
    }
  }

  lemma HexPlain(d: nat)
    requires d < 16
    ensures Hex(d) != '\"' && Hex(d) != '\\' && Hex(d) != '\0'
  {
  }

  lemma UnitsEscaped(s: string)
    requires |s| > 1 && s[0] == '\\'
    ensures Units(s) == 1 + Units(s[2..])
  {
  }

  lemma CharBack(c: char, rest: Text)
    requires c != '\0'
    ensures '\0' !in PrintChar(c) && Units(PrintChar(c) + rest) >= 1 + Units(rest)
    ensures ParseChars(PrintChar(c) + rest)
            == match ParseChars(rest) case None => None case Some((t, r)) => Some(([c] + t, r))
  {
    hide ParseEscape, Escape, Units;
    if Plain(c) {
      assert ([c] + rest)[1..] == rest;
      OneUnit(c, rest);
    } else {
      EscapeBack(c, rest);
      assert (PrintChar(c) + rest)[1..] == Escape(c) + rest;
    }
  }

  lemma {:induction false} CharsBack(s: Text, rest: Text)
    ensures '\0' !in PrintChars(s)
    ensures ParseChars(PrintChars(s) + "\"" + rest) == Some((s, rest))
    ensures Units(PrintChars(s) + "\"" + rest) >= |s|
  {
    hide PrintChar;
    if s == "" {
      assert ("" + "\"" + rest)[1..] == rest;
    } else {
      CharsBack(s[1..], rest);
      var more := PrintChars(s[1..]) + "\"" + rest;
      assert PrintChars(s) + "\"" + rest == PrintChar(s[0]) + more;
      CharBack(s[0], more);
      assert [s[0]] + s[1..] == s;
    }
  }

  lemma StringBack(s: Text, rest: Text)
    ensures '\0' !in PrintString(s) && ParseString(PrintString(s) + rest) == Some((s, rest))
  {
    hide ParseChars, PrintChars, Units;
    CharsBack(s, rest);
    assert (PrintString(s) + rest)[1..] == PrintChars(s) + "\"" + rest;
  }

  // ---------- white space ----------

  lemma {:induction false} SkipTabs(n: int, s: Text)
    requires s == "" || s[0] > ' '
    ensures '\0' !in Tabs(n) && Skip(Tabs(n) + s) == s
  {
    if n > 0 {
      SkipTabs(n - 1, s);
      assert (Tabs(n) + s)[1..] == Tabs(n - 1) + s;
    } else {
      assert "" + s == s;
    }
  }

  lemma SkipBlank(blank: string, s: Text)
    requires blank == "" || blank == " " || blank == "\t" || blank == "\n"
    ensures Skip(blank + s) == Skip(s)
  {
    if blank == "" {
      assert blank + s == s;
    } else {
      assert (blank + s)[1..] == s;
    }
  }

  lemma SkipNone(s: Text)
    requires s == "" || s[0] > ' '
    ensures Skip(s) == s
  {
  }

  // ---------- values ----------

  /** How printed values begin. */
  lemma {:induction false} PrintStart(v: Json, depth: nat, fmt: bool)
    ensures var s := Print(v, depth, fmt); s != "" && s[0] > ' ' && s[0] != ']' && s[0] != '}'
  {
    if v.Number? { NumberBack(v.n, ""); }
  }

  /** No printed value holds the terminator. */
  lemma {:induction false} PrintText(v: Json, depth: nat, fmt: bool)
    ensures '\0' !in Print(v, depth, fmt)
    decreases v, Children(v) + 1
  {
    match v
    case Null => case False => case True =>
    case Number(n) => NumberBack(n, "");
    case Str(s) => StringBack(s, "");
    case Array(_) => ItemsText(v, 0, depth, fmt);
    case Object(ms) =>
      SkipTabs(depth - 1, "");
      SkipTabs(depth, "");
      MembersText(v, 0, depth, fmt);
  }

  lemma {:induction false} ItemsText(v: Json, i: nat, depth: nat, fmt: bool)
    requires v.Array? && i <= |v.items|
    ensures '\0' !in PrintItems(v, i, depth, fmt)
    decreases v, |v.items| - i
  {
    if i < |v.items| {
      PrintText(v.items[i], depth + 1, fmt);
      ItemsText(v, i + 1, depth, fmt);
    }
  }

  lemma {:induction false} MembersText(v: Json, i: nat, depth: nat, fmt: bool)
    requires v.Object? && i <= |v.members|
    ensures '\0' !in PrintMembers(v, i, depth, fmt)
    decreases v, |v.members| - i
  {
    if i < |v.members| {
      StringBack(v.members[i].0, "");
      SkipTabs(depth + 1, "");
      PrintText(v.members[i].1, depth + 1, fmt);
      MembersText(v, i + 1, depth, fmt);
    }
  }

  // ---------- the round trip ----------

  lemma WordBack(word: string, rest: Text)
    requires word == "null" || word == "false" || word == "true"
    ensures '\0' !in word
    ensures ParseValue(word + rest)
            == Some((if word == "null" then Null else if word == "false" then False else True, rest))
  {
    var s := word + rest;
    assert s[0] == word[0] && s[|word|..] == rest && word <= s;
    assert forall w: string | w <= s && w != "" :: w[0] == s[0];
  }

  /** Reading a printed value gives it back, at every depth and in both forms. */
  lemma {:induction false} ValueBack(v: Json, depth: nat, fmt: bool, rest: Text)
    requires Stops(rest)
    ensures '\0' !in Print(v, depth, fmt) && ParseValue(Print(v, depth, fmt) + rest) == Some((v, rest))
    decreases v, Children(v) + 2
  {
    PrintText(v, depth, fmt);
    match v
    case Null => WordBack("null", rest);
    case False => WordBack("false", rest);
    case True => WordBack("true", rest);
    case Number(n) => NumberBack(n, rest);
    case Str(s) => StringBack(s, rest);
    case Array(vs) => ArrayBack(v, depth, fmt, rest);
    case Object(ms) => ObjectBack(v, depth, fmt, rest);
  }

  /** What the parser does with a bracket. */
  lemma OpenBracket(t: Text)
    ensures ParseValue("[" + t)
            == if Skip(t) != "" && Skip(t)[0] == ']' then Some((Array([]), Skip(t)[1..]))
               else match ParseItems(Skip(t)) case None => None case Some((vs, rest)) => Some((Array(vs), rest))
  {
    hide ParseItems;
    assert ("[" + t)[1..] == t;
    assert forall w: string | w <= "[" + t && w != "" :: w[0] == '[';
  }

  lemma OpenBrace(t: Text)
    ensures ParseValue("{" + t)
            == if Skip(t) != "" && Skip(t)[0] == '}' then Some((Object([]), Skip(t)[1..]))
               else match ParseMembers(Skip(t)) case None => None case Some((ms, rest)) => Some((Object(ms), rest))
  {
    hide ParseMembers;
    assert ("{" + t)[1..] == t;
    assert forall w: string | w <= "{" + t && w != "" :: w[0] == '{';
  }

  lemma {:induction false} ArrayBack(v: Json, depth: nat, fmt: bool, rest: Text)
    requires v.Array? && '\0' !in Print(v, depth, fmt)
    ensures ParseValue(Print(v, depth, fmt) + rest) == Some((v, rest))
    decreases v, Children(v) + 1
  {
    hide PrintItems, ParseItems, ParseValue;
    ItemsText(v, 0, depth, fmt);
    var t := PrintItems(v, 0, depth, fmt) + "]" + rest;
    assert Print(v, depth, fmt) + rest == "[" + t;
    OpenBracket(t);
    if v.items == [] {
      ItemsEnd(v, depth, fmt);
      assert t == "]" + rest && t[1..] == rest;
    } else {
      ItemsStart(v, 0, depth, fmt, t);
      ItemsBack(v, 0, depth, fmt, Skip(t), rest);
      assert v.items[0..] == v.items;
    }
  }

  lemma ItemsEnd(v: Json, depth: nat, fmt: bool)
    requires v.Array?
    ensures PrintItems(v, |v.items|, depth, fmt) == ""
  {
  }

  lemma ItemsStart(v: Json, i: nat, depth: nat, fmt: bool, s: Text)
    requires v.Array? && i < |v.items| && PrintItems(v, i, depth, fmt) <= s
    ensures Skip(s) == s && s != "" && s[0] != ']'
  {
    hide Print;
    PrintStart(v.items[i], depth + 1, fmt);
    assert s[0] == Print(v.items[i], depth + 1, fmt)[0];
  }

  lemma ItemsSplit(v: Json, i: nat, depth: nat, fmt: bool, rest: string)
    requires v.Array? && i < |v.items|
    ensures PrintItems(v, i, depth, fmt) + rest
            == Print(v.items[i], depth + 1, fmt)
               + (ItemEnd(i + 1 == |v.items|, fmt) + (PrintItems(v, i + 1, depth, fmt) + rest))
  {
    hide Print, ItemEnd;
  }

  lemma ItemsLast(x: Text, v: Json, s1: Text, rest: Text)
    requires ParseValue(Skip(x)) == Some((v, s1)) && Skip(s1) == "]" + rest
    ensures ParseItems(x) == Some(([v], rest))
  {
    hide ParseValue, Skip;
    assert ("]" + rest)[1..] == rest;
  }

  lemma ItemsMore(x: Text, v: Json, s1: Text, t: Text, vs: seq<Json>, rest: Text)
    requires ParseValue(Skip(x)) == Some((v, s1)) && Skip(s1) == "," + t && ParseItems(t) == Some((vs, rest))
    ensures ParseItems(x) == Some(([v] + vs, rest))
  {
    hide ParseValue, Skip;
    assert ("," + t)[1..] == t;
  }

  lemma {:induction false} ItemsBack(v: Json, i: nat, depth: nat, fmt: bool, x: Text, rest: Text)
    requires v.Array? && i < |v.items| && '\0' !in PrintItems(v, i, depth, fmt)
    requires Skip(x) == PrintItems(v, i, depth, fmt) + "]" + rest
    ensures ParseItems(x) == Some((v.items[i..], rest))
    decreases v, |v.items| - i
  {
    hide ParseValue, ParseItems, Print, PrintItems;
    var last := i + 1 == |v.items|;
    ItemsText(v, i + 1, depth, fmt);
    var more := PrintItems(v, i + 1, depth, fmt) + ("]" + rest);
    var s1 := ItemEnd(last, fmt) + more;
    ItemsSplit(v, i, depth, fmt, "]" + rest);
    assert PrintItems(v, i, depth, fmt) + "]" + rest == PrintItems(v, i, depth, fmt) + ("]" + rest);
    if last {
      ItemsEnd(v, depth, fmt);
      assert s1 == "]" + rest;
      ValueBack(v.items[i], depth + 1, fmt, s1);
      ItemsLast(x, v.items[i], s1, rest);
      assert v.items[i..] == [v.items[i]];
    } else {
      var blank := if fmt then " " else "";
      assert s1 == "," + (blank + more);
      ValueBack(v.items[i], depth + 1, fmt, s1);
      SkipBlank(blank, more);
      ItemsStart(v, i + 1, depth, fmt, more);
      assert more == PrintItems(v, i + 1, depth, fmt) + "]" + rest;
      ItemsBack(v, i + 1, depth, fmt, blank + more, rest);
      ItemsMore(x, v.items[i], s1, blank + more, v.items[i + 1..], rest);
      assert [v.items[i]] + v.items[i + 1..] == v.items[i..];
    }
  }

  lemma ObjectParts(v: Json, depth: nat, fmt: bool, rest: string)
    requires v.Object?
    ensures var nl := if fmt then "\n" else "";
            Print(v, depth, fmt) + rest
            == "{" + (nl + if v.members == [] then (if fmt then Tabs(depth - 1) else "") + ("}" + rest)
                           else PrintMembers(v, 0, depth, fmt) + (Close(depth, fmt) + rest))
  {
    hide PrintMembers, Tabs;
  }

  lemma {:induction false} ObjectBack(v: Json, depth: nat, fmt: bool, rest: Text)
    requires v.Object? && '\0' !in Print(v, depth, fmt)
    ensures ParseValue(Print(v, depth, fmt) + rest) == Some((v, rest))
    decreases v, Children(v) + 1
  {
    hide Print, PrintMembers, ParseMembers, ParseValue, Tabs, Skip, Close;
    ObjectParts(v, depth, fmt, rest);
    var nl := if fmt then "\n" else "";
    if v.members == [] {
      var tabs := if fmt then Tabs(depth - 1) else "";
      SkipTabs(depth - 1, "}" + rest);
      SkipBlank(nl, tabs + ("}" + rest));
      OpenBrace(nl + (tabs + ("}" + rest)));
      SkipNone("}" + rest);
      assert ("}" + rest)[1..] == rest;
      assert "" + ("}" + rest) == "}" + rest;
    } else {
      var all := PrintMembers(v, 0, depth, fmt) + (Close(depth, fmt) + rest);
      MembersText(v, 0, depth, fmt);
      CloseBack(depth, fmt, rest);
      OpenBrace(nl + all);
      SkipBlank(nl, all);
      MembersStart(v, 0, depth, fmt, all);
      SkipTwice(all);
      MembersBack(v, 0, depth, fmt, Skip(all), rest);
      assert v.members[0..] == v.members;
    }
  }

  function Close(depth: nat, fmt: bool): string { (if fmt then Tabs(depth) else "") + "}" }

  lemma {:induction false} SkipTwice(s: Text)
    ensures Skip(Skip(s)) == Skip(s)
    decreases |s|
  {
    if s != "" && s[0] <= ' ' { SkipTwice(s[1..]); }
  }

  /** A member begins with a quote once white space is skipped. */
  lemma MembersStart(v: Json, i: nat, depth: nat, fmt: bool, s: Text)
    requires v.Object? && i < |v.members| && PrintMembers(v, i, depth, fmt) <= s
    ensures Skip(s) != "" && Skip(s)[0] == '\"'
  {
    hide PrintChars, Print, Tabs;
    var tabs := if fmt then Tabs(depth + 1) else "";
    var m := PrintMembers(v, i, depth, fmt);
    assert tabs + "\"" <= m;
    assert s == tabs + s[|tabs|..] && s[|tabs|] == '\"';
    if fmt {
      SkipTabs(depth + 1, s[|tabs|..]);
    }
  }

  /** A member after white space is a name, a colon and a value after white space. */
  lemma MemberRead(x: Text, name: Text, s2: Text, t: Text, w: Json, rest: Text)
    requires ParseString(Skip(x)) == Some((name, s2)) && Skip(s2) == ":" + t
    requires ParseValue(Skip(t)) == Some((w, rest))
    ensures ParseMember(x) == Some(((name, w), rest))
  {
    hide ParseString, ParseValue, Skip;
    assert (":" + t)[1..] == t;
  }

  lemma {:induction false} MemberBack(v: Json, i: nat, depth: nat, fmt: bool, x: Text, rest: Text)
    requires v.Object? && i < |v.members| && Stops(rest) && '\0' !in PrintMembers(v, i, depth, fmt)
    requires Skip(x) == Skip(MemberStart(v.members[i].0, depth, fmt) + (Print(v.members[i].1, depth + 1, fmt) + rest))
    ensures ParseMember(x) == Some((v.members[i], rest))
    decreases v, |v.members| - i, 0
  {
    hide Print, PrintString, PrintMembers, MemberStart, ParseString, ParseValue, ParseMember, Tabs, Skip;
    var (name, w) := v.members[i];
    var value := Print(w, depth + 1, fmt) + rest;
    ValueBack(w, depth + 1, fmt, rest);
    PrintStart(w, depth + 1, fmt);
    SkipNone(value);
    var tab := if fmt then "\t" else "";
    SkipBlank(tab, value);
    var s2 := ":" + (tab + value);
    StringBack(name, s2);
    NameAfterTabs(name, depth, fmt, tab + value);
    MemberParts(name, depth, fmt, value);
    MemberRead(x, name, s2, tab + value, w, rest);
  }

  lemma NameAfterTabs(name: Text, depth: nat, fmt: bool, t: Text)
    ensures '\0' !in PrintString(name) && '\0' !in Tabs(depth + 1)
    ensures Skip((if fmt then Tabs(depth + 1) else "") + (PrintString(name) + (":" + t)))
            == PrintString(name) + (":" + t)
    ensures Skip(":" + t) == ":" + t
  {
    hide PrintChars, Tabs;
    StringBack(name, "");
    SkipTabs(depth + 1, PrintString(name) + (":" + t));
    assert "" + (PrintString(name) + (":" + t)) == PrintString(name) + (":" + t);
  }

  lemma MemberParts(name: string, depth: nat, fmt: bool, value: string)
    ensures MemberStart(name, depth, fmt) + value
            == (if fmt then Tabs(depth + 1) else "")
               + (PrintString(name) + (":" + ((if fmt then "\t" else "") + value)))
  {
    hide PrintString, Tabs;
  }

  lemma MembersSplit(v: Json, i: nat, depth: nat, fmt: bool, rest: string)
    requires v.Object? && i < |v.members|
    ensures PrintMembers(v, i, depth, fmt) + rest
            == MemberStart(v.members[i].0, depth, fmt) + (Print(v.members[i].1, depth + 1, fmt)
               + (MemberEnd(i + 1 == |v.members|, fmt) + (PrintMembers(v, i + 1, depth, fmt) + rest)))
  {
    hide Print, MemberStart, MemberEnd;
  }

  lemma MembersEnd(v: Json, depth: nat, fmt: bool)
    requires v.Object?
    ensures PrintMembers(v, |v.members|, depth, fmt) == ""
  {
  }

  lemma MembersLast(x: Text, m: (Text, Json), s1: Text, rest: Text)
    requires ParseMember(x) == Some((m, s1)) && Skip(s1) == "}" + rest
    ensures ParseMembers(x) == Some(([m], rest))
  {
    hide ParseMember, Skip;
    assert ("}" + rest)[1..] == rest;
  }

  lemma MembersMore(x: Text, m: (Text, Json), s1: Text, t: Text, ms: seq<(Text, Json)>, rest: Text)
    requires ParseMember(x) == Some((m, s1)) && Skip(s1) == "," + t && ParseMembers(t) == Some((ms, rest))
    ensures ParseMembers(x) == Some(([m] + ms, rest))
  {
    hide ParseMember, Skip;
    assert ("," + t)[1..] == t;
  }

  /** The members from number `i + 1` on, and what follows them. */
  ghost function MoreMembers(v: Json, i: nat, depth: nat, fmt: bool, rest: string): string
    requires v.Object? && i < |v.members|
  {
    PrintMembers(v, i + 1, depth, fmt) + (Close(depth, fmt) + rest)
  }

  lemma {:induction false} MembersHead(v: Json, i: nat, depth: nat, fmt: bool, x: Text, rest: Text)
    requires v.Object? && i < |v.members| && '\0' !in PrintMembers(v, i, depth, fmt)
    requires '\0' !in Close(depth, fmt)
    requires Skip(x) == Skip(PrintMembers(v, i, depth, fmt) + (Close(depth, fmt) + rest))
    ensures var more := MoreMembers(v, i, depth, fmt, rest);
            && '\0' !in more
            && ParseMember(x) == Some((v.members[i], MemberEnd(i + 1 == |v.members|, fmt) + more))
    decreases v, |v.members| - i, 1
  {
    hide ParseMember, MemberStart, Print, PrintMembers, Close, Skip;
    MembersText(v, i + 1, depth, fmt);
    var s1 := MemberEnd(i + 1 == |v.members|, fmt) + MoreMembers(v, i, depth, fmt, rest);
    MembersSplit(v, i, depth, fmt, Close(depth, fmt) + rest);
    if i + 1 == |v.members| {
      MembersEnd(v, depth, fmt);
      assert "" + (Close(depth, fmt) + rest) == Close(depth, fmt) + rest;
      CloseBack(depth, fmt, rest);
      LineStops(fmt, Close(depth, fmt) + rest);
    }
    MemberBack(v, i, depth, fmt, x, s1);
  }

  /** The line after the last member. */
  lemma LineStops(fmt: bool, s: Text)
    requires s != "" && Stops(s)
    ensures Stops(MemberEnd(true, fmt) + s)
  {
  }

  lemma {:induction false} MembersBack(v: Json, i: nat, depth: nat, fmt: bool, x: Text, rest: Text)
    requires v.Object? && i < |v.members| && '\0' !in PrintMembers(v, i, depth, fmt)
    requires '\0' !in Close(depth, fmt)
    requires Skip(x) == Skip(PrintMembers(v, i, depth, fmt) + (Close(depth, fmt) + rest))
    ensures ParseMembers(x) == Some((v.members[i..], rest))
    decreases v, |v.members| - i, 2
  {
    hide ParseMember, ParseMembers, Print, PrintMembers, Close, Skip;
    MembersHead(v, i, depth, fmt, x, rest);
    var more := MoreMembers(v, i, depth, fmt, rest);
    var nl := if fmt then "\n" else "";
    SkipBlank(nl, more);
    if i + 1 == |v.members| {
      MembersEnd(v, depth, fmt);
      CloseBack(depth, fmt, rest);
      assert more == Close(depth, fmt) + rest && MemberEnd(true, fmt) + more == nl + more;
      MembersLast(x, v.members[i], nl + more, rest);
      assert v.members[i..] == [v.members[i]];
    } else {
      assert MemberEnd(false, fmt) + more == "," + (nl + more);
      SkipNone("," + (nl + more));
      MembersText(v, i + 1, depth, fmt);
      MembersBack(v, i + 1, depth, fmt, nl + more, rest);
      MembersMore(x, v.members[i], "," + (nl + more), nl + more, v.members[i + 1..], rest);
      assert [v.members[i]] + v.members[i + 1..] == v.members[i..];
    }
  }

  lemma CloseBack(depth: nat, fmt: bool, rest: Text)
    ensures var s := Close(depth, fmt) + rest;
            s != "" && Stops(s) && '\0' !in Close(depth, fmt)
            && Skip(s) == "}" + rest
    ensures ("}" + rest)[1..] == rest
  {
    SkipTabs(depth, "}" + rest);
    assert Close(depth, fmt) + rest == (if fmt then Tabs(depth) else "") + ("}" + rest);
  }

  /** A printed value, with nothing but white space after it, is parsed to the value. */
  lemma ParseBack(v: Json, fmt: bool, blank: Text)
    requires Skip(blank) == ""
    ensures '\0' !in Print(v, 0, fmt) && Parse(Print(v, 0, fmt) + blank, true) == Some(v)
  {
    hide ParseValue, Print;
    ValueBack(v, 0, fmt, blank);
    PrintStart(v, 0, fmt);
  }
}
