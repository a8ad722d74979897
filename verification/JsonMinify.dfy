/** Removing white space and comments from JSON text, in place. */
module JsonMinify {
  import opened JsonText
  import opened JsonBack

  predicate Blank(c: char) { c == ' ' || c == '\t' || c == '\r' || c == '\n' }

  /** From the end of the line on. */
  function AfterLine(s: string): (r: string)
    ensures |r| <= |s|
  {
    if s == "" || s[0] == '\n' then s else AfterLine(s[1..])
  }

  /** What follows a comment; none if it has no end. */
  function AfterComment(s: string): (r: Option<string>)
    ensures r.Some? ==> |r.value| < |s|
  {
    if s == "" then None
    else if s[0] == '*' && |s| > 1 && s[1] == '/' then Some(s[2..])
    else AfterComment(s[1..])
  }

  /** The rest of a string literal with its quote, and what follows; none if it has no end. */
  function Literal(s: string): (r: Option<(string, string)>)
    ensures r.Some? ==> |r.value.1| < |s|
    decreases |s|
  {
    if s == "" || s == "\\" then None
    else if s[0] == '\"' then Some(("\"", s[1..]))
    else
      var n := if s[0] == '\\' then 2 else 1;
      match Literal(s[n..])
      case None => None
      case Some((t, rest)) => Some((s[..n] + t, rest))
  }

  /** None if a comment or a string has no end: that text is not modelled. */
  function Minified(s: string): Option<string>
    decreases |s|
  {
    if s == "" then Some("")
    else if Blank(s[0]) then Minified(s[1..])
    else if s[0] == '/' && |s| > 1 && s[1] == '/' then
      assert AfterLine(s) == AfterLine(s[1..]);
      Minified(AfterLine(s))
    else if s[0] == '/' && |s| > 1 && s[1] == '*' then
      match AfterComment(s)
      case None => None
      case Some(rest) => Minified(rest)
    else if s[0] == '\"' then
      match Literal(s[1..])
      case None => None
      case Some((t, rest)) => Prepend("\"" + t, Minified(rest))
    else Prepend([s[0]], Minified(s[1..]))
  }

  function Prepend(s: string, r: Option<string>): Option<string> {
    if r.Some? then Some(s + r.value) else None
  }

  // ---------- minifying the formatted form gives the unformatted form ----------

  /** Characters that are copied. */
  predicate Copied(s: string) {
    forall i | 0 <= i < |s| :: !Blank(s[i]) && s[i] != '/' && s[i] != '\"'
  }

  lemma {:induction false} CopiedMinified(s: string, rest: string)
    requires Copied(s)
    ensures Minified(s + rest) == Prepend(s, Minified(rest))
  {
    if s == "" {
      assert s + rest == rest;
      if Minified(rest).Some? { assert "" + Minified(rest).value == Minified(rest).value; }
    } else {
      assert (s + rest)[1..] == s[1..] + rest;
      CopiedMinified(s[1..], rest);
      if Minified(rest).Some? { assert [s[0]] + (s[1..] + Minified(rest).value) == s + Minified(rest).value; }
    }
  }

  lemma {:induction false} TabsMinified(n: int, rest: string)
    ensures Minified(Tabs(n) + rest) == Minified(rest)
  {
    if n > 0 {
      assert (Tabs(n) + rest)[1..] == Tabs(n - 1) + rest;
      TabsMinified(n - 1, rest);
    } else {
      assert "" + rest == rest;
    }
  }

  lemma {:induction false} DigitsCopied(n: nat)
    ensures Copied(Digits(n))
  {
    if n >= 10 { DigitsCopied(n / 10); }
  }

  lemma Join(a: string, b: string, r: Option<string>)
    ensures Prepend(a, Prepend(b, r)) == Prepend(a + b, r) && Prepend("", r) == r
  {
    if r.Some? {
      assert a + (b + r.value) == a + b + r.value;
      assert "" + r.value == r.value;
    }
  }

  /** Characters of a literal, other than its quote and escapes. */
  lemma OneCopied(c: char, s: string)
    requires c != '\"' && c != '\\'
    ensures Literal([c] + s) == match Literal(s) case None => None case Some((t, rest)) => Some(([c] + t, rest))
  {
    assert ([c] + s)[1..] == s && ([c] + s)[..1] == [c];
  }

  lemma EscapeCopied(c: char, s: string)
    ensures Literal("\\" + [c] + s)
            == match Literal(s) case None => None case Some((t, rest)) => Some(("\\" + [c] + t, rest))
  {
    var x := "\\" + [c] + s;
    assert x[2..] == s && x[..2] == "\\" + [c];
  }

  lemma HexCopied(a: char, b: char, s: string)
    requires a != '\"' && a != '\\' && b != '\"' && b != '\\'
    ensures Literal("\\u00" + [a, b] + s)
            == match Literal(s) case None => None case Some((t, rest)) => Some(("\\u00" + [a, b] + t, rest))
  {
    hide Literal;
    OneCopied(b, s);
    OneCopied(a, [b] + s);
    OneCopied('0', [a] + ([b] + s));
    OneCopied('0', ['0'] + ([a] + ([b] + s)));
    EscapeCopied('u', ['0'] + (['0'] + ([a] + ([b] + s))));
    assert "\\u00" + [a, b] + s == "\\" + ['u'] + (['0'] + (['0'] + ([a] + ([b] + s))));
    if Literal(s).Some? {
      var t := Literal(s).value.0;
      assert "\\u00" + [a, b] + t == "\\" + ['u'] + (['0'] + (['0'] + ([a] + ([b] + t))));
    }
  }

  lemma CharCopied(c: char, s: string)
    requires c != '\0'
    ensures Literal(PrintChar(c) + s)
            == match Literal(s) case None => None case Some((t, rest)) => Some((PrintChar(c) + t, rest))
  {
    hide Literal, Hex;
    if Plain(c) {
      OneCopied(c, s);
    } else if Escape(c)[0] == 'u' {
      HexPlain(c as int / 16);
      HexPlain(c as int % 16);
      assert PrintChar(c) == "\\u00" + [Hex(c as int / 16), Hex(c as int % 16)];
      HexCopied(Hex(c as int / 16), Hex(c as int % 16), s);
    } else {
      assert PrintChar(c) == "\\" + [Escape(c)[0]];
      EscapeCopied(Escape(c)[0], s);
    }
  }

  lemma {:induction false} CharsCopied(s: Text, rest: string)
    ensures Literal(PrintChars(s) + ("\"" + rest)) == Some((PrintChars(s) + "\"", rest))
  {
    hide PrintChar, Literal;
    if s == "" {
      LiteralEnd("\"" + rest);
      assert "" + ("\"" + rest) == "\"" + rest && ("\"" + rest)[1..] == rest && "" + "\"" == "\"";
    } else {
      CharsCopied(s[1..], rest);
      CharCopied(s[0], PrintChars(s[1..]) + ("\"" + rest));
      assert PrintChars(s) + ("\"" + rest) == PrintChar(s[0]) + (PrintChars(s[1..]) + ("\"" + rest));
      assert PrintChar(s[0]) + (PrintChars(s[1..]) + "\"") == PrintChars(s) + "\"";
    }
  }

  lemma StringMinified(s: Text, rest: string)
    ensures Minified(PrintString(s) + rest) == Prepend(PrintString(s), Minified(rest))
  {
    hide Literal, PrintChars;
    CharsCopied(s, rest);
    assert (PrintString(s) + rest)[1..] == PrintChars(s) + ("\"" + rest);
    assert "\"" + (PrintChars(s) + "\"") == PrintString(s);
  }

  /** Minifying a formatted value, at any depth and before any text, leaves the unformatted value. */
  lemma {:induction false} ValueMinified(v: Json, depth: nat, rest: string)
    ensures Minified(Print(v, depth, true) + rest) == Prepend(Print(v, depth, false), Minified(rest))
    decreases v, Children(v) + 2
  {
    match v
    case Null => CopiedMinified("null", rest);
    case False => CopiedMinified("false", rest);
    case True => CopiedMinified("true", rest);
    case Number(n) =>
      DigitsCopied(if n < 0 then -(n as int) else n);
      CopiedMinified(PrintNumber(n), rest);
    case Str(s) => StringMinified(s, rest);
    case Array(_) => ArrayMinified(v, depth, rest);
    case Object(_) => ObjectMinified(v, depth, rest);
  }

  lemma {:induction false} ArrayMinified(v: Json, depth: nat, rest: string)
    requires v.Array?
    ensures Minified(Print(v, depth, true) + rest) == Prepend(Print(v, depth, false), Minified(rest))
    decreases v, Children(v) + 1
  {
    hide PrintItems, Minified;
    var all, min := PrintItems(v, 0, depth, true), PrintItems(v, 0, depth, false);
    assert Print(v, depth, true) + rest == "[" + (all + ("]" + rest));
    CopiedMinified("[", all + ("]" + rest));
    ItemsMinified(v, 0, depth, "]" + rest);
    CopiedMinified("]", rest);
    Join("[", min, Prepend("]", Minified(rest)));
    Join("[" + min, "]", Minified(rest));
  }

  lemma {:induction false} ItemsMinified(v: Json, i: nat, depth: nat, rest: string)
    requires v.Array? && i <= |v.items|
    ensures Minified(PrintItems(v, i, depth, true) + rest)
            == Prepend(PrintItems(v, i, depth, false), Minified(rest))
    decreases v, |v.items| - i
  {
    hide Minified, Print, PrintItems;
    if i == |v.items| {
      ItemsEnd(v, depth, true);
      ItemsEnd(v, depth, false);
      assert "" + rest == rest;
      Join("", "", Minified(rest));
    } else {
      var last := i + 1 == |v.items|;
      var more := PrintItems(v, i + 1, depth, true) + rest;
      var item, min := Print(v.items[i], depth + 1, false), PrintItems(v, i + 1, depth, false);
      ItemsSplit(v, i, depth, true, rest);
      ItemsSplit(v, i, depth, false, "");
      ValueMinified(v.items[i], depth + 1, ItemEnd(last, true) + more);
      EndMinified(last, more);
      ItemsMinified(v, i + 1, depth, rest);
      Join(ItemEnd(last, false), min, Minified(rest));
      Join(item, ItemEnd(last, false) + min, Minified(rest));
      assert min + "" == min && PrintItems(v, i, depth, false) + "" == PrintItems(v, i, depth, false);
    }
  }

  lemma EndMinified(last: bool, rest: string)
    ensures Minified(ItemEnd(last, true) + rest) == Prepend(ItemEnd(last, false), Minified(rest))
    ensures Minified(MemberEnd(last, true) + rest) == Prepend(MemberEnd(last, false), Minified(rest))
  {
    hide Minified;
    Join("", "", Minified(rest));
    BlankMinified("\n", rest);
    if last {
      assert "" + rest == rest && "" + "\n" == "\n" && "" + "" == "";
    } else {
      BlankMinified(" ", rest);
      CopiedMinified(",", " " + rest);
      CopiedMinified(",", "\n" + rest);
      assert ", " + rest == "," + (" " + rest) && "," + "\n" + rest == "," + ("\n" + rest) && "," + "" == ",";
    }
  }

  lemma StartMinified(name: Text, depth: nat, rest: string)
    ensures Minified(MemberStart(name, depth, true) + rest) == Prepend(MemberStart(name, depth, false), Minified(rest))
  {
    hide Tabs, PrintString, Minified;
    MemberParts(name, depth, true, rest);
    TabsMinified(depth + 1, PrintString(name) + (":" + ("\t" + rest)));
    StringMinified(name, ":" + ("\t" + rest));
    CopiedMinified(":", "\t" + rest);
    BlankMinified("\t", rest);
    Join(PrintString(name), ":", Minified(rest));
    assert MemberStart(name, depth, false) == PrintString(name) + ":";
  }

  lemma BlankMinified(s: string, rest: string)
    requires s == " " || s == "\t" || s == "\n"
    ensures Minified(s + rest) == Minified(rest)
  {
    assert (s + rest)[1..] == rest;
  }

  lemma {:induction false} MembersMinified(v: Json, i: nat, depth: nat, rest: string)
    requires v.Object? && i <= |v.members|
    ensures Minified(PrintMembers(v, i, depth, true) + rest)
            == Prepend(PrintMembers(v, i, depth, false), Minified(rest))
    decreases v, |v.members| - i
  {
    hide Minified, Print, PrintMembers, MemberStart, MemberEnd;
    if i == |v.members| {
      MembersEnd(v, depth, true);
      MembersEnd(v, depth, false);
      assert "" + rest == rest;
      Join("", "", Minified(rest));
    } else {
      var (name, w) := v.members[i];
      var last := i + 1 == |v.members|;
      var more := PrintMembers(v, i + 1, depth, true) + rest;
      var start, value, min := MemberStart(name, depth, false), Print(w, depth + 1, false),
          PrintMembers(v, i + 1, depth, false);
      MembersSplit(v, i, depth, true, rest);
      MembersSplit(v, i, depth, false, "");
      StartMinified(name, depth, Print(w, depth + 1, true) + (MemberEnd(last, true) + more));
      ValueMinified(w, depth + 1, MemberEnd(last, true) + more);
      EndMinified(last, more);
      MembersMinified(v, i + 1, depth, rest);
      Join(MemberEnd(last, false), min, Minified(rest));
      Join(value, MemberEnd(last, false) + min, Minified(rest));
      Join(start, value + (MemberEnd(last, false) + min), Minified(rest));
      assert min + "" == min && PrintMembers(v, i, depth, false) + "" == PrintMembers(v, i, depth, false);
    }
  }

  lemma {:induction false} ObjectMinified(v: Json, depth: nat, rest: string)
    requires v.Object?
    ensures Minified(Print(v, depth, true) + rest) == Prepend(Print(v, depth, false), Minified(rest))
    decreases v, Children(v) + 1
  {
    hide Print, PrintMembers, Minified, Tabs;
    ObjectParts(v, depth, true, rest);
    ObjectParts(v, depth, false, "");
    CopiedMinified("}", rest);
    var end := Tabs(if v.members == [] then depth - 1 else depth) + ("}" + rest);
    TabsMinified(if v.members == [] then depth - 1 else depth, "}" + rest);
    assert Print(v, depth, false) + "" == Print(v, depth, false);
    if v.members == [] {
      CopiedMinified("{", "\n" + end);
      BlankMinified("\n", end);
      Join("{", "}", Minified(rest));
      assert Print(v, depth, false) == "{" + "}";
    } else {
      var all, min := PrintMembers(v, 0, depth, true), PrintMembers(v, 0, depth, false);
      assert Close(depth, true) + rest == end;
      CopiedMinified("{", "\n" + (all + end));
      BlankMinified("\n", all + end);
      MembersMinified(v, 0, depth, end);
      Join(min, "}", Minified(rest));
      Join("{", min + "}", Minified(rest));
      assert Print(v, depth, false) == "{" + (min + "}");
    }
  }

  /** The formatted form minifies to the unformatted form. */
  lemma PrintMinified(v: Json)
    ensures Minified(Print(v, 0, true)) == Some(Print(v, 0, false))
  {
    hide Print;
    ValueMinified(v, 0, "");
    assert Print(v, 0, true) + "" == Print(v, 0, true) && Print(v, 0, false) + "" == Print(v, 0, false);
  }

  // ---------- in place ----------

  /** `json` holds a text and its terminator. */
  ghost predicate Holds(json: array<char>, text: string)
    reads json
  {
    |text| < json.Length && json[..|text|] == text && json[|text|] == '\0'
  }

  /** The text is intact from position `i` on. */
  ghost predicate Intact(json: array<char>, text: string, i: nat)
    reads json
  {
    i <= |text| < json.Length && json[|text|] == '\0' && json[i..|text|] == text[i..]
  }

  method LineEnd(json: array<char>, i: nat, ghost text: Text) returns (j: nat)
    requires Intact(json, text, i)
    ensures i <= j <= |text| && text[j..] == AfterLine(text[i..])
  {
    j := i;
    while json[j] != '\0' && json[j] != '\n'
      invariant i <= j <= |text| && AfterLine(text[j..]) == AfterLine(text[i..])
      decreases |text| - j
    {
      assert text[j..][0] == json[i..|text|][j - i] && text[j..][1..] == text[j + 1..];
      j := j + 1;
    }
    if j < |text| { assert text[j..][0] == json[i..|text|][j - i]; }
  }

  method CommentEnd(json: array<char>, i: nat, ghost text: Text) returns (end: Option<nat>)
    requires Intact(json, text, i)
    ensures end.None? ==> AfterComment(text[i..]) == None
    ensures end.Some? ==> i < end.value <= |text| && AfterComment(text[i..]) == Some(text[end.value..])
  {
    var j := i;
    while json[j] != '\0' && !(json[j] == '*' && json[j + 1] == '/')
      invariant i <= j <= |text| && AfterComment(text[j..]) == AfterComment(text[i..])
      decreases |text| - j
    {
      At(json, text, i, j);
      j := j + 1;
    }
    At(json, text, i, j);
    return if json[j] == '\0' then None else Some(j + 2);
  }

  /** What can be seen at position `j`. */
  lemma At(json: array<char>, text: Text, i: nat, j: nat)
    requires Intact(json, text, i) && i <= j <= |text|
    ensures json[j] == '\0' <==> j == |text|
    ensures j < |text| ==> text[j..][0] == json[j] && text[j..][1..] == text[j + 1..] && |text[j..]| == |text| - j
    ensures j + 1 < |text| ==> text[j..][1] == json[j + 1] && text[j..][2..] == text[j + 2..]
    ensures j + 1 == |text| ==> json[j + 1] == '\0'
  {
    if j < |text| {
      assert json[i..|text|][j - i] == text[i..][j - i];
      assert text[j] in text;
    }
    if j + 1 < |text| {
      assert json[i..|text|][j + 1 - i] == text[i..][j + 1 - i];
    }
  }

  /** A literal of which `copied` is copied already. */
  ghost function Seen(copied: string, r: Option<(string, string)>): Option<(string, string)> {
    if r.None? then None else Some((copied + r.value.0, r.value.1))
  }

  lemma LiteralMore(copied: string, s: string, text: string, j: nat)
    requires j <= |text| && s == text[j..]
    ensures s == "" || s == "\\" ==> Literal(s) == None
    ensures s != "" && s[0] == '\"' ==> Seen(copied, Literal(s)) == Some((copied + [text[j]], text[j + 1..]))
    ensures s != "" && s != "\\" && s[0] != '\"' ==>
              var n := if text[j] == '\\' then 2 else 1;
              Seen(copied, Literal(s)) == Seen(copied + text[j..j + n], Literal(text[j + n..]))
  {
    hide Literal;
    if s == "" || s == "\\" || s[0] == '\"' {
      LiteralEnd(s);
    } else {
      var n := if s[0] == '\\' then 2 else 1;
      LiteralUnfolds(s, n);
      assert s[..n] == text[j..j + n] && s[n..] == text[j + n..];
      if Literal(s[n..]).Some? {
        var t := Literal(s[n..]).value.0;
        assert copied + (s[..n] + t) == (copied + s[..n]) + t;
      }
    }
  }

  lemma LiteralEnd(s: string)
    requires s == "" || s == "\\" || s[0] == '\"'
    ensures Literal(s) == if s == "" || s == "\\" then None else Some(("\"", s[1..]))
  {
  }

  lemma LiteralUnfolds(s: string, n: nat)
    requires s != "" && s != "\\" && s[0] != '\"' && n == if s[0] == '\\' then 2 else 1
    ensures Literal(s) == match Literal(s[n..]) case None => None case Some((t, rest)) => Some((s[..n] + t, rest))
  {
  }

  method CopyChar(json: array<char>, j: nat, to: nat, ghost text: Text)
    requires to <= j < |text| && Intact(json, text, j)
    modifies json
    ensures Intact(json, text, j + 1) && json[..to + 1] == old(json[..to]) + [text[j]]
  {
    At(json, text, j, j);
    assert json[j + 1..|text|] == json[j..|text|][1..];
    json[to] := json[j];
  }

  /** Copies a character, or a backslash and what follows it; 0 if nothing follows it. */
  method CopyUnit(json: array<char>, j: nat, to: nat, ghost text: Text) returns (n: nat)
    requires to <= j < |text| && Intact(json, text, j)
    modifies json
    ensures n == if text[j] != '\\' then 1 else if j + 1 == |text| then 0 else 2
    ensures n > 0 ==> Intact(json, text, j + n) && json[..to + n] == old(json[..to]) + text[j..j + n]
  {
    At(json, text, j, j);
    n := 0;
    if json[j] == '\\' {
      if json[j + 1] == '\0' { return 0; }
      CopyChar(json, j, to, text);
      n := 1;
    }
    CopyChar(json, j + n, to + n, text);
    n := n + 1;
  }

  /** Copies a string literal whose first quote is copied already. */
  method CopyLiteral(json: array<char>, i: nat, into: nat, ghost text: Text) returns (end: Option<(nat, nat)>)
    requires into <= i && Intact(json, text, i)
    modifies json
    ensures end.None? <==> Literal(text[i..]).None?
    ensures end.Some? ==>
              var (j, to) := end.value;
              && i < j && to <= j && Intact(json, text, j) && Literal(text[i..]).value.1 == text[j..]
              && json[..to] == old(json[..into]) + Literal(text[i..]).value.0
  {
    hide Literal;
    var j: nat, to: nat := i, into;
    ghost var copied := "";
    NoneSeen(Literal(text[i..]));
    assert old(json[..into]) + "" == json[..to];
    while json[j] != '\0' && json[j] != '\"'
      invariant to <= j && i <= j <= |text| < json.Length && Intact(json, text, j)
      invariant json[..to] == old(json[..into]) + copied && Literal(text[i..]) == Seen(copied, Literal(text[j..]))
      decreases |text| - j
    {
      At(json, text, j, j);
      LiteralMore(copied, text[j..], text, j);
      var n := CopyUnit(json, j, to, text);
      if n == 0 { return None; }
      copied := copied + text[j..j + n];
      j, to := j + n, to + n;
    }
    At(json, text, j, j);
    LiteralMore(copied, text[j..], text, j);
    if json[j] == '\0' { return None; }
    CopyChar(json, j, to, text);
    return Some((j + 1, to + 1));
  }

  lemma NoneSeen(r: Option<(string, string)>)
    ensures Seen("", r) == r
  {
    if r.Some? { assert "" + r.value.0 == r.value.0; }
  }

  /** A text of which the first part is minified to `done`. */
  lemma MinifiedMore(done: string, s: Text)
    ensures s == "" ==> Prepend(done, Minified(s)) == Some(done)
    ensures s != "" && Blank(s[0]) ==> Prepend(done, Minified(s)) == Prepend(done, Minified(s[1..]))
    ensures |s| > 1 && s[0] == '/' && s[1] == '/' ==>
              Prepend(done, Minified(s)) == Prepend(done, Minified(AfterLine(s)))
    ensures |s| > 1 && s[0] == '/' && s[1] == '*' ==>
              Prepend(done, Minified(s))
              == match AfterComment(s) case None => None case Some(rest) => Prepend(done, Minified(rest))
    ensures s != "" && s[0] == '\"' ==>
              Prepend(done, Minified(s))
              == match Literal(s[1..]) case None => None case Some((t, rest)) => Prepend(done + "\"" + t,
                  Minified(rest))
    ensures s != "" && !Blank(s[0]) && s[0] != '\"' && !(|s| > 1 && s[0] == '/' && (s[1] == '/' || s[1] == '*')) ==>
              Prepend(done, Minified(s)) == Prepend(done + [s[0]], Minified(s[1..]))
  {
    hide Literal, AfterComment, AfterLine;
    assert done + "" == done;
    if s != "" {
      Join(done, [s[0]], Minified(s[1..]));
      if s[0] == '\"' && Literal(s[1..]).Some? {
        var (t, rest) := Literal(s[1..]).value;
        Join(done, "\"" + t, Minified(rest));
        assert done + ("\"" + t) == done + "\"" + t;
      }
    }
  }

  /** The loop writes at `into`, never ahead of where it reads. None if a comment or a string has no end. */
  method Minify(json: array<char>, ghost text: Text) returns (length: Option<nat>)
    requires Holds(json, text)
    modifies json
    ensures length.None? <==> Minified(text).None?
    ensures length.Some? ==> Holds(json, Minified(text).value) && length.value == |Minified(text).value| <= |text|
  {
    hide Minified, Literal, AfterComment, AfterLine, Blank;
    var i: nat, into: nat := 0, 0;
    Join("", "", Minified(text));
    assert text[0..] == text && json[..0] == "";
    while json[i] != '\0'
      invariant into <= i <= |text| < json.Length && Intact(json, text, i)
      invariant Minified(text) == Prepend(json[..into], Minified(text[i..]))
      decreases |text| - i
    {
      At(json, text, i, i);
      MinifiedMore(json[..into], text[i..]);
      if Blank(json[i]) {
        i := i + 1;
      } else if json[i] == '/' && json[i + 1] == '/' {
        var j := LineEnd(json, i, text);
        NotEmptyLine(text[i..]);
        i := j;
      } else if json[i] == '/' && json[i + 1] == '*' {
        var end := CommentEnd(json, i, text);
        if end.None? { return None; }
        i := end.value;
      } else if json[i] == '\"' {
        ghost var done := json[..into];
        CopyChar(json, i, into, text);
        var end := CopyLiteral(json, i + 1, into + 1, text);
        if end.None? { return None; }
        i, into := end.value.0, end.value.1;
      } else {
        CopyChar(json, i, into, text);
        i, into := i + 1, into + 1;
      }
    }
    At(json, text, i, i);
    MinifiedMore(json[..into], text[i..]);
    json[into] := '\0';
    return Some(into);
  }

  lemma NotEmptyLine(s: string)
    requires s != "" && s[0] == '/'
    ensures |AfterLine(s)| < |s|
  {
  }
}
