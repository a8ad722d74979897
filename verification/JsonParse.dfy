/** Parsing JSON text with pointers into it. */
module JsonParse {
  import opened JsonText
  import opened JsonBack

  /** The result of a parser that returns a position in the text instead of the rest of it. */
  ghost predicate Reads<T(!new)>(r: Option<(T, nat)>, text: Text, p: Parsed<T>) {
    match p
    case None => r == None
    case Some((v, rest)) => r.Some? && r.value.0 == v && r.value.1 <= |text| && text[r.value.1..] == rest
  }

  method SkipBlanks(text: Text, i: nat) returns (j: nat)
    requires i <= |text|
    ensures i <= j <= |text| && text[j..] == Skip(text[i..])
  {
    j := i;
    while j < |text| && text[j] <= ' '
      invariant i <= j <= |text| && Skip(text[j..]) == Skip(text[i..])
    {
      j := j + 1;
    }
  }

  method Digits(text: Text, i: nat, first: nat) returns (n: nat, j: nat)
    requires i <= |text|
    ensures i <= j <= |text| && (n, text[j..]) == ParseDigits(first, text[i..])
  {
    n, j := first, i;
    while j < |text| && IsDigit(text[j])
      invariant i <= j <= |text| && ParseDigits(n, text[j..]) == ParseDigits(first, text[i..])
    {
      n, j := 10 * n + (text[j] as int - '0' as int), j + 1;
    }
  }

  method Natural(text: Text, i: nat) returns (n: nat, j: nat)
    requires i <= |text|
    ensures i <= j <= |text| && (n, text[j..]) == ParseNatural(text[i..])
  {
    hide ParseDigits;
    n, j := 0, i;
    if j < |text| && text[j] == '0' {
      assert text[i..][1..] == text[i + 1..];
      j := j + 1;
    }
    if j < |text| && '1' <= text[j] <= '9' {
      assert text[j..][1..] == text[j + 1..];
      n, j := Digits(text, j + 1, text[j] as int - '0' as int);
    }
  }

  method Number(text: Text, i: nat) returns (r: Option<(Int, nat)>)
    requires i < |text| && (text[i] == '-' || IsDigit(text[i]))
    ensures Reads(r, text, ParseNumber(text[i..]))
  {
    hide ParseNatural;
    assert text[i..][1..] == text[i + 1..];
    var n, j := Natural(text, if text[i] == '-' then i + 1 else i);
    var x: int := if text[i] == '-' then -(n as int) else n;
    if j < |text| && (text[j] == 'e' || text[j] == 'E') { return None; }
    if j + 1 < |text| && text[j] == '.' && IsDigit(text[j + 1]) { return None; }
    return if INT_MIN <= x <= INT_MAX then Some((x, j)) else None;
  }

  /** The room a string needs; a backslash that ends the text counts like any other. */
  method Room(text: Text, i: nat) returns (len: nat)
    requires i <= |text|
    ensures len == Units(text[i..])
  {
    var ptr := i;
    len := 0;
    while ptr < |text| && text[ptr] != '\"'
      invariant i <= ptr <= |text| && len + Units(text[ptr..]) == Units(text[i..])
    {
      len := len + 1;
      ptr := if text[ptr] == '\\' && ptr + 1 < |text| then ptr + 2 else ptr + 1;
    }
  }

  /** Characters already read before the others. */
  ghost function After(t: string, r: Parsed<Text>): Parsed<string> {
    if r.None? then None else Some((t + r.value.0, r.value.1))
  }

  lemma CharsMore(t: Text, text: Text, j: nat)
    requires j <= |text|
    ensures j == |text| ==> After(t, ParseChars(text[j..])) == Some((t, text[j..]))
    ensures j < |text| && text[j] == '\"' ==> After(t, ParseChars(text[j..])) == Some((t, text[j + 1..]))
    ensures j < |text| && text[j] != '\"' && text[j] != '\\' ==>
              After(t, ParseChars(text[j..])) == After(t + [text[j]], ParseChars(text[j + 1..]))
    ensures j < |text| && text[j] == '\\' ==>
              match ParseEscape(text[j + 1..])
              case None => ParseChars(text[j..]) == None
              case Some((c, rest)) => After(t, ParseChars(text[j..])) == After(t + c, ParseChars(rest))
  {
    hide ParseEscape;
    assert t + "" == t;
    if j < |text| {
      assert text[j..][1..] == text[j + 1..];
      if text[j] == '\\' && ParseEscape(text[j + 1..]).Some? {
        var (c, rest) := ParseEscape(text[j + 1..]).value;
        if ParseChars(rest).Some? { assert t + (c + ParseChars(rest).value.0) == (t + c) + ParseChars(rest).value.0; }
      } else if text[j] != '\\' && ParseChars(text[j + 1..]).Some? {
        var more := ParseChars(text[j + 1..]).value.0;
        assert t + ([text[j]] + more) == (t + [text[j]]) + more;
      }
    }
  }

  method CopyChars(out: array<char>, at: nat, s: string)
    requires at + |s| < out.Length
    modifies out
    ensures out[..at + |s|] == old(out[..at]) + s
  {
    for i := 0 to |s|
      invariant out[..at + i] == old(out[..at]) + s[..i]
    {
      out[at + i] := s[i];
    }
  }

  /** A string, unescaped into a buffer of the room computed for it. */
  method String(text: Text, i: nat) returns (r: Option<(Text, nat)>)
    requires i <= |text|
    ensures Reads(r, text, ParseString(text[i..]))
  {
    hide ParseChars, ParseEscape, Units;
    if i == |text| || text[i] != '\"' { return None; }
    assert text[i..][1..] == text[i + 1..];
    var len := Room(text, i + 1);
    var out := new char[len + 1];
    var ptr, end := i + 1, 0;
    NoneAfter(ParseChars(text[ptr..]));
    assert out[..0] == "";
    while ptr < |text| && text[ptr] != '\"'
      invariant i < ptr <= |text| && 0 <= end <= len && '\0' !in out[..end]
      invariant After(out[..end], ParseChars(text[ptr..])) == ParseChars(text[i + 1..])
      decreases |text| - ptr
    {
      CharsMore(out[..end], text, ptr);
      var c, next := [text[ptr]], ptr + 1;
      if text[ptr] == '\\' {
        var e := ParseEscape(text[ptr + 1..]);
        if e.None? { return None; }
        c, next := e.value.0, |text| - |e.value.1|;
        EscapeRest(text, ptr + 1);
      }
      if end + |c| > len {
        TooLong(out[..end] + c, ParseChars(text[next..]), len);
        return None;
      }
      CopyChars(out, end, c);
      ptr, end := next, end + |c|;
    }
    CharsMore(out[..end], text, ptr);
    var value := out[..end];
    out[end] := '\0';
    return Some((value, if ptr < |text| then ptr + 1 else ptr));
  }

  lemma NoneAfter(r: Parsed<Text>)
    ensures After("", r) == r
  {
    if r.Some? { assert "" + r.value.0 == r.value.0; }
  }

  lemma TooLong(t: string, r: Parsed<Text>, len: nat)
    requires |t| > len
    ensures After(t, r).Some? ==> |After(t, r).value.0| > len
  {
  }

  lemma EscapeRest(text: Text, i: nat)
    requires i <= |text|
    ensures match ParseEscape(text[i..])
            case None => true
            case Some((_, rest)) => i < |text| - |rest| <= |text| && rest == text[|text| - |rest|..]
  {
  }

  // ---------- arrays and objects ----------

  /** Elements already read before the others. */
  ghost function Behind<T>(xs: seq<T>, r: Parsed<seq<T>>): Parsed<seq<T>> {
    if r.None? then None else Some((xs + r.value.0, r.value.1))
  }

  lemma NoneBehind<T>(r: Parsed<seq<T>>)
    ensures Behind([], r) == r
  {
    if r.Some? { assert [] + r.value.0 == r.value.0; }
  }

  lemma ItemsUnfold(vs: seq<Json>, s: Text)
    ensures Behind(vs, ParseItems(s))
            == match ParseValue(Skip(s))
               case None => None
               case Some((v, s1)) =>
                 var t := Skip(s1);
                 if t == "" then None
                 else if t[0] == ']' then Some((vs + [v], t[1..]))
                 else if t[0] != ',' then None
                 else Behind(vs + [v], ParseItems(t[1..]))
  {
    hide ParseValue;
    if ParseItems(s).Some? {
      var t := Skip(ParseValue(Skip(s)).value.1);
      if t[0] == ',' {
        var (v, more) := (ParseValue(Skip(s)).value.0, ParseItems(t[1..]).value.0);
        assert vs + ([v] + more) == (vs + [v]) + more;
      }
    }
  }

  lemma MembersUnfold(ms: seq<(Text, Json)>, s: Text)
    ensures Behind(ms, ParseMembers(s))
            == match ParseMember(s)
               case None => None
               case Some((m, s1)) =>
                 var t := Skip(s1);
                 if t == "" then None
                 else if t[0] == '}' then Some((ms + [m], t[1..]))
                 else if t[0] != ',' then None
                 else Behind(ms + [m], ParseMembers(t[1..]))
  {
    hide ParseMember;
    if ParseMembers(s).Some? {
      var t := Skip(ParseMember(s).value.1);
      if t[0] == ',' {
        var (m, more) := (ParseMember(s).value.0, ParseMembers(t[1..]).value.0);
        assert ms + ([m] + more) == (ms + [m]) + more;
      }
    }
  }

  method Value(text: Text, i: nat) returns (r: Option<(Json, nat)>)
    requires i <= |text|
    ensures Reads(r, text, ParseValue(text[i..]))
    decreases |text| - i, 1
  {
    hide ParseString, ParseNumber, ParseItems, ParseMembers;
    var s := text[i..];
    if Starts(s, "null") { return Some((Null, i + 4)); }
    if Starts(s, "false") { return Some((False, i + 5)); }
    if Starts(s, "true") { return Some((True, i + 4)); }
    if i == |text| { return None; }
    if text[i] == '\"' {
      var t := String(text, i);
      return if t.None? then None else Some((Str(t.value.0), t.value.1));
    }
    if text[i] == '-' || IsDigit(text[i]) {
      var n := Number(text, i);
      return if n.None? then None else Some((JsonText.Number(n.value.0), n.value.1));
    }
    if text[i] == '[' {
      r := Array(text, i);
    } else if text[i] == '{' {
      r := Object(text, i);
    } else {
      r := None;
    }
  }

  method Array(text: Text, i: nat) returns (r: Option<(Json, nat)>)
    requires i < |text| && text[i] == '['
    ensures Reads(r, text, ParseValue(text[i..]))
    decreases |text| - i, 0
  {
    hide ParseValue, ParseItems, Skip;
    assert text[i..] == "[" + text[i + 1..];
    OpenBracket(text[i + 1..]);
    var value := SkipBlanks(text, i + 1);
    if value < |text| && text[value] == ']' { return Some((JsonText.Array([]), value + 1)); }
    var items: seq<Json> := [];
    ghost var all := ParseItems(text[value..]);
    NoneBehind(all);
    while true
      invariant i < value <= |text| && Behind(items, ParseItems(text[value..])) == all
      decreases |text| - value
    {
      ItemsUnfold(items, text[value..]);
      var start := SkipBlanks(text, value);
      var v := Value(text, start);
      if v.None? { return None; }
      items := items + [v.value.0];
      value := SkipBlanks(text, v.value.1);
      if value == |text| { return None; }
      if text[value] == ']' { return Some((JsonText.Array(items), value + 1)); }
      if text[value] != ',' { return None; }
      value := value + 1;
    }
  }

  /** A name, a colon and a value. */
  method Member(text: Text, i: nat) returns (r: Option<((Text, Json), nat)>)
    requires i <= |text|
    ensures Reads(r, text, ParseMember(text[i..]))
    decreases |text| - i, 2
  {
    hide ParseString, ParseValue, Skip;
    var start := SkipBlanks(text, i);
    var name := String(text, start);
    if name.None? { return None; }
    var colon := SkipBlanks(text, name.value.1);
    if colon == |text| || text[colon] != ':' { return None; }
    var value := SkipBlanks(text, colon + 1);
    var v := Value(text, value);
    return if v.None? then None else Some(((name.value.0, v.value.0), v.value.1));
  }

  method Object(text: Text, i: nat) returns (r: Option<(Json, nat)>)
    requires i < |text| && text[i] == '{'
    ensures Reads(r, text, ParseValue(text[i..]))
    decreases |text| - i, 0
  {
    hide ParseValue, ParseMember, ParseMembers, Skip;
    assert text[i..] == "{" + text[i + 1..];
    OpenBrace(text[i + 1..]);
    var value := SkipBlanks(text, i + 1);
    if value < |text| && text[value] == '}' { return Some((JsonText.Object([]), value + 1)); }
    var members: seq<(Text, Json)> := [];
    ghost var all := ParseMembers(text[value..]);
    NoneBehind(all);
    while true
      invariant i < value <= |text| && Behind(members, ParseMembers(text[value..])) == all
      decreases |text| - value
    {
      MembersUnfold(members, text[value..]);
      var m := Member(text, value);
      if m.None? { return None; }
      members := members + [m.value.0];
      value := SkipBlanks(text, m.value.1);
      if value == |text| { return None; }
      if text[value] == '}' { return Some((JsonText.Object(members), value + 1)); }
      if text[value] != ',' { return None; }
      value := value + 1;
    }
  }

  /** Parses a whole text. Every printed value, in either form, is read back. */
  method ParseText(text: Text, whole: bool) returns (r: Option<Json>)
    ensures r == Parse(text, whole)
    ensures forall v, fmt | text == Print(v, 0, fmt) :: r == Some(v)
  {
    hide ParseValue, Print, Skip;
    var start := SkipBlanks(text, 0);
    assert text[0..] == text;
    var v := Value(text, start);
    forall w, fmt | text == Print(w, 0, fmt)
      ensures Parse(text, whole) == Some(w)
    {
      ParseBack(w, fmt, "");
      assert Print(w, 0, fmt) + "" == text;
    }
    if v.None? { return None; }
    if whole {
      var end := SkipBlanks(text, v.value.1);
      if end != |text| { return None; }
    }
    return Some(v.value.0);
  }
}
