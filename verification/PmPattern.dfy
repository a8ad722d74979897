/** Patterns: single characters and the items built from them. */
module PmPattern {

  const ESC: char := '%'
  const NUL: char := '\0'
  const MAXCAPTURES: nat := 32

  /** The character at a position; the terminator follows the last one. */
  function At(s: string, i: int): char { if 0 <= i < |s| then s[i] else NUL }

  predicate IsLower(c: char) { 'a' <= c <= 'z' }
  predicate IsUpper(c: char) { 'A' <= c <= 'Z' }
  predicate IsAlpha(c: char) { IsLower(c) || IsUpper(c) }
  predicate IsDigit(c: char) { '0' <= c <= '9' }
  predicate IsCntrl(c: char) { c < ' ' || c == 127 as char }
  predicate IsGraph(c: char) { '!' <= c <= '~' }
  predicate IsAlnum(c: char) { IsAlpha(c) || IsDigit(c) }
  predicate IsPunct(c: char) { IsGraph(c) && !IsAlnum(c) }
  predicate IsSpace(c: char) { c == ' ' || 9 as char <= c <= 13 as char }
  predicate IsXDigit(c: char) { IsDigit(c) || 'a' <= c <= 'f' || 'A' <= c <= 'F' }

  function ToLower(c: char): char { if IsUpper(c) then (c as int + 32) as char else c }

  /** A class letter stands for its class, in upper case for the complement; any other letter for itself. */
  predicate MatchClass(c: char, cl: char) {
    var l := ToLower(cl);
    if l in "acdglpsuwxz" then
      var r := match l
        case 'a' => IsAlpha(c)
        case 'c' => IsCntrl(c)
        case 'd' => IsDigit(c)
        case 'g' => IsGraph(c)
        case 'l' => IsLower(c)
        case 'p' => IsPunct(c)
        case 's' => IsSpace(c)
        case 'u' => IsUpper(c)
        case 'w' => IsAlnum(c)
        case 'x' => IsXDigit(c)
        case _ => c == NUL;
      if IsLower(cl) then r else !r
    else cl == c
  }

  lemma ClassesComplement(c: char, l: char)
    requires l in "acdglpsuwxz"
    ensures MatchClass(c, (l as int - 32) as char) <==> !MatchClass(c, l)
  {
  }

  /** The classes and what they are made of, for every character. */
  lemma ClassMembers(c: char)
    ensures MatchClass(c, 'd') <==> c in "0123456789"
    ensures MatchClass(c, 'x') <==> MatchClass(c, 'd') || c in "abcdefABCDEF"
    ensures MatchClass(c, 'l') <==> 'a' <= c <= 'z'
    ensures MatchClass(c, 'u') <==> 'A' <= c <= 'Z'
    ensures MatchClass(c, 'a') <==> MatchClass(c, 'l') || MatchClass(c, 'u')
    ensures MatchClass(c, 'w') <==> MatchClass(c, 'a') || MatchClass(c, 'd')
    ensures MatchClass(c, 'p') <==> '!' <= c <= '/' || ':' <= c <= '@' || '[' <= c <= '`' || '{' <= c <= '~'
    ensures MatchClass(c, 'g') <==> MatchClass(c, 'w') || MatchClass(c, 'p')
    ensures MatchClass(c, 's') <==> c in " \t\n\r" || c == 11 as char || c == 12 as char
    ensures MatchClass(c, 'z') <==> c == '\0'
    ensures c < 128 as char ==> (MatchClass(c, 'c') <==> !MatchClass(c, 'g') && c != ' ')
  {
    hide MatchClass;
    ClassTable(c);
  }

  /** Characters past the seven-bit ones are in no class. */
  lemma NotAscii(c: char, l: char)
    requires c >= 128 as char && l in "acdglpsuwxz"
    ensures !MatchClass(c, l)
  {
    hide MatchClass;
    ClassTable(c);
    ClassLetters();
  }

  lemma ClassTable(c: char)
    ensures MatchClass(c, 'a') == IsAlpha(c) && MatchClass(c, 'c') == IsCntrl(c) && MatchClass(c, 'd') == IsDigit(c)
    ensures MatchClass(c, 'g') == IsGraph(c) && MatchClass(c, 'l') == IsLower(c) && MatchClass(c, 'p') == IsPunct(c)
    ensures MatchClass(c, 's') == IsSpace(c) && MatchClass(c, 'u') == IsUpper(c) && MatchClass(c, 'w') == IsAlnum(c)
    ensures MatchClass(c, 'x') == IsXDigit(c) && MatchClass(c, 'z') == (c == NUL)
  {
    ClassLetters();
  }

  lemma ClassLetters()
    ensures forall l | l in "acdglpsuwxz" ::
              l == 'a' || l == 'c' || l == 'd' || l == 'g' || l == 'l' || l == 'p' || l == 's' || l == 'u' || l == 'w'
              || l == 'x' || l == 'z'
    ensures 'a' in "acdglpsuwxz" && 'c' in "acdglpsuwxz" && 'd' in "acdglpsuwxz" && 'g' in "acdglpsuwxz"
            && 'l' in "acdglpsuwxz" && 'p' in "acdglpsuwxz" && 's' in "acdglpsuwxz" && 'u' in "acdglpsuwxz"
            && 'w' in "acdglpsuwxz" && 'x' in "acdglpsuwxz" && 'z' in "acdglpsuwxz"
  {
    assert "acdglpsuwxz" == ['a', 'c', 'd', 'g', 'l', 'p', 's', 'u', 'w', 'x', 'z'];
  }

  /** A character that names no class stands for itself after `%`. */
  lemma NoClass(c: char, cl: char)
    requires cl !in "acdglpsuwxz" && cl !in "ACDGLPSUWXZ"
    ensures MatchClass(c, cl) <==> c == cl
  {
    if IsUpper(cl) { NoUpper(cl); }
  }

  lemma NoUpper(cl: char)
    requires IsUpper(cl) && cl !in "ACDGLPSUWXZ"
    ensures ToLower(cl) !in "acdglpsuwxz"
  {
    var lower, upper := "acdglpsuwxz", "ACDGLPSUWXZ";
    forall i | 0 <= i < |lower| ensures ToLower(cl) != lower[i] { assert upper[i] in upper; }
  }

  datatype Result<+T> = Ok(value: T) | Fault(msg: string)

  // ---------- one item ----------

  /** The end of a set whose members start at `q`: a `]` right there would be a member. */
  function SetEnd(pat: string, q: int): (r: Result<int>)
    requires 0 <= q <= |pat|
    ensures r.Ok? ==> q + 2 <= r.value <= |pat| && pat[r.value - 1] == ']'
    decreases |pat| - q
  {
    if q == |pat| then Fault("malformed pattern (missing ']')")
    else
      var q' := if pat[q] == ESC && q + 1 < |pat| then q + 2 else q + 1;
      if At(pat, q') == ']' then Ok(q' + 1) else SetEnd(pat, q')
  }

  /** The end of the single-character item at `p`. */
  function ItemEnd(pat: string, p: int): (r: Result<int>)
    requires 0 <= p < |pat|
    ensures r.Ok? ==> p < r.value <= |pat|
    ensures r.Ok? && pat[p] == '[' ==> p + 2 <= r.value && pat[r.value - 1] == ']'
  {
    if pat[p] == ESC then
      if p + 1 == |pat| then Fault("malformed pattern (ends with '%')") else Ok(p + 2)
    else if pat[p] == '[' then SetEnd(pat, if At(pat, p + 1) == '^' then p + 2 else p + 1)
    else Ok(p + 1)
  }

  datatype Member = Class(cl: char) | Range(lo: char, hi: char) | One(c: char)

  predicate Has(m: Member, c: char) {
    match m
    case Class(cl) => MatchClass(c, cl)
    case Range(lo, hi) => lo <= c <= hi
    case One(d) => d == c
  }

  /** The members of a set from position `k` up to its closing bracket. */
  function Members(pat: string, k: int, ec: int): seq<Member>
    decreases ec - k
  {
    if k >= ec then []
    else if At(pat, k) == ESC then [Class(At(pat, k + 1))] + Members(pat, k + 2, ec)
    else if At(pat, k + 1) == '-' && k + 2 < ec then [Range(At(pat, k), At(pat, k + 2))] + Members(pat, k + 3, ec)
    else [One(At(pat, k))] + Members(pat, k + 1, ec)
  }

  predicate Negated(pat: string, p: int) { At(pat, p + 1) == '^' }

  ghost predicate SomeHas(ms: seq<Member>, c: char) { exists i :: 0 <= i < |ms| && Has(ms[i], c) }

  /** A set holds the characters that one of its members has, or the others if it starts with `^`. */
  ghost predicate InSet(c: char, pat: string, p: int, ec: int) {
    var ms := Members(pat, if Negated(pat, p) then p + 2 else p + 1, ec);
    Negated(pat, p) <==> !SomeHas(ms, c)
  }

  method MatchBracketClass(c: char, pat: string, p: int, ec: int) returns (r: bool)
    ensures r <==> InSet(c, pat, p, ec)
  {
    hide MatchClass, Members, SomeHas;
    EmptySet(pat, ec, c);
    var sig, k := true, p;
    if At(pat, k + 1) == '^' {
      sig := false;
      k := k + 1;
    }
    ghost var start := k + 1;
    k := k + 1;
    while k < ec
      invariant SomeHas(Members(pat, start, ec), c) <==> SomeHas(Members(pat, k, ec), c)
      decreases ec - k
    {
      FirstMember(pat, k, ec, c);
      if At(pat, k) == ESC {
        k := k + 1;
        if MatchClass(c, At(pat, k)) {
          return sig;
        }
      } else if At(pat, k + 1) == '-' && k + 2 < ec {
        k := k + 2;
        if At(pat, k - 2) <= c && c <= At(pat, k) {
          return sig;
        }
      } else if At(pat, k) == c {
        return sig;
      }
      k := k + 1;
    }
    return !sig;
  }

  lemma EmptySet(pat: string, ec: int, c: char)
    ensures forall k | k >= ec :: !SomeHas(Members(pat, k, ec), c)
  {
  }

  lemma FirstMember(pat: string, k: int, ec: int, c: char)
    requires k < ec
    ensures SomeHas(Members(pat, k, ec), c) <==>
              if At(pat, k) == ESC then MatchClass(c, At(pat, k + 1)) || SomeHas(Members(pat, k + 2, ec), c)
              else if At(pat, k + 1) == '-' && k + 2 < ec then At(pat, k) <= c <= At(pat, k + 2)
                  || SomeHas(Members(pat, k + 3, ec), c)
              else At(pat, k) == c || SomeHas(Members(pat, k + 1, ec), c)
  {
    hide MatchClass, Members;
    var ms := Members(pat, k, ec);
    MembersStep(pat, k, ec);
    HasRest(ms, c);
  }

  lemma MembersStep(pat: string, k: int, ec: int)
    requires k < ec
    ensures Members(pat, k, ec) != []
    ensures if At(pat, k) == ESC then Members(pat, k, ec)[0] == Class(At(pat, k + 1))
            && Members(pat, k, ec)[1..] == Members(pat, k + 2, ec)
            else if At(pat, k + 1) == '-' && k + 2 < ec then
              Members(pat, k, ec)[0] == Range(At(pat, k), At(pat, k + 2))
                  && Members(pat, k, ec)[1..] == Members(pat, k + 3, ec)
            else Members(pat, k, ec)[0] == One(At(pat, k)) && Members(pat, k, ec)[1..] == Members(pat, k + 1, ec)
  {
  }

  lemma HasRest(ms: seq<Member>, c: char)
    requires ms != []
    ensures SomeHas(ms, c) <==> Has(ms[0], c) || SomeHas(ms[1..], c)
  {
    hide Has;
    if SomeHas(ms, c) {
      var i :| 0 <= i < |ms| && Has(ms[i], c);
      if i > 0 { assert Has(ms[1..][i - 1], c); }
    }
    if SomeHas(ms[1..], c) {
      var i :| 0 <= i < |ms[1..]| && Has(ms[1..][i], c);
      assert Has(ms[i + 1], c);
    }
  }

  /** Whether the character at `s` matches the item from `p` to `ep`. */
  ghost predicate Single(src: string, pat: string, s: int, p: int, ep: int) {
    && s < |src|
    && match At(pat, p)
       case '.' => true
       case '%' => MatchClass(At(src, s), At(pat, p + 1))
       case '[' => InSet(At(src, s), pat, p, ep - 1)
       case _ => At(pat, p) == At(src, s)
  }

  method SingleMatch(src: string, pat: string, s: int, p: int, ep: int) returns (r: bool)
    ensures r <==> Single(src, pat, s, p, ep)
  {
    if s >= |src| {
      return false;
    }
    var c := At(src, s);
    match At(pat, p) {
      case '.' => return true;
      case '%' => return MatchClass(c, At(pat, p + 1));
      case '[' => r := MatchBracketClass(c, pat, p, ep - 1);
      case _ => return At(pat, p) == c;
    }
  }

  method ClassEnd(pat: string, p0: int) returns (r: Result<int>)
    requires 0 <= p0 < |pat|
    ensures r == ItemEnd(pat, p0)
  {
    var p := p0 + 1;
    match pat[p0] {
      case '%' =>
        if p == |pat| {
          return Fault("malformed pattern (ends with '%')");
        }
        return Ok(p + 1);
      case '[' =>
        if At(pat, p) == '^' {
          p := p + 1;
        }
        ghost var q := p;
        while true
          invariant p <= |pat| && SetEnd(pat, p) == SetEnd(pat, q)
          decreases |pat| - p
        {
          if p == |pat| {
            return Fault("malformed pattern (missing ']')");
          }
          var c := pat[p];
          p := p + 1;
          if c == ESC && p < |pat| {
            p := p + 1;
          }
          if At(pat, p) == ']' {
            return Ok(p + 1);
          }
        }
      case _ => return Ok(p);
    }
  }

  // ---------- balanced strings ----------

  /** How many are open after the characters from `s` + 1 to `i` - 1, when one was opened at `s`; each
      character is first taken as a closing one. */
  function Depth(src: string, s: int, i: int, b: char, e: char): int
    decreases i - s
  {
    if i <= s + 1 then 1
    else Depth(src, s, i - 1, b, e) + (if At(src, i - 1) == e then -1 else if At(src, i - 1) == b then 1 else 0)
  }

  /** The string that starts at `s` is first balanced just before `r`. */
  predicate BalancedAt(src: string, s: int, r: int, b: char, e: char) {
    && s + 1 < r <= |src| && Depth(src, s, r, b, e) == 0
    && forall i | s < i < r :: Depth(src, s, i, b, e) != 0
  }

  ghost predicate NeverBalanced(src: string, s: int, b: char, e: char) { forall r :: !BalancedAt(src, s, r, b, e) }

  datatype Option<+T> = None | Some(value: T)

  method MatchBalance(src: string, pat: string, s0: int, p: int) returns (r: Result<Option<int>>)
    requires 0 <= s0 <= |src|
    ensures r.Fault? <==> p >= |pat| - 1
    ensures r.Fault? ==> r.msg == "malformed pattern (missing arguments to '%b')"
    ensures r.Ok? && r.value.Some?
            ==> At(src, s0) == At(pat, p)
                && BalancedAt(src, s0, r.value.value, At(pat, p), At(pat, p + 1))
    ensures r.Ok? && r.value.None? ==> At(src, s0) != At(pat, p) || NeverBalanced(src, s0, At(pat, p), At(pat, p + 1))
  {
    if p >= |pat| - 1 {
      return Fault("malformed pattern (missing arguments to '%b')");
    }
    if At(src, s0) != At(pat, p) {
      return Ok(None);
    }
    var b, e, cont, s := At(pat, p), At(pat, p + 1), 1, s0 + 1;
    while s < |src|
      invariant s0 < s && cont == Depth(src, s0, s, b, e) && cont != 0
      invariant forall i | s0 < i <= s :: Depth(src, s0, i, b, e) != 0
    {
      if src[s] == e {
        cont := cont - 1;
        if cont == 0 {
          return Ok(Some(s + 1));
        }
      } else if src[s] == b {
        cont := cont + 1;
      }
      s := s + 1;
    }
    return Ok(None);
  }
}
