/** What a pattern matches: all ways, in the order in which they are preferred. */
module PmMeaning {
  import opened PmPattern

  const UNFINISHED: int := -1
  const POSITION: int := -2

  /** A capture starts at `init`; `len` is its length, or says that it is open or only marks a position. */
  datatype Capture = Capture(init: int, len: int)

  /** A match up to `e`, or an error in the pattern that is met on the way. */
  datatype Way = Found(e: int, caps: seq<Capture>) | Broken(msg: string)

  datatype Subject = Subject(src: string, pat: string)

  /** The innermost open capture. */
  function ToClose(caps: seq<Capture>): int
    ensures -1 <= ToClose(caps) < |caps|
    ensures ToClose(caps) >= 0 ==> caps[ToClose(caps)].len == UNFINISHED
    ensures forall i | ToClose(caps) < i < |caps| :: caps[i].len != UNFINISHED
  {
    if caps == [] then -1
    else if caps[|caps| - 1].len == UNFINISHED then |caps| - 1
    else ToClose(caps[..|caps| - 1])
  }

  /** The number of characters from `s` on that match the item one after the other. */
  ghost function RunLength(m: Subject, s: int, p: int, ep: int): (n: nat)
    ensures s <= |m.src| ==> s + n <= |m.src|
    decreases |m.src| - s
  {
    if Single(m.src, m.pat, s, p, ep) then 1 + RunLength(m, s + 1, p, ep) else 0
  }

  /** The text of a capture occurs at `s`. */
  predicate Repeats(src: string, c: Capture, s: int) {
    c.len >= 0 && s + c.len <= |src| && Same(src, c.init, s, c.len)
  }

  predicate Same(src: string, i: int, j: int, n: int)
    decreases n
  {
    n <= 0 || (At(src, i) == At(src, j) && Same(src, i + 1, j + 1, n - 1))
  }

  ghost predicate Frontier(m: Subject, s: int, p: int, ep: int) {
    && !InSet(if s == 0 then NUL else At(m.src, s - 1), m.pat, p, ep - 1)
    && InSet(At(m.src, s), m.pat, p, ep - 1)
  }

  /** The end of the balanced string at `s`, if there is one. */
  ghost function Balanced(m: Subject, s: int, p: int): (r: Option<int>)
    ensures r.Some? ==> At(m.src, s) == At(m.pat, p) && BalancedAt(m.src, s, r.value, At(m.pat, p), At(m.pat, p + 1))
    ensures r.None? ==> At(m.src, s) != At(m.pat, p) || NeverBalanced(m.src, s, At(m.pat, p), At(m.pat, p + 1))
  {
    if At(m.src, s) == At(m.pat, p) && !NeverBalanced(m.src, s, At(m.pat, p), At(m.pat, p + 1))
    then var e :| BalancedAt(m.src, s, e, At(m.pat, p), At(m.pat, p + 1)); Some(e)
    else None
  }

  predicate IsItem(pat: string, p: int) {
    match At(pat, p)
    case '(' => false
    case ')' => false
    case '$' => p + 1 != |pat|
    case '%' => At(pat, p + 1) != 'b' && At(pat, p + 1) != 'f' && !IsDigit(At(pat, p + 1))
    case _ => true
  }

  /** All matches of the pattern from `p` on at position `s` of the subject. */
  ghost function Ways(m: Subject, s: int, p: int, caps: seq<Capture>): seq<Way>
    requires 0 <= s <= |m.src| && 0 <= p <= |m.pat|
    decreases |m.pat| - p, 2
  {
    if p == |m.pat| then [Found(s, caps)]
    else if IsItem(m.pat, p) then ItemWays(m, s, p, caps)
    else match m.pat[p]
      case '(' =>
        if |caps| >= MAXCAPTURES then [Broken("too many captures")]
        else if At(m.pat, p + 1) == ')' then Ways(m, s, p + 2, caps + [Capture(s, POSITION)])
        else Ways(m, s, p + 1, caps + [Capture(s, UNFINISHED)])
      case ')' =>
        var l := ToClose(caps);
        if l < 0 then [Broken("invalid pattern capture")]
        else Ways(m, s, p + 1, caps[l := Capture(caps[l].init, s - caps[l].init)])
      case '$' => if s == |m.src| then [Found(s, caps)] else []
      case _ =>
        var k := At(m.pat, p + 1);
        if k == 'b' then
          if p + 2 >= |m.pat| - 1 then [Broken("malformed pattern (missing arguments to '%b')")]
          else
            var e := Balanced(m, s, p + 2);
            if e.Some? then Ways(m, e.value, p + 4, caps) else []
        else if k == 'f' then
          if At(m.pat, p + 2) != '[' then [Broken("missing '[' after '%f' in pattern")]
          else
            match ItemEnd(m.pat, p + 2)
            case Fault(msg) => [Broken(msg)]
            case Ok(ep) => if Frontier(m, s, p + 2, ep) then Ways(m, s, ep, caps) else []
        else
          var l := k as int - '1' as int;
          if l < 0 || l >= |caps| || caps[l].len == UNFINISHED then [Broken("invalid capture index")]
          else if Repeats(m.src, caps[l], s) then Ways(m, s + caps[l].len, p + 2, caps)
          else []
  }

  /** A single-character item with its suffix: `?` and `*` and `+` prefer more, `-` prefers less. */
  ghost function ItemWays(m: Subject, s: int, p: int, caps: seq<Capture>): seq<Way>
    requires 0 <= s <= |m.src| && 0 <= p < |m.pat|
    decreases |m.pat| - p, 1
  {
    match ItemEnd(m.pat, p)
    case Fault(msg) => [Broken(msg)]
    case Ok(ep) =>
      var once := Single(m.src, m.pat, s, p, ep);
      match At(m.pat, ep)
      case '?' => (if once then Ways(m, s + 1, ep + 1, caps) else []) + Ways(m, s, ep + 1, caps)
      case '*' => More(m, s, RunLength(m, s, p, ep), p, ep, caps)
      case '+' => if once then More(m, s + 1, RunLength(m, s + 1, p, ep), p, ep, caps) else []
      case '-' => Fewer(m, s, p, ep, caps)
      case _ => if once then Ways(m, s + 1, ep, caps) else []
  }

  /** Repetitions of the item at `s`: `n` of them first, then one less each time. */
  ghost function More(m: Subject, s: int, n: int, p: int, ep: int, caps: seq<Capture>): seq<Way>
    requires 0 <= s && s + n <= |m.src| && 0 <= p < ep < |m.pat|
    decreases |m.pat| - p, 0, if n < 0 then 0 else n + 1
  {
    if n < 0 then [] else Ways(m, s + n, ep + 1, caps) + More(m, s, n - 1, p, ep, caps)
  }

  /** Repetitions of the item at `s`: none first, then one more each time. */
  ghost function Fewer(m: Subject, s: int, p: int, ep: int, caps: seq<Capture>): seq<Way>
    requires 0 <= s <= |m.src| && 0 <= p < ep < |m.pat|
    decreases |m.pat| - p, 0, |m.src| - s
  {
    Ways(m, s, ep + 1, caps) + if Single(m.src, m.pat, s, p, ep) then Fewer(m, s + 1, p, ep, caps) else []
  }

  /** The ways of an item, by its suffix. */
  lemma Suffixes(m: Subject, s: int, p: int, ep: int, caps: seq<Capture>)
    requires 0 <= s <= |m.src| && 0 <= p < |m.pat| && ItemEnd(m.pat, p) == Ok(ep) && IsItem(m.pat, p)
    ensures var once, c := Single(m.src, m.pat, s, p, ep), At(m.pat, ep);
            && Ways(m, s, p, caps) == ItemWays(m, s, p, caps)
            && (!once && (c == '*' || c == '?' || c == '-') ==> Ways(m, s, p, caps) == Ways(m, s, ep + 1, caps))
            && (once && c == '?' ==> Ways(m, s, p, caps) == Ways(m, s + 1, ep + 1, caps) + Ways(m, s, ep + 1, caps))
  {
    var c := At(m.pat, ep);
    if c == '*' && !Single(m.src, m.pat, s, p, ep) {
      assert RunLength(m, s, p, ep) == 0 && More(m, s, -1, p, ep, caps) == [];
      assert More(m, s, 0, p, ep, caps) == Ways(m, s + 0, ep + 1, caps) + More(m, s, -1, p, ep, caps);
    }
  }
}
