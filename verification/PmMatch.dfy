/** The backtracking matcher. */
module PmMatch {
  import opened PmPattern
  import opened PmDerive
  import opened PmMeaning

  const MAXCCALLS: nat := 200

  /** No match, a match up to `e`, or an error. */
  datatype Outcome = Fail | Hit(e: int) | Raise(msg: string)

  const TOO_COMPLEX: string := "pattern too complex"

  /** The outcome is the preferred match or error, and the pattern fails only if it leads to none; or else
      the patterns are nested too deeply. */
  ghost predicate Decides(m: Subject, s: int, p: int, caps: seq<Capture>, deep: bool, r: Outcome, c: seq<Capture>)
    requires 0 <= s <= |m.src| && 0 <= p <= |m.pat|
  {
    match r
    case Fail => Barren(m, s, p, caps)
    case Hit(e) => Best(m, s, p, caps, Found(e, c))
    case Raise(msg) => Best(m, s, p, caps, Broken(msg)) || (deep && msg == TOO_COMPLEX)
  }

  class MatchState {
    const m: Subject
    var matchdepth: int
    var level: nat
    const capture: array<Capture>

    constructor (m: Subject)
      ensures this.m == m && matchdepth == MAXCCALLS && level == 0 && capture.Length == MAXCAPTURES && fresh(capture)
    {
      this.m, matchdepth, level := m, MAXCCALLS, 0;
      capture := new Capture[MAXCAPTURES](_ => Capture(0, UNFINISHED));
    }

    ghost predicate Valid()
      reads this
    {
      capture.Length == MAXCAPTURES && level <= MAXCAPTURES
    }

    ghost function Caps(): seq<Capture>
      requires Valid()
      reads this, capture
    {
      capture[..level]
    }

    /** The outcome is the first of the ways, and the captures are those of that way, or as before;
        or else the patterns are nested too deeply. */
    ghost predicate Takes(ways: seq<Way>, caps: seq<Capture>, depth: int, deep: bool, r: Outcome)
      requires Valid()
      reads this, capture
    {
      match r
      case Fail => ways == [] && Caps() == caps && matchdepth == depth
      case Hit(e) => ways != [] && ways[0] == Found(e, Caps()) && matchdepth == depth && 0 <= e <= |m.src|
      case Raise(msg) => (ways != [] && ways[0] == Broken(msg)) || (deep && msg == TOO_COMPLEX)
    }

    method MaxExpand(s: int, p: int, ep: int) returns (r: Outcome)
      requires Valid() && 0 <= s <= |m.src| && 0 <= p < ep < |m.pat|
      modifies this, capture
      ensures Valid()
      ensures Takes(More(m, s, RunLength(m, s, p, ep), p, ep, old(Caps())), old(Caps()), old(matchdepth),
              old(matchdepth) <= |m.pat| - p - 1, r)
      decreases |m.pat| - p, 1
    {
      var i := 0;
      ghost var caps, depth := Caps(), matchdepth;
      ghost var n := RunLength(m, s, p, ep);
      while true
        invariant 0 <= i && s + i <= |m.src| && n == i + RunLength(m, s + i, p, ep)
        invariant Valid() && Caps() == caps && matchdepth == depth
        decreases |m.src| - i
      {
        var b := SingleMatch(m.src, m.pat, s + i, p, ep);
        if !b {
          break;
        }
        i := i + 1;
      }
      assert i == n;
      while i >= 0
        invariant -1 <= i && s + i <= |m.src| && Valid() && Caps() == caps && matchdepth == depth
        invariant More(m, s, n, p, ep, caps) == More(m, s, i, p, ep, caps)
      {
        r := Match(s + i, ep + 1);
        if !r.Fail? {
          return;
        }
        i := i - 1;
      }
      return Fail;
    }

    method MinExpand(s0: int, p: int, ep: int) returns (r: Outcome)
      requires Valid() && 0 <= s0 <= |m.src| && 0 <= p < ep < |m.pat|
      modifies this, capture
      ensures Valid()
      ensures Takes(Fewer(m, s0, p, ep, old(Caps())), old(Caps()), old(matchdepth), old(matchdepth) <= |m.pat| - p - 1,
              r)
      decreases |m.pat| - p, 1
    {
      var s := s0;
      ghost var caps, depth := Caps(), matchdepth;
      while true
        invariant 0 <= s <= |m.src| && Valid() && Caps() == caps && matchdepth == depth
        invariant Fewer(m, s0, p, ep, caps) == Fewer(m, s, p, ep, caps)
        decreases |m.src| - s
      {
        r := Match(s, ep + 1);
        if !r.Fail? {
          return;
        }
        var b := SingleMatch(m.src, m.pat, s, p, ep);
        if !b {
          return Fail;
        }
        s := s + 1;
      }
    }

    /** Opens a capture, and closes it again if the rest does not match. */
    method StartCapture(s: int, p: int, what: int) returns (r: Outcome)
      requires Valid() && 0 <= s <= |m.src| && 0 < p <= |m.pat| && (what == POSITION || what == UNFINISHED)
      modifies this, capture
      ensures Valid()
      ensures Takes(if |old(Caps())| >= MAXCAPTURES then [Broken("too many captures")]
              else Ways(m, s, p, old(Caps()) + [Capture(s, what)]),
                    old(Caps()), old(matchdepth), old(matchdepth) <= |m.pat| - p, r)
      decreases |m.pat| - p, 5
    {
      if level >= MAXCAPTURES {
        return Raise("too many captures");
      }
      ghost var caps := Caps();
      capture[level] := Capture(s, what);
      level := level + 1;
      assert Caps() == caps + [Capture(s, what)];
      r := Match(s, p);
      if r.Fail? {
        level := level - 1;
        assert Caps() == (caps + [Capture(s, what)])[..|caps|];
      }
    }

    method CaptureToClose() returns (l: int)
      requires Valid()
      ensures l == ToClose(Caps())
    {
      l := level - 1;
      while l >= 0
        invariant -1 <= l < level && ToClose(Caps()) == ToClose(capture[..l + 1])
      {
        assert capture[..l + 1][..l] == capture[..l];
        if capture[l].len == UNFINISHED {
          return;
        }
        l := l - 1;
      }
    }

    /** Closes the innermost open capture, and opens it again if the rest does not match. */
    method EndCapture(s: int, p: int) returns (r: Outcome)
      requires Valid() && 0 <= s <= |m.src| && 0 < p <= |m.pat|
      modifies this, capture
      ensures Valid()
      ensures var caps, l := old(Caps()), ToClose(old(Caps()));
              Takes(if l < 0 then [Broken("invalid pattern capture")]
                  else Ways(m, s, p, caps[l := Capture(caps[l].init, s - caps[l].init)]),
                    caps, old(matchdepth), old(matchdepth) <= |m.pat| - p, r)
      decreases |m.pat| - p, 5
    {
      ghost var caps := Caps();
      var l := CaptureToClose();
      if l < 0 {
        return Raise("invalid pattern capture");
      }
      capture[l] := Capture(capture[l].init, s - capture[l].init);
      assert Caps() == caps[l := Capture(caps[l].init, s - caps[l].init)];
      r := Match(s, p);
      if r.Fail? {
        capture[l] := Capture(capture[l].init, UNFINISHED);
        assert Caps() == caps;
      }
    }

    /** Matches the pattern from `p0` on at position `s0`. */
    method Match(s0: int, p0: int) returns (r: Outcome)
      requires Valid() && 0 <= s0 <= |m.src| && 0 <= p0 <= |m.pat|
      modifies this, capture
      ensures Valid()
      ensures Takes(Ways(m, s0, p0, old(Caps())), old(Caps()), old(matchdepth), old(matchdepth) <= |m.pat| - p0, r)
      ensures Decides(m, s0, p0, old(Caps()), old(matchdepth) <= |m.pat| - p0, r, Caps())
      decreases |m.pat| - p0, 4
    {
      hide Ways, Best, Barren;
      FirstWay(m, s0, p0, Caps());
      if matchdepth == 0 {
        return Raise(TOO_COMPLEX);
      }
      matchdepth := matchdepth - 1;
      r := Init(s0, p0);
      if !r.Raise? {
        matchdepth := matchdepth + 1;
      }
    }

    /** The body of `Match`, which goes back to its start instead of calling itself last. */
    method Init(s0: int, p0: int) returns (r: Outcome)
      requires Valid() && 0 <= s0 <= |m.src| && 0 <= p0 <= |m.pat|
      modifies this, capture
      ensures Valid()
      ensures Takes(Ways(m, s0, p0, old(Caps())), old(Caps()), old(matchdepth), old(matchdepth) + 1 <= |m.pat| - p0, r)
      decreases |m.pat| - p0, 3
    {
      ghost var caps, depth := Caps(), matchdepth;
      var s, p := s0, p0;
      while p != |m.pat|
        invariant 0 <= s <= |m.src| && p0 <= p <= |m.pat| && Valid() && Caps() == caps && matchdepth == depth
        invariant Ways(m, s0, p0, caps) == Ways(m, s, p, caps)
        decreases |m.pat| - p
      {
        if IsItem(m.pat, p) {
          var go;
          r, go, s, p := Item(s, p);
          if !go {
            return;
          }
        } else {
          var go;
          r, go, s, p := Special(s, p);
          if !go {
            return;
          }
        }
      }
      return Hit(s);
    }

    /** Either the outcome, or the place from which the pattern goes on. */
    ghost predicate Steps(ways: seq<Way>, p0: int, caps: seq<Capture>, depth: int, deep: bool, r: Outcome, go: bool,
                          s: int, p: int)
      requires Valid()
      reads this, capture
    {
      if go then 0 <= s <= |m.src| && 0 <= p0 < p <= |m.pat| && Caps() == caps && matchdepth == depth
          && ways == Ways(m, s, p, caps)
      else Takes(ways, caps, depth, deep, r)
    }

    /** Captures, anchors, balanced strings, frontiers and back references. */
    method Special(s0: int, p: int) returns (r: Outcome, go: bool, s: int, next: int)
      requires Valid() && 0 <= s0 <= |m.src| && 0 <= p < |m.pat| && !IsItem(m.pat, p)
      modifies this, capture
      ensures Valid()
      ensures Steps(Ways(m, s0, p, old(Caps())), p, old(Caps()), old(matchdepth), old(matchdepth) + 1 <= |m.pat| - p,
              r, go, s, next)
      decreases |m.pat| - p, 2
    {
      r, go, s, next := Fail, false, s0, p;
      match m.pat[p] {
        case '(' =>
          if At(m.pat, p + 1) == ')' {
            r := StartCapture(s, p + 2, POSITION);
          } else {
            r := StartCapture(s, p + 1, UNFINISHED);
          }
        case ')' => r := EndCapture(s, p + 1);
        case '$' => r := if s == |m.src| then Hit(s) else Fail;
        case _ =>
          r, go, s, next := Escape(s0, p);
      }
    }

    /** A frontier: the character before is not in the set, and the next one is. */
    method AtFrontier(s: int, p: int) returns (r: Outcome, go: bool, next: int)
      requires Valid() && 0 <= s <= |m.src| && 0 <= p < |m.pat| && m.pat[p] == ESC && At(m.pat, p + 1) == 'f'
      ensures Steps(Ways(m, s, p, Caps()), p, Caps(), matchdepth, false, r, go, s, next)
    {
      hide InSet, MatchClass, Single;
      r, go, next := Fail, false, p;
      if At(m.pat, p + 2) != '[' {
        r := Raise("missing '[' after '%f' in pattern");
      } else {
        var ep := ClassEnd(m.pat, p + 2);
        if ep.Fault? {
          r := Raise(ep.msg);
        } else {
          var a := MatchBracketClass(if s == 0 then NUL else At(m.src, s - 1), m.pat, p + 2, ep.value - 1);
          var b := MatchBracketClass(At(m.src, s), m.pat, p + 2, ep.value - 1);
          if !a && b {
            go, next := true, ep.value;
          }
        }
      }
    }

    /** Balanced strings, frontiers and back references. */
    method Escape(s0: int, p: int) returns (r: Outcome, go: bool, s: int, next: int)
      requires Valid() && 0 <= s0 <= |m.src| && 0 <= p < |m.pat| && !IsItem(m.pat, p) && m.pat[p] == ESC
      ensures Steps(Ways(m, s0, p, Caps()), p, Caps(), matchdepth, false, r, go, s, next)
    {
      hide InSet, MatchClass, Single;
      r, go, s, next := Fail, false, s0, p;
      var k := At(m.pat, p + 1);
      if k == 'b' {
        var e := MatchBalance(m.src, m.pat, s, p + 2);
        if e.Fault? {
          r := Raise(e.msg);
        } else if e.value.Some? {
          go, s, next := true, e.value.value, p + 4;
        }
      } else if k == 'f' {
        r, go, next := AtFrontier(s, p);
      } else {
        var l := k as int - '1' as int;
        if l < 0 || l >= level || capture[l].len == UNFINISHED {
          r := Raise("invalid capture index");
        } else if Repeats(m.src, capture[l], s) {
          go, s, next := true, s + capture[l].len, p + 2;
        }
      }
    }

    /** A single-character item and its suffix. */
    method Item(s0: int, p: int) returns (r: Outcome, go: bool, s: int, next: int)
      requires Valid() && 0 <= s0 <= |m.src| && 0 <= p < |m.pat| && IsItem(m.pat, p)
      modifies this, capture
      ensures Valid()
      ensures Steps(Ways(m, s0, p, old(Caps())), p, old(Caps()), old(matchdepth), old(matchdepth) + 1 <= |m.pat| - p,
              r, go, s, next)
      decreases |m.pat| - p, 2
    {
      r, go, s, next := Fail, false, s0, p;
      var end := ClassEnd(m.pat, p);
      if end.Fault? {
        r := Raise(end.msg);
        return;
      }
      var ep := end.value;
      var suffix := At(m.pat, ep);
      var once := SingleMatch(m.src, m.pat, s, p, ep);
      ghost var caps := Caps();
      Suffixes(m, s, p, ep, caps);
      if !once {
        if suffix == '*' || suffix == '?' || suffix == '-' {
          go, next := true, ep + 1;
        }
      } else {
        match suffix {
          case '?' =>
            r := Match(s + 1, ep + 1);
            if r.Fail? {
              go, next := true, ep + 1;
            }
          case '+' => r := MaxExpand(s + 1, p, ep);
          case '*' => r := MaxExpand(s, p, ep);
          case '-' => r := MinExpand(s, p, ep);
          case _ => go, s, next := true, s + 1, ep;
        }
      }
    }

    /** Tries the pattern at each position from `init` on, or only there if it is anchored: the leftmost
        match that there is. */
    method Find(init: int, start: int, anchor: bool) returns (r: Outcome, at: int)
      requires Valid() && 0 <= init <= |m.src| && 0 <= start <= |m.pat| && matchdepth == MAXCCALLS
      modifies this, capture
      ensures Valid() && (!r.Raise? ==> matchdepth == MAXCCALLS)
      ensures init <= at <= |m.src| && (anchor ==> at == init) && NoMatch(m, init, at, start)
      ensures Decides(m, at, start, [], MAXCCALLS <= |m.pat| - start, r, Caps())
      ensures r.Hit? ==> at <= r.e <= |m.src| && Inside(Caps(), at, r.e)
      ensures r.Fail? ==> NoMatch(m, init, if anchor then init + 1 else |m.src| + 1, start)
    {
      hide Ways, Best, Barren, NoMatch;
      NoneYet(m, init, start);
      at := init;
      while true
        invariant Valid() && init <= at <= |m.src| && matchdepth == MAXCCALLS && (anchor ==> at == init)
        invariant NoMatch(m, init, at, start)
        decreases |m.src| - at
      {
        level := 0;
        r := Match(at, start);
        OneMore(m, init, at, start);
        if !r.Fail? {
          if r.Hit? { HitInside(m, at, start, r.e, Caps()); }
          return;
        }
        if at >= |m.src| || anchor {
          return;
        }
        at := at + 1;
      }
    }
  }

  /** Neither a match nor an error comes from the positions from `init` to just before `to`. */
  ghost predicate NoMatch(m: Subject, init: int, to: int, start: int)
    requires 0 <= init && to <= |m.src| + 1 && 0 <= start <= |m.pat|
  {
    forall s | init <= s < to :: Barren(m, s, start, [])
  }

  /** What is found lies between where the match starts and where it ends. */
  lemma HitInside(m: Subject, at: int, start: int, e: int, caps: seq<Capture>)
    requires 0 <= at <= |m.src| && 0 <= start <= |m.pat| && Best(m, at, start, [], Found(e, caps))
    ensures at <= e <= |m.src| && Inside(caps, at, e)
  {
    BestDerives(m, at, start, [], Found(e, caps));
    MatchInside(m, at, start, [], Found(e, caps), at);
  }

  lemma NoneYet(m: Subject, init: int, start: int)
    requires 0 <= init <= |m.src| && 0 <= start <= |m.pat|
    ensures NoMatch(m, init, init, start)
  {
  }

  lemma OneMore(m: Subject, init: int, at: int, start: int)
    requires 0 <= init <= at <= |m.src| && 0 <= start <= |m.pat| && NoMatch(m, init, at, start)
    ensures Barren(m, at, start, []) ==> NoMatch(m, init, at + 1, start)
  {
  }
}
