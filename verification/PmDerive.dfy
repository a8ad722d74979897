/** Matching as a relation, and which of its matches is preferred. */
module PmDerive {
  import opened PmPattern
  import opened PmMeaning

  /** The item matches each of the characters from `s` to just before `t`. */
  ghost predicate Reps(m: Subject, s: int, t: int, p: int, ep: int) {
    s <= t <= |m.src| && forall j | s <= j < t :: Single(m.src, m.pat, j, p, ep)
  }

  predicate IsSuffix(c: char) { c == '?' || c == '*' || c == '+' || c == '-' }

  predicate Times(c: char, i: int) {
    match c
    case '?' => i <= 1
    case '*' => true
    case '-' => true
    case '+' => i >= 1
    case _ => i == 1
  }

  function After(pat: string, ep: int): int { if IsSuffix(At(pat, ep)) then ep + 1 else ep }

  /** Where a capture, an anchor, a balanced string, a frontier or a back reference leads to. */
  datatype Step = Then(s: int, p: int, caps: seq<Capture>) | Only(w: Way) | Nothing

  ghost function Next(m: Subject, s: int, p: int, caps: seq<Capture>): (r: Step)
    requires 0 <= s <= |m.src| && 0 <= p < |m.pat| && !IsItem(m.pat, p)
    ensures r.Then? ==> s <= r.s <= |m.src| && p < r.p <= |m.pat|
  {
    match m.pat[p]
    case '(' =>
      if |caps| >= MAXCAPTURES then Only(Broken("too many captures"))
      else if At(m.pat, p + 1) == ')' then Then(s, p + 2, caps + [Capture(s, POSITION)])
      else Then(s, p + 1, caps + [Capture(s, UNFINISHED)])
    case ')' =>
      var l := ToClose(caps);
      if l < 0 then Only(Broken("invalid pattern capture"))
      else Then(s, p + 1, caps[l := Capture(caps[l].init, s - caps[l].init)])
    case '$' => if s == |m.src| then Only(Found(s, caps)) else Nothing
    case _ => NextEscape(m, s, p, caps)
  }

  ghost function NextEscape(m: Subject, s: int, p: int, caps: seq<Capture>): (r: Step)
    requires 0 <= s <= |m.src| && 0 <= p < |m.pat| && !IsItem(m.pat, p) && m.pat[p] == ESC
    ensures r.Then? ==> s <= r.s <= |m.src| && p < r.p <= |m.pat|
  {
    var k := At(m.pat, p + 1);
    if k == 'b' then
      if p + 3 >= |m.pat| then Only(Broken("malformed pattern (missing arguments to '%b')"))
      else
        var e := Balanced(m, s, p + 2);
        if e.Some? then Then(e.value, p + 4, caps) else Nothing
    else if k == 'f' then
      if At(m.pat, p + 2) != '[' then Only(Broken("missing '[' after '%f' in pattern"))
      else
        match ItemEnd(m.pat, p + 2)
        case Fault(msg) => Only(Broken(msg))
        case Ok(ep) => if Frontier(m, s, p + 2, ep) then Then(s, ep, caps) else Nothing
    else
      var l := k as int - '1' as int;
      if l < 0 || l >= |caps| || caps[l].len == UNFINISHED then Only(Broken("invalid capture index"))
      else if Repeats(m.src, caps[l], s) then Then(s + caps[l].len, p + 2, caps)
      else Nothing
  }

  /** The item is repeated some number of times that its suffix allows, and the rest goes on after that. */
  ghost predicate ItemDerives(m: Subject, s: int, p: int, ep: int, caps: seq<Capture>, w: Way)
    requires 0 <= s <= |m.src| && 0 <= p < ep <= |m.pat|
    decreases |m.pat| - p, 0
  {
    exists t: int :: Reps(m, s, t, p, ep) && Times(At(m.pat, ep), t - s) && Derives(m, t, After(m.pat, ep), caps, w)
  }

  /** The pattern from `p` on can match the subject from `s` on up to the end of `w` and leave its captures,
      or can meet the error `w`. */
  ghost predicate Derives(m: Subject, s: int, p: int, caps: seq<Capture>, w: Way)
    requires 0 <= s <= |m.src| && 0 <= p <= |m.pat|
    decreases |m.pat| - p, 1
  {
    if p == |m.pat| then w == Found(s, caps)
    else if IsItem(m.pat, p) then
      match ItemEnd(m.pat, p)
      case Fault(msg) => w == Broken(msg)
      case Ok(ep) => ItemDerives(m, s, p, ep, caps, w)
    else
      match Next(m, s, p, caps)
      case Then(t, q, c) => Derives(m, t, q, c, w)
      case Only(v) => w == v
      case Nothing => false
  }

  /** No match and no error either. */
  ghost predicate Barren(m: Subject, s: int, p: int, caps: seq<Capture>)
    requires 0 <= s <= |m.src| && 0 <= p <= |m.pat|
  {
    forall w :: !Derives(m, s, p, caps, w)
  }

  // ---------- which match is preferred ----------

  /** The end `t` of the repetitions is tried before `u`: more of them come first, or less after `-`. */
  predicate Sooner(c: char, t: int, u: int) { if c == '-' then t < u else t > u }

  /** None of the ends that are tried before `u` leads anywhere. */
  ghost predicate NoneSooner(m: Subject, s: int, u: int, p: int, ep: int, caps: seq<Capture>)
    requires 0 <= s <= |m.src| && 0 <= p < ep <= |m.pat|
  {
    forall t | Reps(m, s, t, p, ep) && Times(At(m.pat, ep), t - s) && Sooner(At(m.pat, ep), t, u) ::
      Barren(m, t, After(m.pat, ep), caps)
  }

  ghost predicate ItemBest(m: Subject, s: int, p: int, ep: int, caps: seq<Capture>, w: Way)
    requires 0 <= s <= |m.src| && 0 <= p < ep <= |m.pat|
    decreases |m.pat| - p, 0
  {
    exists t: int ::
      && Reps(m, s, t, p, ep) && Times(At(m.pat, ep), t - s) && Best(m, t, After(m.pat, ep), caps, w)
      && NoneSooner(m, s, t, p, ep, caps)
  }

  /** The way that is preferred: each item is repeated as often as its suffix allows, or as seldom after `-`,
      such that what follows leads anywhere. */
  ghost predicate Best(m: Subject, s: int, p: int, caps: seq<Capture>, w: Way)
    requires 0 <= s <= |m.src| && 0 <= p <= |m.pat|
    decreases |m.pat| - p, 1
  {
    if p == |m.pat| then w == Found(s, caps)
    else if IsItem(m.pat, p) then
      match ItemEnd(m.pat, p)
      case Fault(msg) => w == Broken(msg)
      case Ok(ep) => ItemBest(m, s, p, ep, caps, w)
    else
      match Next(m, s, p, caps)
      case Then(t, q, c) => Best(m, t, q, c, w)
      case Only(v) => w == v
      case Nothing => false
  }

  lemma {:induction false} BestDerives(m: Subject, s: int, p: int, caps: seq<Capture>, w: Way)
    requires 0 <= s <= |m.src| && 0 <= p <= |m.pat| && Best(m, s, p, caps, w)
    ensures Derives(m, s, p, caps, w)
    decreases |m.pat| - p
  {
    hide Single, Balanced, Frontier, ItemEnd, Next;
    if p < |m.pat| {
      if IsItem(m.pat, p) {
        if ItemEnd(m.pat, p).Ok? {
          var ep := ItemEnd(m.pat, p).value;
          var t :| Reps(m, s, t, p, ep) && Times(At(m.pat, ep), t - s) && Best(m, t, After(m.pat, ep), caps, w);
          BestDerives(m, t, After(m.pat, ep), caps, w);
        }
      } else if Next(m, s, p, caps).Then? {
        var n := Next(m, s, p, caps);
        BestDerives(m, n.s, n.p, n.caps, w);
      }
    }
  }

  /** There is at most one preferred way. */
  lemma {:induction false} OneBest(m: Subject, s: int, p: int, caps: seq<Capture>, v: Way, w: Way)
    requires 0 <= s <= |m.src| && 0 <= p <= |m.pat| && Best(m, s, p, caps, v) && Best(m, s, p, caps, w)
    ensures v == w
    decreases |m.pat| - p
  {
    hide Single, Balanced, Frontier, ItemEnd, Next, Derives;
    if p < |m.pat| {
      if IsItem(m.pat, p) {
        if ItemEnd(m.pat, p).Ok? {
          var ep := ItemEnd(m.pat, p).value;
          var q, c := After(m.pat, ep), At(m.pat, ep);
          var t :| Reps(m, s, t, p, ep) && Times(c, t - s) && Best(m, t, q, caps, v)
              && NoneSooner(m, s, t, p, ep, caps);
          var u :| Reps(m, s, u, p, ep) && Times(c, u - s) && Best(m, u, q, caps, w)
              && NoneSooner(m, s, u, p, ep, caps);
          BestDerives(m, t, q, caps, v);
          BestDerives(m, u, q, caps, w);
          assert !Barren(m, t, q, caps) && !Barren(m, u, q, caps);
          assert !Sooner(c, t, u) && !Sooner(c, u, t);
          OneBest(m, t, q, caps, v, w);
        }
      } else if Next(m, s, p, caps).Then? {
        var n := Next(m, s, p, caps);
        OneBest(m, n.s, n.p, n.caps, v, w);
      }
    }
  }

  // ---------- where matches and captures lie ----------

  /** Every capture starts and ends between two positions. */
  ghost predicate Inside(caps: seq<Capture>, lo: int, hi: int) {
    lo <= hi && forall i | 0 <= i < |caps| :: lo <= caps[i].init && caps[i].init + Max(caps[i].len, 0) <= hi
  }

  function Max(a: int, b: int): int { if a < b then b else a }

  lemma InsideMore(caps: seq<Capture>, lo: int, hi: int, hi': int)
    requires Inside(caps, lo, hi) && hi <= hi'
    ensures Inside(caps, lo, hi')
  {
  }

  /** A capture that is opened is the last one; one that is closed ends here. */
  lemma NextInside(m: Subject, s: int, p: int, caps: seq<Capture>, lo: int)
    requires 0 <= s <= |m.src| && 0 <= p < |m.pat| && !IsItem(m.pat, p) && Inside(caps, lo, s)
    ensures match Next(m, s, p, caps)
            case Then(t, _, c) => s <= t && Inside(c, lo, t) && |caps| <= |c|
            case Only(w) => w.Found? ==> w.e == s && w.caps == caps
            case Nothing => true
  {
    hide Single, ItemEnd, Frontier, Balanced;
    InsideNext(m, s, p, caps, lo);
  }

  lemma InsideNext(m: Subject, s: int, p: int, caps: seq<Capture>, lo: int)
    requires 0 <= s <= |m.src| && 0 <= p < |m.pat| && !IsItem(m.pat, p) && Inside(caps, lo, s)
    ensures Next(m, s, p, caps).Then? ==>
              Inside(Next(m, s, p, caps).caps, lo, Next(m, s, p, caps).s)
  {
    hide Single, ItemEnd, Frontier, Balanced;
    if Next(m, s, p, caps).Then? {
      var c := Next(m, s, p, caps).caps;
      forall i | 0 <= i < |c|
        ensures lo <= c[i].init && c[i].init + Max(c[i].len, 0) <= Next(m, s, p, caps).s
      {
      }
    }
  }

  /** A match goes forward, keeps the captures that there are, and its captures lie within it. */
  lemma {:induction false} MatchInside(m: Subject, s: int, p: int, caps: seq<Capture>, w: Way, lo: int)
    requires 0 <= s <= |m.src| && 0 <= p <= |m.pat| && Derives(m, s, p, caps, w) && w.Found? && Inside(caps, lo, s)
    ensures s <= w.e <= |m.src| && Inside(w.caps, lo, w.e) && |caps| <= |w.caps|
    decreases |m.pat| - p
  {
    hide Single, ItemEnd, Next, Inside;
    if p < |m.pat| {
      if IsItem(m.pat, p) {
        var ep := ItemEnd(m.pat, p).value;
        var t :| Reps(m, s, t, p, ep) && Derives(m, t, After(m.pat, ep), caps, w);
        InsideMore(caps, lo, s, t);
        MatchInside(m, t, After(m.pat, ep), caps, w, lo);
      } else {
        NextInside(m, s, p, caps, lo);
        var n := Next(m, s, p, caps);
        if n.Then? { MatchInside(m, n.s, n.p, n.caps, w, lo); }
      }
    }
  }

  // ---------- the ways ----------

  lemma {:induction false} RunIsMost(m: Subject, s: int, t: int, p: int, ep: int)
    requires 0 <= s <= |m.src|
    ensures Reps(m, s, t, p, ep) <==> s <= t <= s + RunLength(m, s, p, ep)
    decreases |m.src| - s
  {
    if Single(m.src, m.pat, s, p, ep) && t > s { RunIsMost(m, s + 1, t, p, ep); }
  }

  /** The way starts at one of the positions from `s` to `n`. */
  ghost predicate From(m: Subject, s: int, n: int, p: int, caps: seq<Capture>, w: Way)
    requires 0 <= s && n <= |m.src| && 0 <= p <= |m.pat|
  {
    exists t :: s <= t <= n && w in Ways(m, t, p, caps)
  }

  lemma FromFirst(m: Subject, s: int, n: int, q: int, caps: seq<Capture>, w: Way)
    requires 0 <= s && n <= |m.src| && 0 <= q <= |m.pat|
    ensures From(m, s, n, q, caps, w) <==> s <= n && (w in Ways(m, s, q, caps) || From(m, s + 1, n, q, caps, w))
  {
    hide Ways;
  }

  lemma {:induction false} InMore(m: Subject, s: int, n: int, p: int, ep: int, caps: seq<Capture>, w: Way)
    requires 0 <= s && s + n <= |m.src| && 0 <= p < ep < |m.pat|
    ensures w in More(m, s, n, p, ep, caps) <==> From(m, s, s + n, ep + 1, caps, w)
    decreases n
  {
    if n >= 0 { InMore(m, s, n - 1, p, ep, caps, w); }
  }

  lemma {:induction false} InFewer(m: Subject, s: int, p: int, ep: int, caps: seq<Capture>, w: Way)
    requires 0 <= s <= |m.src| && 0 <= p < ep < |m.pat|
    ensures w in Fewer(m, s, p, ep, caps) <==> From(m, s, s + RunLength(m, s, p, ep), ep + 1, caps, w)
    decreases |m.src| - s
  {
    hide Ways, From, InSet, MatchClass;
    FromFirst(m, s, s + RunLength(m, s, p, ep), ep + 1, caps, w);
    if Single(m.src, m.pat, s, p, ep) {
      InFewer(m, s + 1, p, ep, caps, w);
    } else {
      FromFirst(m, s + 1, s, ep + 1, caps, w);
    }
  }

  /** The ways of an item are those of what follows it, after as many repetitions as its suffix allows. */
  lemma InItem(m: Subject, s: int, p: int, ep: int, caps: seq<Capture>, w: Way)
    requires 0 <= s <= |m.src| && 0 <= p < |m.pat| && ItemEnd(m.pat, p) == Ok(ep)
    ensures w in ItemWays(m, s, p, caps) <==>
              exists t :: Reps(m, s, t, p, ep) && Times(At(m.pat, ep), t - s) && w in Ways(m, t, After(m.pat, ep), caps)
  {
    hide InSet, MatchClass, ItemEnd;
    var n, q, times := RunLength(m, s, p, ep), After(m.pat, ep), At(m.pat, ep);
    forall t ensures Reps(m, s, t, p, ep) <==> s <= t <= s + n { RunIsMost(m, s, t, p, ep); }
    match times {
      case '*' => InMore(m, s, n, p, ep, caps, w);
      case '-' => InFewer(m, s, p, ep, caps, w);
      case '+' => if n > 0 { InMore(m, s + 1, n - 1, p, ep, caps, w); }
      case _ =>
    }
    forall t | s <= t <= s + n && Times(times, t - s) && w in Ways(m, t, q, caps)
      ensures Reps(m, s, t, p, ep)
    {
    }
  }

  /** The ways of what is no item. */
  lemma SpecialWays(m: Subject, s: int, p: int, caps: seq<Capture>)
    requires 0 <= s <= |m.src| && 0 <= p < |m.pat| && !IsItem(m.pat, p)
    ensures match Next(m, s, p, caps)
            case Then(t, q, c) => Ways(m, s, p, caps) == Ways(m, t, q, c)
            case Only(w) => Ways(m, s, p, caps) == [w]
            case Nothing => Ways(m, s, p, caps) == []
  {
    hide Single, Frontier, ItemEnd, Repeats, Balanced, ToClose;
  }

  /** The ways are exactly the matches and the errors that the pattern can lead to. */
  lemma {:induction false} WaysAreMatches(m: Subject, s: int, p: int, caps: seq<Capture>, w: Way)
    requires 0 <= s <= |m.src| && 0 <= p <= |m.pat|
    ensures w in Ways(m, s, p, caps) <==> Derives(m, s, p, caps, w)
    decreases |m.pat| - p
  {
    hide Single, Next, ItemEnd;
    if p < |m.pat| {
      if IsItem(m.pat, p) {
        if ItemEnd(m.pat, p).Ok? {
          var ep := ItemEnd(m.pat, p).value;
          InItem(m, s, p, ep, caps, w);
          forall t | 0 <= t <= |m.src|
            ensures w in Ways(m, t, After(m.pat, ep), caps) <==> Derives(m, t, After(m.pat, ep), caps, w)
          {
            WaysAreMatches(m, t, After(m.pat, ep), caps, w);
          }
        }
      } else {
        SpecialWays(m, s, p, caps);
        if Next(m, s, p, caps).Then? {
          var n := Next(m, s, p, caps);
          WaysAreMatches(m, n.s, n.p, n.caps, w);
        }
      }
    }
  }

  lemma NoWays(m: Subject, s: int, p: int, caps: seq<Capture>)
    requires 0 <= s <= |m.src| && 0 <= p <= |m.pat|
    ensures Ways(m, s, p, caps) == [] <==> Barren(m, s, p, caps)
  {
    hide Ways, Derives;
    forall w ensures w in Ways(m, s, p, caps) <==> Derives(m, s, p, caps, w) { WaysAreMatches(m, s, p, caps, w); }
    if Ways(m, s, p, caps) != [] { assert Ways(m, s, p, caps)[0] in Ways(m, s, p, caps); }
  }

  /** The first way is the first of those that start at `t`. */
  ghost predicate FirstFrom(m: Subject, t: int, q: int, caps: seq<Capture>, w: Way)
    requires 0 <= t <= |m.src| && 0 <= q <= |m.pat|
  {
    Ways(m, t, q, caps) != [] && Ways(m, t, q, caps)[0] == w
  }

  ghost predicate NoneFrom(m: Subject, lo: int, hi: int, q: int, caps: seq<Capture>)
    requires 0 <= lo && hi <= |m.src| && 0 <= q <= |m.pat|
  {
    forall u | lo <= u <= hi :: Ways(m, u, q, caps) == []
  }

  /** The first of the ways with fewer and fewer repetitions has the most repetitions with which there is a way. */
  lemma {:induction false} FirstMore(m: Subject, s: int, n: int, p: int, ep: int, caps: seq<Capture>) returns (t: int)
    requires 0 <= s && s + n <= |m.src| && 0 <= p < ep < |m.pat| && More(m, s, n, p, ep, caps) != []
    ensures s <= t <= s + n && FirstFrom(m, t, ep + 1, caps, More(m, s, n, p, ep, caps)[0])
    ensures NoneFrom(m, t + 1, s + n, ep + 1, caps)
    decreases n
  {
    hide Ways;
    if Ways(m, s + n, ep + 1, caps) != [] {
      t := s + n;
    } else {
      assert More(m, s, n, p, ep, caps) == More(m, s, n - 1, p, ep, caps);
      t := FirstMore(m, s, n - 1, p, ep, caps);
    }
  }

  /** The first of the ways with more and more repetitions has the fewest. */
  lemma {:induction false} FirstFewer(m: Subject, s: int, p: int, ep: int, caps: seq<Capture>) returns (t: int)
    requires 0 <= s <= |m.src| && 0 <= p < ep < |m.pat| && Fewer(m, s, p, ep, caps) != []
    ensures s <= t <= s + RunLength(m, s, p, ep) && FirstFrom(m, t, ep + 1, caps, Fewer(m, s, p, ep, caps)[0])
    ensures NoneFrom(m, s, t - 1, ep + 1, caps)
    decreases |m.src| - s
  {
    hide Ways, InSet, MatchClass;
    if Ways(m, s, ep + 1, caps) != [] {
      t := s;
    } else {
      assert Fewer(m, s, p, ep, caps) == Fewer(m, s + 1, p, ep, caps);
      t := FirstFewer(m, s + 1, p, ep, caps);
    }
  }

  /** The first way of an item has the most repetitions, or the fewest after `-`, with which there is a way. */
  lemma FirstItem(m: Subject, s: int, p: int, ep: int, caps: seq<Capture>) returns (t: int)
    requires 0 <= s <= |m.src| && 0 <= p < |m.pat| && ItemEnd(m.pat, p) == Ok(ep) && ItemWays(m, s, p, caps) != []
    ensures Reps(m, s, t, p, ep) && Times(At(m.pat, ep), t - s)
    ensures FirstFrom(m, t, After(m.pat, ep), caps, ItemWays(m, s, p, caps)[0])
    ensures forall u | Reps(m, s, u, p, ep) && Times(At(m.pat, ep), u - s) && Sooner(At(m.pat, ep), u, t) ::
              Ways(m, u, After(m.pat, ep), caps) == []
  {
    hide Ways, InSet, MatchClass, ItemEnd;
    var n := RunLength(m, s, p, ep);
    forall u ensures Reps(m, s, u, p, ep) <==> s <= u <= s + n { RunIsMost(m, s, u, p, ep); }
    match At(m.pat, ep) {
      case '*' => t := FirstMore(m, s, n, p, ep, caps);
      case '-' => t := FirstFewer(m, s, p, ep, caps);
      case '+' => t := FirstMore(m, s + 1, n - 1, p, ep, caps);
      case '?' => t := if n > 0 && Ways(m, s + 1, ep + 1, caps) != [] then s + 1 else s;
      case _ => t := s + 1;
    }
  }

  /** The first way is the preferred one, and if there is none the pattern leads nowhere. */
  lemma {:induction false} FirstWay(m: Subject, s: int, p: int, caps: seq<Capture>)
    requires 0 <= s <= |m.src| && 0 <= p <= |m.pat|
    ensures Ways(m, s, p, caps) != [] ==> Best(m, s, p, caps, Ways(m, s, p, caps)[0])
    ensures Ways(m, s, p, caps) == [] <==> Barren(m, s, p, caps)
    decreases |m.pat| - p
  {
    hide Single, Next, ItemEnd, Derives, Barren;
    NoWays(m, s, p, caps);
    if p < |m.pat| && Ways(m, s, p, caps) != [] {
      if IsItem(m.pat, p) {
        if ItemEnd(m.pat, p).Ok? {
          var ep := ItemEnd(m.pat, p).value;
          var t := FirstItem(m, s, p, ep, caps);
          FirstWay(m, t, After(m.pat, ep), caps);
          forall u | 0 <= u <= |m.src| ensures Ways(m, u, After(m.pat, ep), caps) == [] <==>
                                               Barren(m, u, After(m.pat, ep), caps)
          {
            NoWays(m, u, After(m.pat, ep), caps);
          }
        }
      } else {
        SpecialWays(m, s, p, caps);
        if Next(m, s, p, caps).Then? {
          var n := Next(m, s, p, caps);
          FirstWay(m, n.s, n.p, n.caps);
        }
      }
    }
  }
}
