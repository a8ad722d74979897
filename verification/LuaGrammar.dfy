/** The tokens of an expression, operator priorities, and the trees they group tokens into. */
module LuaGrammar {
  import opened LuaVm
  import opened LuaExpr

  datatype Token =
    | TNil | TTrue | TFalse
    | TStr(s: string) | TNum(n: real)
    | TLocal(r: int) | TUpval(i: int)
    | TOpen | TClose
    | TNot | TMinus | TSharp
    | TBin(op: BinOpr)

  datatype Option<+T> = None | Some(value: T)

  function UnOf(t: Token): Option<UnOpr> {
    match t
    case TNot => Some(Not)
    case TMinus => Some(Minus)
    case TSharp => Some(UnOpr.Length)
    case _ => None
  }

  function BinOf(t: Token): Option<BinOpr> {
    match t
    case TMinus => Some(Ari(OpSub))
    case TBin(op) => if op == Ari(OpSub) || op == Ari(OpUnm) then None else Some(op)
    case _ => None
  }

  const UNARY_PRIORITY := 8

  function Left(op: BinOpr): int {
    match op
    case Ari(OpAdd) => 6
    case Ari(OpSub) => 6
    case Ari(OpPow) => 10
    case Ari(_) => 7
    case And => 2
    case Or => 1
    case _ => 3
  }

  function Right(op: BinOpr): int {
    if op == Ari(OpPow) then 9 else Left(op)
  }

  function UnToken(op: UnOpr): Token {
    match op
    case Not => TNot
    case Minus => TMinus
    case Length => TSharp
  }

  function BinToken(op: BinOpr): Token { if op == Ari(OpSub) then TMinus else TBin(op) }

  /** The tokens of an expression, from left to right. */
  function Show(e: Expr): seq<Token> {
    match e
    case ENil => [TNil]
    case ETrue => [TTrue]
    case EFalse => [TFalse]
    case EStr(s) => [TStr(s)]
    case ENum(n) => [TNum(n)]
    case ELocal(r) => [TLocal(r)]
    case EUpval(i) => [TUpval(i)]
    case EParen(e1) => [TOpen] + Show(e1) + [TClose]
    case EUn(op, e1) => [UnToken(op)] + Show(e1)
    case EBin(op, l, r) => Show(l) + [BinToken(op)] + Show(r)
  }

  /** The operators on the left edge of the tree bind tighter than `limit`. */
  predicate LeftOk(e: Expr, limit: int) {
    e.EBin? ==> Left(e.bop) > limit && LeftOk(e.lhs, limit)
  }

  /** The operators on the right edge of the tree do not give their operand away to an operator
      of left priority `p` that follows. */
  predicate RightOk(e: Expr, p: int) {
    match e
    case EBin(op, _, r) => p <= Right(op) && RightOk(r, p)
    case EUn(_, e1) => p <= UNARY_PRIORITY && RightOk(e1, p)
    case _ => true
  }

  /** The tree groups its tokens by the priorities of the operators. */
  predicate Grouped(e: Expr) {
    match e
    case EParen(e1) => Grouped(e1)
    case EUn(_, e1) => Grouped(e1) && LeftOk(e1, UNARY_PRIORITY)
    case EBin(op, l, r) =>
      op != Ari(OpUnm) && Grouped(l) && Grouped(r) && RightOk(l, Left(op)) && LeftOk(r, Right(op))
    case _ => true
  }

  /** What follows the expression does not continue it. */
  predicate Stops(e: Expr, limit: int, rest: seq<Token>) {
    rest != [] && BinOf(rest[0]).Some? ==>
      Left(BinOf(rest[0]).value) <= limit && RightOk(e, Left(BinOf(rest[0]).value))
  }

  // ---------- reading the tree of a list of tokens ----------

  /** The expressions of one token. */
  function LeafOf(t: Token): Option<Expr> {
    match t
    case TNil => Some(ENil)
    case TTrue => Some(ETrue)
    case TFalse => Some(EFalse)
    case TStr(s) => Some(EStr(s))
    case TNum(n) => Some(ENum(n))
    case TLocal(r) => Some(ELocal(r))
    case TUpval(i) => Some(EUpval(i))
    case _ => None
  }

  /** An expression whose operators bind tighter than `limit`, and the tokens after it. */
  function Parse(toks: seq<Token>, limit: int): (r: Option<(Expr, seq<Token>)>)
    ensures r.Some? ==> |r.value.1| < |toks|
    decreases |toks|, 2
  {
    var first := ParseFirst(toks);
    if first.None? then None else ParseMore(first.value.0, first.value.1, limit)
  }

  /** A prefix operator with its operand, a single token, or an expression in parentheses. */
  function ParseFirst(toks: seq<Token>): (r: Option<(Expr, seq<Token>)>)
    ensures r.Some? ==> |r.value.1| < |toks|
    decreases |toks|, 1
  {
    if toks == [] then None
    else if UnOf(toks[0]).Some? then
      var inner := Parse(toks[1..], UNARY_PRIORITY);
      if inner.None? then None else Some((EUn(UnOf(toks[0]).value, inner.value.0), inner.value.1))
    else if toks[0] == TOpen then
      var inner := Parse(toks[1..], 0);
      if inner.None? || inner.value.1 == [] || inner.value.1[0] != TClose then None
      else Some((EParen(inner.value.0), inner.value.1[1..]))
    else if LeafOf(toks[0]).Some? then Some((LeafOf(toks[0]).value, toks[1..]))
    else None
  }

  /** Operators that bind tighter than `limit` take the tree on their left as first operand. */
  function ParseMore(x: Expr, toks: seq<Token>, limit: int): (r: Option<(Expr, seq<Token>)>)
    ensures r.Some? ==> |r.value.1| <= |toks|
    decreases |toks|, 0
  {
    if toks != [] && BinOf(toks[0]).Some? && Left(BinOf(toks[0]).value) > limit then
      var op := BinOf(toks[0]).value;
      var second := Parse(toks[1..], Right(op));
      if second.None? then None else ParseMore(EBin(op, x, second.value.0), second.value.1, limit)
    else Some((x, toks))
  }

  /** What follows is not a part of the right edge of the tree. */
  predicate Ends(x: Expr, rest: seq<Token>) {
    rest != [] && BinOf(rest[0]).Some? ==> RightOk(x, Left(BinOf(rest[0]).value))
  }

  lemma AnyLeft(x: Expr)
    ensures LeftOk(x, 0)
  {}

  lemma ShowBin(op: BinOpr, l: Expr, r: Expr)
    ensures Show(EBin(op, l, r)) == Show(l) + [BinToken(op)] + Show(r)
  {
    hide BinToken;
  }

  lemma ShowUn(op: UnOpr, e: Expr)
    ensures Show(EUn(op, e)) == [UnToken(op)] + Show(e)
  {
    hide UnToken;
  }

  lemma ParenFirst(toks: seq<Token>, e: Expr, rest: seq<Token>)
    requires toks != [] && toks[0] == TOpen && Parse(toks[1..], 0) == Some((e, [TClose] + rest))
    ensures ParseFirst(toks) == Some((EParen(e), rest))
  {
    hide Parse;
    assert ([TClose] + rest)[1..] == rest;
  }

  lemma ParenShown(e: Expr, limit: int, rest: seq<Token>)
    requires Parse(Show(e) + ([TClose] + rest), 0) == ParseMore(e, [TClose] + rest, 0)
    ensures Parse(Show(EParen(e)) + rest, limit) == ParseMore(EParen(e), rest, limit)
  {
    hide ParseFirst, Grouped, LeftOk, RightOk;
    var toks, after := Show(EParen(e)) + rest, [TClose] + rest;
    assert toks[0] == TOpen && toks[1..] == Show(e) + after;
    assert ParseMore(e, after, 0) == Some((e, after));
    ParenFirst(toks, e, rest);
  }

  lemma PrefixShown(op: UnOpr, e: Expr, limit: int, rest: seq<Token>)
    requires Parse(Show(e) + rest, UNARY_PRIORITY) == ParseMore(e, rest, UNARY_PRIORITY) && Ends(EUn(op, e), rest)
    ensures Parse(Show(EUn(op, e)) + rest, limit) == ParseMore(EUn(op, e), rest, limit)
  {
    var toks := Show(EUn(op, e)) + rest;
    assert toks[0] == UnToken(op) && toks[1..] == Show(e) + rest;
    assert ParseMore(e, rest, UNARY_PRIORITY) == Some((e, rest));
    assert ParseFirst(toks) == Some((EUn(op, e), rest));
  }

  lemma BinBack(op: BinOpr)
    requires op != Ari(OpUnm)
    ensures BinOf(BinToken(op)) == Some(op)
  {
  }

  lemma BinaryShown(op: BinOpr, l: Expr, r: Expr, limit: int, rest: seq<Token>)
    requires op != Ari(OpUnm) && Left(op) > limit && Ends(EBin(op, l, r), rest)
    requires var after := [BinToken(op)] + (Show(r) + rest);
             Parse(Show(l) + after, limit) == ParseMore(l, after, limit)
    requires Parse(Show(r) + rest, Right(op)) == ParseMore(r, rest, Right(op))
    ensures Parse(Show(EBin(op, l, r)) + rest, limit) == ParseMore(EBin(op, l, r), rest, limit)
  {
    hide Parse, ParseFirst, Ends, Show, Left, Right, BinToken, BinOf;
    var after := [BinToken(op)] + (Show(r) + rest);
    ShowBin(op, l, r);
    BinBack(op);
    assert Show(EBin(op, l, r)) + rest == Show(l) + after;
    assert after[0] == BinToken(op) && after[1..] == Show(r) + rest;
    NoMore(op, l, r, rest);
  }

  lemma NoMore(op: BinOpr, l: Expr, r: Expr, rest: seq<Token>)
    requires Ends(EBin(op, l, r), rest)
    ensures ParseMore(r, rest, Right(op)) == Some((r, rest))
  {
  }

  lemma {:induction false} ParseShown(x: Expr, limit: int, rest: seq<Token>)
    requires Grouped(x) && LeftOk(x, limit) && Ends(x, rest)
    ensures Parse(Show(x) + rest, limit) == ParseMore(x, rest, limit)
    decreases x
  {
    hide Parse, ParseMore, ParseFirst;
    match x {
      case EParen(e) =>
        AnyLeft(e);
        ParseShown(e, 0, [TClose] + rest);
        ParenShown(e, limit, rest);
      case EUn(op, e) =>
        ParseShown(e, UNARY_PRIORITY, rest);
        PrefixShown(op, e, limit, rest);
      case EBin(op, l, r) =>
        ParseShown(l, limit, [BinToken(op)] + (Show(r) + rest));
        ParseShown(r, Right(op), rest);
        BinaryShown(op, l, r, limit, rest);
      case _ =>
        LeafShown(x, limit, rest);
    }
  }

  lemma LeafShown(x: Expr, limit: int, rest: seq<Token>)
    requires !x.EParen? && !x.EUn? && !x.EBin?
    ensures Parse(Show(x) + rest, limit) == ParseMore(x, rest, limit)
  {
    var toks := Show(x) + rest;
    assert toks[1..] == rest && LeafOf(toks[0]) == Some(x);
    assert ParseFirst(toks) == Some((x, rest));
  }

  /** Reading the tokens of a tree that groups them by priority gives the tree back. */
  lemma ParseReads(x: Expr, limit: int, rest: seq<Token>)
    requires Grouped(x) && LeftOk(x, limit) && Stops(x, limit, rest)
    ensures Parse(Show(x) + rest, limit) == Some((x, rest))
  {
    ParseShown(x, limit, rest);
  }

  /** There is only one way to group tokens by priority. */
  lemma OneGrouping(x: Expr, y: Expr, r: seq<Token>, r': seq<Token>)
    requires Show(x) + r == Show(y) + r' && Grouped(x) && Grouped(y) && Stops(x, 0, r) && Stops(y, 0, r')
    ensures x == y && r == r'
  {
    AnyLeft(x);
    AnyLeft(y);
    ParseReads(x, 0, r);
    ParseReads(y, 0, r');
  }

  // ---------- precedence ----------

  const COMPARISONS: set<BinOpr> := {LessThan, Greater, LessEq, GreaterEq, NotEq, Eq}

  /** The operators of two operands, those that bind loosest first: section 3.4.7 of the Lua 5.2 Reference Manual. The
      prefix operators stand between the last two groups. */
  const PRECEDENCE: seq<set<BinOpr>> :=
    [{Or}, {And}, COMPARISONS, {Ari(OpAdd), Ari(OpSub)}, {Ari(OpMul), Ari(OpDiv), Ari(OpMod)}, {Ari(OpPow)}]

  ghost predicate Looser(l: BinOpr, h: BinOpr) {
    exists i, j | 0 <= i < j < |PRECEDENCE| :: l in PRECEDENCE[i] && h in PRECEDENCE[j]
  }

  ghost predicate Alike(l: BinOpr, h: BinOpr) {
    exists i | 0 <= i < |PRECEDENCE| :: l in PRECEDENCE[i] && h in PRECEDENCE[i]
  }

  /** A single token, or an expression in parentheses. */
  predicate Primary(e: Expr) { !e.EUn? && !e.EBin? && (e.EParen? ==> Grouped(e.e)) }

  /** The tokens of `a l b h c`. */
  function Two(a: Expr, l: BinOpr, b: Expr, h: BinOpr, c: Expr): seq<Token> {
    Show(a) + [BinToken(l)] + Show(b) + [BinToken(h)] + Show(c)
  }

  /** The tokens are read as the tree, whatever follows that is no operator, and as no other tree. */
  ghost predicate ReadAs(toks: seq<Token>, x: Expr) {
    && Grouped(x) && Show(x) == toks && Parse(toks, 0) == Some((x, []))
    && forall y, r, r' | Grouped(y) && toks + r == Show(y) + r' && Stops(x, 0, r) && Stops(y, 0, r') ::
       x == y && r == r'
  }

  lemma ReadAsShown(x: Expr)
    requires Grouped(x)
    ensures ReadAs(Show(x), x)
  {
    hide Parse;
    AnyLeft(x);
    assert Show(x) + [] == Show(x);
    ParseReads(x, 0, []);
    forall y, r, r' | Grouped(y) && Show(x) + r == Show(y) + r' && Stops(x, 0, r) && Stops(y, 0, r')
      ensures x == y && r == r'
    {
      OneGrouping(x, y, r, r');
    }
  }

  /** The priorities of the groups. */
  lemma Level(op: BinOpr, i: int)
    requires 0 <= i < |PRECEDENCE| && op in PRECEDENCE[i]
    ensures op != Ari(OpUnm) && Left(op) == [1, 2, 3, 6, 7, 10][i] && (Right(op) == if i == 5 then 9 else Left(op))
  {
    assert PRECEDENCE[0] == {Or} && PRECEDENCE[1] == {And} && PRECEDENCE[2] == COMPARISONS;
    assert PRECEDENCE[3] == {Ari(OpAdd), Ari(OpSub)} && PRECEDENCE[5] == {Ari(OpPow)};
    assert PRECEDENCE[4] == {Ari(OpMul), Ari(OpDiv), Ari(OpMod)};
  }

  lemma Levels(l: BinOpr, h: BinOpr)
    ensures Looser(l, h) ==> Left(l) < Left(h) && Right(l) < Left(h) && Left(l) <= Right(h)
    ensures Looser(l, h) || Alike(l, h) ==> l != Ari(OpUnm) && h != Ari(OpUnm)
    ensures Alike(l, h) && l != Ari(OpPow) ==> h != Ari(OpPow) && Left(l) == Left(h) == Right(l) == Right(h)
    ensures Alike(l, h) && l == Ari(OpPow) ==> l == h
  {
    hide Left, Right;
    forall i, j | 0 <= i < |PRECEDENCE| && 0 <= j < |PRECEDENCE| && l in PRECEDENCE[i] && h in PRECEDENCE[j]
      ensures l != Ari(OpUnm) && h != Ari(OpUnm)
      ensures i < j ==> Left(l) < Left(h) && Right(l) < Left(h) && Left(l) <= Right(h)
      ensures i == j && l != Ari(OpPow) ==> h != Ari(OpPow) && Left(l) == Left(h) == Right(l) == Right(h)
      ensures i == j && l == Ari(OpPow) ==> l == h
    {
      Level(l, i);
      Level(h, j);
      OnlyPow(l, i);
      OnlyPow(h, j);
    }
  }

  lemma OnlyPow(op: BinOpr, i: int)
    requires 0 <= i < |PRECEDENCE| && op in PRECEDENCE[i]
    ensures i == 5 <==> op == Ari(OpPow)
  {
    Level(op, i);
  }

  lemma Edges(e: Expr, p: int)
    requires Primary(e)
    ensures Grouped(e) && LeftOk(e, p) && RightOk(e, p)
  {
  }

  lemma BinGrouped(op: BinOpr, l: Expr, r: Expr)
    requires op != Ari(OpUnm) && Grouped(l) && Grouped(r) && RightOk(l, Left(op)) && LeftOk(r, Right(op))
    ensures Grouped(EBin(op, l, r))
  {
    hide LeftOk, RightOk, Left, Right;
  }

  lemma BinEdges(op: BinOpr, l: Expr, r: Expr, p: int)
    ensures LeftOk(EBin(op, l, r), p) <==> Left(op) > p && LeftOk(l, p)
    ensures RightOk(EBin(op, l, r), p) <==> p <= Right(op) && RightOk(r, p)
  {
    hide Left, Right;
  }

  /** Which of the two groupings the priorities allow. */
  lemma TwoGrouped(a: Expr, l: BinOpr, b: Expr, h: BinOpr, c: Expr)
    requires Primary(a) && Primary(b) && Primary(c) && l != Ari(OpUnm) && h != Ari(OpUnm)
    ensures Left(h) > Right(l) ==> Grouped(EBin(l, a, EBin(h, b, c)))
    ensures Left(h) <= Right(l) ==> Grouped(EBin(h, EBin(l, a, b), c))
  {
    hide Primary, Left, Right, Grouped, LeftOk, RightOk;
    Edges(a, Left(l));
    Edges(b, Left(h));
    Edges(b, Right(l));
    Edges(c, Right(h));
    BinGrouped(h, b, c);
    BinGrouped(l, a, b);
    BinEdges(h, b, c, Right(l));
    BinEdges(l, a, b, Left(h));
    if Left(h) > Right(l) {
      BinGrouped(l, a, EBin(h, b, c));
    } else {
      BinGrouped(h, EBin(l, a, b), c);
    }
  }

  lemma TwoShown(a: Expr, l: BinOpr, b: Expr, h: BinOpr, c: Expr)
    ensures Show(EBin(l, a, EBin(h, b, c))) == Two(a, l, b, h, c)
    ensures Show(EBin(h, EBin(l, a, b), c)) == Two(a, l, b, h, c)
  {
    hide BinToken, Show;
    ShowBin(h, b, c);
    ShowBin(l, a, b);
    ShowBin(l, a, EBin(h, b, c));
    ShowBin(h, EBin(l, a, b), c);
  }

  /** The operator that binds tighter takes the operand in the middle, on whichever side it stands. */
  lemma TighterTakes(a: Expr, l: BinOpr, b: Expr, h: BinOpr, c: Expr)
    requires Primary(a) && Primary(b) && Primary(c) && Looser(l, h)
    ensures ReadAs(Two(a, l, b, h, c), EBin(l, a, EBin(h, b, c)))
    ensures ReadAs(Two(a, h, b, l, c), EBin(l, EBin(h, a, b), c))
  {
    hide Primary, Looser, ReadAs, Two, Grouped, Show;
    Levels(l, h);
    TwoGrouped(a, l, b, h, c);
    TwoGrouped(a, h, b, l, c);
    TwoShown(a, l, b, h, c);
    TwoShown(a, h, b, l, c);
    ReadAsShown(EBin(l, a, EBin(h, b, c)));
    ReadAsShown(EBin(l, EBin(h, a, b), c));
  }

  /** Operators that bind alike group to the left, except that `^` groups to the right. */
  lemma AlikeGroup(a: Expr, l: BinOpr, b: Expr, h: BinOpr, c: Expr)
    requires Primary(a) && Primary(b) && Primary(c) && Alike(l, h)
    ensures l != Ari(OpPow) ==> ReadAs(Two(a, l, b, h, c), EBin(h, EBin(l, a, b), c))
    ensures l == Ari(OpPow) ==> l == h && ReadAs(Two(a, l, b, h, c), EBin(l, a, EBin(h, b, c)))
  {
    hide Primary, Alike, ReadAs, Two, Grouped, Show;
    Levels(l, h);
    TwoGrouped(a, l, b, h, c);
    TwoShown(a, l, b, h, c);
    ReadAsShown(if l == Ari(OpPow) then EBin(l, a, EBin(h, b, c)) else EBin(h, EBin(l, a, b), c));
  }

  /** A prefix operator binds tighter than any operator that follows its operand, except `^`; as a second operand, it
      takes its own operand first. */
  lemma PrefixTakes(u: UnOpr, a: Expr, op: BinOpr, b: Expr)
    requires Primary(a) && Primary(b) && op != Ari(OpUnm)
    ensures ReadAs([UnToken(u)] + Show(a) + [BinToken(op)] + Show(b),
                   if op == Ari(OpPow) then EUn(u, EBin(op, a, b)) else EBin(op, EUn(u, a), b))
    ensures ReadAs(Show(a) + [BinToken(op)] + [UnToken(u)] + Show(b), EBin(op, a, EUn(u, b)))
  {
    hide ReadAs, Show, Grouped;
    PrefixGrouped(u, a, op, b);
    PrefixShows(u, a, op, b);
    ReadAsShown(if op == Ari(OpPow) then EUn(u, EBin(op, a, b)) else EBin(op, EUn(u, a), b));
    ReadAsShown(EBin(op, a, EUn(u, b)));
  }

  lemma UnGrouped(u: UnOpr, e: Expr, p: int)
    requires Grouped(e) && LeftOk(e, UNARY_PRIORITY)
    ensures Grouped(EUn(u, e)) && LeftOk(EUn(u, e), p)
    ensures p <= UNARY_PRIORITY && RightOk(e, p) ==> RightOk(EUn(u, e), p)
  {
  }

  lemma PrefixGrouped(u: UnOpr, a: Expr, op: BinOpr, b: Expr)
    requires Primary(a) && Primary(b) && op != Ari(OpUnm)
    ensures Grouped(if op == Ari(OpPow) then EUn(u, EBin(op, a, b)) else EBin(op, EUn(u, a), b))
    ensures Grouped(EBin(op, a, EUn(u, b)))
  {
    hide Primary, Grouped, LeftOk, RightOk;
    Edges(a, Left(op));
    Edges(a, UNARY_PRIORITY);
    Edges(b, UNARY_PRIORITY);
    Edges(b, Right(op));
    BinGrouped(op, a, b);
    BinEdges(op, a, b, UNARY_PRIORITY);
    UnGrouped(u, a, Left(op));
    UnGrouped(u, b, Right(op));
    BinGrouped(op, a, EUn(u, b));
    if op == Ari(OpPow) {
      UnGrouped(u, EBin(op, a, b), 0);
    } else {
      BinGrouped(op, EUn(u, a), b);
    }
  }

  lemma PrefixShows(u: UnOpr, a: Expr, op: BinOpr, b: Expr)
    ensures Show(EUn(u, EBin(op, a, b))) == [UnToken(u)] + Show(a) + [BinToken(op)] + Show(b)
    ensures Show(EBin(op, EUn(u, a), b)) == [UnToken(u)] + Show(a) + [BinToken(op)] + Show(b)
    ensures Show(EBin(op, a, EUn(u, b))) == Show(a) + [BinToken(op)] + [UnToken(u)] + Show(b)
  {
    hide BinToken, UnToken, Show;
    ShowBin(op, a, b);
    ShowUn(u, EBin(op, a, b));
    ShowUn(u, a);
    ShowBin(op, EUn(u, a), b);
    ShowUn(u, b);
    ShowBin(op, a, EUn(u, b));
  }

  // ---------- nesting ----------

  /** How deep the calls for operands are nested. */
  function Nest(x: Expr): nat {
    match x
    case EParen(e) => 1 + Nest(e)
    case EUn(_, e) => 1 + Nest(e)
    case EBin(_, l, r) => if Nest(l) > 1 + Nest(r) then Nest(l) else 1 + Nest(r)
    case _ => 0
  }

  lemma {:induction false} MoreNests(x: Expr, toks: seq<Token>, limit: int)
    requires ParseMore(x, toks, limit).Some?
    ensures Nest(x) <= Nest(ParseMore(x, toks, limit).value.0)
    decreases |toks|
  {
    if toks != [] && BinOf(toks[0]).Some? && Left(BinOf(toks[0]).value) > limit {
      var op := BinOf(toks[0]).value;
      var second := Parse(toks[1..], Right(op));
      MoreNests(EBin(op, x, second.value.0), second.value.1, limit);
    }
  }
}
