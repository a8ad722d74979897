/** Colours: what the fix-up after a removal keeps and repairs. */
module RbErase {
  import opened RbModel
  import opened RbRotate
  import opened RbColor
  import opened RbInsert

  /** Every node is good, except that the side of `par` that holds `x` is one black node short, and
      that `x` may break the rule for red nodes. */
  ghost predicate EraseOk(t: Tree, x: Ptr, par: Ptr, left: bool, q: Ptr)
    requires q in t.mem && q in t.lab
  {
    if q == par then
      && BhOf(t, x) + 1 == t.lab[q].bh && BhOf(t, Kid(t.mem[q], !left)) == t.lab[q].bh
      && (t.mem[q].red ==> !IsRed(t, Kid(t.mem[q], !left)))
    else if q == x then Balanced(t, q)
    else Good(t, q)
  }

  ghost predicate Erasing(t: Tree, x: Ptr, par: Ptr, left: bool) {
    && Shape(t) && (x == NULL || x in t.mem)
    && (if par == NULL then t.root == x else par in t.mem && Kid(t.mem[par], left) == x && t.root != x)
    && (x != NULL ==> t.mem[x].parent == par)
    && (IsRed(t, t.root) ==> t.root == x)
    && forall q | q in t.mem && q in t.lab :: EraseOk(t, x, par, left, q)
  }

  lemma ErasedAt(t: Tree, x: Ptr, par: Ptr, left: bool, q: Ptr)
    requires Erasing(t, x, par, left) && (IsRed(t, x) || t.root == x) && q in t.mem
    ensures var t' := Paint(t, x, false);
            q in t.lab && q in t'.mem && q in t'.lab && Balanced(t', q) && RedOk(t', q)
  {
    hide Shape, Linked, Covers;
    Kids(t, q);
    if par != NULL { Kids(t, par); }
    assert EraseOk(t, x, par, left, q);
  }

  /** The fix-up ends at a red node or at the root, which becomes black. */
  lemma Erased(t: Tree, x: Ptr, par: Ptr, left: bool)
    requires Erasing(t, x, par, left) && (IsRed(t, x) || t.root == x)
    ensures RedBlack(Paint(t, x, false))
  {
    hide Linked, Balanced, RedOk, EraseOk;
    var t' := Paint(t, x, false);
    SameShape(t, t');
    forall q | q in t'.mem && q in t'.lab ensures Balanced(t', q) && RedOk(t', q) { ErasedAt(t, x, par, left, q); }
    if t.root != NULL { Rooted(t); }
  }

  lemma Rooted(t: Tree)
    requires Shape(t) && t.root != NULL
    ensures t.root in t.mem && t.root in t.lab
  {
  }

  /** The nodes around the gap while the fix-up goes on. */
  lemma Siblings(t: Tree, x: Ptr, par: Ptr, left: bool)
    requires Erasing(t, x, par, left) && !IsRed(t, x) && t.root != x
    ensures NULL !in t.mem && par != NULL && par in t.mem && par in t.lab && Kid(t.mem[par], left) == x && Shape(t)
    ensures var o := Kid(t.mem[par], !left);
            && o in t.mem && o in t.lab && o != x && o != par && t.mem[o].parent == par && Good(t, o)
            && BhOf(t, o) == t.lab[par].bh == BhOf(t, x) + 1
            && var i, u := Kid(t.mem[o], left), Kid(t.mem[o], !left);
               && (i != NULL ==> i in t.mem && i in t.lab && t.mem[i].parent == o && Good(t, i) && i != u)
               && (u != NULL ==> u in t.mem && u in t.lab && t.mem[u].parent == o && Good(t, u))
               && (i != NULL ==> i != x && i != par && i != o) && (u != NULL ==> u != x && u != par && u != o)
               && BhOf(t, i) == BhOf(t, u) == t.lab[o].bh && (IsRed(t, o) ==> !IsRed(t, i) && !IsRed(t, u))
    ensures forall q | q in t.mem && q in t.lab && q != par :: Good(t, q)
  {
    hide Shape;
    Kids(t, par);
    var o := Kid(t.mem[par], !left);
    assert EraseOk(t, x, par, left, par);
    if x != NULL { Kids(t, x); assert EraseOk(t, x, par, left, x); }
    Kids(t, o);
    assert EraseOk(t, x, par, left, o);
    Wider(t, o);
    var i, u := Kid(t.mem[o], left), Kid(t.mem[o], !left);
    if i != NULL { Wider(t, i); }
    if u != NULL { Wider(t, u); }
    if i != NULL { Kids(t, i); assert EraseOk(t, x, par, left, i); }
    if u != NULL { Kids(t, u); assert EraseOk(t, x, par, left, u); }
    forall q | q in t.mem && q in t.lab && q != par ensures Good(t, q) { assert EraseOk(t, x, par, left, q); }
  }

  // ---------- a red sibling is rotated up ----------

  lemma RedSiblingPrepared(t: Tree, x: Ptr, par: Ptr, left: bool, q: Ptr)
    requires Erasing(t, x, par, left) && !IsRed(t, x) && t.root != x && q in t.mem && q in t.lab && q != par
    requires par in t.mem && IsRed(t, Kid(t.mem[par], !left))
    ensures var o := Kid(t.mem[par], !left);
            var t1 := Exchanged(t, o, par);
            q in t1.mem && par in t1.mem && Kid(t1.mem[par], !left) == o && o in t1.mem && Prepared(t1, par, left, q)
  {
    hide Shape, Exchanged;
    Siblings(t, x, par, left);
    var o := Kid(t.mem[par], !left);
    assert EraseOk(t, x, par, left, par);
    Kids(t, q);
    Kids(t, par);
    ExchangedValues(t, o, par, q);
    ExchangedValues(t, o, par, par);
    ExchangedValues(t, o, par, o);
    ExchangedValues(t, o, par, Kid(t.mem[o], !left));
    ExchangedValues(t, o, par, t.mem[q].left);
    ExchangedValues(t, o, par, t.mem[q].right);
  }

  lemma RedSiblingOk(t: Tree, x: Ptr, par: Ptr, left: bool)
    requires Erasing(t, x, par, left) && !IsRed(t, x) && t.root != x
    requires par in t.mem && IsRed(t, Kid(t.mem[par], !left))
    ensures var o := Kid(t.mem[par], !left);
            var t1 := Exchanged(t, o, par);
            CanRotate(t1, par, left) && par in t1.lab && Kid(t1.mem[par], !left) == o && o in t1.lab && o in t1.mem
                && o in t.mem &&
            var t' := Rotated(t1, par, left);
            Erasing(t', x, par, left) && !IsRed(t', x) && t'.root != x && par in t'.mem && IsRed(t', par)
            && !IsRed(t', Kid(t'.mem[par], !left)) && t'.mem.Keys == t.mem.Keys == t1.mem.Keys
  {
    hide Shape, RotatedMem, RotatedLab, Linked, Prepared, Exchanged, Holds, Balanced;
    Siblings(t, x, par, left);
    var o := Kid(t.mem[par], !left);
    var t1 := Exchanged(t, o, par);
    assert EraseOk(t, x, par, left, par);
    ExchangedLinks(t, o, par);
    ExchangedValues(t, o, par, par);
    ExchangedValues(t, o, par, o);
    ExchangedValues(t, o, par, x);
    ExchangedValues(t, o, par, Kid(t.mem[o], left));
    SameShape(t, t1);
    Parties(t1, par, left);
    RotatedShape(t1, par, left);
    var t' := Rotated(t1, par, left);
    RotatedAt(t1, par, left, par);
    if x != NULL { RotatedAt(t1, par, left, x); }
    RotatedAlike(t1, par, left, x);
    RotatedAlike(t1, par, left, Kid(t.mem[o], left));
    RotatedAlike(t1, par, left, par);
    RotatedAlike(t1, par, left, o);
    RotatedAlike(t1, par, left, t'.root);
    ExchangedValues(t, o, par, t'.root);
    forall q | q in t'.mem && q in t'.lab && q != par ensures EraseOk(t', x, par, left, q) {
      RedSiblingPrepared(t, x, par, left, q);
      RotatedGood(t1, par, left, q);
      GoodErase(t', x, par, left, q);
    }
    assert EraseOk(t', x, par, left, par);
  }

  lemma ExchangedLinks(t: Tree, p: Ptr, g: Ptr)
    ensures SameLinks(t, Exchanged(t, p, g))
  {
  }

  // ---------- a black sibling without red children: the gap moves up ----------

  function Pushed(t: Tree, o: Ptr, par: Ptr): Tree { Raise(Paint(t, o, true), par, -1) }

  lemma PushedValues(t: Tree, o: Ptr, par: Ptr, k: Ptr)
    requires o in t.mem && par in t.mem && o in t.lab && par in t.lab && o != par && NULL !in t.mem && !t.mem[o].red
    ensures var t' := Pushed(t, o, par);
            && t'.mem.Keys == t.mem.Keys && t'.lab.Keys == t.lab.Keys && SameLinks(t, t')
            && BhOf(t', k) == BhOf(t, k) - (if k == o || k == par then 1 else 0)
            && IsRed(t', k) == (k == o || IsRed(t, k))
            && (k in t.mem ==> t'.mem[k] == t.mem[k].(red := IsRed(t', k)))
            && (k in t.lab ==> t'.lab[k] == if k == par then t.lab[k].(bh := t.lab[k].bh - 1) else t.lab[k])
  {
  }

  function SideOf(mem: Mem, p: Ptr, q: Ptr): bool { q in mem && mem[q].left == p }

  /** A black sibling whose children are black too. */
  ghost predicate BlackSibling(t: Tree, x: Ptr, par: Ptr, left: bool) {
    && Erasing(t, x, par, left) && !IsRed(t, x) && t.root != x && par in t.mem
    && var o := Kid(t.mem[par], !left);
       !IsRed(t, o) && (o in t.mem ==> !IsRed(t, t.mem[o].left) && !IsRed(t, t.mem[o].right))
  }

  /** The new gap. */
  lemma PushedHere(t: Tree, x: Ptr, par: Ptr, left: bool)
    requires BlackSibling(t, x, par, left)
    ensures var o := Kid(t.mem[par], !left); var t' := Pushed(t, o, par);
            par in t'.mem && par in t'.lab && Balanced(t', par) && t.mem[par].parent != par
  {
    hide Shape, Pushed, Erasing;
    Siblings(t, x, par, left);
    var o := Kid(t.mem[par], !left);
    Kids(t, par);
    PushedValues(t, o, par, par);
    PushedValues(t, o, par, x);
    PushedValues(t, o, par, o);
    NotOwnParent(t, par);
  }

  lemma NotOwnParent(t: Tree, q: Ptr)
    requires Shape(t) && q in t.mem
    ensures t.mem[q].parent != q
  {
    assert Linked(t, q);
  }

  /** The node above the new gap. */
  lemma PushedAbove(t: Tree, x: Ptr, par: Ptr, left: bool, p: Ptr)
    requires BlackSibling(t, x, par, left) && p in t.mem && p == t.mem[par].parent
    ensures var o := Kid(t.mem[par], !left); var t' := Pushed(t, o, par);
            p in t'.mem && p in t'.lab && EraseOk(t', par, p, SideOf(t.mem, par, p), p)
  {
    hide Shape, Pushed, Erasing;
    Siblings(t, x, par, left);
    var o := Kid(t.mem[par], !left);
    NotOwnParent(t, par);
    Kids(t, p);
    Kids(t, par);
    PushedValues(t, o, par, p);
    PushedValues(t, o, par, t.mem[p].left);
    PushedValues(t, o, par, t.mem[p].right);
  }

  /** Any other node. */
  lemma PushedFar(t: Tree, x: Ptr, par: Ptr, left: bool, q: Ptr)
    requires BlackSibling(t, x, par, left) && q in t.mem && q != par && q != t.mem[par].parent
    ensures var o := Kid(t.mem[par], !left); var t' := Pushed(t, o, par); q in t'.mem && q in t'.lab && Good(t', q)
  {
    hide Shape, Pushed, Erasing;
    Siblings(t, x, par, left);
    var o := Kid(t.mem[par], !left);
    Kids(t, q);
    Kids(t, par);
    PushedValues(t, o, par, q);
    PushedValues(t, o, par, t.mem[q].left);
    PushedValues(t, o, par, t.mem[q].right);
  }

  lemma PushedAt(t: Tree, x: Ptr, par: Ptr, left: bool, q: Ptr)
    requires BlackSibling(t, x, par, left) && par in t.mem && q in t.mem && q in t.lab
    ensures var o := Kid(t.mem[par], !left); var t' := Pushed(t, o, par); var p := t.mem[par].parent;
            q in t'.mem && q in t'.lab && EraseOk(t', par, p, SideOf(t.mem, par, p), q)
  {
    hide Pushed, BlackSibling, Good, Balanced;
    PushedHere(t, x, par, left);
    if q == t.mem[par].parent { PushedAbove(t, x, par, left, q); }
    else if q != par { PushedFar(t, x, par, left, q); }
  }

  lemma PushedOk(t: Tree, x: Ptr, par: Ptr, left: bool)
    requires Erasing(t, x, par, left) && !IsRed(t, x) && t.root != x && par in t.mem
    requires var o := Kid(t.mem[par], !left);
             !IsRed(t, o) && (o in t.mem ==> !IsRed(t, t.mem[o].left) && !IsRed(t, t.mem[o].right))
    ensures var o := Kid(t.mem[par], !left); var t' := Pushed(t, o, par); var p := t.mem[par].parent;
            o in t.mem && Erasing(t', par, p, SideOf(t.mem, par, p)) && t'.mem.Keys == t.mem.Keys
            && (p == NULL || (par in t.lab && p in t.lab && t.lab[par].hi - t.lab[par].lo < t.lab[p].hi - t.lab[p].lo))
  {
    hide Shape, Pushed, EraseOk, Linked;
    Siblings(t, x, par, left);
    var o, p := Kid(t.mem[par], !left), t.mem[par].parent;
    var t' := Pushed(t, o, par);
    Kids(t, par);
    if p != NULL { Kids(t, p); Wider(t, par); PushedValues(t, o, par, p); }
    PushedValues(t, o, par, par);
    PushedValues(t, o, par, t.root);
    SameShape(t, t');
    Kids(t, o);
    forall q | q in t'.mem && q in t'.lab ensures EraseOk(t', par, p, SideOf(t.mem, par, p), q) {
      PushedAt(t, x, par, left, q);
    }
  }

  // ---------- a red inner nephew is rotated outwards ----------

  lemma InnerNephewPrepared(t: Tree, x: Ptr, par: Ptr, left: bool, q: Ptr)
    requires Erasing(t, x, par, left) && !IsRed(t, x) && t.root != x && q in t.mem && q in t.lab && q != par
            && par in t.mem
    requires var o := Kid(t.mem[par], !left);
             o in t.mem && !IsRed(t, o) && IsRed(t, Kid(t.mem[o], left)) && !IsRed(t, Kid(t.mem[o], !left))
    ensures var o := Kid(t.mem[par], !left);
            var i := Kid(t.mem[o], left);
            var t1 := Exchanged(t, i, o);
            q in t1.mem && o in t1.mem && Kid(t1.mem[o], left) == i && i in t1.mem && Prepared(t1, o, !left, q)
  {
    hide Shape, Exchanged;
    Siblings(t, x, par, left);
    var o := Kid(t.mem[par], !left);
    var i := Kid(t.mem[o], left);
    Kids(t, q);
    Kids(t, o);
    Kids(t, i);
    ExchangedValues(t, i, o, q);
    ExchangedValues(t, i, o, o);
    ExchangedValues(t, i, o, i);
    ExchangedValues(t, i, o, Kid(t.mem[o], !left));
    ExchangedValues(t, i, o, Kid(t.mem[i], left));
    ExchangedValues(t, i, o, Kid(t.mem[i], !left));
    ExchangedValues(t, i, o, t.mem[q].left);
    ExchangedValues(t, i, o, t.mem[q].right);
  }

  /** A black sibling whose inner child is red and whose outer child is not. */
  ghost predicate InnerNephew(t: Tree, x: Ptr, par: Ptr, left: bool) {
    && Erasing(t, x, par, left) && !IsRed(t, x) && t.root != x && par in t.mem
    && var o := Kid(t.mem[par], !left);
       o in t.mem && !IsRed(t, o) && IsRed(t, Kid(t.mem[o], left)) && !IsRed(t, Kid(t.mem[o], !left))
  }

  /** The links after the rotation. */
  lemma InnerNephewLinks(t: Tree, x: Ptr, par: Ptr, left: bool)
    requires InnerNephew(t, x, par, left)
    ensures par in t.mem && Kid(t.mem[par], !left) in t.mem
    ensures var o := Kid(t.mem[par], !left);
            var i := Kid(t.mem[o], left);
            var t1 := Exchanged(t, i, o);
            && CanRotate(t1, o, !left) && o in t1.lab && o in t1.mem && Kid(t1.mem[o], left) == i
            && i in t1.lab && i in t1.mem && i in t.mem && i != par && i != x && o != x && o != par
            && t1.root == t.root && t.root != o && t.root != i
            && var t' := Rotated(t1, o, !left);
               && Shape(t') && t'.root == t.root && par in t'.mem && i in t'.mem && par in t'.lab
               && t'.mem.Keys == t.mem.Keys == t1.mem.Keys && t'.lab[par] == t1.lab[par]
               && Kid(t'.mem[par], !left) == i && Kid(t'.mem[i], !left) == o && Kid(t'.mem[par], left) == x
               && (x != NULL ==> x in t'.mem && t'.mem[x].parent == par)
  {
    hide Shape, RotatedMem, Linked, Exchanged, Erasing, Good;
    Siblings(t, x, par, left);
    var o := Kid(t.mem[par], !left);
    var i := Kid(t.mem[o], left);
    var t1 := Exchanged(t, i, o);
    Kids(t, par);
    Kids(t, o);
    Kids(t, i);
    if x != NULL { Kids(t, x); }
    ExchangedLinks(t, i, o);
    ExchangedValues(t, i, o, par);
    ExchangedValues(t, i, o, i);
    ExchangedValues(t, i, o, o);
    ExchangedValues(t, i, o, x);
    SameShape(t, t1);
    Parties(t1, o, !left);
    RotatedShape(t1, o, !left);
    RotatedAt(t1, o, !left, par);
    RotatedAt(t1, o, !left, i);
    if x != NULL { RotatedAt(t1, o, !left, x); }
  }

  lemma InnerNephewOk(t: Tree, x: Ptr, par: Ptr, left: bool)
    requires InnerNephew(t, x, par, left)
    ensures par in t.mem && Kid(t.mem[par], !left) in t.mem
    ensures var o := Kid(t.mem[par], !left);
            var i := Kid(t.mem[o], left);
            var t1 := Exchanged(t, i, o);
            && CanRotate(t1, o, !left) && o in t1.lab && o in t1.mem && Kid(t1.mem[o], left) == i
            && i in t1.lab && i in t1.mem && i in t.mem
            && var t' := Rotated(t1, o, !left);
               && Erasing(t', x, par, left) && !IsRed(t', x) && t'.root != x
               && par in t'.mem && t'.mem.Keys == t.mem.Keys == t1.mem.Keys && i in t'.mem
               && Kid(t'.mem[par], !left) == i && !IsRed(t', i) && Kid(t'.mem[i], !left) == o && IsRed(t', o)
               && t'.mem[par].red == t.mem[par].red
  {
    hide Shape, Rotated, Linked, Prepared, Exchanged, Holds, Balanced, HoldsOn, CanRotate;
    InnerNephewLinks(t, x, par, left);
    Siblings(t, x, par, left);
    var o := Kid(t.mem[par], !left);
    var i := Kid(t.mem[o], left);
    var t1 := Exchanged(t, i, o);
    var t' := Rotated(t1, o, !left);
    assert EraseOk(t, x, par, left, par);
    ExchangedValues(t, i, o, par);
    ExchangedValues(t, i, o, i);
    ExchangedValues(t, i, o, o);
    ExchangedValues(t, i, o, x);
    ExchangedValues(t, i, o, t.root);
    RotatedAlike(t1, o, !left, x);
    RotatedAlike(t1, o, !left, i);
    RotatedAlike(t1, o, !left, par);
    RotatedAlike(t1, o, !left, o);
    RotatedAlike(t1, o, !left, t.root);
    forall q | q in t'.mem && q in t'.lab && q != par ensures EraseOk(t', x, par, left, q) {
      InnerNephewPrepared(t, x, par, left, q);
      RotatedGood(t1, o, !left, q);
      GoodErase(t', x, par, left, q);
    }
    assert EraseOk(t', x, par, left, par);
  }

  // ---------- a red outer nephew fills the gap ----------

  function Filled(t: Tree, o: Ptr, par: Ptr, u: Ptr): Tree
    requires par in t.mem
  {
    Raise(Raise(Paint(Paint(Paint(t, o, t.mem[par].red), par, false), u, false), par, -1), o, 1)
  }

  lemma FilledValues(t: Tree, o: Ptr, par: Ptr, u: Ptr, k: Ptr)
    requires o in t.mem && par in t.mem && u in t.mem && o in t.lab && par in t.lab && u in t.lab && NULL !in t.mem
    requires o != par && u != par && u != o && !t.mem[o].red && t.mem[u].red
    ensures var t' := Filled(t, o, par, u); var b := if t.mem[par].red then 0 else 1;
            && t'.mem.Keys == t.mem.Keys && t'.lab.Keys == t.lab.Keys && SameLinks(t, t')
            && BhOf(t', k)
               == (if k == o then t.lab[o].bh + 1 + b else if k == par then t.lab[par].bh
               else if k == u then BhOf(t, u) + 1 else BhOf(t, k))
            && IsRed(t', k) == (if k == o then t.mem[par].red else k != par && k != u && IsRed(t, k))
            && (k in t.mem ==> t'.mem[k] == t.mem[k].(red := IsRed(t', k)))
            && (k in t.lab ==> t'.lab[k].bh == t.lab[k].bh + (if k == par then -1 else if k == o then 1 else 0))
  {
  }

  /** A black sibling whose outer child is red. */
  ghost predicate OuterNephew(t: Tree, x: Ptr, par: Ptr, left: bool) {
    && Erasing(t, x, par, left) && !IsRed(t, x) && t.root != x && par in t.mem
    && var o := Kid(t.mem[par], !left);
       o in t.mem && !IsRed(t, o) && IsRed(t, Kid(t.mem[o], !left))
  }

  /** The two nodes that will be rotated. */
  lemma FilledHere(t: Tree, x: Ptr, par: Ptr, left: bool)
    requires OuterNephew(t, x, par, left)
    ensures var o := Kid(t.mem[par], !left);
            var t1 := Filled(t, o, par, Kid(t.mem[o], !left));
            && par in t1.mem && Kid(t1.mem[par], !left) == o && o in t1.mem
            && Prepared(t1, par, left, par) && Prepared(t1, par, left, o)
  {
    hide Shape, Filled, Erasing;
    Siblings(t, x, par, left);
    var o := Kid(t.mem[par], !left);
    var u := Kid(t.mem[o], !left);
    Kids(t, par);
    FilledValues(t, o, par, u, par);
    FilledValues(t, o, par, u, o);
    FilledValues(t, o, par, u, x);
    FilledValues(t, o, par, u, u);
    FilledValues(t, o, par, u, Kid(t.mem[o], left));
  }

  /** Any other node. */
  lemma FilledFar(t: Tree, x: Ptr, par: Ptr, left: bool, q: Ptr)
    requires OuterNephew(t, x, par, left) && q in t.mem && q != par && q != Kid(t.mem[par], !left)
    ensures var o := Kid(t.mem[par], !left);
            var t1 := Filled(t, o, par, Kid(t.mem[o], !left));
            q in t1.mem && par in t1.mem && Kid(t1.mem[par], !left) == o && o in t1.mem && Prepared(t1, par, left, q)
  {
    hide Shape, Filled, Erasing;
    Siblings(t, x, par, left);
    var o := Kid(t.mem[par], !left);
    var u := Kid(t.mem[o], !left);
    Kids(t, q);
    Kids(t, par);
    FilledValues(t, o, par, u, q);
    FilledValues(t, o, par, u, par);
    FilledValues(t, o, par, u, o);
    FilledValues(t, o, par, u, t.mem[q].left);
    FilledValues(t, o, par, u, t.mem[q].right);
  }

  lemma FilledPrepared(t: Tree, x: Ptr, par: Ptr, left: bool, q: Ptr)
    requires OuterNephew(t, x, par, left) && q in t.mem && q in t.lab && par in t.mem
    ensures var o := Kid(t.mem[par], !left);
            o in t.mem &&
            var t1 := Filled(t, o, par, Kid(t.mem[o], !left));
            q in t1.mem && par in t1.mem && Kid(t1.mem[par], !left) == o && o in t1.mem && Prepared(t1, par, left, q)
  {
    hide Filled, Prepared, Erasing, Shape;
    FilledHere(t, x, par, left);
    if q != par && q != Kid(t.mem[par], !left) { FilledFar(t, x, par, left, q); }
  }

  lemma FilledOk(t: Tree, x: Ptr, par: Ptr, left: bool)
    requires Erasing(t, x, par, left) && !IsRed(t, x) && t.root != x && par in t.mem
    requires var o := Kid(t.mem[par], !left);
             o in t.mem && !IsRed(t, o) && IsRed(t, Kid(t.mem[o], !left))
    ensures var o := Kid(t.mem[par], !left);
            var t1 := Filled(t, o, par, Kid(t.mem[o], !left));
            CanRotate(t1, par, left) && par in t1.lab && Kid(t1.mem[par], !left) == o && o in t1.lab && o in t1.mem &&
            var t' := Rotated(t1, par, left);
            RedBlack(t') && t'.mem.Keys == t.mem.Keys == t1.mem.Keys && t'.root in t'.mem
  {
    hide Shape, RotatedMem, RotatedLab, Linked, Prepared, Filled, Balanced, RedOk, Good;
    Siblings(t, x, par, left);
    var o := Kid(t.mem[par], !left);
    var u := Kid(t.mem[o], !left);
    var t1 := Filled(t, o, par, u);
    Kids(t, par);
    Kids(t, o);
    FilledValues(t, o, par, u, par);
    FilledValues(t, o, par, u, o);
    SameShape(t, t1);
    Parties(t1, par, left);
    RotatedShape(t1, par, left);
    var t' := Rotated(t1, par, left);
    RotatedAlike(t1, par, left, t'.root);
    FilledValues(t, o, par, u, t'.root);
    RotatedAt(t1, par, left, par);
    RootThere(t', par);
    forall q | q in t'.mem && q in t'.lab ensures Balanced(t', q) && RedOk(t', q) {
      RotatedAlike(t1, par, left, q);
      FilledPrepared(t, x, par, left, q);
      RotatedGood(t1, par, left, q);
      GoodParts(t', q);
    }
  }

  lemma GoodParts(t: Tree, q: Ptr)
    requires Good(t, q)
    ensures q in t.lab && Balanced(t, q) && RedOk(t, q)
  {
  }

  lemma RootThere(t: Tree, q: Ptr)
    requires Shape(t) && q in t.mem
    ensures t.root in t.mem
  {
    assert Linked(t, q);
  }

  lemma GoodErase(t: Tree, x: Ptr, par: Ptr, left: bool, q: Ptr)
    requires Good(t, q) && q != par
    ensures q in t.lab && EraseOk(t, x, par, left, q)
  {
  }

  // ---------- the fix-up makes progress ----------

  ghost function EraseUp(t: Tree, x: Ptr, par: Ptr): nat {
    if !IsRed(t, x) && t.root != x && par in t.lab && t.lab[par].hi - t.lab[par].lo <= |t.order|
    then 1 + |t.order| - (t.lab[par].hi - t.lab[par].lo) else 0
  }

  lemma EraseUpBound(t: Tree, x: Ptr, par: Ptr, left: bool)
    requires Erasing(t, x, par, left) && !IsRed(t, x) && t.root != x
    ensures EraseUp(t, x, par) > 0
  {
    assert Linked(t, par);
  }

  lemma PushedLess(t: Tree, x: Ptr, par: Ptr, left: bool)
    requires Erasing(t, x, par, left) && !IsRed(t, x) && t.root != x && par in t.mem
    requires var o := Kid(t.mem[par], !left);
             !IsRed(t, o) && (o in t.mem ==> !IsRed(t, t.mem[o].left) && !IsRed(t, t.mem[o].right))
    ensures var o := Kid(t.mem[par], !left);
            EraseUp(Pushed(t, o, par), par, t.mem[par].parent) < EraseUp(t, x, par)
  {
    hide Shape, EraseOk;
    EraseUpBound(t, x, par, left);
    PushedOk(t, x, par, left);
    SpanIn(t, par);
  }

  lemma SpanIn(t: Tree, q: Ptr)
    requires Shape(t) && q in t.mem
    ensures q in t.lab && 0 <= t.lab[q].lo < t.lab[q].hi <= |t.order|
  {
    assert Linked(t, q);
  }

  /** The sibling and its children, as the fix-up looks at them. */
  lemma Looks(t: Tree, x: Ptr, par: Ptr, left: bool)
    requires Erasing(t, x, par, left) && !IsRed(t, x) && t.root != x
    ensures par in t.mem && par in t.lab && Kid(t.mem[par], left) == x && Kid(t.mem[par], !left) != x && NULL !in t.mem
    ensures var o := Kid(t.mem[par], !left);
            && o in t.mem && o in t.lab && o != par
            && (t.mem[o].left == NULL || t.mem[o].left in t.mem) && (t.mem[o].right == NULL || t.mem[o].right in t.mem)
    ensures x == NULL || x in t.mem
  {
    hide Shape, EraseOk;
    Siblings(t, x, par, left);
  }

  lemma NotRed(t: Tree, x: Ptr, par: Ptr, left: bool)
    requires Erasing(t, x, par, left)
    ensures (x == NULL || x in t.mem) && NULL !in t.mem
    ensures x == NULL ==> !IsRed(t, x)
    ensures par == NULL <==> t.root == x
  {
    assert NULL in t.mem ==> Linked(t, NULL);
  }

  lemma RedIsLast(t: Tree, x: Ptr, par: Ptr)
    ensures IsRed(t, x) ==> EraseUp(t, x, par) == 0
  {
  }

  lemma StaysBlack(t: Tree)
    requires RedBlack(t)
    ensures Painted(t.mem, t.root, false) == t.mem
  {
  }

  // ---------- walking along the tree ----------

  lemma RootEdge(t: Tree)
    requires Shape(t)
    ensures if t.root == NULL then t.order == []
            else t.root in t.mem && t.root in t.lab && t.lab[t.root].lo == 0 && t.order != []
  {
    if t.root != NULL { assert Linked(t, t.root); }
  }

  /** How a node and its parent divide their intervals. */
  lemma Above(t: Tree, q: Ptr)
    requires Shape(t) && q in t.mem
    ensures q in t.lab && 0 <= t.lab[q].lo < t.lab[q].hi <= |t.order| && q != NULL
    ensures var p := t.mem[q].parent;
            && p != q
            && (p == NULL ==> t.lab[q].lo == 0 && t.lab[q].hi == |t.order|)
            && (p != NULL ==> (p in t.mem && p in t.lab && 0 <= t.lab[p].pos < |t.order| && t.order[t.lab[p].pos] == p
                && (t.mem[p].left == q || t.mem[p].right == q)
                && (t.mem[p].left == q ==> t.lab[q].hi == t.lab[p].pos && t.lab[q].lo == t.lab[p].lo)
                && (t.mem[p].right == q ==> t.lab[q].lo == t.lab[p].pos + 1 && t.lab[q].hi == t.lab[p].hi)))
  {
    assert Linked(t, q);
    if t.mem[q].parent != NULL { assert Linked(t, t.mem[q].parent); }
  }
}
