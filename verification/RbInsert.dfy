/** Colours: what the fix-up after an insertion keeps and repairs. */
module RbInsert {
  import opened RbModel
  import opened RbRotate
  import opened RbColor

  function Painted(mem: Mem, p: Ptr, red: bool): Mem { if p in mem then mem[p := mem[p].(red := red)] else mem }

  function Paint(t: Tree, p: Ptr, red: bool): Tree { t.(mem := Painted(t.mem, p, red)) }

  function Raise(t: Tree, p: Ptr, n: int): Tree {
    if p in t.lab then t.(lab := t.lab[p := t.lab[p].(bh := t.lab[p].bh + n)]) else t
  }

  /** Only colours and black heights differ. */
  ghost predicate SameLinks(t: Tree, t': Tree) {
    && t'.root == t.root && t'.order == t.order && t'.mem.Keys == t.mem.Keys && t'.lab.Keys == t.lab.Keys
    && (forall p | p in t.mem ::
          && t'.mem[p].left == t.mem[p].left && t'.mem[p].right == t.mem[p].right
          && t'.mem[p].parent == t.mem[p].parent)
    && (forall p | p in t.lab ::
          t'.lab[p].pos == t.lab[p].pos && t'.lab[p].lo == t.lab[p].lo && t'.lab[p].hi == t.lab[p].hi)
  }

  lemma SameShape(t: Tree, t': Tree)
    requires Shape(t) && SameLinks(t, t')
    ensures Shape(t')
  {
    forall q | q in t'.mem && q in t'.lab ensures Linked(t', q) { assert Linked(t, q); }
    forall i | 0 <= i < |t'.order| ensures Ordered(t', i) { assert Ordered(t, i); }
  }

  /** A red node keeps to the rule, except that `x` may be its red child. */
  ghost predicate RedBut(t: Tree, p: Ptr, x: Ptr)
    requires p in t.mem
  {
    t.mem[p].red ==>
      (t.mem[p].left == x || !IsRed(t, t.mem[p].left)) && (t.mem[p].right == x || !IsRed(t, t.mem[p].right))
  }

  /** Every node is good, except that the parent of `x` may be red like `x`. */
  ghost predicate NodeOk(t: Tree, x: Ptr, p: Ptr)
    requires x in t.mem && p in t.mem && p in t.lab
  {
    if p == t.mem[x].parent then Balanced(t, p) && RedBut(t, p, x) else Good(t, p)
  }

  /** During the fix-up only the red node `x` may have a red parent. */
  ghost predicate Inserting(t: Tree, x: Ptr) {
    && Shape(t) && x in t.mem && t.mem[x].red
    && (IsRed(t, t.root) ==> t.root == x)
    && forall p | p in t.mem && p in t.lab :: NodeOk(t, x, p)
  }

  ghost predicate RedParent(t: Tree, x: Ptr) { x in t.mem && IsRed(t, t.mem[x].parent) }

  lemma Kids(t: Tree, q: Ptr)
    requires Shape(t) && q in t.mem
    ensures q in t.lab && q != NULL && NULL !in t.mem
    ensures var n := t.mem[q];
            && (n.left != NULL ==> n.left in t.mem && n.left in t.lab && t.mem[n.left].parent == q)
            && (n.right != NULL ==> n.right in t.mem && n.right in t.lab && t.mem[n.right].parent == q)
            && (n.parent != NULL ==> n.parent in t.mem && (t.mem[n.parent].left == q || t.mem[n.parent].right == q))
            && (n.parent == NULL <==> t.root == q) && (n.left == NULL || n.left != n.right)
  {
    assert Linked(t, q);
    assert NULL in t.mem ==> Linked(t, NULL);
    if t.mem[q].left != NULL { assert Linked(t, t.mem[q].left); }
    if t.mem[q].right != NULL { assert Linked(t, t.mem[q].right); }
  }

  lemma InsertedAt(t: Tree, x: Ptr, p: Ptr)
    requires Inserting(t, x) && !RedParent(t, x) && p in t.mem && p in t.lab
    ensures var t' := Paint(t, t.root, false);
            p in t'.mem && p in t'.lab && Balanced(t', p) && RedOk(t', p)
  {
    hide Shape;
    Kids(t, x);
    Kids(t, p);
    assert NodeOk(t, x, p);
  }

  /** The fix-up ends when the parent is black, by making the root black. */
  lemma Inserted(t: Tree, x: Ptr)
    requires Inserting(t, x) && !RedParent(t, x)
    ensures RedBlack(Paint(t, t.root, false))
  {
    hide Shape, Balanced, RedOk, NodeOk;
    var t' := Paint(t, t.root, false);
    SameShape(t, t');
    Kids(t, x);
    forall p | p in t'.mem && p in t'.lab ensures Balanced(t', p) && RedOk(t', p) { InsertedAt(t, x, p); }
  }

  /** The nodes that a red node with a red parent is surrounded by. */
  lemma Family(t: Tree, x: Ptr)
    requires Inserting(t, x) && RedParent(t, x)
    ensures var p := t.mem[x].parent;
            && NULL !in t.mem && x in t.mem && x in t.lab && p in t.mem && p in t.lab && p != x && t.mem[p].red
            && var g := t.mem[p].parent;
               && g in t.mem && g in t.lab && g != p && g != x && !t.mem[g].red
               && t.mem[g].left != t.mem[g].right && (t.mem[g].left == p || t.mem[g].right == p)
               && t.mem[p].left != t.mem[p].right && (t.mem[p].left == x || t.mem[p].right == x)
               && t.lab[p].bh == t.lab[x].bh == t.lab[g].bh
  {
    var p := t.mem[x].parent;
    Kids(t, x);
    assert Linked(t, x) && NodeOk(t, x, x);
    assert Linked(t, p) && NodeOk(t, x, p);
    var g := t.mem[p].parent;
    assert Linked(t, g) && NodeOk(t, x, g);
  }

  // ---------- a red uncle: the colours are exchanged and the problem moves up ----------

  function Recolored(t: Tree, u: Ptr, p: Ptr, g: Ptr): Tree {
    Raise(Paint(Paint(Paint(t, u, false), p, false), g, true), g, 1)
  }

  ghost predicate Uncle(t: Tree, x: Ptr, u: Ptr) {
    && x in t.mem && t.mem[x].parent in t.mem && t.mem[t.mem[x].parent].parent in t.mem
    && var p := t.mem[x].parent;
       var g := t.mem[p].parent;
       u == if t.mem[g].left == p then t.mem[g].right else t.mem[g].left
  }

  /** What each node counts after the exchange. */
  lemma RecoloredValues(t: Tree, u: Ptr, p: Ptr, g: Ptr, k: Ptr)
    requires u in t.mem && p in t.mem && g in t.mem && u in t.lab && p in t.lab && g in t.lab && u != p && u != g
            && p != g && NULL !in t.mem
    requires t.mem[u].red && t.mem[p].red && !t.mem[g].red
    ensures var t' := Recolored(t, u, p, g);
            && t'.mem.Keys == t.mem.Keys && t'.lab.Keys == t.lab.Keys
            && BhOf(t', k) == BhOf(t, k) + (if k == u || k == p then 1 else 0)
            && IsRed(t', k) == (k == g || (k != u && k != p && IsRed(t, k)))
            && (k in t.mem ==> t'.mem[k] == t.mem[k].(red := IsRed(t', k)))
            && (k in t.lab ==> t'.lab[k] == if k == g then t.lab[k].(bh := t.lab[k].bh + 1) else t.lab[k])
  {
  }

  lemma RecoloredAt(t: Tree, x: Ptr, u: Ptr, q: Ptr)
    requires Inserting(t, x) && RedParent(t, x) && Uncle(t, x, u) && IsRed(t, u) && q in t.mem && q in t.lab
    ensures var p := t.mem[x].parent;
            var g := t.mem[p].parent;
            var t' := Recolored(t, u, p, g);
            q in t'.mem && q in t'.lab && g in t'.mem && NodeOk(t', g, q)
  {
    hide Shape, Recolored;
    Family(t, x);
    var p := t.mem[x].parent;
    var g := t.mem[p].parent;
    Kids(t, q);
    Kids(t, g);
    RecoloredValues(t, u, p, g, q);
    RecoloredValues(t, u, p, g, g);
    RecoloredValues(t, u, p, g, t.mem[q].left);
    RecoloredValues(t, u, p, g, t.mem[q].right);
    hide BhOf, IsRed;
    assert NodeOk(t, x, q) && NodeOk(t, x, g);
  }

  lemma RecoloredOk(t: Tree, x: Ptr, u: Ptr)
    requires Inserting(t, x) && RedParent(t, x) && Uncle(t, x, u) && IsRed(t, u)
    ensures var p := t.mem[x].parent;
            var g := t.mem[p].parent;
            g in t.lab && x in t.lab && Inserting(Recolored(t, u, p, g), g)
                && Recolored(t, u, p, g).mem.Keys == t.mem.Keys && t.lab[g].hi - t.lab[g].lo > t.lab[x].hi - t.lab[x].lo
  {
    hide Shape, NodeOk, Linked;
    Family(t, x);
    var p := t.mem[x].parent;
    var g := t.mem[p].parent;
    var t' := Recolored(t, u, p, g);
    SameShape(t, t');
    Wider(t, x);
    Wider(t, p);
    Kids(t, u);
    Kids(t, x);
    forall q | q in t'.mem && q in t'.lab ensures NodeOk(t', g, q) { RecoloredAt(t, x, u, q); }
  }

  lemma Wider(t: Tree, x: Ptr)
    requires Shape(t) && x in t.mem && t.mem[x].parent != NULL
    ensures x in t.lab && t.mem[x].parent in t.lab
    ensures t.lab[t.mem[x].parent].lo <= t.lab[x].lo && t.lab[x].hi <= t.lab[t.mem[x].parent].hi
    ensures t.lab[x].hi - t.lab[x].lo < t.lab[t.mem[x].parent].hi - t.lab[t.mem[x].parent].lo
  {
    assert Linked(t, x);
    assert Linked(t, t.mem[x].parent);
  }

  // ---------- rotations ----------

  /** `x` is on side `left` of its parent, and the parent on side `left` of its own, or on the inner side. */
  ghost predicate Outer(t: Tree, x: Ptr, left: bool) {
    && x in t.mem && t.mem[x].parent in t.mem && t.mem[t.mem[x].parent].parent in t.mem
    && var p := t.mem[x].parent;
       Kid(t.mem[t.mem[p].parent], left) == p && Kid(t.mem[p], left) == x
  }

  ghost predicate Inner(t: Tree, x: Ptr, left: bool) {
    && x in t.mem && t.mem[x].parent in t.mem && t.mem[t.mem[x].parent].parent in t.mem
    && var p := t.mem[x].parent;
       Kid(t.mem[t.mem[p].parent], left) == p && Kid(t.mem[p], !left) == x
  }

  lemma InnerAt(t: Tree, x: Ptr, left: bool, q: Ptr)
    requires Inserting(t, x) && RedParent(t, x) && Inner(t, x, left) && q in t.mem && q in t.lab
    ensures var p := t.mem[x].parent;
            && CanRotate(t, p, left) && p in t.lab && Kid(t.mem[p], !left) in t.mem && Kid(t.mem[p], !left) in t.lab
            && var t' := Rotated(t, p, left);
               && q in t'.mem && q in t'.lab && p in t'.mem && t'.mem[p].parent == x
               && NodeOk(t', p, q)
  {
    hide Shape, RotatedMem, RotatedLab, Linked;
    Family(t, x);
    var p := t.mem[x].parent;
    Parties(t, p, left);
    RotatedAt(t, p, left, p);
    RotatedAt(t, p, left, q);
    assert NodeOk(t, x, q) && NodeOk(t, x, p) && NodeOk(t, x, x) && NodeOk(t, x, t.mem[p].parent);
    if q != x {
      RotatedGood(t, p, left, q);
    } else {
      var o := Kid(t.mem[x], !left);
      RotatedAlike(t, p, left, p);
      RotatedAlike(t, p, left, o);
      RotatedAlike(t, p, left, x);
    }
  }

  lemma InnerOk(t: Tree, x: Ptr, left: bool)
    requires Inserting(t, x) && RedParent(t, x) && Inner(t, x, left)
    ensures var p := t.mem[x].parent;
            CanRotate(t, p, left) && p in t.lab && Kid(t.mem[p], !left) == x && x in t.lab &&
            var t' := Rotated(t, p, left);
            Inserting(t', p) && RedParent(t', p) && Outer(t', p, left) && t'.mem.Keys == t.mem.Keys &&
            t'.mem[p].parent == x && t'.mem[x].parent == t.mem[p].parent &&
            (forall u | Uncle(t, x, u) :: Uncle(t', p, u) && IsRed(t', u) == IsRed(t, u))
  {
    hide Shape, RotatedMem, RotatedLab, Linked, NodeOk, BhOf;
    Family(t, x);
    Kids(t, x);
    var p := t.mem[x].parent;
    var g := t.mem[p].parent;
    Parties(t, p, left);
    RotatedShape(t, p, left);
    var t' := Rotated(t, p, left);
    RotatedAt(t, p, left, p);
    RotatedAt(t, p, left, x);
    RotatedAt(t, p, left, g);
    RotatedAlike(t, p, left, t'.root);
    forall q | q in t'.mem && q in t'.lab ensures NodeOk(t', p, q) {
      RotatedAlike(t, p, left, q);
      InnerAt(t, x, left, q);
    }
    forall u | Uncle(t, x, u) ensures Uncle(t', p, u) && IsRed(t', u) == IsRed(t, u) { RotatedAlike(t, p, left, u); }
  }

  /** The colours of parent and grandparent are exchanged. */
  function Exchanged(t: Tree, p: Ptr, g: Ptr): Tree { Paint(Paint(t, p, false), g, true) }

  lemma ExchangedValues(t: Tree, p: Ptr, g: Ptr, k: Ptr)
    requires p in t.mem && g in t.mem && p in t.lab && g in t.lab && p != g && NULL !in t.mem
    requires t.mem[p].red && !t.mem[g].red
    ensures var t' := Exchanged(t, p, g);
            && t'.mem.Keys == t.mem.Keys && t'.lab == t.lab
            && BhOf(t', k) == BhOf(t, k) + (if k == p then 1 else if k == g then -1 else 0)
            && IsRed(t', k) == (k == g || (k != p && IsRed(t, k)))
            && (k in t.mem ==> t'.mem[k] == t.mem[k].(red := IsRed(t', k)))
  {
  }

  lemma OuterPrepared(t: Tree, x: Ptr, u: Ptr, left: bool, q: Ptr)
    requires Inserting(t, x) && RedParent(t, x) && Uncle(t, x, u) && !IsRed(t, u) && Outer(t, x, left) && q in t.mem
            && q in t.lab
    ensures var p := t.mem[x].parent;
            var g := t.mem[p].parent;
            var t1 := Exchanged(t, p, g);
            q in t1.mem && g in t1.mem && Kid(t1.mem[g], left) == p && p in t1.mem && Prepared(t1, g, !left, q)
  {
    hide Shape, Exchanged;
    Family(t, x);
    var p := t.mem[x].parent;
    var g := t.mem[p].parent;
    Kids(t, q);
    Kids(t, g);
    Kids(t, p);
    assert NodeOk(t, x, q) && NodeOk(t, x, g) && NodeOk(t, x, p);
    ExchangedValues(t, p, g, q);
    ExchangedValues(t, p, g, g);
    ExchangedValues(t, p, g, p);
    ExchangedValues(t, p, g, x);
    ExchangedValues(t, p, g, u);
    ExchangedValues(t, p, g, Kid(t.mem[p], !left));
    ExchangedValues(t, p, g, t.mem[q].left);
    ExchangedValues(t, p, g, t.mem[q].right);
  }

  lemma OuterOk(t: Tree, x: Ptr, u: Ptr, left: bool)
    requires Inserting(t, x) && RedParent(t, x) && Uncle(t, x, u) && !IsRed(t, u) && Outer(t, x, left)
    ensures var p := t.mem[x].parent;
            var g := t.mem[p].parent;
            var t1 := Exchanged(t, p, g);
            CanRotate(t1, g, !left) && g in t1.lab && Kid(t1.mem[g], left) == p && p in t1.lab &&
            var t' := Rotated(t1, g, !left);
            Inserting(t', x) && !RedParent(t', x) && t'.mem.Keys == t.mem.Keys == t1.mem.Keys
  {
    hide Shape, RotatedMem, RotatedLab, Linked, NodeOk, BhOf, Prepared;
    Family(t, x);
    Kids(t, x);
    var p := t.mem[x].parent;
    var g := t.mem[p].parent;
    var t1 := Exchanged(t, p, g);
    SameShape(t, t1);
    Parties(t1, g, !left);
    RotatedShape(t1, g, !left);
    var t' := Rotated(t1, g, !left);
    RotatedAt(t1, g, !left, x);
    ExchangedValues(t, p, g, t1.root);
    ExchangedValues(t, p, g, p);
    RotatedAlike(t1, g, !left, t'.root);
    RotatedAlike(t1, g, !left, p);
    forall q | q in t'.mem && q in t'.lab ensures NodeOk(t', x, q) {
      RotatedAlike(t1, g, !left, q);
      OuterPrepared(t, x, u, left, q);
      RotatedGood(t1, g, !left, q);
      GoodIsOk(t', x, q);
    }
  }

  lemma GoodIsOk(t: Tree, x: Ptr, q: Ptr)
    requires Good(t, q) && x in t.mem
    ensures NodeOk(t, x, q)
  {
  }

  // ---------- the fix-up makes progress ----------

  ghost function FixUp(t: Tree, x: Ptr): nat {
    if RedParent(t, x) && x in t.lab
        && t.lab[x].hi - t.lab[x].lo <= |t.order| then 1 + |t.order| - (t.lab[x].hi - t.lab[x].lo) else 0
  }

  lemma FixUpBound(t: Tree, x: Ptr)
    requires Inserting(t, x) && RedParent(t, x)
    ensures FixUp(t, x) > 0
  {
    assert Linked(t, x);
  }

  lemma RecoloredLess(t: Tree, x: Ptr, u: Ptr)
    requires Inserting(t, x) && RedParent(t, x) && Uncle(t, x, u) && IsRed(t, u)
    ensures var p := t.mem[x].parent;
            var g := t.mem[p].parent;
            FixUp(Recolored(t, u, p, g), g) < FixUp(t, x)
  {
    hide Shape, NodeOk;
    Family(t, x);
    FixUpBound(t, x);
    RecoloredOk(t, x, u);
    LabelIn(t, x);
  }

  lemma LabelIn(t: Tree, x: Ptr)
    requires Inserting(t, x)
    ensures x in t.lab && 0 <= t.lab[x].lo < t.lab[x].hi <= |t.order|
  {
    assert Linked(t, x);
  }

  lemma FamilyLinks(t: Tree, x: Ptr)
    requires Inserting(t, x)
    ensures x in t.mem && (t.mem[x].parent != NULL ==> t.mem[x].parent in t.mem)
    ensures RedParent(t, x) <==> t.mem[x].parent != NULL && t.mem[t.mem[x].parent].red
  {
    hide Shape;
    Kids(t, x);
  }

  lemma FamilyKids(t: Tree, x: Ptr)
    requires Inserting(t, x) && RedParent(t, x)
    ensures var p := t.mem[x].parent;
            p in t.mem && var g := t.mem[p].parent;
            g in t.mem && (t.mem[g].left != NULL ==> t.mem[g].left in t.mem)
                && (t.mem[g].right != NULL ==> t.mem[g].right in t.mem)
  {
    hide Shape;
    Family(t, x);
    Kids(t, t.mem[t.mem[x].parent].parent);
  }

  lemma RootIn(t: Tree, x: Ptr)
    requires Inserting(t, x)
    ensures t.root in t.mem
  {
    assert Linked(t, x);
  }
}
