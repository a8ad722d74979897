/** Rotations keep the nodes in their order. */
module RbRotate {
  import opened RbModel

  /** A child link of `p`, if there is a node `p`, is redirected; otherwise the root is. */
  function Relinked(mem: Mem, p: Ptr, was: Ptr, now: Ptr): Mem {
    if p in mem then mem[p := if mem[p].left == was then mem[p].(left := now) else mem[p].(right := now)] else mem
  }

  function Reparented(mem: Mem, c: Ptr, p: Ptr): Mem {
    if c in mem then mem[c := mem[c].(parent := p)] else mem
  }

  /** The nodes after a rotation at `x` (to the left if `left`): the child on the other side goes up. */
  function RotatedMem(mem: Mem, x: Ptr, left: bool): Mem
    requires x in mem && Kid(mem[x], !left) in mem
  {
    var y := Kid(mem[x], !left);
    var c, p := Kid(mem[y], left), mem[x].parent;
    var m1 := mem[x := WithKid(mem[x], !left, c).(parent := y)][y := WithKid(mem[y], left, x).(parent := p)];
    Relinked(Reparented(m1, c, x), p, x, y)
  }

  function RotatedLab(t: Tree, x: Ptr, left: bool): Labels
    requires x in t.mem && x in t.lab && Kid(t.mem[x], !left) in t.lab
  {
    var y := Kid(t.mem[x], !left);
    var lx, ly := t.lab[x], t.lab[y];
    t.lab[x := if left then lx.(hi := ly.pos) else lx.(lo := ly.pos + 1)][y := ly.(lo := lx.lo, hi := lx.hi)]
  }

  function Rotated(t: Tree, x: Ptr, left: bool): Tree
    requires x in t.mem && x in t.lab && Kid(t.mem[x], !left) in t.mem && Kid(t.mem[x], !left) in t.lab
  {
    Tree(RotatedMem(t.mem, x, left), if t.mem[x].parent == NULL then Kid(t.mem[x], !left)
        else t.root, RotatedLab(t, x, left), t.order)
  }

  ghost predicate CanRotate(t: Tree, x: Ptr, left: bool) {
    Shape(t) && x in t.mem && Kid(t.mem[x], !left) != NULL
  }

  /** The nodes that take part are different from each other. */
  lemma Parties(t: Tree, x: Ptr, left: bool)
    requires CanRotate(t, x, left)
    ensures x in t.mem
    ensures var y := Kid(t.mem[x], !left);
            && x in t.mem && x in t.lab && y in t.mem && y in t.lab && x != NULL && y != x
            && t.mem[y].parent == x
            && var c, p := Kid(t.mem[y], left), t.mem[x].parent;
               && c != x && c != y && (c != NULL ==> c in t.mem && c in t.lab && t.mem[c].parent == y && c != p)
               && p != x && p != y && (p != NULL ==> (p in t.mem && p in t.lab && t.mem[p].left != t.mem[p].right
                                       && (t.mem[p].left == x || t.mem[p].right == x)))
               && (p == NULL <==> t.root == x) && NULL !in t.mem
  {
    var y := Kid(t.mem[x], !left);
    assert Linked(t, x);
    assert Linked(t, y);
    var c, p := Kid(t.mem[y], left), t.mem[x].parent;
    if c != NULL { assert Linked(t, c); }
    if p != NULL { assert Linked(t, p); }
    assert NULL in t.mem ==> Linked(t, NULL);
  }

  /** What has become of each node. */
  function RotatedNode(mem: Mem, x: Ptr, left: bool, q: Ptr): Node
    requires x in mem && Kid(mem[x], !left) in mem && q in mem
  {
    var y := Kid(mem[x], !left);
    var c, p := Kid(mem[y], left), mem[x].parent;
    if q == x then WithKid(mem[x], !left, c).(parent := y)
    else if q == y then WithKid(mem[y], left, x).(parent := p)
    else if q == c then mem[c].(parent := x)
    else if q == p then (if mem[p].left == x then mem[p].(left := y) else mem[p].(right := y))
    else mem[q]
  }

  lemma RotatedAt(t: Tree, x: Ptr, left: bool, q: Ptr)
    requires CanRotate(t, x, left) && q in t.mem
    ensures x in t.lab && Kid(t.mem[x], !left) in t.mem && Kid(t.mem[x], !left) in t.lab
    ensures Rotated(t, x, left).mem.Keys == t.mem.Keys && Rotated(t, x, left).lab.Keys == t.lab.Keys
    ensures Rotated(t, x, left).mem[q] == RotatedNode(t.mem, x, left, q)
  {
    hide Shape;
    Parties(t, x, left);
    NodeAt(t.mem, x, Kid(t.mem[x], !left), Kid(t.mem[Kid(t.mem[x], !left)], left), t.mem[x].parent, left, q);
  }

  lemma NodeAt(mem: Mem, x: Ptr, y: Ptr, c: Ptr, p: Ptr, left: bool, q: Ptr)
    requires x in mem && y in mem && y == Kid(mem[x], !left) && c == Kid(mem[y], left) && p == mem[x].parent
    requires x != y && c != x && c != y && p != x && p != y && NULL !in mem
    requires c != NULL ==> c in mem && c != p
    requires p != NULL ==> p in mem
    requires q in mem
    ensures RotatedMem(mem, x, left).Keys == mem.Keys && RotatedMem(mem, x, left)[q] == RotatedNode(mem, x, left, q)
  {
  }

  lemma LinkedAt(t: Tree, q: Ptr)
    requires Shape(t) && q in t.mem
    ensures q in t.lab && Linked(t, q)
  {
  }

  /** The links and labels of a node and of its neighbours, before and after. */
  lemma Around(t: Tree, x: Ptr, left: bool, q: Ptr)
    requires CanRotate(t, x, left) && q in t.mem
    ensures x in t.lab && Kid(t.mem[x], !left) in t.mem && Kid(t.mem[x], !left) in t.lab
    ensures q in t.lab && Linked(t, q) && q in Rotated(t, x, left).mem && q in Rotated(t, x, left).lab
    ensures Rotated(t, x, left).mem.Keys == t.mem.Keys && Rotated(t, x, left).lab.Keys == t.lab.Keys
    ensures Rotated(t, x, left).mem[q] == RotatedNode(t.mem, x, left, q)
  {
    hide Shape, Linked, RotatedMem, RotatedLab;
    Parties(t, x, left);
    LinkedAt(t, q);
    RotatedAt(t, x, left, q);
  }

  /** The inner child, which changes sides. */
  lemma RotatedLinkedInner(t: Tree, x: Ptr, left: bool, q: Ptr)
    requires CanRotate(t, x, left) && q in t.mem && Kid(t.mem[x], !left) in t.mem
            && q == Kid(t.mem[Kid(t.mem[x], !left)], left)
    ensures x in t.lab && Kid(t.mem[x], !left) in t.mem && Kid(t.mem[x], !left) in t.lab
    ensures q in Rotated(t, x, left).mem && q in Rotated(t, x, left).lab && Linked(Rotated(t, x, left), q)
  {
    hide Shape, RotatedMem;
    Parties(t, x, left);
    Around(t, x, left, q);
    var n := t.mem[q];
    if n.left != NULL { Around(t, x, left, n.left); }
    if n.right != NULL { Around(t, x, left, n.right); }
    if n.parent != NULL { Around(t, x, left, n.parent); }
    Around(t, x, left, x);
    Around(t, x, left, Kid(t.mem[x], !left));
  }

  /** The node above, which gets another child. */
  lemma RotatedLinkedAbove(t: Tree, x: Ptr, left: bool, q: Ptr)
    requires CanRotate(t, x, left) && q in t.mem && q == t.mem[x].parent
    ensures x in t.lab && Kid(t.mem[x], !left) in t.mem && Kid(t.mem[x], !left) in t.lab
    ensures q in Rotated(t, x, left).mem && q in Rotated(t, x, left).lab && Linked(Rotated(t, x, left), q)
  {
    hide Shape, RotatedMem;
    Parties(t, x, left);
    Around(t, x, left, q);
    var n := t.mem[q];
    if n.left != NULL { Around(t, x, left, n.left); }
    if n.right != NULL { Around(t, x, left, n.right); }
    if n.parent != NULL { Around(t, x, left, n.parent); }
    Around(t, x, left, x);
    Around(t, x, left, Kid(t.mem[x], !left));
  }

  lemma RotatedLinkedFar(t: Tree, x: Ptr, left: bool, q: Ptr)
    requires CanRotate(t, x, left) && q in t.mem && q != x && q != Kid(t.mem[x], !left) && Kid(t.mem[x], !left) in t.mem
    requires q != t.mem[x].parent && q != Kid(t.mem[Kid(t.mem[x], !left)], left)
    ensures x in t.lab && Kid(t.mem[x], !left) in t.mem && Kid(t.mem[x], !left) in t.lab
    ensures q in Rotated(t, x, left).mem && q in Rotated(t, x, left).lab && Linked(Rotated(t, x, left), q)
  {
    hide Shape, RotatedMem;
    Parties(t, x, left);
    Around(t, x, left, q);
    var n := t.mem[q];
    if n.left != NULL { Around(t, x, left, n.left); }
    if n.right != NULL { Around(t, x, left, n.right); }
    if n.parent != NULL { Around(t, x, left, n.parent); }
  }

  lemma RotatedLinkedHere(t: Tree, x: Ptr, left: bool)
    requires CanRotate(t, x, left)
    ensures x in t.lab && Kid(t.mem[x], !left) in t.mem && Kid(t.mem[x], !left) in t.lab
    ensures var t' := Rotated(t, x, left);
            x in t'.mem && x in t'.lab && Linked(t', x) &&
            var y := Kid(t.mem[x], !left); y in t'.mem && y in t'.lab && Linked(t', y)
  {
    hide Shape, RotatedMem;
    Parties(t, x, left);
    var y := Kid(t.mem[x], !left);
    var k, c, o, p := Kid(t.mem[x], left), Kid(t.mem[y], left), Kid(t.mem[y], !left), t.mem[x].parent;
    Around(t, x, left, x);
    Around(t, x, left, y);
    if k != NULL { Around(t, x, left, k); }
    if c != NULL { Around(t, x, left, c); }
    if o != NULL { Around(t, x, left, o); }
    if p != NULL { Around(t, x, left, p); }
  }

  lemma RotatedLinked(t: Tree, x: Ptr, left: bool, q: Ptr)
    requires CanRotate(t, x, left) && q in t.mem
    ensures x in t.lab && Kid(t.mem[x], !left) in t.mem && Kid(t.mem[x], !left) in t.lab
    ensures q in Rotated(t, x, left).mem && q in Rotated(t, x, left).lab && Linked(Rotated(t, x, left), q)
  {
    hide Shape, Linked, Rotated;
    Parties(t, x, left);
    var y := Kid(t.mem[x], !left);
    if q == x || q == y { RotatedLinkedHere(t, x, left); }
    else if q == t.mem[x].parent { RotatedLinkedAbove(t, x, left, q); }
    else if q == Kid(t.mem[y], left) { RotatedLinkedInner(t, x, left, q); }
    else { RotatedLinkedFar(t, x, left, q); }
  }

  /** A rotation keeps the shape, and so the nodes in their order. */
  lemma RotatedShape(t: Tree, x: Ptr, left: bool)
    requires CanRotate(t, x, left)
    ensures x in t.lab && Kid(t.mem[x], !left) in t.mem && Kid(t.mem[x], !left) in t.lab
    ensures Shape(Rotated(t, x, left))
  {
    hide Linked, RotatedMem;
    Parties(t, x, left);
    var t' := Rotated(t, x, left);
    forall q | q in t'.mem && q in t'.lab ensures Linked(t', q) {
      RotatedAt(t, x, left, x);
      RotatedLinked(t, x, left, q);
    }
    RotatedAt(t, x, left, x);
    RotatedAt(t, x, left, Kid(t.mem[x], !left));
    if t.root != NULL { RotatedAt(t, x, left, t.root); }
    forall i | 0 <= i < |t'.order| ensures Ordered(t', i) { assert Ordered(t, i); }
  }
}
