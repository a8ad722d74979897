/** Taking a node with at most one child out of the tree. */
module RbSplice {
  import opened RbModel
  import opened RbRotate

  ghost predicate CanSplice(t: Tree, x: Ptr) {
    Shape(t) && x in t.mem && (t.mem[x].left == NULL || t.mem[x].right == NULL)
  }

  /** The child that takes the place of `x`. */
  function Heir(mem: Mem, x: Ptr): Ptr
    requires x in mem
  {
    if mem[x].left == NULL then mem[x].right else mem[x].left
  }

  function SplicedMem(mem: Mem, x: Ptr): Mem
    requires x in mem
  {
    Relinked(Reparented(mem, Heir(mem, x), mem[x].parent), mem[x].parent, x, Heir(mem, x)) - {x}
  }

  function Drop(v: int, i: int): int { if v > i then v - 1 else v }

  function Fallen(l: Label, i: int): Label { Label(Drop(l.pos, i), Drop(l.lo, i), Drop(l.hi, i), l.bh) }

  ghost function Spliced(t: Tree, x: Ptr): Tree
    requires x in t.mem && x in t.lab && 0 <= t.lab[x].pos < |t.order|
  {
    var i := t.lab[x].pos;
    Tree(SplicedMem(t.mem, x), if t.mem[x].parent == NULL then Heir(t.mem, x) else t.root,
         map q | q in t.lab.Keys - {x} :: Fallen(t.lab[q], i), t.order[..i] + t.order[i + 1..])
  }

  lemma SpliceParties(t: Tree, x: Ptr)
    requires CanSplice(t, x)
    ensures x in t.lab && Linked(t, x) && 0 <= t.lab[x].pos < |t.order| && NULL !in t.mem && x != NULL
    ensures t.lab.Keys == t.mem.Keys && (t.mem[x].left == NULL || t.mem[x].right == NULL)
    ensures var c, p := Heir(t.mem, x), t.mem[x].parent;
            && c != x && p != x && (c == NULL || (c in t.mem && c in t.lab && t.mem[c].parent == x && c != p))
            && (p == NULL <==> t.root == x)
            && (p == NULL
               || (p in t.mem && p in t.lab && t.mem[p].left != t.mem[p].right
               && (t.mem[p].left == x || t.mem[p].right == x)))
  {
    assert Linked(t, x);
    assert NULL in t.mem ==> Linked(t, NULL);
    var c, p := Heir(t.mem, x), t.mem[x].parent;
    if c != NULL { assert Linked(t, c); }
    if p != NULL { assert Linked(t, p); }
  }

  function SplicedNode(mem: Mem, x: Ptr, q: Ptr): Node
    requires x in mem && q in mem
  {
    var c, p := Heir(mem, x), mem[x].parent;
    if q == c then mem[c].(parent := p)
    else if q == p then (if mem[p].left == x then mem[p].(left := c) else mem[p].(right := c))
    else mem[q]
  }

  lemma SplicedAt(t: Tree, x: Ptr, q: Ptr)
    requires CanSplice(t, x) && q in t.mem && q != x
    ensures x in t.lab && 0 <= t.lab[x].pos < |t.order| && q in t.lab && Linked(t, q)
    ensures var t' := Spliced(t, x);
            && t'.mem.Keys == t.mem.Keys - {x} && t'.lab.Keys == t.lab.Keys - {x} && q in t'.mem && q in t'.lab
            && t'.mem[q] == SplicedNode(t.mem, x, q) && t'.lab[q] == Fallen(t.lab[q], t.lab[x].pos)
            && t'.root == (if t.mem[x].parent == NULL then Heir(t.mem, x) else t.root)
  {
    hide Shape, Linked;
    SpliceParties(t, x);
    LinkedAt(t, q);
  }

  lemma SplicedOrder(t: Tree, x: Ptr, j: int)
    requires CanSplice(t, x) && 0 <= j < |t.order| - 1
    ensures x in t.lab && 0 <= t.lab[x].pos < |t.order|
    ensures var i, t' := t.lab[x].pos, Spliced(t, x);
            |t'.order| == |t.order| - 1 && t'.order[j] == if j < i then t.order[j] else t.order[j + 1]
  {
    hide Shape, Linked, SplicedMem;
    SpliceParties(t, x);
  }

  lemma SplicedBelow(t: Tree, x: Ptr, q: Ptr)
    requires CanSplice(t, x) && q in t.mem && q != x && q != Heir(t.mem, x) && q != t.mem[x].parent
    ensures x in t.lab && 0 <= t.lab[x].pos < |t.order|
    ensures q in Spliced(t, x).mem && Below(Spliced(t, x), q)
  {
    hide Shape, SplicedMem, Spliced, CanSplice, Covers;
    SpliceParties(t, x);
    SplicedAt(t, x, q);
    var up := t.mem[q].parent;
    if up != NULL && up != x { SplicedAt(t, x, up); }
  }

  lemma SplicedFar(t: Tree, x: Ptr, q: Ptr)
    requires CanSplice(t, x) && q in t.mem && q != x && q != Heir(t.mem, x) && q != t.mem[x].parent
    ensures x in t.lab && 0 <= t.lab[x].pos < |t.order|
    ensures q in Spliced(t, x).mem && q in Spliced(t, x).lab && Linked(Spliced(t, x), q)
  {
    hide Shape, SplicedMem, Spliced, CanSplice, Below;
    SpliceParties(t, x);
    SplicedAt(t, x, q);
    SplicedBelow(t, x, q);
    var n := t.mem[q];
    PlaceOf(t, x, q);
    SplicedOrder(t, x, Drop(t.lab[q].pos, t.lab[x].pos));
    if n.left != NULL && n.left != x { SplicedAt(t, x, n.left); }
    if n.right != NULL && n.right != x { SplicedAt(t, x, n.right); }
  }

  lemma SplicedHeir(t: Tree, x: Ptr, q: Ptr)
    requires CanSplice(t, x) && q in t.mem && q != x && q == Heir(t.mem, x)
    ensures x in t.lab && 0 <= t.lab[x].pos < |t.order| && q in Spliced(t, x).mem && q in Spliced(t, x).lab
            && Linked(Spliced(t, x), q)
  {
    hide Shape, SplicedMem, Spliced;
    SpliceParties(t, x);
    SplicedAt(t, x, q);
    var n, c, p := t.mem[q], Heir(t.mem, x), t.mem[x].parent;
    var j := Drop(t.lab[q].pos, t.lab[x].pos);
    PlaceOf(t, x, q);
    SplicedOrder(t, x, j);
    if n.left != NULL && n.left != x { SplicedAt(t, x, n.left); }
    if n.right != NULL && n.right != x { SplicedAt(t, x, n.right); }
    if n.parent != NULL && n.parent != x { SplicedAt(t, x, n.parent); }
    if c != NULL { SplicedAt(t, x, c); }
    if p != NULL { SplicedAt(t, x, p); }
  }

  lemma SplicedAbove(t: Tree, x: Ptr, q: Ptr)
    requires CanSplice(t, x) && q in t.mem && q != x && q == t.mem[x].parent
    ensures x in t.lab && 0 <= t.lab[x].pos < |t.order| && q in Spliced(t, x).mem && q in Spliced(t, x).lab
            && Linked(Spliced(t, x), q)
  {
    hide Shape, SplicedMem, Spliced;
    SpliceParties(t, x);
    SplicedAt(t, x, q);
    var n, c, p := t.mem[q], Heir(t.mem, x), t.mem[x].parent;
    var j := Drop(t.lab[q].pos, t.lab[x].pos);
    PlaceOf(t, x, q);
    SplicedOrder(t, x, j);
    if n.left != NULL && n.left != x { SplicedAt(t, x, n.left); }
    if n.right != NULL && n.right != x { SplicedAt(t, x, n.right); }
    if n.parent != NULL && n.parent != x { SplicedAt(t, x, n.parent); }
    if c != NULL { SplicedAt(t, x, c); }
    if p != NULL { SplicedAt(t, x, p); }
  }

  lemma SplicedLinked(t: Tree, x: Ptr, q: Ptr)
    requires CanSplice(t, x) && q in t.mem && q != x
    ensures x in t.lab && 0 <= t.lab[x].pos < |t.order| && q in Spliced(t, x).mem && q in Spliced(t, x).lab
            && Linked(Spliced(t, x), q)
  {
    if q == Heir(t.mem, x) { SplicedHeir(t, x, q); }
    else if q == t.mem[x].parent { SplicedAbove(t, x, q); }
    else { SplicedFar(t, x, q); }
  }

  /** Another node has another place. */
  lemma PlaceOf(t: Tree, x: Ptr, q: Ptr)
    requires CanSplice(t, x) && q in t.mem && q != x
    ensures x in t.lab && q in t.lab && 0 <= Drop(t.lab[q].pos, t.lab[x].pos) < |t.order| - 1
            && t.lab[q].pos != t.lab[x].pos
  {
    assert Linked(t, x) && Linked(t, q);
  }

  lemma SplicedShape(t: Tree, x: Ptr)
    requires CanSplice(t, x)
    ensures x in t.lab && 0 <= t.lab[x].pos < |t.order| && Shape(Spliced(t, x))
  {
    hide Linked;
    SpliceParties(t, x);
    var t' := Spliced(t, x);
    SplicedKeys(t, x);
    forall q | q in t'.mem && q in t'.lab ensures Linked(t', q) { SplicedLinked(t, x, q); }
    forall j | 0 <= j < |t'.order| ensures Ordered(t', j) {
      SplicedOrder(t, x, j);
      var k := if j < t.lab[x].pos then j else j + 1;
      assert Ordered(t, k) && Ordered(t, t.lab[x].pos);
      SplicedAt(t, x, t.order[k]);
    }
    if t.root != NULL && t.root != x { SplicedAt(t, x, t.root); RootSpan(t, x); }
    if t.root == x && Heir(t.mem, x) != NULL { SplicedAt(t, x, Heir(t.mem, x)); RootSpan(t, x); }
    if t.root == x { RootSpan(t, x); }
  }

  lemma SplicedKeys(t: Tree, x: Ptr)
    requires CanSplice(t, x)
    ensures x in t.lab && 0 <= t.lab[x].pos < |t.order|
    ensures Spliced(t, x).mem.Keys == t.mem.Keys - {x} && Spliced(t, x).lab.Keys == t.lab.Keys - {x}
  {
    hide Shape, Linked;
    SpliceParties(t, x);
  }

  lemma RootSpan(t: Tree, x: Ptr)
    requires CanSplice(t, x)
    ensures x in t.lab && t.root in t.lab && t.lab[t.root].lo == 0 && t.lab[t.root].hi == |t.order|
            && 0 <= t.lab[x].pos < |t.order|
    ensures var c := Heir(t.mem, x);
            t.root == x ==>
              && (c == NULL ==> |t.order| == 1)
              && (c != NULL ==>
                    && c in t.lab && Drop(t.lab[c].lo, t.lab[x].pos) == 0
                    && Drop(t.lab[c].hi, t.lab[x].pos) == |t.order| - 1)
  {
    assert Linked(t, x);
    var c := Heir(t.mem, x);
    if c != NULL { assert Linked(t, c); }
  }
}
