/** Hanging a new leaf into the tree. */
module RbAttach {
  import opened RbModel
  import opened RbRotate
  import opened RbColor
  import opened RbInsert

  ghost predicate CanAttach(t: Tree, x: Ptr, parent: Ptr, left: bool) {
    && x != NULL && x !in t.mem
    && if parent == NULL then t.root == NULL else parent in t.mem && Kid(t.mem[parent], left) == NULL
  }

  /** Where the new node comes in the list: just before or just after its parent. */
  function Place(t: Tree, parent: Ptr, left: bool): int
    requires parent != NULL ==> parent in t.lab
  {
    if parent == NULL then 0 else if left then t.lab[parent].pos else t.lab[parent].pos + 1
  }

  function Bump(v: int, i: int, strict: bool): int { if (if strict then v > i else v >= i) then v + 1 else v }

  function Moved(l: Label, i: int, left: bool): Label {
    Label(Bump(l.pos, i, false), Bump(l.lo, i, left), Bump(l.hi, i, left), l.bh)
  }

  function AttachedMem(mem: Mem, x: Ptr, parent: Ptr, left: bool): Mem {
    var m := mem[x := Node(NULL, NULL, parent, true)];
    if parent in mem then m[parent := WithKid(mem[parent], left, x)] else m
  }

  ghost function Attached(t: Tree, x: Ptr, parent: Ptr, left: bool): Tree
    requires parent != NULL ==> parent in t.lab && 0 <= t.lab[parent].pos < |t.order|
  {
    var i := Place(t, parent, left);
    Tree(AttachedMem(t.mem, x, parent, left), if parent == NULL then x else t.root,
         map q | q in t.lab.Keys + {x} :: if q == x then Label(i, i, i + 1, 0) else Moved(t.lab[q], i, left),
         t.order[..i] + [x] + t.order[i..])
  }

  lemma Known(t: Tree, x: Ptr, parent: Ptr, left: bool)
    requires Shape(t) && CanAttach(t, x, parent, left)
    ensures NULL !in t.mem
    ensures parent != NULL ==> parent in t.lab && 0 <= t.lab[parent].pos < |t.order| && Linked(t, parent)
    ensures parent != NULL ==> t.root != NULL
    ensures parent == NULL ==> t.order == [] && t.mem == map[] && t.lab == map[]
    ensures t.lab.Keys == t.mem.Keys
  {
    assert NULL in t.mem ==> Linked(t, NULL);
    if parent != NULL {
      assert Linked(t, parent);
    } else {
      forall q | q in t.mem ensures q in t.lab && Linked(t, q) {}
    }
  }

  lemma AttachedOrder(t: Tree, x: Ptr, parent: Ptr, left: bool, j: int)
    requires Shape(t) && CanAttach(t, x, parent, left) && 0 <= j <= |t.order|
    ensures parent != NULL ==> parent in t.lab && 0 <= t.lab[parent].pos < |t.order|
    ensures var i := Place(t, parent, left); var t' := Attached(t, x, parent, left);
            && |t'.order| == |t.order| + 1 && 0 <= i <= |t.order|
            && t'.order[j] == (if j < i then t.order[j] else if j == i then x else t.order[j - 1])
  {
    hide Shape;
    Known(t, x, parent, left);
    InsertedIn(t.order, Place(t, parent, left), x, j);
  }

  lemma InsertedIn(s: seq<Ptr>, i: int, x: Ptr, j: int)
    requires 0 <= i <= |s| && 0 <= j <= |s|
    ensures (s[..i] + [x] + s[i..])[j] == (if j < i then s[j] else if j == i then x else s[j - 1])
  {
  }

  /** What becomes of a node that was there before. */
  lemma AttachedNode(t: Tree, x: Ptr, parent: Ptr, left: bool, q: Ptr)
    requires Shape(t) && CanAttach(t, x, parent, left) && q in t.mem
    ensures parent in t.mem && parent in t.lab && 0 <= t.lab[parent].pos < |t.order|
    ensures parent != NULL && t.root != NULL && Kid(t.mem[parent], left) == NULL
    ensures q in t.lab && Linked(t, q) && (q != parent ==> t.lab[q].pos != t.lab[parent].pos)
    ensures var t' := Attached(t, x, parent, left);
            && q in t'.mem && q in t'.lab && q != x && t'.root == t.root
            && t'.mem[q] == (if q == parent then WithKid(t.mem[q], left, x) else t.mem[q])
            && t'.lab[q] == Moved(t.lab[q], Place(t, parent, left), left)
  {
    hide Shape, Linked, Moved;
    Known(t, x, parent, left);
    LinkedAt(t, q);
    if q != parent { Distinct(t, q, parent); }
  }

  lemma Distinct(t: Tree, q: Ptr, p: Ptr)
    requires Shape(t) && q in t.mem && p in t.mem && q != p
    ensures q in t.lab && p in t.lab && t.lab[q].pos != t.lab[p].pos
  {
    assert Linked(t, q) && Linked(t, p);
  }

  lemma AttachedFar(t: Tree, x: Ptr, parent: Ptr, left: bool, q: Ptr)
    requires Shape(t) && CanAttach(t, x, parent, left) && q in t.mem && q != parent
    ensures parent != NULL ==> parent in t.lab && 0 <= t.lab[parent].pos < |t.order|
    ensures var t' := Attached(t, x, parent, left); q in t'.mem && q in t'.lab && Linked(t', q)
  {
    hide Shape, CanAttach, Attached;
    AttachedNode(t, x, parent, left, q);
    var n := t.mem[q];
    AttachedOrder(t, x, parent, left, t.lab[q].pos);
    AttachedOrder(t, x, parent, left, t.lab[q].pos + 1);
    if n.left != NULL { AttachedNode(t, x, parent, left, n.left); }
    if n.right != NULL { AttachedNode(t, x, parent, left, n.right); }
    if n.parent != NULL { AttachedNode(t, x, parent, left, n.parent); }
  }

  lemma AttachedParent(t: Tree, x: Ptr, q: Ptr, left: bool)
    requires Shape(t) && CanAttach(t, x, q, left) && q in t.mem
    ensures q in t.lab && 0 <= t.lab[q].pos < |t.order|
    ensures var t' := Attached(t, x, q, left); q in t'.mem && q in t'.lab && Linked(t', q)
  {
    hide Shape;
    Known(t, x, q, left);
    LinkedAt(t, q);
    var n := t.mem[q];
    AttachedOrder(t, x, q, left, t.lab[q].pos);
    AttachedOrder(t, x, q, left, t.lab[q].pos + 1);
    if n.left != NULL { LinkedAt(t, n.left); }
    if n.right != NULL { LinkedAt(t, n.right); }
    if n.parent != NULL { LinkedAt(t, n.parent); }
  }

  lemma AttachedLinked(t: Tree, x: Ptr, parent: Ptr, left: bool, q: Ptr)
    requires Shape(t) && CanAttach(t, x, parent, left) && q in t.mem
    ensures parent != NULL ==> parent in t.lab && 0 <= t.lab[parent].pos < |t.order|
    ensures var t' := Attached(t, x, parent, left); q in t'.mem && q in t'.lab && Linked(t', q)
  {
    if q == parent { AttachedParent(t, x, q, left); } else { AttachedFar(t, x, parent, left, q); }
  }

  lemma AttachedSelf(t: Tree, x: Ptr, parent: Ptr, left: bool)
    requires Shape(t) && CanAttach(t, x, parent, left)
    ensures parent != NULL ==> parent in t.lab && 0 <= t.lab[parent].pos < |t.order|
    ensures var t' := Attached(t, x, parent, left); x in t'.mem && x in t'.lab && Linked(t', x)
  {
    hide Shape;
    Known(t, x, parent, left);
    AttachedOrder(t, x, parent, left, Place(t, parent, left));
  }

  lemma AttachedShape(t: Tree, x: Ptr, parent: Ptr, left: bool)
    requires Shape(t) && CanAttach(t, x, parent, left)
    ensures parent != NULL ==> parent in t.lab && 0 <= t.lab[parent].pos < |t.order|
    ensures Shape(Attached(t, x, parent, left))
  {
    hide Linked;
    Known(t, x, parent, left);
    var t' := Attached(t, x, parent, left);
    forall q | q in t'.mem && q in t'.lab ensures Linked(t', q) {
      if q == x { AttachedSelf(t, x, parent, left); } else { AttachedLinked(t, x, parent, left, q); }
    }
    forall j | 0 <= j < |t'.order| ensures Ordered(t', j) {
      AttachedOrder(t, x, parent, left, j);
      if j < |t.order| { assert Ordered(t, j); }
      if j > 0 { assert Ordered(t, j - 1); }
    }
    if t.root != NULL { LinkedAt(t, t.root); RootInside(t, parent); }
  }

  lemma RootInside(t: Tree, q: Ptr)
    requires Shape(t) && q in t.mem
    ensures q in t.lab && 0 <= t.lab[q].pos < |t.order| && t.root != NULL
  {
    assert Linked(t, q);
  }

  lemma AttachedValues(t: Tree, x: Ptr, parent: Ptr, left: bool, k: Ptr)
    requires Shape(t) && CanAttach(t, x, parent, left)
    ensures parent != NULL ==> parent in t.lab && 0 <= t.lab[parent].pos < |t.order|
    ensures var t' := Attached(t, x, parent, left);
            && NULL !in t'.mem && x in t'.mem && x in t'.lab && t'.mem[x] == Node(NULL, NULL, parent, true)
               && t'.lab[x].bh == 0
            && (k != x ==> Alike(t, t', k) && (k in t'.mem <==> k in t.mem) && (k in t'.lab <==> k in t.lab))
            && (k in t.mem && k in t.lab ==> (k != x && t'.lab[k].bh == t.lab[k].bh
                && t'.mem[k] == if k == parent then WithKid(t.mem[k], left, x) else t.mem[k]))
  {
    hide Shape;
    Known(t, x, parent, left);
  }

  lemma AttachedAt(t: Tree, x: Ptr, parent: Ptr, left: bool, q: Ptr)
    requires RedBlack(t) && CanAttach(t, x, parent, left)
    ensures parent != NULL ==> parent in t.lab && 0 <= t.lab[parent].pos < |t.order|
    ensures var t' := Attached(t, x, parent, left);
            x in t'.mem && t'.mem[x].parent == parent && (q in t'.mem && q in t'.lab ==> NodeOk(t', x, q))
  {
    hide Shape, Attached;
    Known(t, x, parent, left);
    AttachedValues(t, x, parent, left, q);
    AttachedValues(t, x, parent, left, NULL);
    if q in t.mem {
      Kids(t, q);
      assert Balanced(t, q) && RedOk(t, q);
      AttachedValues(t, x, parent, left, t.mem[q].left);
      AttachedValues(t, x, parent, left, t.mem[q].right);
    }
  }

  /** A red leaf may only clash with its parent. */
  lemma AttachedOk(t: Tree, x: Ptr, parent: Ptr, left: bool)
    requires RedBlack(t) && CanAttach(t, x, parent, left)
    ensures parent != NULL ==> parent in t.lab && 0 <= t.lab[parent].pos < |t.order|
    ensures Inserting(Attached(t, x, parent, left), x)
  {
    hide Linked, NodeOk, Shape;
    Known(t, x, parent, left);
    AttachedShape(t, x, parent, left);
    var t' := Attached(t, x, parent, left);
    AttachedAt(t, x, parent, left, x);
    forall q | q in t'.mem && q in t'.lab ensures NodeOk(t', x, q) { AttachedAt(t, x, parent, left, q); }
  }

  lemma Hangs(t: Tree, x: Ptr, parent: Ptr, left: bool)
    requires RedBlack(t) && CanAttach(t, x, parent, left)
    ensures x !in t.mem && x != NULL
            && (parent != NULL ==> parent in t.mem && parent in t.lab && 0 <= t.lab[parent].pos < |t.order|)
    ensures NULL !in t.mem
    ensures 0 <= Place(t, parent, left) <= |t.order|
  {
    Known(t, x, parent, left);
  }
}
