/** Red-black trees whose nodes are linked to their children and to their parent.

    The shape of a tree is described node by node: `order` is the list of its nodes from left to
    right, and each node is labelled with its position in that list and with the interval that its
    subtree covers. */
module RbModel {

  type Ptr = nat
  const NULL: Ptr := 0

  datatype Node = Node(left: Ptr, right: Ptr, parent: Ptr, red: bool)

  /** `bh` is the number of black nodes on any path below the node. */
  datatype Label = Label(pos: int, lo: int, hi: int, bh: int)

  type Mem = map<Ptr, Node>
  type Labels = map<Ptr, Label>

  datatype Tree = Tree(mem: Mem, root: Ptr, lab: Labels, order: seq<Ptr>)

  function Kid(n: Node, left: bool): Ptr { if left then n.left else n.right }

  function WithKid(n: Node, left: bool, k: Ptr): Node { if left then n.(left := k) else n.(right := k) }

  /** The interval of a missing child is empty. */
  ghost predicate Covers(mem: Mem, lab: Labels, p: Ptr, parent: Ptr, lo: int, hi: int) {
    if p == NULL then lo == hi
    else p in mem && p in lab && mem[p].parent == parent && lab[p].lo == lo && lab[p].hi == hi
  }

  ghost predicate Linked(t: Tree, p: Ptr)
    requires p in t.mem && p in t.lab
  {
    var n, l := t.mem[p], t.lab[p];
    && p != NULL
    && 0 <= l.lo <= l.pos < l.hi <= |t.order| && t.order[l.pos] == p
    && Covers(t.mem, t.lab, n.left, p, l.lo, l.pos)
    && Covers(t.mem, t.lab, n.right, p, l.pos + 1, l.hi)
    && Below(t, p)
  }

  /** The link from above. */
  ghost predicate Below(t: Tree, p: Ptr)
    requires p in t.mem
  {
    var up := t.mem[p].parent;
    if up == NULL then t.root == p else up in t.mem && (t.mem[up].left == p || t.mem[up].right == p)
  }

  ghost predicate Ordered(t: Tree, i: int)
    requires 0 <= i < |t.order|
  {
    t.order[i] in t.mem && t.order[i] in t.lab && t.lab[t.order[i]].pos == i
  }

  ghost predicate Shape(t: Tree) {
    && t.lab.Keys == t.mem.Keys
    && Covers(t.mem, t.lab, t.root, NULL, 0, |t.order|)
    && (forall i | 0 <= i < |t.order| :: Ordered(t, i))
    && forall p | p in t.mem && p in t.lab :: Linked(t, p)
  }

  // ---------- the labels say what following the links finds ----------

  /** The nodes found below `p` from left to right by following the links. */
  ghost function Walk(t: Tree, p: Ptr): seq<Ptr>
    requires Shape(t) && (p == NULL || p in t.mem)
    decreases if p == NULL then 0 else t.lab[p].hi - t.lab[p].lo
  {
    if p == NULL then []
    else
      assert Linked(t, p);
      assert t.mem[p].left != NULL ==> Linked(t, t.mem[p].left);
      assert t.mem[p].right != NULL ==> Linked(t, t.mem[p].right);
      Walk(t, t.mem[p].left) + [p] + Walk(t, t.mem[p].right)
  }

  lemma Parts(t: Tree, p: Ptr)
    requires Shape(t) && p in t.mem
    ensures p in t.lab && p != NULL
    ensures var n, l := t.mem[p], t.lab[p];
            && 0 <= l.lo <= l.pos < l.hi <= |t.order| && t.order[l.pos] == p
            && (n.left == NULL ==> l.lo == l.pos) && (n.right == NULL ==> l.pos + 1 == l.hi)
            && (n.left != NULL ==>
                  n.left in t.mem && n.left in t.lab && t.lab[n.left].lo == l.lo && t.lab[n.left].hi == l.pos)
            && (n.right != NULL ==>
                  n.right in t.mem && n.right in t.lab && t.lab[n.right].lo == l.pos + 1 && t.lab[n.right].hi == l.hi)
  {
    assert Linked(t, p);
  }

  lemma {:induction false} WalkIsInterval(t: Tree, p: Ptr)
    requires Shape(t) && p in t.mem
    ensures 0 <= t.lab[p].lo <= t.lab[p].hi <= |t.order| && Walk(t, p) == t.order[t.lab[p].lo..t.lab[p].hi]
    decreases t.lab[p].hi - t.lab[p].lo
  {
    hide Shape, Linked, Covers;
    Parts(t, p);
    var n, l := t.mem[p], t.lab[p];
    if n.left != NULL { WalkIsInterval(t, n.left); }
    if n.right != NULL { WalkIsInterval(t, n.right); }
    assert 0 <= l.pos < |t.order|;
    assert t.order[l.pos] == p;
    assert t.order[l.pos..l.pos + 1] == [p];
    assert t.order[l.lo..l.hi] == t.order[l.lo..l.pos] + [p] + t.order[l.pos + 1..l.hi];
  }

  /** The list `order` is the in-order traversal of the tree. */
  lemma InOrder(t: Tree)
    requires Shape(t)
    ensures t.root == NULL || t.root in t.mem
    ensures Walk(t, t.root) == t.order
  {
    if t.root != NULL { WalkIsInterval(t, t.root); }
    assert t.order[0..|t.order|] == t.order;
  }

  // ---------- red and black ----------

  /** The number of black nodes on the paths through `p`, itself included. */
  function BhOf(t: Tree, p: Ptr): int {
    if p == NULL || p !in t.mem || p !in t.lab then 0 else t.lab[p].bh + (if t.mem[p].red then 0 else 1)
  }

  predicate IsRed(t: Tree, p: Ptr) { p in t.mem && t.mem[p].red }

  ghost predicate Balanced(t: Tree, p: Ptr)
    requires p in t.mem && p in t.lab
  {
    t.lab[p].bh >= 0 && BhOf(t, t.mem[p].left) == t.lab[p].bh && BhOf(t, t.mem[p].right) == t.lab[p].bh
  }

  ghost predicate RedOk(t: Tree, p: Ptr)
    requires p in t.mem
  {
    t.mem[p].red ==> !IsRed(t, t.mem[p].left) && !IsRed(t, t.mem[p].right)
  }

  ghost predicate RedBlack(t: Tree) {
    && Shape(t) && !IsRed(t, t.root)
    && forall p | p in t.mem && p in t.lab :: Balanced(t, p) && RedOk(t, p)
  }

  function Pow2(n: nat): nat { if n == 0 then 1 else 2 * Pow2(n - 1) }

  /** The length of the longest path below `p`. */
  ghost function Height(t: Tree, p: Ptr): nat
    requires Shape(t) && (p == NULL || p in t.mem)
    decreases if p == NULL then 0 else t.lab[p].hi - t.lab[p].lo
  {
    if p == NULL then 0
    else
      assert Linked(t, p);
      assert t.mem[p].left != NULL ==> Linked(t, t.mem[p].left);
      assert t.mem[p].right != NULL ==> Linked(t, t.mem[p].right);
      var l, r := Height(t, t.mem[p].left), Height(t, t.mem[p].right);
      1 + if l > r then l else r
  }

  /** Many nodes below a node of large black height, and no path longer than twice that. */
  lemma {:induction false} Bounds(t: Tree, p: Ptr)
    requires RedBlack(t) && p in t.mem
    ensures t.lab[p].bh >= 0 && t.lab[p].hi - t.lab[p].lo + 1 >= Pow2(BhOf(t, p))
    ensures Height(t, p) <= 2 * BhOf(t, p) + (if IsRed(t, p) then 1 else 0)
    decreases t.lab[p].hi - t.lab[p].lo
  {
    Parts(t, p);
    assert Balanced(t, p) && RedOk(t, p);
    hide Shape, RedBlack, Pow2, Height;
    var n, l := t.mem[p], t.lab[p];
    Doubles(l.bh);
    HeightStep(t, p);
    if n.left != NULL { Bounds(t, n.left); }
    if n.right != NULL { Bounds(t, n.right); }
    assert l.pos - l.lo + 1 >= Pow2(l.bh) && l.hi - (l.pos + 1) + 1 >= Pow2(l.bh);
  }

  lemma HeightStep(t: Tree, p: Ptr)
    requires Shape(t) && p in t.mem
    ensures var n := t.mem[p];
            && (n.left == NULL || n.left in t.mem) && (n.right == NULL || n.right in t.mem)
            && Height(t, NULL) == 0
            && Height(t, p) == 1 + if Height(t, n.left) > Height(t, n.right) then Height(t, n.left)
               else Height(t, n.right)
  {
    assert Linked(t, p);
  }

  lemma Doubles(n: nat)
    ensures Pow2(0) == 1 && Pow2(n + 1) == 2 * Pow2(n) && Pow2(n) >= 1
  {
    if n > 0 { Doubles(n - 1); }
  }

  /** A tree of n nodes is at most 2 * log2(n + 1) deep. */
  ghost predicate Shallow(t: Tree)
    requires Shape(t)
  {
    (t.root == NULL || t.root in t.mem) && exists k: nat :: Height(t, t.root) <= 2 * k && Pow2(k) <= |t.order| + 1
  }

  lemma HeightBound(t: Tree)
    requires RedBlack(t)
    ensures Shallow(t)
  {
    InOrder(t);
    if t.root == NULL {
      assert Height(t, t.root) <= 2 * 0 && Pow2(0) <= |t.order| + 1;
    } else {
      Bounds(t, t.root);
      var k: nat := BhOf(t, t.root);
      assert Height(t, t.root) <= 2 * k && Pow2(k) <= |t.order| + 1;
    }
  }
}
