/** A node and its successor change places. */
module RbSwap {
  import opened RbModel
  import opened RbRotate
  import opened RbInsert
  import opened RbSplice
  import opened RbErase
  import opened RbRemove

  function Ren(a: Ptr, s: Ptr, q: Ptr): Ptr { if q == a then s else if q == s then a else q }

  function RenNode(a: Ptr, s: Ptr,
                   n: Node): Node { Node(Ren(a, s, n.left), Ren(a, s, n.right), Ren(a, s, n.parent), n.red) }

  ghost function Swapped(t: Tree, a: Ptr, s: Ptr): Tree
    requires a in t.mem && s in t.mem && a in t.lab && s in t.lab
  {
    Tree(map q | q in t.mem.Keys :: RenNode(a, s, t.mem[Ren(a, s, q)]), Ren(a, s, t.root),
         map q | q in t.lab.Keys :: t.lab[Ren(a, s, q)],
             seq(|t.order|, i requires 0 <= i < |t.order| => Ren(a, s, t.order[i])))
  }

  ghost predicate CanSwap(t: Tree, a: Ptr, s: Ptr) { Shape(t) && a in t.mem && s in t.mem && a != s }

  lemma SwapFacts(t: Tree, a: Ptr, s: Ptr)
    requires CanSwap(t, a, s)
    ensures a in t.lab && s in t.lab && NULL !in t.mem && t.lab.Keys == t.mem.Keys && a != NULL && s != NULL
  {
    assert NULL in t.mem ==> Linked(t, NULL);
  }

  lemma SwappedFields(t: Tree, a: Ptr, s: Ptr, q: Ptr)
    requires CanSwap(t, a, s) && q in t.mem
    ensures a in t.lab && s in t.lab
    ensures var t', r := Swapped(t, a, s), Ren(a, s, q);
            && t'.mem.Keys == t.mem.Keys && t'.lab.Keys == t.lab.Keys && |t'.order| == |t.order|
            && t'.root == Ren(a, s, t.root)
            && r in t.mem && r in t.lab && q in t'.mem && q in t'.lab && Linked(t, r)
            && t'.mem[q] == RenNode(a, s, t.mem[r]) && t'.lab[q] == t.lab[r] && t'.order[t.lab[r].pos] == q
  {
    hide Shape;
    SwapFacts(t, a, s);
    LinkedAt(t, Ren(a, s, q));
  }

  lemma SwappedBelow(t: Tree, a: Ptr, s: Ptr, q: Ptr)
    requires CanSwap(t, a, s) && q in t.mem
    ensures a in t.lab && s in t.lab && q in Swapped(t, a, s).mem && Below(Swapped(t, a, s), q)
  {
    hide Shape, Swapped, CanSwap, Covers;
    SwapFacts(t, a, s);
    SwappedFields(t, a, s, q);
    var up := t.mem[Ren(a, s, q)].parent;
    if up != NULL { SwappedFields(t, a, s, Ren(a, s, up)); }
  }

  lemma SwappedAt(t: Tree, a: Ptr, s: Ptr, q: Ptr)
    requires CanSwap(t, a, s) && q in t.mem
    ensures a in t.lab && s in t.lab
    ensures var t', r := Swapped(t, a, s), Ren(a, s, q);
            && t'.mem.Keys == t.mem.Keys && t'.lab.Keys == t.lab.Keys && |t'.order| == |t.order|
            && r in t.mem && r in t.lab && q in t'.mem && q in t'.lab && Linked(t', q)
            && t'.mem[q] == RenNode(a, s, t.mem[r]) && t'.lab[q] == t.lab[r]
  {
    hide Shape, Swapped, CanSwap, Below;
    SwapFacts(t, a, s);
    SwappedFields(t, a, s, q);
    SwappedBelow(t, a, s, q);
    var n := t.mem[Ren(a, s, q)];
    if n.left != NULL { SwappedFields(t, a, s, Ren(a, s, n.left)); }
    if n.right != NULL { SwappedFields(t, a, s, Ren(a, s, n.right)); }
  }

  lemma SwappedShape(t: Tree, a: Ptr, s: Ptr)
    requires CanSwap(t, a, s)
    ensures a in t.lab && s in t.lab && Shape(Swapped(t, a, s))
  {
    hide Linked;
    SwapFacts(t, a, s);
    var t' := Swapped(t, a, s);
    forall q | q in t'.mem && q in t'.lab ensures Linked(t', q) { SwappedAt(t, a, s, q); }
    forall i | 0 <= i < |t'.order| ensures Ordered(t', i) {
      assert Ordered(t, i);
      SwappedAt(t, a, s, t'.order[i]);
    }
    SwappedAt(t, a, s, a);
    if t.root != NULL { SwappedAt(t, a, s, t'.root); }
  }

  lemma SwappedAlike(t: Tree, a: Ptr, s: Ptr, k: Ptr)
    requires CanSwap(t, a, s)
    ensures a in t.lab && s in t.lab
    ensures BhOf(Swapped(t, a, s), k) == BhOf(t, Ren(a, s, k)) && IsRed(Swapped(t, a, s), k) == IsRed(t, Ren(a, s, k))
  {
    hide Shape, Linked;
    SwapFacts(t, a, s);
    if k in t.mem { SwappedAt(t, a, s, k); }
  }

  lemma SwappedGood(t: Tree, a: Ptr, s: Ptr, q: Ptr)
    requires RedBlack(t) && CanSwap(t, a, s) && q in t.mem
    ensures a in t.lab && s in t.lab
    ensures var t' := Swapped(t, a, s); q in t'.mem && q in t'.lab && Balanced(t', q) && RedOk(t', q)
  {
    hide Shape, Linked, Swapped;
    SwapFacts(t, a, s);
    var t', r := Swapped(t, a, s), Ren(a, s, q);
    SwappedAt(t, a, s, q);
    assert Balanced(t, r) && RedOk(t, r);
    SwappedAlike(t, a, s, t'.mem[q].left);
    SwappedAlike(t, a, s, t'.mem[q].right);
  }

  /** Exchanging two nodes together with their colours changes nothing but names. */
  lemma SwappedOk(t: Tree, a: Ptr, s: Ptr)
    requires RedBlack(t) && CanSwap(t, a, s)
    ensures a in t.lab && s in t.lab && RedBlack(Swapped(t, a, s))
  {
    hide Linked, Balanced, RedOk;
    SwapFacts(t, a, s);
    SwappedShape(t, a, s);
    var t' := Swapped(t, a, s);
    SwappedAlike(t, a, s, t'.root);
    assert Ren(a, s, t'.root) == t.root;
    SwappedAt(t, a, s, a);
    forall q | q in t'.mem && q in t'.lab ensures Balanced(t', q) && RedOk(t', q) { SwappedGood(t, a, s, q); }
  }

  /** `s` comes right after `a`, which has two children. */
  ghost predicate Successor(t: Tree, a: Ptr, s: Ptr) {
    && CanSwap(t, a, s) && a in t.lab && s in t.lab
    && t.mem[a].left != NULL && t.mem[a].right != NULL
    && t.lab[s].pos == t.lab[a].pos + 1 && t.mem[s].left == NULL
  }

  /** Taking `a` out after the exchange takes exactly `a` out of the list. */
  lemma SwapOrder(t: Tree, a: Ptr, s: Ptr)
    requires Successor(t, a, s)
    ensures var t1 := Swapped(t, a, s);
            && CanSplice(t1, a) && a in t1.lab && 0 <= t1.lab[a].pos < |t1.order| && 0 <= t.lab[a].pos < |t.order|
            && Spliced(t1, a).order == t.order[..t.lab[a].pos] + t.order[t.lab[a].pos + 1..]
  {
    hide Shape, Linked, SplicedMem;
    SwapFacts(t, a, s);
    LinkedPos(t, a);
    LinkedPos(t, s);
    SwappedShape(t, a, s);
    SwappedAt(t, a, s, a);
    var t1, i := Swapped(t, a, s), t.lab[a].pos;
    SpliceParties(t1, a);
    var o, o' := t.order[..i] + t.order[i + 1..], Spliced(t1, a).order;
    forall j | 0 <= j < |o| ensures o'[j] == o[j] {
      SplicedOrder(t1, a, j);
      if j < i { OtherPlace(t, a, s, j); } else if j > i { OtherPlace(t, a, s, j + 1); }
    }
  }

  lemma LinkedPos(t: Tree, q: Ptr)
    requires Shape(t) && q in t.mem
    ensures q in t.lab && 0 <= t.lab[q].pos < |t.order| && t.order[t.lab[q].pos] == q
  {
    assert Linked(t, q);
  }

  lemma OtherPlace(t: Tree, a: Ptr, s: Ptr, j: int)
    requires Shape(t) && 0 <= j < |t.order| && a in t.lab && s in t.lab && j != t.lab[a].pos && j != t.lab[s].pos
    ensures Ren(a, s, t.order[j]) == t.order[j]
  {
    assert Ordered(t, j);
  }

  // ---------- the links after a node has given way to its successor ----------

  function LowLeft(n: Node, was: Ptr, now: Ptr): Node { if n.left == was then n.(left := now) else n.(right := now) }

  /** What becomes of each node. */
  function GivenNode(mem: Mem, a: Ptr, s: Ptr, q: Ptr): Node
    requires a in mem && s in mem && q in mem
  {
    var c, sp := mem[s].right, mem[s].parent;
    var n := mem[q];
    if q == s then Node(mem[a].left, if sp == a then c else mem[a].right, mem[a].parent, mem[a].red)
    else
      var n1 := if q == mem[a].parent then LowLeft(n, a, s) else n;
      var n2 := if q == sp && sp != a then n1.(left := c) else n1;
      var n3 := if q == mem[a].left || q == mem[a].right then n2.(parent := s) else n2;
      if q == c then n3.(parent := if sp == a then s else sp) else n3
  }

  /** The successor is the leftmost node on the right. */
  ghost predicate Leftmost(t: Tree, a: Ptr, s: Ptr) {
    && Successor(t, a, s) && t.mem[s].parent in t.mem
    && (t.mem[s].parent == a ==> t.mem[a].right == s)
    && (t.mem[s].parent != a ==> t.mem[t.mem[s].parent].left == s && t.mem[a].right != s)
  }

  /** The nodes around the one that gives way. */
  lemma SwapAround(t: Tree, a: Ptr, s: Ptr)
    requires Leftmost(t, a, s)
    ensures NULL !in t.mem && a != s && a != NULL && s != NULL && a in t.mem && s in t.mem && a in t.lab && s in t.lab
    ensures var p, l, r := t.mem[a].parent, t.mem[a].left, t.mem[a].right;
            && l in t.mem && r in t.mem && l != a && r != a && l != s && l != r && p != a && p != s && p != l && p != r
            && t.mem[l].parent == a && t.mem[r].parent == a
            && (p != NULL ==> p in t.mem && (t.mem[p].left == a || t.mem[p].right == a)
                              && t.mem[p].left != t.mem[p].right)
  {
    assert NULL in t.mem ==> Linked(t, NULL);
    var p, l, r := t.mem[a].parent, t.mem[a].left, t.mem[a].right;
    assert Linked(t, a) && Linked(t, s) && Linked(t, l) && Linked(t, r);
    if p != NULL { assert Linked(t, p); }
  }

  /** The nodes around the successor. */
  lemma SwapParties(t: Tree, a: Ptr, s: Ptr)
    requires Leftmost(t, a, s)
    ensures NULL !in t.mem && a != s && a != NULL && s != NULL && a in t.mem && s in t.mem && a in t.lab && s in t.lab
    ensures var c, sp, p := t.mem[s].right, t.mem[s].parent, t.mem[a].parent;
            var l, r := t.mem[a].left, t.mem[a].right;
            && l in t.mem && r in t.mem && sp in t.mem && l != a && r != a && l != s && l != r && l != sp && l != c
            && sp != s && sp != p && p != a && p != s && p != l && p != r
            && t.mem[l].parent == a && t.mem[r].parent == a
            && (c != NULL ==> c in t.mem && c != a && c != s && c != sp && c != p && c != r && t.mem[c].parent == s)
            && (p != NULL ==> p in t.mem && (t.mem[p].left == a || t.mem[p].right == a)
                              && t.mem[p].left != t.mem[p].right)
  {
    hide Below;
    SwapAround(t, a, s);
    var c, sp, p, l := t.mem[s].right, t.mem[s].parent, t.mem[a].parent, t.mem[a].left;
    assert Linked(t, a) && Linked(t, s) && Linked(t, l) && Linked(t, sp);
    if p != NULL { assert Linked(t, p); }
    if c != NULL { assert Linked(t, c); }
  }

  lemma GivenAt(t: Tree, a: Ptr, s: Ptr, q: Ptr)
    requires Leftmost(t, a, s) && q in t.mem && q != a
    ensures var t1 := Swapped(t, a, s);
            && CanSplice(t1, a) && a in t1.lab && 0 <= t1.lab[a].pos < |t1.order|
            && q in Spliced(t1, a).mem && Spliced(t1, a).mem[q] == GivenNode(t.mem, a, s, q)
  {
    hide Shape, Linked, SplicedMem, Spliced, Swapped;
    SwapParties(t, a, s);
    SwapOrder(t, a, s);
    var t1 := Swapped(t, a, s);
    SwappedAt(t, a, s, a);
    SwappedAt(t, a, s, q);
    SplicedAt(t1, a, q);
    Kids(t, q);
  }

  function LinkedAbove(m: Mem, a: Ptr, s: Ptr): Mem
    requires a in m
  {
    var p := m[a].parent;
    if p in m then m[p := LowLeft(m[p], a, s)] else m
  }

  function LinkedRight(m: Mem, a: Ptr, s: Ptr): Mem
    requires a in m && s in m && m[s].parent in m && m[a].right in m
  {
    var c, sp := m[s].right, m[s].parent;
    if sp == a then m
    else
      var m1 := if c in m then m[c := m[c].(parent := sp)] else m;
      var m2 := m1[sp := m1[sp].(left := c)];
      var m3 := m2[s := m2[s].(right := m[a].right)];
      m3[m[a].right := m3[m[a].right].(parent := s)]
  }

  function LinkedLeft(m: Mem, a: Ptr, s: Ptr): Mem
    requires a in m && s in m && m[a].left in m
  {
    var m1 := m[s := m[s].(parent := m[a].parent, red := m[a].red, left := m[a].left)];
    m1[m[a].left := m1[m[a].left].(parent := s)]
  }

  /** The assignments by which a node gives way, one after the other. */
  lemma GiveSteps(t: Tree, a: Ptr, s: Ptr)
    requires Leftmost(t, a, s)
    ensures NULL !in t.mem && s in t.lab && a in t.lab && a in t.mem && s in t.mem && a != s
    ensures t.mem[a].parent in t.mem <==> t.mem[a].parent != NULL
    ensures var m1 := LinkedAbove(t.mem, a, s);
            && m1.Keys == t.mem.Keys && m1[s].parent in m1 && m1[a].right in m1 && m1[s].right != s
               && (m1[s].right in m1 || m1[s].right == NULL)
            && m1[s].red == t.mem[s].red && m1[s].right == t.mem[s].right && m1[s].parent == t.mem[s].parent
            && var m2 := LinkedRight(m1, a, s);
               && m2.Keys == t.mem.Keys && m2[a].left in m2
               && var m3 := LinkedLeft(m2, a, s);
                  m3.Keys == t.mem.Keys && forall q | q in t.mem && q != a :: m3[q] == GivenNode(t.mem, a, s, q)
  {
    hide Shape, Successor;
    SwapParties(t, a, s);
    forall q | q in t.mem && q != a
      ensures LinkedLeft(LinkedRight(LinkedAbove(t.mem, a, s), a, s), a, s)[q] == GivenNode(t.mem, a, s, q)
    {
      GiveStep(t.mem, a, s, q);
    }
  }

  lemma GiveStep(m: Mem, a: Ptr, s: Ptr, q: Ptr)
    requires NULL !in m && a != s && a in m && s in m
    requires var c, sp, p, l, r := m[s].right, m[s].parent, m[a].parent, m[a].left, m[a].right;
             && l in m && r in m && sp in m && l != a && r != a && l != s && l != r && l != sp && l != c
             && sp != s && sp != p && p != a && p != s && p != l && p != r && (sp == a <==> r == s)
             && (c != NULL ==> c in m && c != a && c != s && c != sp && c != p && c != r && m[c].parent == s)
             && (p != NULL ==> p in m)
    requires q in m && q != a
    ensures LinkedLeft(LinkedRight(LinkedAbove(m, a, s), a, s), a, s)[q] == GivenNode(m, a, s, q)
  {
  }

  ghost predicate Given(t: Tree, a: Ptr, s: Ptr, t': Tree)
    requires Leftmost(t, a, s)
  {
    t' == Spliced(Gone(t, a, s), a)
  }

  /** The tree after the exchange. */
  ghost function Gone(t: Tree, a: Ptr, s: Ptr): (t1: Tree)
    requires Leftmost(t, a, s)
    ensures CanSplice(t1, a) && a in t1.lab && 0 <= t1.lab[a].pos < |t1.order|
  {
    SwapOrder(t, a, s);
    Swapped(t, a, s)
  }

  lemma GivenAll(t: Tree, a: Ptr, s: Ptr, m: Mem, root: Ptr)
    requires Leftmost(t, a, s) && m.Keys == t.mem.Keys - {a}
    requires forall q | q in m :: m[q] == GivenNode(t.mem, a, s, q)
    requires root == if t.mem[a].parent == NULL then s else t.root
    ensures m == Spliced(Gone(t, a, s), a).mem && root == Spliced(Gone(t, a, s), a).root
  {
    hide Shape, Linked, SplicedMem, Swapped;
    SwapParties(t, a, s);
    SwapOrder(t, a, s);
    SwapFacts(t, a, s);
    var t1 := Swapped(t, a, s);
    SplicedKeys(t1, a);
    SwappedFields(t, a, s, a);
    Kids(t, a);
    Kids(t, s);
    forall q | q in m ensures m[q] == Spliced(t1, a).mem[q] { GivenAt(t, a, s, q); }
    SplicedValues(t1, a, NULL);
  }

  lemma ShapeOf(t: Tree)
    requires RedBlack(t)
    ensures Shape(t)
  {
  }

  lemma SplicedFacts(t: Tree, x: Ptr)
    requires CanSplice(t, x)
    ensures x in t.lab && 0 <= t.lab[x].pos < |t.order|
    ensures Spliced(t, x).mem.Keys == t.mem.Keys - {x}
            && Spliced(t, x).order == t.order[..t.lab[x].pos] + t.order[t.lab[x].pos + 1..]
  {
    SpliceParties(t, x);
    SplicedKeys(t, x);
  }

  ghost function GivenSide(t: Tree, a: Ptr, s: Ptr): bool
    requires Leftmost(t, a, s)
  {
    var t1 := Gone(t, a, s);
    SideOf(t1.mem, a, t1.mem[a].parent)
  }

  /** After a node has given way, the gap is where its successor was. */
  lemma GivenOk(t: Tree, a: Ptr, s: Ptr)
    requires RedBlack(t) && Leftmost(t, a, s)
    ensures a in t.lab && 0 <= t.lab[a].pos < |t.order|
    ensures var t' := Spliced(Gone(t, a, s), a); var sp := t.mem[s].parent;
            && t'.mem.Keys == t.mem.Keys - {a} && t'.order == t.order[..t.lab[a].pos] + t.order[t.lab[a].pos + 1..]
            && if t.mem[s].red then RedBlack(t')
               else Erasing(t', t.mem[s].right, if sp == a then s else sp, GivenSide(t, a, s))
  {
    hide Shape, Linked, SplicedMem, Swapped, RedBlack, Erasing;
    SwapParties(t, a, s);
    SwapOrder(t, a, s);
    SwappedOk(t, a, s);
    SwappedFields(t, a, s, a);
    var t1 := Swapped(t, a, s);
    SplicedOk(t1, a);
    SplicedKeys(t1, a);
  }

  // ---------- finding the successor ----------

  /** On the left edge of the part to the right of `a`. */
  ghost predicate Low(t: Tree, a: Ptr, q: Ptr) {
    && Shape(t) && a in t.mem && a in t.lab && q in t.mem && q in t.lab && q != a
    && t.mem[a].left != NULL && t.mem[a].right != NULL
    && t.lab[q].lo == t.lab[a].pos + 1 && t.lab[a].pos < t.lab[q].pos && t.lab[q].hi <= t.lab[a].hi
    && t.mem[q].parent in t.mem
    && (if t.mem[q].parent == a then t.mem[a].right == q else t.mem[t.mem[q].parent].left == q && t.mem[a].right != q)
  }

  lemma RightKid(t: Tree, a: Ptr)
    requires Shape(t) && a in t.mem && t.mem[a].left != NULL && t.mem[a].right != NULL
    ensures Low(t, a, t.mem[a].right)
  {
    assert Linked(t, a);
    assert Linked(t, t.mem[a].right);
  }

  lemma Lower(t: Tree, a: Ptr, q: Ptr)
    requires Low(t, a, q) && t.mem[q].left != NULL
    ensures Low(t, a, t.mem[q].left) && t.lab[t.mem[q].left].hi - t.lab[t.mem[q].left].lo < t.lab[q].hi - t.lab[q].lo
    ensures t.lab[t.mem[q].left].hi - t.lab[t.mem[q].left].lo >= 0
  {
    assert Linked(t, q);
    assert Linked(t, t.mem[q].left);
    assert Linked(t, a);
    assert Linked(t, t.mem[a].right);
  }

  lemma LowIsNext(t: Tree, a: Ptr, q: Ptr)
    requires Low(t, a, q) && t.mem[q].left == NULL
    ensures Leftmost(t, a, q)
  {
    assert Linked(t, q);
  }
}
