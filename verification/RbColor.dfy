/** Rotations change no colour and no black height. */
module RbColor {
  import opened RbModel
  import opened RbRotate

  /** The child counts the same and has the same colour. */
  ghost predicate Alike(t: Tree, t': Tree, k: Ptr) { BhOf(t', k) == BhOf(t, k) && IsRed(t', k) == IsRed(t, k) }

  lemma RotatedAlike(t: Tree, x: Ptr, left: bool, k: Ptr)
    requires CanRotate(t, x, left)
    ensures x in t.lab && Kid(t.mem[x], !left) in t.mem && Kid(t.mem[x], !left) in t.lab
    ensures Alike(t, Rotated(t, x, left), k) && Rotated(t, x, left).mem.Keys == t.mem.Keys
            && Rotated(t, x, left).lab.Keys == t.lab.Keys
    ensures k in t.lab ==> Rotated(t, x, left).lab[k].bh == t.lab[k].bh
  {
    hide Shape, Linked, RotatedMem;
    Parties(t, x, left);
    if k in t.mem { RotatedAt(t, x, left, k); } else { RotatedAt(t, x, left, x); }
  }

  /** A node whose children are `l` and `r`. */
  ghost predicate Holds(t: Tree, q: Ptr, l: Ptr, r: Ptr) {
    && q in t.mem && q in t.lab && t.lab[q].bh >= 0
    && BhOf(t, l) == t.lab[q].bh && BhOf(t, r) == t.lab[q].bh
    && (t.mem[q].red ==> !IsRed(t, l) && !IsRed(t, r))
  }

  ghost predicate Good(t: Tree, q: Ptr) { q in t.mem && Holds(t, q, t.mem[q].left, t.mem[q].right) }

  lemma HoldsAlike(t: Tree, t': Tree, q: Ptr, l: Ptr, r: Ptr)
    requires Holds(t, q, l, r) && Alike(t, t', l) && Alike(t, t', r)
    requires q in t'.mem && q in t'.lab && t'.lab[q].bh == t.lab[q].bh && t'.mem[q].red == t.mem[q].red
    ensures Holds(t', q, l, r)
  {
  }

  /** Side `left` of a node holds `l`, the other side `r`. */
  ghost predicate HoldsOn(t: Tree, q: Ptr, left: bool, l: Ptr, r: Ptr) { if left then Holds(t, q, l, r)
                          else Holds(t, q, r, l) }

  /** The node would be good with the children that the rotation will give it. */
  ghost predicate Prepared(t: Tree, x: Ptr, left: bool, q: Ptr)
    requires x in t.mem && Kid(t.mem[x], !left) in t.mem && q in t.mem
  {
    var y := Kid(t.mem[x], !left);
    if q == x then HoldsOn(t, x, left, Kid(t.mem[x], left), Kid(t.mem[y], left))
    else if q == y then HoldsOn(t, y, left, x, Kid(t.mem[y], !left))
    else if q == t.mem[x].parent then
      HoldsOn(t, q, t.mem[q].left == x, y, if t.mem[q].left == x then t.mem[q].right else t.mem[q].left)
    else Good(t, q)
  }

  /** If the two nodes would be good with their new children, they are after the rotation; the others
      stay good. */
  lemma RotatedGood(t: Tree, x: Ptr, left: bool, q: Ptr)
    requires CanRotate(t, x, left) && q in t.mem && Kid(t.mem[x], !left) in t.mem && Prepared(t, x, left, q)
    ensures x in t.lab && Kid(t.mem[x], !left) in t.lab
    ensures Good(Rotated(t, x, left), q)
  {
    hide Shape, Linked, RotatedMem, RotatedLab, Holds, Alike, Rotated;
    Parties(t, x, left);
    RotatedAt(t, x, left, q);
    GoodAt(t, x, left, q);
    var t' := Rotated(t, x, left);
    RotatedAlike(t, x, left, t'.mem[q].left);
    RotatedAlike(t, x, left, t'.mem[q].right);
    RotatedAlike(t, x, left, q);
    RotatedRed(t, x, left, q);
    HoldsAlike(t, t', q, t'.mem[q].left, t'.mem[q].right);
  }

  lemma RotatedRed(t: Tree, x: Ptr, left: bool, q: Ptr)
    requires CanRotate(t, x, left) && q in t.mem
    ensures x in t.lab && Kid(t.mem[x], !left) in t.mem && Kid(t.mem[x], !left) in t.lab
    ensures q in Rotated(t, x, left).mem && Rotated(t, x, left).mem[q].red == t.mem[q].red && q in t.lab
  {
    hide Shape, Linked, RotatedMem;
    Parties(t, x, left);
    RotatedAt(t, x, left, q);
    LinkedAt(t, q);
  }

  /** The node would be good with the children it gets. */
  lemma GoodAt(t: Tree, x: Ptr, left: bool, q: Ptr)
    requires CanRotate(t, x, left) && q in t.mem && Kid(t.mem[x], !left) in t.mem && Prepared(t, x, left, q)
    ensures Holds(t, q, RotatedNode(t.mem, x, left, q).left, RotatedNode(t.mem, x, left, q).right)
  {
    hide Shape, Linked, Holds;
    Parties(t, x, left);
  }
}
