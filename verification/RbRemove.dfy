/** Removing a node: what remains to be repaired, and how a node with two children gives way to its
    successor. */
module RbRemove {
  import opened RbModel
  import opened RbColor
  import opened RbInsert
  import opened RbSplice
  import opened RbErase

  lemma SplicedValues(t: Tree, x: Ptr, k: Ptr)
    requires CanSplice(t, x)
    ensures x in t.lab && 0 <= t.lab[x].pos < |t.order|
    ensures var t' := Spliced(t, x);
            && t'.mem.Keys == t.mem.Keys - {x} && t'.lab.Keys == t.lab.Keys - {x} && NULL !in t.mem
            && (k != x ==> Alike(t, t', k)) && (k in t'.lab ==> t'.lab[k].bh == t.lab[k].bh)
            && (k in t'.mem ==> k in t.mem && k != x && t'.mem[k] == SplicedNode(t.mem, x, k))
            && t'.root == (if t.mem[x].parent == NULL then Heir(t.mem, x) else t.root)
  {
    hide Shape, Linked, SplicedMem;
    SpliceParties(t, x);
    SplicedKeys(t, x);
    if k in t.mem && k != x { SplicedAt(t, x, k); }
  }

  /** The child of a node with one child is red and the node black. */
  lemma HeirColor(t: Tree, x: Ptr)
    requires RedBlack(t) && CanSplice(t, x)
    ensures x in t.lab && x in t.mem && BhOf(t, Heir(t.mem, x)) == t.lab[x].bh == 0
    ensures t.mem[x].red ==> Heir(t.mem, x) == NULL
  {
    hide Shape;
    Kids(t, x);
    assert Balanced(t, x) && RedOk(t, x);
    var c := Heir(t.mem, x);
    if c != NULL { Kids(t, c); assert Balanced(t, c); }
  }

  lemma SplicedNodeOk(t: Tree, x: Ptr, q: Ptr)
    requires RedBlack(t) && CanSplice(t, x) && q in t.mem && q != x
    ensures x in t.lab && 0 <= t.lab[x].pos < |t.order|
    ensures var t' := Spliced(t, x); var p := t.mem[x].parent;
            q in t'.mem && q in t'.lab
                && EraseOk(t', Heir(t.mem, x), if t.mem[x].red then NULL else p, SideOf(t.mem, x, p), q)
  {
    hide Shape, Linked, SplicedMem, Spliced;
    SpliceParties(t, x);
    HeirColor(t, x);
    Kids(t, q);
    Kids(t, x);
    assert Balanced(t, q) && RedOk(t, q);
    SplicedValues(t, x, q);
    SplicedValues(t, x, t.mem[q].left);
    SplicedValues(t, x, t.mem[q].right);
    SplicedValues(t, x, Heir(t.mem, x));
    SplicedValues(t, x, NULL);
  }

  /** Removing a red node does no harm; removing a black one leaves a gap at its heir. */
  lemma SplicedOk(t: Tree, x: Ptr)
    requires RedBlack(t) && CanSplice(t, x)
    ensures x in t.lab && 0 <= t.lab[x].pos < |t.order|
    ensures var t' := Spliced(t, x); var p := t.mem[x].parent;
            if t.mem[x].red then RedBlack(t') else Erasing(t', Heir(t.mem, x), p, SideOf(t.mem, x, p))
  {
    hide Linked, SplicedMem, Spliced, EraseOk;
    SpliceParties(t, x);
    HeirColor(t, x);
    SplicedShape(t, x);
    var t', c, p := Spliced(t, x), Heir(t.mem, x), t.mem[x].parent;
    SplicedValues(t, x, t.root);
    SplicedValues(t, x, NULL);
    if c != NULL { SplicedValues(t, x, c); }
    if p != NULL { SplicedValues(t, x, p); Kids(t, p); }
    forall q | q in t'.mem && q in t'.lab
        ensures EraseOk(t', c, if t.mem[x].red then NULL else p, SideOf(t.mem, x, p), q) {
      SplicedValues(t, x, q);
      SplicedNodeOk(t, x, q);
    }
    if t.mem[x].red {
      forall q | q in t'.mem && q in t'.lab ensures Balanced(t', q) && RedOk(t', q) {
        SplicedValues(t, x, q);
        NotHeir(t', q);
      }
    }
  }

  lemma NotHeir(t: Tree, q: Ptr)
    requires q in t.mem && q in t.lab && q != NULL
            && (EraseOk(t, NULL, NULL, false, q) || EraseOk(t, NULL, NULL, true, q))
    ensures Balanced(t, q) && RedOk(t, q)
  {
  }
}
