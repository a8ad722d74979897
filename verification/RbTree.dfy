/** The tree operations, on nodes changed in place. */
module RbTree {
  import opened RbModel
  import opened RbRotate
  import opened RbInsert
  import opened RbAttach
  import opened RbSplice
  import opened RbErase
  import opened RbRemove
  import opened RbSwap

  class RbRoot {
    var mem: Mem
    var root: Ptr
    ghost var lab: Labels
    ghost var order: seq<Ptr>

    ghost function Now(): Tree
      reads this
    {
      Tree(mem, root, lab, order)
    }

    constructor ()
      ensures RedBlack(Now()) && order == []
    {
      mem, root, lab, order := map[], NULL, map[], [];
    }

    method SetLeft(p: Ptr, k: Ptr)
      requires p in mem
      modifies this`mem
      ensures mem == old(mem)[p := old(mem)[p].(left := k)]
    {
      mem := mem[p := mem[p].(left := k)];
    }

    method SetRight(p: Ptr, k: Ptr)
      requires p in mem
      modifies this`mem
      ensures mem == old(mem)[p := old(mem)[p].(right := k)]
    {
      mem := mem[p := mem[p].(right := k)];
    }

    method SetParent(p: Ptr, q: Ptr)
      requires p in mem
      modifies this`mem
      ensures mem == old(mem)[p := old(mem)[p].(parent := q)]
    {
      mem := mem[p := mem[p].(parent := q)];
    }

    method SetColor(p: Ptr, red: bool)
      requires p in mem
      modifies this`mem
      ensures mem == Painted(old(mem), p, red)
    {
      mem := mem[p := mem[p].(red := red)];
    }

    method RotateLeft(node: Ptr)
      requires CanRotate(Now(), node, true)
      modifies this
      ensures node in old(lab) && old(mem[node]).right in old(mem) && old(mem[node]).right in old(lab)
      ensures Now() == Rotated(old(Now()), node, true) && Shape(Now())
    {
      hide Shape, RotatedLab, RotatedMem, CanRotate, Linked;
      ghost var t := Now();
      Parties(t, node, true);
      var right := mem[node].right;
      var parent := mem[node].parent;
      SetRight(node, mem[right].left);
      if mem[node].right != NULL {
        SetParent(mem[right].left, node);
      }
      SetLeft(right, node);
      SetParent(right, parent);
      if parent != NULL {
        if node == mem[parent].left {
          SetLeft(parent, right);
        } else {
          SetRight(parent, right);
        }
      } else {
        root := right;
      }
      SetParent(node, right);
      lab := RotatedLab(t, node, true);
      assert mem == TurnedLeft(t.mem, node);
      TurnedLeftIs(t, node);
      RotatedShape(t, node, true);
    }

    method RotateRight(node: Ptr)
      requires CanRotate(Now(), node, false)
      modifies this
      ensures node in old(lab) && old(mem[node]).left in old(mem) && old(mem[node]).left in old(lab)
      ensures Now() == Rotated(old(Now()), node, false) && Shape(Now())
    {
      hide Shape, RotatedLab, RotatedMem, CanRotate, Linked;
      ghost var t := Now();
      Parties(t, node, false);
      var left := mem[node].left;
      var parent := mem[node].parent;
      SetLeft(node, mem[left].right);
      if mem[node].left != NULL {
        SetParent(mem[left].right, node);
      }
      SetRight(left, node);
      SetParent(left, parent);
      if parent != NULL {
        if node == mem[parent].right {
          SetRight(parent, left);
        } else {
          SetLeft(parent, left);
        }
      } else {
        root := left;
      }
      SetParent(node, left);
      lab := RotatedLab(t, node, false);
      assert mem == TurnedRight(t.mem, node);
      TurnedRightIs(t, node);
      RotatedShape(t, node, false);
    }

    /** Inserts a node below `parent`, where its link on side `left` (or the root) is free. */
    method LinkNode(node: Ptr, parent: Ptr, left: bool)
      requires RedBlack(Now()) && CanAttach(Now(), node, parent, left)
      modifies this
      ensures Inserting(Now(), node) && mem.Keys == old(mem.Keys) + {node}
      ensures parent != NULL ==> parent in old(lab)
      ensures var i := Place(old(Now()), parent, left);
              0 <= i <= |old(order)| && order == old(order)[..i] + [node] + old(order)[i..]
    {
      hide RedBlack, Shape, Inserting, CanAttach;
      ghost var t := Now();
      Hangs(t, node, parent, left);
      AttachedOk(t, node, parent, left);
      mem := mem[node := Node(NULL, NULL, parent, true)];
      if parent == NULL {
        root := node;
      } else if left {
        SetLeft(parent, node);
      } else {
        SetRight(parent, node);
      }
      ghost var t' := Attached(t, node, parent, left);
      lab, order := t'.lab, t'.order;
      assert mem == t'.mem;
    }

    /** One step of the fix-up when the parent is a left child: the node to go on with. */
    method FixLeft(node: Ptr, parent: Ptr, gparent: Ptr) returns (next: Ptr)
      requires Inserting(Now(), node) && RedParent(Now(), node) && parent == mem[node].parent && parent in mem
      requires gparent == mem[parent].parent && gparent in mem && mem[gparent].left == parent
      modifies this
      ensures Inserting(Now(), next) && order == old(order) && mem.Keys == old(mem.Keys)
      ensures FixUp(Now(), next) < old(FixUp(Now(), node))
    {
      hide Inserting, Shape, RedParent, Linked, RotatedMem, RotatedLab;
      ghost var t := Now();
      Family(t, node);
      FamilyKids(t, node);
      FixUpBound(t, node);
      var uncle := mem[gparent].right;
      if uncle != NULL && mem[uncle].red {
        RecoloredOk(t, node, uncle);
        RecoloredLess(t, node, uncle);
        SetColor(uncle, false);
        SetColor(parent, false);
        SetColor(gparent, true);
        lab := Recolored(t, uncle, parent, gparent).lab;
        return gparent;
      }
      var p := parent;
      next := node;
      if mem[parent].right == node {
        InnerOk(t, node, true);
        RotateLeft(parent);
        p := node;
        next := parent;
      }
      ghost var t1 := Now();
      assert Outer(t1, next, true);
      OuterOk(t1, next, uncle, true);
      SetColor(p, false);
      SetColor(gparent, true);
      assert Now() == Exchanged(t1, p, gparent);
      RotateRight(gparent);
    }

    /** One step of the fix-up when the parent is a right child: the node to go on with. */
    method FixRight(node: Ptr, parent: Ptr, gparent: Ptr) returns (next: Ptr)
      requires Inserting(Now(), node) && RedParent(Now(), node) && parent == mem[node].parent && parent in mem
      requires gparent == mem[parent].parent && gparent in mem && mem[gparent].right == parent
      modifies this
      ensures Inserting(Now(), next) && order == old(order) && mem.Keys == old(mem.Keys)
      ensures FixUp(Now(), next) < old(FixUp(Now(), node))
    {
      hide Inserting, Shape, RedParent, Linked, RotatedMem, RotatedLab;
      ghost var t := Now();
      Family(t, node);
      FamilyKids(t, node);
      FixUpBound(t, node);
      var uncle := mem[gparent].left;
      if uncle != NULL && mem[uncle].red {
        RecoloredOk(t, node, uncle);
        RecoloredLess(t, node, uncle);
        SetColor(uncle, false);
        SetColor(parent, false);
        SetColor(gparent, true);
        lab := Recolored(t, uncle, parent, gparent).lab;
        return gparent;
      }
      var p := parent;
      next := node;
      if mem[parent].left == node {
        InnerOk(t, node, false);
        RotateRight(parent);
        p := node;
        next := parent;
      }
      ghost var t1 := Now();
      assert Outer(t1, next, false);
      OuterOk(t1, next, uncle, false);
      SetColor(p, false);
      SetColor(gparent, true);
      assert Now() == Exchanged(t1, p, gparent);
      RotateLeft(gparent);
    }

    /** Restores the colours after a red leaf has been inserted. */
    method InsertColor(x: Ptr)
      requires Inserting(Now(), x)
      modifies this
      ensures RedBlack(Now()) && Shallow(Now()) && order == old(order) && mem.Keys == old(mem.Keys)
    {
      hide Inserting, Shape, RedBlack, RedParent, FixUp, Shallow;
      var node := x;
      FamilyLinks(Now(), node);
      while mem[node].parent != NULL && mem[mem[node].parent].red
        invariant Inserting(Now(), node) && order == old(order) && mem.Keys == old(mem.Keys)
        invariant node in mem && (mem[node].parent != NULL ==> mem[node].parent in mem)
        invariant RedParent(Now(), node) <==> mem[node].parent != NULL && mem[mem[node].parent].red
        decreases FixUp(Now(), node)
      {
        Family(Now(), node);
        var parent := mem[node].parent;
        var gparent := mem[parent].parent;
        if parent == mem[gparent].left {
          node := FixLeft(node, parent, gparent);
        } else {
          node := FixRight(node, parent, gparent);
        }
        FamilyLinks(Now(), node);
      }
      Inserted(Now(), node);
      RootIn(Now(), node);
      SetColor(root, false);
      ShapeOf(Now());
      HeightBound(Now());
    }

    /** The sibling on the right is black and has a red child: the gap is filled. */
    method FillGapLeft(node: Ptr, parent: Ptr)
      requires Erasing(Now(), node, parent, true) && !IsRed(Now(), node) && root != node
      requires parent in mem && mem[parent].right in mem && !mem[mem[parent].right].red
      requires IsRed(Now(), mem[mem[parent].right].left) || IsRed(Now(), mem[mem[parent].right].right)
      modifies this
      ensures order == old(order) && mem.Keys == old(mem.Keys) && RedBlack(Now()) && root in mem
    {
      hide Erasing, Shape, Linked, RedBlack, RotatedMem, RotatedLab;
      ghost var t1 := Now();
      Looks(t1, node, parent, true);
      var other := mem[parent].right;
      if mem[other].right == NULL || !mem[mem[other].right].red {
        InnerNephewOk(t1, node, parent, true);
        SetColor(mem[other].left, false);
        SetColor(other, true);
        RotateRight(other);
        other := mem[parent].right;
      }
      ghost var t2 := Now();
      Looks(t2, node, parent, true);
      FilledOk(t2, node, parent, true);
      SetColor(other, mem[parent].red);
      SetColor(parent, false);
      SetColor(mem[other].right, false);
      lab := Filled(t2, other, parent, mem[other].right).lab;
      assert Now() == Filled(t2, other, parent, t2.mem[other].right);
      RotateLeft(parent);
    }

    /** The sibling on the right is black: the gap moves up or is filled. */
    method FillFromLeft(node: Ptr, parent: Ptr) returns (next: Ptr, up: Ptr, ghost side: bool, finished: bool)
      requires Erasing(Now(), node, parent, true) && !IsRed(Now(), node) && root != node
      requires parent in mem && !IsRed(Now(), mem[parent].right)
      modifies this
      ensures order == old(order) && mem.Keys == old(mem.Keys)
      ensures finished ==> RedBlack(Now()) && root in mem
      ensures !finished
              ==> Erasing(Now(), next, up, side) && next == parent
                  && EraseUp(Now(), next, up) < old(EraseUp(Now(), node, parent))
      ensures !finished && old(mem[parent].red) ==> EraseUp(Now(), next, up) == 0
    {
      hide Erasing, Shape, Linked, RedBlack, RotatedMem, RotatedLab, EraseUp;
      ghost var t1 := Now();
      side, finished, next, up := true, false, node, parent;
      Looks(t1, node, parent, true);
      var other := mem[parent].right;
      if (mem[other].left == NULL || !mem[mem[other].left].red)
          && (mem[other].right == NULL || !mem[mem[other].right].red) {
        PushedOk(t1, node, parent, true);
        PushedLess(t1, node, parent, true);
        SetColor(other, true);
        lab := Pushed(t1, other, parent).lab;
        next, up := parent, mem[parent].parent;
        side := SideOf(t1.mem, parent, up);
        RedIsLast(Now(), next, up);
        return;
      }
      FillGapLeft(node, parent);
      finished := true;
    }

    /** One step of the fix-up when the gap is on the left: where the gap is next, or that there is none. */
    method EraseLeft(node: Ptr, parent: Ptr) returns (next: Ptr, up: Ptr, ghost side: bool, finished: bool)
      requires Erasing(Now(), node, parent, true) && !IsRed(Now(), node) && root != node
      modifies this
      ensures order == old(order) && mem.Keys == old(mem.Keys)
      ensures finished ==> RedBlack(Now()) && root in mem
      ensures !finished
              ==> Erasing(Now(), next, up, side)
                  && EraseUp(Now(), next, up) < old(EraseUp(Now(), node, parent))
    {
      hide Erasing, Shape, Linked, RedBlack, RotatedMem, RotatedLab, EraseUp;
      ghost var t := Now();
      Looks(t, node, parent, true);
      EraseUpBound(t, node, parent, true);
      var other := mem[parent].right;
      if mem[other].red {
        RedSiblingOk(t, node, parent, true);
        SetColor(other, false);
        SetColor(parent, true);
        RotateLeft(parent);
      }
      next, up, side, finished := FillFromLeft(node, parent);
    }

    /** The sibling on the left is black and has a red child: the gap is filled. */
    method FillGapRight(node: Ptr, parent: Ptr)
      requires Erasing(Now(), node, parent, false) && !IsRed(Now(), node) && root != node
      requires parent in mem && mem[parent].left in mem && !mem[mem[parent].left].red
      requires IsRed(Now(), mem[mem[parent].left].left) || IsRed(Now(), mem[mem[parent].left].right)
      modifies this
      ensures order == old(order) && mem.Keys == old(mem.Keys) && RedBlack(Now()) && root in mem
    {
      hide Erasing, Shape, Linked, RedBlack, RotatedMem, RotatedLab;
      ghost var t1 := Now();
      Looks(t1, node, parent, false);
      var other := mem[parent].left;
      if mem[other].left == NULL || !mem[mem[other].left].red {
        InnerNephewOk(t1, node, parent, false);
        SetColor(mem[other].right, false);
        SetColor(other, true);
        RotateLeft(other);
        other := mem[parent].left;
      }
      ghost var t2 := Now();
      Looks(t2, node, parent, false);
      FilledOk(t2, node, parent, false);
      SetColor(other, mem[parent].red);
      SetColor(parent, false);
      SetColor(mem[other].left, false);
      lab := Filled(t2, other, parent, mem[other].left).lab;
      assert Now() == Filled(t2, other, parent, t2.mem[other].left);
      RotateRight(parent);
    }

    /** The sibling on the left is black: the gap moves up or is filled. */
    method FillFromRight(node: Ptr, parent: Ptr) returns (next: Ptr, up: Ptr, ghost side: bool, finished: bool)
      requires Erasing(Now(), node, parent, false) && !IsRed(Now(), node) && root != node
      requires parent in mem && !IsRed(Now(), mem[parent].left)
      modifies this
      ensures order == old(order) && mem.Keys == old(mem.Keys)
      ensures finished ==> RedBlack(Now()) && root in mem
      ensures !finished
              ==> Erasing(Now(), next, up, side) && next == parent
                  && EraseUp(Now(), next, up) < old(EraseUp(Now(), node, parent))
      ensures !finished && old(mem[parent].red) ==> EraseUp(Now(), next, up) == 0
    {
      hide Erasing, Shape, Linked, RedBlack, RotatedMem, RotatedLab, EraseUp;
      ghost var t1 := Now();
      side, finished, next, up := false, false, node, parent;
      Looks(t1, node, parent, false);
      var other := mem[parent].left;
      if (mem[other].left == NULL || !mem[mem[other].left].red)
          && (mem[other].right == NULL || !mem[mem[other].right].red) {
        PushedOk(t1, node, parent, false);
        PushedLess(t1, node, parent, false);
        SetColor(other, true);
        lab := Pushed(t1, other, parent).lab;
        next, up := parent, mem[parent].parent;
        side := SideOf(t1.mem, parent, up);
        RedIsLast(Now(), next, up);
        return;
      }
      FillGapRight(node, parent);
      finished := true;
    }

    /** One step of the fix-up when the gap is on the right: where the gap is next, or that there is none. */
    method EraseRight(node: Ptr, parent: Ptr) returns (next: Ptr, up: Ptr, ghost side: bool, finished: bool)
      requires Erasing(Now(), node, parent, false) && !IsRed(Now(), node) && root != node
      modifies this
      ensures order == old(order) && mem.Keys == old(mem.Keys)
      ensures finished ==> RedBlack(Now()) && root in mem
      ensures !finished
              ==> Erasing(Now(), next, up, side)
                  && EraseUp(Now(), next, up) < old(EraseUp(Now(), node, parent))
    {
      hide Erasing, Shape, Linked, RedBlack, RotatedMem, RotatedLab, EraseUp;
      ghost var t := Now();
      Looks(t, node, parent, false);
      EraseUpBound(t, node, parent, false);
      var other := mem[parent].left;
      if mem[other].red {
        RedSiblingOk(t, node, parent, false);
        SetColor(other, false);
        SetColor(parent, true);
        RotateRight(parent);
      }
      next, up, side, finished := FillFromRight(node, parent);
    }

    /** Restores the colours after a black node has been removed above `node`. */
    method EraseColor(x: Ptr, par: Ptr, ghost side: bool)
      requires Erasing(Now(), x, par, side)
      modifies this
      ensures RedBlack(Now()) && order == old(order) && mem.Keys == old(mem.Keys)
    {
      hide Erasing, Shape, RedBlack, EraseUp;
      var node, parent := x, par;
      ghost var left := side;
      NotRed(Now(), node, parent, left);
      while (node == NULL || !mem[node].red) && node != root
        invariant Erasing(Now(), node, parent, left) && order == old(order) && mem.Keys == old(mem.Keys)
        invariant (node == NULL || node in mem) && NULL !in mem
        decreases EraseUp(Now(), node, parent)
      {
        var finished;
        Looks(Now(), node, parent, left);
        if mem[parent].left == node {
          node, parent, left, finished := EraseLeft(node, parent);
        } else {
          node, parent, left, finished := EraseRight(node, parent);
        }
        if finished {
          node := root;
          StaysBlack(Now());
          SetColor(node, false);
          return;
        }
        NotRed(Now(), node, parent, left);
      }
      Erased(Now(), node, parent, left);
      if node != NULL {
        SetColor(node, false);
      }
    }

    /** Takes out a node with at most one child, which takes its place. */
    method SpliceOut(node: Ptr) returns (child: Ptr, parent: Ptr, red: bool)
      requires CanSplice(Now(), node)
      modifies this
      ensures node in old(lab) && 0 <= old(lab[node].pos) < |old(order)| && Now() == Spliced(old(Now()), node)
      ensures child == Heir(old(mem), node) && parent == old(mem[node].parent) && red == old(mem[node].red)
    {
      hide Shape, Linked;
      ghost var t := Now();
      SpliceParties(t, node);
      child := if mem[node].left == NULL then mem[node].right else mem[node].left;
      parent := mem[node].parent;
      red := mem[node].red;
      if child != NULL {
        SetParent(child, parent);
      }
      if parent != NULL {
        if mem[parent].left == node {
          SetLeft(parent, child);
        } else {
          SetRight(parent, child);
        }
      } else {
        root := child;
      }
      mem := mem - {node};
      ghost var t' := Spliced(t, node);
      lab, order := t'.lab, t'.order;
      assert mem == t'.mem;
    }

    /** The leftmost node on the right of a node with two children. */
    method FindSuccessor(a: Ptr) returns (node: Ptr)
      requires Shape(Now()) && a in mem && mem[a].left != NULL && mem[a].right != NULL
      ensures Leftmost(Now(), a, node)
    {
      hide Shape, Linked;
      node := mem[a].right;
      RightKid(Now(), a);
      while mem[node].left != NULL
        invariant Low(Now(), a, node)
        decreases lab[node].hi - lab[node].lo
      {
        Lower(Now(), a, node);
        node := mem[node].left;
      }
      LowIsNext(Now(), a, node);
    }

    /** The link to `a` from above now leads to `node`. */
    method LinkAbove(a: Ptr, node: Ptr)
      requires a in mem
      modifies this`mem, this`root
      ensures mem == LinkedAbove(old(mem), a, node)
              && root == (if old(mem[a].parent) in old(mem) then old(root) else node)
    {
      var p := mem[a].parent;
      if p in mem {
        if mem[p].left == a {
          SetLeft(p, node);
        } else {
          SetRight(p, node);
        }
      } else {
        root := node;
      }
    }

    /** The successor leaves its place to its child and takes over the right side of `a`. */
    method LinkRight(a: Ptr, node: Ptr) returns (child: Ptr, parent: Ptr)
      requires a in mem && node in mem && a != node && mem[node].parent in mem && mem[a].right in mem
              && mem[node].right != node
      requires mem[node].right in mem || mem[node].right == NULL
      modifies this`mem
      ensures mem == LinkedRight(old(mem), a, node) && mem.Keys == old(mem.Keys)
      ensures child == old(mem[node].right) && parent
              == (if old(mem[node].parent) == a then node else old(mem[node].parent))
    {
      child := mem[node].right;
      parent := mem[node].parent;
      if parent == a {
        parent := node;
      } else {
        if child in mem {
          SetParent(child, parent);
        }
        SetLeft(parent, child);
        SetRight(node, mem[a].right);
        SetParent(mem[a].right, node);
      }
    }

    /** The successor gets the parent, the colour and the left side of `a`. */
    method LinkLeft(a: Ptr, node: Ptr)
      requires a in mem && node in mem && mem[a].left in mem && a != node
      modifies this`mem
      ensures mem == LinkedLeft(old(mem), a, node)
    {
      SetParent(node, mem[a].parent);
      SetColor(node, mem[a].red);
      SetLeft(node, mem[a].left);
      SetParent(mem[a].left, node);
    }

    /** The successor of a node with two children takes its place and its colour. */
    method GiveWay(a: Ptr) returns (child: Ptr, parent: Ptr, red: bool, ghost s: Ptr)
      requires Shape(Now()) && a in mem && mem[a].left != NULL && mem[a].right != NULL
      modifies this
      ensures Leftmost(old(Now()), a, s) && s in old(lab) && a in old(lab) && Given(old(Now()), a, s, Now())
      ensures child == old(mem[s].right) && red == old(mem[s].red)
              && parent == (if old(mem[s].parent) == a then s else old(mem[s].parent))
    {
      hide Shape, Linked, Successor, LinkedAbove, LinkedRight, LinkedLeft, GivenNode;
      ghost var t := Now();
      var node := FindSuccessor(a);
      s := node;
      GiveSteps(t, a, s);
      LinkAbove(a, node);
      red := mem[node].red;
      child, parent := LinkRight(a, node);
      LinkLeft(a, node);
      mem := mem - {a};
      GivenAll(t, a, s, mem, root);
      ghost var t' := Spliced(Gone(t, a, s), a);
      lab, order := t'.lab, t'.order;
    }

    /** Removes a node: the tree stays red and black, and the list loses just that node. */
    method Erase(victim: Ptr)
      requires RedBlack(Now()) && victim in mem
      modifies this
      ensures RedBlack(Now()) && Shallow(Now()) && mem.Keys == old(mem.Keys) - {victim} && victim in old(lab)
      ensures var i := old(lab[victim].pos);
              0 <= i < |old(order)| && old(order[i]) == victim && order == old(order)[..i] + old(order)[i + 1..]
    {
      hide RedBlack, Shape, Linked, Swapped, Spliced, Erasing, Shallow;
      ghost var t := Now();
      ShapeOf(t);
      LinkedPos(t, victim);
      var child, parent, red;
      ghost var side;
      if mem[victim].left == NULL || mem[victim].right == NULL {
        SplicedOk(t, victim);
        SplicedFacts(t, victim);
        child, parent, red := SpliceOut(victim);
        side := SideOf(t.mem, victim, parent);
      } else {
        ghost var s;
        child, parent, red, s := GiveWay(victim);
        GivenOk(t, victim, s);
        side := GivenSide(t, victim, s);
      }
      if !red {
        EraseColor(child, parent, side);
      }
      ShapeOf(Now());
      HeightBound(Now());
    }

    /** The first node of the list. */
    method First() returns (n: Ptr)
      requires Shape(Now())
      ensures if order == [] then n == NULL else n == order[0]
    {
      hide Shape, Linked;
      n := root;
      RootEdge(Now());
      if n == NULL {
        return;
      }
      while mem[n].left != NULL
        invariant n in mem && n in lab && lab[n].lo == 0
        decreases lab[n].hi - lab[n].lo
      {
        Parts(Now(), n);
        n := mem[n].left;
      }
      Parts(Now(), n);
    }

    /** The node after `node` in the list, or none. */
    method Next(node: Ptr) returns (n: Ptr)
      requires Shape(Now()) && node in mem
      ensures node in lab && 0 <= lab[node].pos < |order| && order[lab[node].pos] == node
      ensures n == if lab[node].pos + 1 < |order| then order[lab[node].pos + 1] else NULL
    {
      hide Shape, Linked;
      Parts(Now(), node);
      Above(Now(), node);
      if mem[node].parent == node {
        return NULL;
      }
      n := node;
      if mem[n].right != NULL {
        n := mem[n].right;
        while mem[n].left != NULL
          invariant n in mem && n in lab && lab[n].lo == lab[node].pos + 1
          decreases lab[n].hi - lab[n].lo
        {
          Parts(Now(), n);
          n := mem[n].left;
        }
        Parts(Now(), n);
        return;
      }
      var parent := mem[n].parent;
      while parent != NULL && n == mem[parent].right
        invariant n in mem && n in lab && lab[n].hi == lab[node].pos + 1 && parent == mem[n].parent
                && (parent == NULL || parent in mem)
        decreases |order| - (lab[n].hi - lab[n].lo)
      {
        Above(Now(), n);
        Parts(Now(), parent);
        n := parent;
        parent := mem[n].parent;
        Above(Now(), n);
      }
      Above(Now(), n);
      if parent != NULL { Parts(Now(), parent); }
      n := parent;
    }

    /** The node before `node` in the list, or none. */
    method Prev(node: Ptr) returns (n: Ptr)
      requires Shape(Now()) && node in mem
      ensures node in lab && 0 <= lab[node].pos < |order| && order[lab[node].pos] == node
      ensures n == if lab[node].pos > 0 then order[lab[node].pos - 1] else NULL
    {
      hide Shape, Linked;
      Parts(Now(), node);
      Above(Now(), node);
      if mem[node].parent == node {
        return NULL;
      }
      n := node;
      if mem[n].left != NULL {
        n := mem[n].left;
        while mem[n].right != NULL
          invariant n in mem && n in lab && lab[n].hi == lab[node].pos
          decreases lab[n].hi - lab[n].lo
        {
          Parts(Now(), n);
          n := mem[n].right;
        }
        Parts(Now(), n);
        return;
      }
      var parent := mem[n].parent;
      while parent != NULL && n == mem[parent].left
        invariant n in mem && n in lab && lab[n].lo == lab[node].pos && parent == mem[n].parent
                && (parent == NULL || parent in mem)
        decreases |order| - (lab[n].hi - lab[n].lo)
      {
        Above(Now(), n);
        Parts(Now(), parent);
        n := parent;
        parent := mem[n].parent;
        Above(Now(), n);
      }
      Above(Now(), n);
      if parent != NULL { Parts(Now(), parent); }
      n := parent;
    }
  }

  /** The assignments of a rotation, one after the other. */
  /** The assignments of a left rotation, one after the other. */
  function TurnedLeft(m: Mem, x: Ptr): Mem
    requires x in m && m[x].right in m
  {
    var y := m[x].right;
    var c, p := m[y].left, m[x].parent;
    var m1 := m[x := m[x].(right := c)];
    var m2 := if c in m1 then m1[c := m1[c].(parent := x)] else m1;
    var m3 := m2[y := m2[y].(left := x)];
    var m4 := m3[y := m3[y].(parent := p)];
    var m5 := if p !in m4 then m4
              else if x == m4[p].left then m4[p := m4[p].(left := y)] else m4[p := m4[p].(right := y)];
    m5[x := m5[x].(parent := y)]
  }

  function TurnedRight(m: Mem, x: Ptr): Mem
    requires x in m && m[x].left in m
  {
    var y := m[x].left;
    var c, p := m[y].right, m[x].parent;
    var m1 := m[x := m[x].(left := c)];
    var m2 := if c in m1 then m1[c := m1[c].(parent := x)] else m1;
    var m3 := m2[y := m2[y].(right := x)];
    var m4 := m3[y := m3[y].(parent := p)];
    var m5 := if p !in m4 then m4
              else if x == m4[p].right then m4[p := m4[p].(right := y)] else m4[p := m4[p].(left := y)];
    m5[x := m5[x].(parent := y)]
  }

  lemma TurnedLeftIs(t: Tree, x: Ptr)
    requires CanRotate(t, x, true)
    ensures x in t.mem && t.mem[x].right in t.mem && TurnedLeft(t.mem, x) == RotatedMem(t.mem, x, true)
  {
    hide Shape, CanRotate;
    Parties(t, x, true);
  }

  lemma TurnedRightIs(t: Tree, x: Ptr)
    requires CanRotate(t, x, false)
    ensures x in t.mem && t.mem[x].left in t.mem && TurnedRight(t.mem, x) == RotatedMem(t.mem, x, false)
  {
    hide Shape, CanRotate;
    Parties(t, x, false);
  }
}
