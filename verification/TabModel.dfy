/** Tables: an array part, and a chained scatter table with Brent's variation.

    The links between nodes form disjoint lists.  Each node is labelled with the list that it is in
    and with its place in that list, so that "can be reached from" is a comparison of labels. */
module TabModel {

  datatype Value = Nil | Val(x: int)

  /** Keys other than nil and NaN. */
  datatype Key = Int(n: int) | Other(id: int)

  /** A node that was never used, one with a key, or one whose key has been collected. */
  datatype NodeKey = Empty | Live(k: Key) | Dead(k: Key)

  const NULL: int := -1

  datatype Node = Node(key: NodeKey, val: Value, next: int)

  datatype Label = Label(list: int, place: real)

  type Hash = (Key, nat) -> nat

  /** The main position of a key. */
  function MainPos(hash: Hash, size: nat, k: Key): (p: nat)
    requires size > 0
    ensures p < size
  {
    hash(k, size) % size
  }

  /** `j` comes after `i` in the same list. */
  predicate After(lab: seq<Label>, i: int, j: int)
    requires 0 <= i < |lab| && 0 <= j < |lab|
  {
    lab[i].list == lab[j].list && lab[i].place < lab[j].place
  }

  predicate Reaches(lab: seq<Label>, i: int, j: int)
    requires 0 <= i < |lab| && 0 <= j < |lab|
  {
    i == j || After(lab, i, j)
  }

  /** The link of a node leads to the next node of its list. */
  ghost predicate LinkOk(node: seq<Node>, lab: seq<Label>, i: int)
    requires 0 <= i < |node| == |lab|
  {
    var n := node[i].next;
    if n == NULL then forall j | 0 <= j < |node| :: !After(lab, i, j)
    else 0 <= n < |node| && After(lab, i, n) && forall j | 0 <= j < |node| && After(lab, i, j) :: Reaches(lab, n, j)
  }

  ghost predicate Lists(node: seq<Node>, lab: seq<Label>) {
    && |lab| == |node| && |node| > 0
    && (forall i | 0 <= i < |node| :: LinkOk(node, lab, i))
    && forall i, j | 0 <= i < j < |node| :: lab[i] != lab[j]
  }

  /** The node holds a key whose main position it is. */
  predicate Own(node: seq<Node>, hash: Hash, i: int)
    requires 0 <= i < |node|
  {
    !node[i].key.Empty? && MainPos(hash, |node|, node[i].key.k) == i
  }

  /** Alone in its list. */
  ghost predicate Alone(lab: seq<Label>, i: int)
    requires 0 <= i < |lab|
  {
    forall j | 0 <= j < |lab| && j != i :: lab[j].list != lab[i].list
  }

  /** A key can be reached from its main position; if it is not there, the node that is there is in its
      own main position. */
  ghost predicate NodeOk(node: seq<Node>, lab: seq<Label>, hash: Hash, i: int)
    requires 0 <= i < |node| == |lab|
  {
    match node[i].key
    case Empty => node[i].val == Nil && Alone(lab, i)
    case Dead(_) => node[i].val == Nil
    case Live(k) =>
      var mp := MainPos(hash, |node|, k);
      Reaches(lab, mp, i) && (mp != i ==> Own(node, hash, mp))
  }

  /** No two nodes have the same key, and the remains of a key are not found before the key itself. */
  ghost predicate PairOk(node: seq<Node>, lab: seq<Label>, hash: Hash, i: int, j: int)
    requires 0 <= i < |node| == |lab| && 0 <= j < |node|
  {
    i != j && node[j].key.Live? ==>
      && node[i].key != node[j].key
      && (node[i].key == Dead(node[j].key.k) && Reaches(lab, MainPos(hash, |node|, node[j].key.k), i)
          ==> !After(lab, i, j))
  }

  /** The hash part is sound. */
  ghost predicate Scattered(node: seq<Node>, lab: seq<Label>, hash: Hash) {
    && Lists(node, lab)
    && (forall i, j | 0 <= i < |node| && 0 <= j < |node| :: PairOk(node, lab, hash, i, j))
    && forall i | 0 <= i < |node| :: NodeOk(node, lab, hash, i)
  }

  /** Where a key is, if it is anywhere. */
  ghost predicate At(node: seq<Node>, k: Key, i: int) { 0 <= i < |node| && node[i].key == Live(k) }

  ghost predicate Absent(node: seq<Node>, k: Key) { forall i | 0 <= i < |node| :: node[i].key != Live(k) }

  /** The nodes after `i` in its list. */
  ghost function Later(node: seq<Node>, lab: seq<Label>, i: int): set<int>
    requires 0 <= i < |node| == |lab|
  {
    set j | 0 <= j < |node| && After(lab, i, j)
  }

  lemma LaterLess(node: seq<Node>, lab: seq<Label>, i: int)
    requires Lists(node, lab) && 0 <= i < |node| && node[i].next != NULL
    ensures 0 <= node[i].next < |node| && Later(node, lab, node[i].next) < Later(node, lab, i)
  {
    assert LinkOk(node, lab, i);
    assert node[i].next in Later(node, lab, i);
  }

  /** The nodes that have, or had, a key. */
  function Used(node: seq<Node>): set<int> {
    set i | 0 <= i < |node| && !node[i].key.Empty?
  }

  // ---------- a key in a free main position ----------

  /** The key is put into the node at its main position, which holds no value. */
  function Placed(node: seq<Node>, i: int, k: Key): seq<Node>
    requires 0 <= i < |node|
  {
    node[i := Node(Live(k), Nil, node[i].next)]
  }

  lemma PlacedOk(node: seq<Node>, lab: seq<Label>, hash: Hash, i: int, k: Key)
    requires Scattered(node, lab, hash) && Absent(node, k)
    requires 0 <= i < |node| && MainPos(hash, |node|, k) == i && node[i].val == Nil
    ensures Scattered(Placed(node, i, k), lab, hash)
  {
    var node' := Placed(node, i, k);
    forall j | 0 <= j < |node'| ensures LinkOk(node', lab, j) && NodeOk(node', lab, hash, j) {
      assert LinkOk(node, lab, j) && NodeOk(node, lab, hash, j);
    }
    forall a, b | 0 <= a < |node'| && 0 <= b < |node'| ensures PairOk(node', lab, hash, a, b) {
      assert PairOk(node, lab, hash, a, b);
    }
  }

  // ---------- the colliding node is out of its main position ----------

  /** A list number that no node has. */
  ghost function NewList(lab: seq<Label>): (l: int)
    ensures forall i | 0 <= i < |lab| :: lab[i].list < l
  {
    if lab == [] then 0
    else
      var m := NewList(lab[..|lab| - 1]);
      if m > lab[|lab| - 1].list then m else lab[|lab| - 1].list + 1
  }

  /** The colliding node goes to the free node `n`, its predecessor is linked to `n`, and the key takes
      its place. */
  function Moved(node: seq<Node>, prev: int, mp: int, n: int, k: Key): seq<Node>
    requires 0 <= prev < |node| && 0 <= mp < |node| && 0 <= n < |node|
  {
    node[prev := node[prev].(next := n)][n := node[mp]][mp := Node(Live(k), Nil, NULL)]
  }

  ghost function MovedLab(lab: seq<Label>, mp: int, n: int): seq<Label>
    requires 0 <= mp < |lab| && 0 <= n < |lab|
  {
    lab[n := lab[mp]][mp := Label(NewList(lab), 0.0)]
  }

  ghost predicate Moving(node: seq<Node>, lab: seq<Label>, hash: Hash, prev: int, mp: int, n: int, k: Key) {
    && Scattered(node, lab, hash) && Absent(node, k)
    && 0 <= prev < |node| && 0 <= mp < |node| && 0 <= n < |node|
    && MainPos(hash, |node|, k) == mp && node[mp].key.Live? && MainPos(hash, |node|, node[mp].key.k) != mp
    && node[prev].next == mp && node[n].key.Empty?
  }

  /** Which node's place a node has after the move. */
  function WasAt(mp: int, n: int, i: int): int { if i == n then mp else i }

  lemma MovedAfter(node: seq<Node>, lab: seq<Label>, hash: Hash, prev: int, mp: int, n: int, k: Key, i: int, j: int)
    requires Moving(node, lab, hash, prev, mp, n, k) && 0 <= i < |node| && 0 <= j < |node|
    ensures n != mp && prev != mp && prev != n
    ensures After(MovedLab(lab, mp, n), i, j) <==> i != mp && j != mp && After(lab, WasAt(mp, n, i), WasAt(mp, n, j))
    ensures !After(lab, n, i) && !After(lab, i, n)
  {
    hide PairOk;
    assert NodeOk(node, lab, hash, n) && LinkOk(node, lab, prev) && LinkOk(node, lab, n);
  }

  lemma MovedLink(node: seq<Node>, lab: seq<Label>, hash: Hash, prev: int, mp: int, n: int, k: Key, i: int)
    requires Moving(node, lab, hash, prev, mp, n, k) && 0 <= i < |node|
    ensures LinkOk(Moved(node, prev, mp, n, k), MovedLab(lab, mp, n), i)
  {
    hide PairOk, NodeOk;
    var node', lab' := Moved(node, prev, mp, n, k), MovedLab(lab, mp, n);
    var i0 := WasAt(mp, n, i);
    var x, x' := node[i0].next, node'[i].next;
    MovedAfter(node, lab, hash, prev, mp, n, k, i, i);
    assert LinkOk(node, lab, i0) && LinkOk(node, lab, prev);
    if i != mp && x != NULL {
      MovedAfter(node, lab, hash, prev, mp, n, k, i0, i0);
      assert x != n;
      if x == mp { OneBefore(node, lab, prev, i0, mp); }
      assert WasAt(mp, n, x') == x;
      MovedAfter(node, lab, hash, prev, mp, n, k, i, x');
    }
    forall j | 0 <= j < |node| && After(lab', i, j) ensures i != mp && x != NULL && Reaches(lab', x', j) {
      MovedAfter(node, lab, hash, prev, mp, n, k, i, j);
      assert Reaches(lab, x, WasAt(mp, n, j));
      MovedAfter(node, lab, hash, prev, mp, n, k, x', j);
    }
  }

  lemma NotBefore(node: seq<Node>, lab: seq<Label>, i: int, j: int, n: int)
    requires Lists(node, lab) && 0 <= i < |node| && 0 <= j < |node| && node[i].next == n && node[j].next == n
    requires n != NULL
    ensures !After(lab, i, j)
  {
    assert LinkOk(node, lab, i) && LinkOk(node, lab, j);
    assert After(lab, i, j) ==> Reaches(lab, n, j);
  }

  /** Only one node is linked to a given node. */
  lemma OneBefore(node: seq<Node>, lab: seq<Label>, i: int, j: int, n: int)
    requires Lists(node, lab) && 0 <= i < |node| && 0 <= j < |node| && node[i].next == n && node[j].next == n
    requires n != NULL
    ensures i == j
  {
    assert LinkOk(node, lab, i) && LinkOk(node, lab, j);
    NotBefore(node, lab, i, j, n);
    NotBefore(node, lab, j, i, n);
  }

  lemma MovedLinks(node: seq<Node>, lab: seq<Label>, hash: Hash, prev: int, mp: int, n: int, k: Key)
    requires Moving(node, lab, hash, prev, mp, n, k)
    ensures Lists(Moved(node, prev, mp, n, k), MovedLab(lab, mp, n))
  {
    var node', lab' := Moved(node, prev, mp, n, k), MovedLab(lab, mp, n);
    forall i | 0 <= i < |node'| ensures LinkOk(node', lab', i) {
      MovedLink(node, lab, hash, prev, mp, n, k, i);
    }
    hide LinkOk, PairOk;
    assert NodeOk(node, lab, hash, n);
    MovedAfter(node, lab, hash, prev, mp, n, k, n, n);
    forall i, j | 0 <= i < j < |node'| ensures lab'[i] != lab'[j] {
      var i0, j0 := WasAt(mp, n, i), WasAt(mp, n, j);
      if i != mp && j != mp {
        assert if i0 < j0 then lab[i0] != lab[j0] else lab[j0] != lab[i0];
      }
    }
  }

  lemma MovedNodes(node: seq<Node>, lab: seq<Label>, hash: Hash, prev: int, mp: int, n: int, k: Key, i: int)
    requires Moving(node, lab, hash, prev, mp, n, k) && 0 <= i < |node|
    ensures NodeOk(Moved(node, prev, mp, n, k), MovedLab(lab, mp, n), hash, i)
  {
    hide PairOk;
    assert NodeOk(node, lab, hash, n) && LinkOk(node, lab, prev) && NodeOk(node, lab, hash, mp);
    assert NodeOk(node, lab, hash, i);
  }

  lemma MovedPairs(node: seq<Node>, lab: seq<Label>, hash: Hash, prev: int, mp: int, n: int, k: Key, i: int, j: int)
    requires Moving(node, lab, hash, prev, mp, n, k) && 0 <= i < |node| && 0 <= j < |node|
    ensures PairOk(Moved(node, prev, mp, n, k), MovedLab(lab, mp, n), hash, i, j)
  {
    assert NodeOk(node, lab, hash, n) && NodeOk(node, lab, hash, mp);
    var i', j' := WasAt(mp, n, i), WasAt(mp, n, j);
    MovedAfter(node, lab, hash, prev, mp, n, k, i, j);
    assert PairOk(node, lab, hash, i', j');
    assert NodeOk(node, lab, hash, j');
    if j != mp && node[j'].key.Live? {
      MovedAfter(node, lab, hash, prev, mp, n, k, MainPos(hash, |node|, node[j'].key.k), i);
    }
  }

  lemma MovedOk(node: seq<Node>, lab: seq<Label>, hash: Hash, prev: int, mp: int, n: int, k: Key)
    requires Moving(node, lab, hash, prev, mp, n, k)
    ensures Scattered(Moved(node, prev, mp, n, k), MovedLab(lab, mp, n), hash)
  {
    var node', lab' := Moved(node, prev, mp, n, k), MovedLab(lab, mp, n);
    MovedLinks(node, lab, hash, prev, mp, n, k);
    forall i | 0 <= i < |node'| ensures NodeOk(node', lab', hash, i) {
      MovedNodes(node, lab, hash, prev, mp, n, k, i);
    }
    forall i, j | 0 <= i < |node'| && 0 <= j < |node'| ensures PairOk(node', lab', hash, i, j) {
      MovedPairs(node, lab, hash, prev, mp, n, k, i, j);
    }
  }

  // ---------- the colliding node is in its main position ----------

  /** The key goes to the free node `n`, which is linked in after `mp`. */
  function Chained(node: seq<Node>, mp: int, n: int, k: Key): seq<Node>
    requires 0 <= mp < |node| && 0 <= n < |node|
  {
    node[n := Node(Live(k), node[n].val, node[mp].next)][mp := node[mp].(next := n)]
  }

  ghost function ChainedLab(node: seq<Node>, lab: seq<Label>, mp: int, n: int): seq<Label>
    requires |lab| == |node| && 0 <= mp < |lab| && 0 <= n < |lab|
  {
    var x := node[mp].next;
    var place := if 0 <= x < |lab| then (lab[mp].place + lab[x].place) / 2.0 else lab[mp].place + 1.0;
    lab[n := Label(lab[mp].list, place)]
  }

  ghost predicate Chaining(node: seq<Node>, lab: seq<Label>, hash: Hash, mp: int, n: int, k: Key) {
    && Scattered(node, lab, hash) && Absent(node, k)
    && 0 <= mp < |node| && 0 <= n < |node|
    && MainPos(hash, |node|, k) == mp && node[mp].key.Live? && MainPos(hash, |node|, node[mp].key.k) == mp
    && node[n].key.Empty?
  }

  lemma ChainedAfter(node: seq<Node>, lab: seq<Label>, hash: Hash, mp: int, n: int, k: Key, i: int, j: int)
    requires Chaining(node, lab, hash, mp, n, k) && 0 <= i < |node| && 0 <= j < |node|
    ensures n != mp && lab[n].list != lab[mp].list && !After(lab, n, i) && !After(lab, i, n)
    ensures var lab' := ChainedLab(node, lab, mp, n);
            && (i != n && j != n ==> (After(lab', i, j) <==> After(lab, i, j)))
            && (j != n ==> (After(lab', n, j) <==> After(lab, mp, j)))
            && (i != n ==> (After(lab', i, n) <==> Reaches(lab, i, mp)))
            && (i != n ==> lab'[i] != lab'[n])
            && !After(lab', n, n)
  {
    hide PairOk;
    assert NodeOk(node, lab, hash, n) && LinkOk(node, lab, mp) && LinkOk(node, lab, n);
    if i != mp {
      assert lab[if i < mp then i else mp] != lab[if i < mp then mp else i];
      if After(lab, mp, i) { assert node[mp].next != NULL && Reaches(lab, node[mp].next, i); }
    }
  }

  lemma ChainedLink(node: seq<Node>, lab: seq<Label>, hash: Hash, mp: int, n: int, k: Key, i: int)
    requires Chaining(node, lab, hash, mp, n, k) && 0 <= i < |node|
    ensures LinkOk(Chained(node, mp, n, k), ChainedLab(node, lab, mp, n), i)
  {
    hide PairOk, NodeOk;
    var node', lab' := Chained(node, mp, n, k), ChainedLab(node, lab, mp, n);
    var x := node'[i].next;
    ChainedAfter(node, lab, hash, mp, n, k, i, i);
    var i0 := if i == n then mp else i;
    assert LinkOk(node, lab, i0) && LinkOk(node, lab, mp);
    if x != NULL {
      ChainedAfter(node, lab, hash, mp, n, k, i0, x);
      ChainedAfter(node, lab, hash, mp, n, k, i, x);
    }
    forall j | 0 <= j < |node| && After(lab', i, j) ensures x != NULL && Reaches(lab', x, j) {
      ChainedAfter(node, lab, hash, mp, n, k, i, j);
      if x != NULL { ChainedAfter(node, lab, hash, mp, n, k, x, j); }
    }
  }

  lemma ChainedLinks(node: seq<Node>, lab: seq<Label>, hash: Hash, mp: int, n: int, k: Key)
    requires Chaining(node, lab, hash, mp, n, k)
    ensures Lists(Chained(node, mp, n, k), ChainedLab(node, lab, mp, n))
  {
    var node', lab' := Chained(node, mp, n, k), ChainedLab(node, lab, mp, n);
    forall i | 0 <= i < |node'| ensures LinkOk(node', lab', i) {
      ChainedLink(node, lab, hash, mp, n, k, i);
    }
    hide LinkOk, NodeOk, PairOk;
    forall i, j | 0 <= i < j < |node'| ensures lab'[i] != lab'[j] {
      ChainedAfter(node, lab, hash, mp, n, k, i, j);
      ChainedAfter(node, lab, hash, mp, n, k, j, i);
    }
  }

  lemma ChainedNodes(node: seq<Node>, lab: seq<Label>, hash: Hash, mp: int, n: int, k: Key, i: int)
    requires Chaining(node, lab, hash, mp, n, k) && 0 <= i < |node|
    ensures NodeOk(Chained(node, mp, n, k), ChainedLab(node, lab, mp, n), hash, i)
  {
    hide PairOk;
    assert NodeOk(node, lab, hash, n) && LinkOk(node, lab, mp) && NodeOk(node, lab, hash, mp);
    assert NodeOk(node, lab, hash, i);
  }

  lemma ChainedPairs(node: seq<Node>, lab: seq<Label>, hash: Hash, mp: int, n: int, k: Key, i: int, j: int)
    requires Chaining(node, lab, hash, mp, n, k) && 0 <= i < |node| && 0 <= j < |node|
    ensures PairOk(Chained(node, mp, n, k), ChainedLab(node, lab, mp, n), hash, i, j)
  {
    assert NodeOk(node, lab, hash, n) && NodeOk(node, lab, hash, j);
    assert PairOk(node, lab, hash, i, j);
    ChainedAfter(node, lab, hash, mp, n, k, i, j);
    ChainedAfter(node, lab, hash, mp, n, k, mp, i);
  }

  lemma ChainedOk(node: seq<Node>, lab: seq<Label>, hash: Hash, mp: int, n: int, k: Key)
    requires Chaining(node, lab, hash, mp, n, k)
    ensures Scattered(Chained(node, mp, n, k), ChainedLab(node, lab, mp, n), hash)
  {
    var node', lab' := Chained(node, mp, n, k), ChainedLab(node, lab, mp, n);
    ChainedLinks(node, lab, hash, mp, n, k);
    forall i | 0 <= i < |node'| ensures NodeOk(node', lab', hash, i) {
      ChainedNodes(node, lab, hash, mp, n, k, i);
    }
    forall i, j | 0 <= i < |node'| && 0 <= j < |node'| ensures PairOk(node', lab', hash, i, j) {
      ChainedPairs(node, lab, hash, mp, n, k, i, j);
    }
  }
}
