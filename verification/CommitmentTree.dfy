/** The note-commitment tree: the full binary tree of all leaves padded with a
    fixed empty leaf. This is the reference for the node's incremental tree,
    the wallet's layered tree and the circuits' path check. */
module CommitmentTree {
  import opened Common
  import opened Field

  type NodeHash = (Fr, Fr) -> Fr

  const TREE_DEPTH := 26
  const CAPACITY := 67108864
  const EMPTY_LEAF: Fr := 770212417220141184

  /** Root of an empty subtree of the given height. */
  function Zero(h: NodeHash, level: nat): Fr {
    if level == 0 then EMPTY_LEAF else h(Zero(h, level - 1), Zero(h, level - 1))
  }

  /** The `i`-th node of a level of the full tree, leaves at level 0. */
  function Node(h: NodeHash, leaves: seq<Fr>, level: nat, i: nat): Fr {
    if level == 0 then (if i < |leaves| then leaves[i] else EMPTY_LEAF)
    else h(Node(h, leaves, level - 1, 2 * i), Node(h, leaves, level - 1, 2 * i + 1))
  }

  function Root(h: NodeHash, leaves: seq<Fr>): Fr {
    Node(h, leaves, TREE_DEPTH, 0)
  }

  /** The even leaf is the left child. */
  lemma TwoLeaves(h: NodeHash, a: Fr, b: Fr)
    ensures Node(h, [a, b], 1, 0) == h(a, b) && Node(h, [a], 1, 0) == h(a, EMPTY_LEAF)
  {
  }

  /** Index, at `level`, of the node above leaf `i`. */
  function Above(i: nat, level: nat): nat {
    if level == 0 then i else Above(i, level - 1) / 2
  }

  lemma {:induction false} AboveBound(i: nat, level: nat, k: nat)
    requires level <= k && i < Pow2(k)
    ensures Above(i, level) < Pow2(k - level)
    decreases level
  {
    if level > 0 {
      AboveBound(i, level - 1, k);
    }
  }

  lemma RootPosition(i: nat)
    requires i < CAPACITY
    ensures Above(i, TREE_DEPTH) == 0
  {
    assert Pow2(13) == 8192;
    assert Pow2(26) == 67108864;
    AboveBound(i, TREE_DEPTH, TREE_DEPTH);
  }

  /** A node right of the last leaf roots an empty subtree. */
  lemma {:induction false} EmptyBeyond(h: NodeHash, leaves: seq<Fr>, level: nat, i: nat)
    requires leaves == [] || i > Above(|leaves| - 1, level)
    ensures Node(h, leaves, level, i) == Zero(h, level)
  {
    if level > 0 {
      EmptyBeyond(h, leaves, level - 1, 2 * i);
      EmptyBeyond(h, leaves, level - 1, 2 * i + 1);
    }
  }

  /** Appending a leaf changes only the nodes above it. */
  lemma {:induction false} AppendLocal(h: NodeHash, leaves: seq<Fr>, x: Fr, level: nat, i: nat)
    requires i != Above(|leaves|, level)
    ensures Node(h, leaves + [x], level, i) == Node(h, leaves, level, i)
  {
    if level > 0 {
      AppendLocal(h, leaves, x, level - 1, 2 * i);
      AppendLocal(h, leaves, x, level - 1, 2 * i + 1);
    }
  }

  /** The node above leaf `i` from its two children. */
  lemma AboveStep(h: NodeHash, leaves: seq<Fr>, i: nat, level: nat)
    ensures Above(i, level + 1) == Above(i, level) / 2
    ensures var c := Above(i, level);
            Node(h, leaves, level + 1, Above(i, level + 1)) ==
            if c % 2 == 0 then h(Node(h, leaves, level, c), Node(h, leaves, level, c + 1))
            else h(Node(h, leaves, level, c - 1), Node(h, leaves, level, c))
  {
  }

  lemma LeafLevel(h: NodeHash, leaves: seq<Fr>, i: nat)
    ensures Above(i, 0) == i
    ensures i < |leaves| ==> Node(h, leaves, 0, i) == leaves[i]
  {
  }

  /** One level of an append: the new node is paired with an empty subtree on
      its right, or with the node that was already there on its left. */
  lemma AppendStep(h: NodeHash, leaves: seq<Fr>, x: Fr, level: nat)
    ensures var c := Above(|leaves|, level);
            var here := Node(h, leaves + [x], level, c);
            Node(h, leaves + [x], level + 1, Above(|leaves|, level + 1)) ==
            if c % 2 == 0 then h(here, Zero(h, level)) else h(Node(h, leaves, level, c - 1), here)
  {
    hide Node, Above, Zero;
    var c := Above(|leaves|, level);
    AboveStep(h, leaves + [x], |leaves|, level);
    if c % 2 == 0 {
      EmptyBeyond(h, leaves + [x], level, c + 1);
    } else {
      AppendLocal(h, leaves, x, level, c - 1);
    }
  }

  // ----- membership paths ----------------------------------------------------

  /** What the circuit computes: fold a leaf with its siblings, the `l`-th bit of
      the index (least significant first) choosing the side at level `l`. */
  function Fold(h: NodeHash, leaf: Fr, index: nat, path: seq<Fr>, level: nat): Fr
    requires level <= |path|
  {
    if level == 0 then leaf
    else
      var below := Fold(h, leaf, index, path, level - 1);
      var sibling := path[level - 1];
      if Above(index, level - 1) % 2 == 0 then h(below, sibling) else h(sibling, below)
  }

  function SiblingIndex(i: nat): nat {
    if i % 2 == 0 then i + 1 else i - 1
  }

  /** The true siblings of leaf `index`. */
  ghost predicate IsPath(h: NodeHash, leaves: seq<Fr>, index: nat, path: seq<Fr>) {
    forall l | 0 <= l < |path| :: path[l] == Node(h, leaves, l, SiblingIndex(Above(index, l)))
  }

  /** The pair hashed by the fold to leave level `level`. */
  function FoldInputs(h: NodeHash, leaf: Fr, index: nat, path: seq<Fr>, level: nat): (Fr, Fr)
    requires level < |path|
  {
    var below := Fold(h, leaf, index, path, level);
    if Above(index, level) % 2 == 0 then (below, path[level]) else (path[level], below)
  }

  lemma FoldFromInputs(h: NodeHash, leaf: Fr, index: nat, path: seq<Fr>, level: nat)
    requires level < |path|
    ensures var p := FoldInputs(h, leaf, index, path, level); Fold(h, leaf, index, path, level + 1) == h(p.0, p.1)
    ensures var p := FoldInputs(h, leaf, index, path, level);
            Fold(h, leaf, index, path, level) == if Above(index, level) % 2 == 0 then p.0 else p.1
  {
  }

  lemma {:induction false} FoldReachesNode(h: NodeHash, leaves: seq<Fr>, index: nat, path: seq<Fr>, level: nat)
    requires IsPath(h, leaves, index, path) && level <= |path|
    ensures Fold(h, Node(h, leaves, 0, index), index, path, level) == Node(h, leaves, level, Above(index, level))
  {
    hide Node, Above, Fold;
    if level == 0 {
      FoldStart(h, Node(h, leaves, 0, index), index, path);
    } else {
      FoldReachesNode(h, leaves, index, path, level - 1);
      FoldFromInputs(h, Node(h, leaves, 0, index), index, path, level - 1);
      AboveStep(h, leaves, index, level - 1);
      assert path[level - 1] == Node(h, leaves, level - 1, SiblingIndex(Above(index, level - 1)));
    }
  }

  lemma FoldStart(h: NodeHash, leaf: Fr, index: nat, path: seq<Fr>)
    ensures Above(index, 0) == index && Fold(h, leaf, index, path, 0) == leaf
  {
  }

  // ----- binding -------------------------------------------------------------

  /** Inputs of the node hash that somebody evaluated. */
  type Pairs = iset<(Fr, Fr)>

  ghost predicate CollisionFree(h: NodeHash, asked: Pairs) {
    forall p, q | p in asked && q in asked && h(p.0, p.1) == h(q.0, q.1) :: p == q
  }

  /** The children hashed into node `i` of level `level + 1`. */
  function NodeInputs(h: NodeHash, leaves: seq<Fr>, level: nat, i: nat): (Fr, Fr) {
    (Node(h, leaves, level, 2 * i), Node(h, leaves, level, 2 * i + 1))
  }

  /** Every inner node of the full tree was computed from inputs in `asked`. */
  ghost predicate TreeAsked(h: NodeHash, leaves: seq<Fr>, asked: Pairs) {
    forall level: nat, i: nat | level < TREE_DEPTH :: NodeInputs(h, leaves, level, i) in asked
  }

  ghost predicate FoldAsked(h: NodeHash, leaf: Fr, index: nat, path: seq<Fr>, asked: Pairs) {
    forall l | 0 <= l < |path| :: FoldInputs(h, leaf, index, path, l) in asked
  }

  lemma NodeFromInputs(h: NodeHash, leaves: seq<Fr>, index: nat, level: nat)
    ensures var q := NodeInputs(h, leaves, level, Above(index, level + 1));
            Node(h, leaves, level + 1, Above(index, level + 1)) == h(q.0, q.1)
    ensures var q := NodeInputs(h, leaves, level, Above(index, level + 1));
            Node(h, leaves, level, Above(index, level)) == if Above(index, level) % 2 == 0 then q.0 else q.1
  {
  }

  /** Without a collision among the inputs in play, a path that folds to a node
      of the tree starts at the leaf the tree holds there. */
  lemma {:induction false} FoldBinds(h: NodeHash, leaves: seq<Fr>, leaf: Fr, index: nat, path: seq<Fr>, level: nat,
                                     asked: Pairs)
    requires level <= |path| == TREE_DEPTH
    requires CollisionFree(h, asked) && TreeAsked(h, leaves, asked) && FoldAsked(h, leaf, index, path, asked)
    requires Fold(h, leaf, index, path, level) == Node(h, leaves, level, Above(index, level))
    ensures leaf == Node(h, leaves, 0, index)
  {
    if level > 0 {
      assert Fold(h, leaf, index, path, level - 1) == Node(h, leaves, level - 1, Above(index, level - 1)) by {
        hide Node, Fold, FoldInputs, NodeInputs, Above;
        FoldFromInputs(h, leaf, index, path, level - 1);
        NodeFromInputs(h, leaves, index, level - 1);
        var p := FoldInputs(h, leaf, index, path, level - 1);
        var q := NodeInputs(h, leaves, level - 1, Above(index, level));
        assert p in asked && q in asked && h(p.0, p.1) == h(q.0, q.1);
      }
      FoldBinds(h, leaves, leaf, index, path, level - 1, asked);
    }
  }
}
