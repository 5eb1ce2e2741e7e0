/** The wallet's copy of the commitment tree, which keeps every computed layer
    to answer membership paths, and the level-by-level reference computation.
    Both agree with the reference tree, hence with the node's `PoolState`. */
module WalletTree {
  import opened Field
  import opened CommitmentTree

  /** Number of computed nodes in a layer after `n` leaves. */
  function Width(n: nat, level: nat): nat {
    if n == 0 then 0 else Above(n - 1, level) + 1
  }

  /** A layer holds exactly the nodes of the reference tree that cover a leaf. */
  ghost predicate Holds(h: NodeHash, leaves: seq<Fr>, level: nat, layer: seq<Fr>) {
    |layer| == Width(|leaves|, level) && forall i | 0 <= i < |layer| :: layer[i] == Node(h, leaves, level, i)
  }

  lemma {:induction false} WidthNext(n: nat, level: nat)
    ensures Width(n, level) <= Above(n, level) + 1 == Width(n + 1, level)
    ensures Above(n, level) <= Width(n, level)
  {
    if level > 0 {
      WidthNext(n, level - 1);
    }
  }

  /** Storing the new leaf's ancestor, past the end or over an old value, brings
      a layer up to date. */
  lemma LayerAfterAppend(h: NodeHash, leaves: seq<Fr>, x: Fr, level: nat, layer: seq<Fr>)
    requires Holds(h, leaves, level, layer)
    ensures Above(|leaves|, level) <= |layer|
    ensures Holds(h, leaves + [x], level,
                  Store(layer, Above(|leaves|, level), Node(h, leaves + [x], level, Above(|leaves|, level))))
  {
    hide Node, Above;
    WidthNext(|leaves|, level);
    var c := Above(|leaves|, level);
    var after := Store(layer, c, Node(h, leaves + [x], level, c));
    forall i | 0 <= i < |after| ensures after[i] == Node(h, leaves + [x], level, i) {
      if i != c {
        AppendLocal(h, leaves, x, level, i);
      }
    }
  }

  /** Assignment to an index of a growable list; index = length appends. */
  function Store(layer: seq<Fr>, i: nat, v: Fr): seq<Fr>
    requires i <= |layer|
  {
    if i == |layer| then layer + [v] else layer[i := v]
  }

  class MerkleTree {
    const h: NodeHash
    const zeros: seq<Fr>
    var layers: seq<seq<Fr>>
    ghost var leaves: seq<Fr>

    ghost predicate Valid()
      reads this
    {
      && |zeros| == TREE_DEPTH + 1 && (forall l | 0 <= l <= TREE_DEPTH :: zeros[l] == Zero(h, l))
      && |layers| == TREE_DEPTH + 1
      && forall l | 0 <= l <= TREE_DEPTH :: Holds(h, leaves, l, layers[l])
    }

    constructor (h: NodeHash)
      ensures Valid() && leaves == [] && this.h == h
    {
      var z: seq<Fr> := [EMPTY_LEAF];
      for i := 1 to TREE_DEPTH + 1
        invariant |z| == i && forall l | 0 <= l < i :: z[l] == Zero(h, l)
      {
        z := z + [h(z[i - 1], z[i - 1])];
      }
      this.h, zeros := h, z;
      layers := seq(TREE_DEPTH + 1, i => []);
      leaves := [];
    }

    method Append(leaf: Fr) returns (index: nat)
      requires Valid()
      modifies this
      ensures Valid() && leaves == old(leaves) + [leaf] && index == |old(leaves)|
    {
      hide Node, Above, Zero, Holds;
      index := |layers[0]|;
      ghost var before := layers;
      ghost var next := leaves + [leaf];
      BottomLayer(h, leaves, leaf, layers[0]);
      layers := layers[0 := layers[0] + [leaf]];
      var i := index;
      for level := 0 to TREE_DEPTH
        invariant leaves == old(leaves) && |layers| == TREE_DEPTH + 1
        invariant i == Above(index, level)
        invariant forall l | 0 <= l <= level :: Holds(h, next, l, layers[l])
        invariant forall l | level < l <= TREE_DEPTH :: layers[l] == before[l]
      {
        var layer := layers[level];
        HoldsAppended(h, leaves, leaf, level, layer);
        var isRight := i % 2 == 1;
        var left: Fr := if isRight then layer[i - 1] else layer[i];
        var right: Fr := if isRight then layer[i] else zeros[level];
        var parent: Fr := h(left, right);
        i := i / 2;
        LayerAfterAppend(h, leaves, leaf, level + 1, layers[level + 1]);
        layers := layers[level + 1 := Store(layers[level + 1], i, parent)];
      }
      leaves := next;
    }

    method GetRoot() returns (r: Fr)
      requires Valid()
      ensures r == Root(h, leaves)
    {
      if |layers[0]| == 0 {
        EmptyBeyond(h, leaves, TREE_DEPTH, 0);
        return zeros[TREE_DEPTH];
      }
      r := layers[TREE_DEPTH][0];
    }

    /** The siblings of a leaf; folding an appended leaf with them, as the
        circuit does, reaches the root. */
    method Path(leafIndex: nat) returns (elements: seq<Fr>)
      requires Valid()
      ensures |elements| == TREE_DEPTH && IsPath(h, leaves, leafIndex, elements)
      ensures leafIndex < |leaves| && leafIndex < CAPACITY ==>
                Fold(h, leaves[leafIndex], leafIndex, elements, TREE_DEPTH) == Root(h, leaves)
    {
      hide Node, Above, Zero, Holds;
      elements := [];
      var i := leafIndex;
      LeafLevel(h, leaves, leafIndex);
      for level := 0 to TREE_DEPTH
        invariant |elements| == level && IsPath(h, leaves, leafIndex, elements)
        invariant i == Above(leafIndex, level)
      {
        var layer := layers[level];
        var s := SiblingIndex(i);
        LayerRead(h, leaves, level, layer, s);
        elements := elements + [if s < |layer| then layer[s] else zeros[level]];
        AboveStep(h, leaves, leafIndex, level);
        i := i / 2;
      }
      if leafIndex < |leaves| && leafIndex < CAPACITY {
        FoldReachesNode(h, leaves, leafIndex, elements, TREE_DEPTH);
        RootPosition(leafIndex);
      }
    }
  }

  lemma BottomLayer(h: NodeHash, leaves: seq<Fr>, x: Fr, layer: seq<Fr>)
    requires Holds(h, leaves, 0, layer)
    ensures layer == leaves && Above(|leaves|, 0) == |leaves|
    ensures Holds(h, leaves + [x], 0, layer + [x])
  {
  }

  /** What the append loop reads from an updated layer and what it must write. */
  lemma HoldsAppended(h: NodeHash, leaves: seq<Fr>, x: Fr, level: nat, layer: seq<Fr>)
    requires Holds(h, leaves + [x], level, layer)
    ensures Above(|leaves|, level + 1) == Above(|leaves|, level) / 2
    ensures var c := Above(|leaves|, level);
            && c < |layer|
            && Node(h, leaves + [x], level + 1, Above(|leaves|, level + 1)) ==
               if c % 2 == 0 then h(layer[c], Zero(h, level)) else h(layer[c - 1], layer[c])
  {
    hide Node, Above, Zero;
    WidthNext(|leaves|, level);
    AboveStep(h, leaves + [x], |leaves|, level);
    AppendStep(h, leaves, x, level);
  }

  lemma LayerRead(h: NodeHash, leaves: seq<Fr>, level: nat, layer: seq<Fr>, s: nat)
    requires Holds(h, leaves, level, layer)
    ensures Node(h, leaves, level, s) == if s < |layer| then layer[s] else Zero(h, level)
  {
    hide Node, Above, Zero;
    if s >= |layer| {
      EmptyBeyond(h, leaves, level, s);
    }
  }

  /** A computed level: a prefix of the reference level, the rest empty. */
  ghost predicate Covers(h: NodeHash, leaves: seq<Fr>, level: nat, nodes: seq<Fr>) {
    forall i: nat :: Node(h, leaves, level, i) == if i < |nodes| then nodes[i] else Zero(h, level)
  }

  lemma CoversNext(h: NodeHash, leaves: seq<Fr>, level: nat, nodes: seq<Fr>, next: seq<Fr>)
    requires Covers(h, leaves, level, nodes)
    requires |next| == if nodes == [] then 1 else (|nodes| + 1) / 2
    requires nodes == [] ==> next[0] == Zero(h, level + 1)
    requires forall j | 0 <= 2 * j < |nodes| ::
               next[j] == h(nodes[2 * j], if 2 * j + 1 < |nodes| then nodes[2 * j + 1] else Zero(h, level))
    ensures Covers(h, leaves, level + 1, next)
  {
    forall i: nat
      ensures Node(h, leaves, level + 1, i) == if i < |next| then next[i] else Zero(h, level + 1)
    {
      var l, r := Node(h, leaves, level, 2 * i), Node(h, leaves, level, 2 * i + 1);
      assert Node(h, leaves, level + 1, i) == h(l, r);
    }
  }

  /** The level-by-level computation over all leaves at once. */
  method ReferenceRoot(h: NodeHash, leaves: seq<Fr>) returns (root: Fr)
    ensures root == Root(h, leaves)
  {
    hide Node, Zero, Covers;
    var nodes := leaves;
    CoversLeaves(h, leaves);
    for level := 0 to TREE_DEPTH
      invariant Covers(h, leaves, level, nodes)
      invariant level > 0 ==> nodes != []
    {
      var next: seq<Fr> := [];
      var i := 0;
      while i < |nodes|
        invariant i == 2 * |next| <= |nodes| + 1
        invariant forall j | 0 <= j < |next| ::
                    next[j] == h(nodes[2 * j], if 2 * j + 1 < |nodes| then nodes[2 * j + 1] else Zero(h, level))
      {
        var right: Fr := if i + 1 < |nodes| then nodes[i + 1] else Zero(h, level);
        next := next + [h(nodes[i], right)];
        i := i + 2;
      }
      if |next| == 0 {
        next := [h(Zero(h, level), Zero(h, level))];
        ZeroStep(h, level);
      }
      CoversNext(h, leaves, level, nodes, next);
      nodes := next;
    }
    root := nodes[0];
    CoversRoot(h, leaves, nodes);
  }

  lemma CoversLeaves(h: NodeHash, leaves: seq<Fr>)
    ensures Covers(h, leaves, 0, leaves)
  {
  }

  lemma CoversRoot(h: NodeHash, leaves: seq<Fr>, nodes: seq<Fr>)
    requires Covers(h, leaves, TREE_DEPTH, nodes) && nodes != []
    ensures nodes[0] == Root(h, leaves)
  {
  }

  lemma ZeroStep(h: NodeHash, level: nat)
    ensures h(Zero(h, level), Zero(h, level)) == Zero(h, level + 1)
  {
  }
}
