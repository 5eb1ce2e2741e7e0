/** The pool's on-chain tree state: one remembered left sibling per level and a
    ring of recent roots, updated in place by each insert. */
module PoolState {
  import opened Field
  import opened CommitmentTree

  const ROOT_HISTORY := 64

  datatype InsertResult = Inserted(index: nat) | Full

  /** The roots still accepted after these inserts: those of the last 64 leaf
      prefixes, the empty one included, except the all-zero encoding. */
  ghost predicate KnownRoot(h: NodeHash, leaves: seq<Fr>, candidate: FieldBytes) {
    candidate != 0 && exists k :: 0 <= k <= |leaves| < k + ROOT_HISTORY && candidate == Root(h, leaves[..k])
  }

  /** `filled` holds, at each level where the next leaf falls on the right, the
      left sibling it will be paired with. */
  ghost predicate HoldsLeftSiblings(h: NodeHash, leaves: seq<Fr>, filled: seq<Fr>) {
    && |filled| == TREE_DEPTH
    && forall l | 0 <= l < TREE_DEPTH && Above(|leaves|, l) % 2 == 1 ::
         filled[l] == Node(h, leaves, l, Above(|leaves|, l) - 1)
  }

  /** `roots` is a ring: prefix `k` of the leaves is at slot `k % 64`, and slots
      not yet reached hold zero. */
  ghost predicate HoldsRoots(h: NodeHash, leaves: seq<Fr>, roots: seq<Fr>) {
    && |roots| == ROOT_HISTORY
    && (forall k | 0 <= k <= |leaves| < k + ROOT_HISTORY :: roots[k % ROOT_HISTORY] == Root(h, leaves[..k]))
    && (forall j | |leaves| < j < ROOT_HISTORY :: roots[j] == 0)
  }

  /** Advance the siblings past one insert: levels where the new node is a left
      child now remember it. */
  lemma SiblingsAfterInsert(h: NodeHash, leaves: seq<Fr>, x: Fr, before: seq<Fr>, after: seq<Fr>, l: nat)
    requires l < TREE_DEPTH && HoldsLeftSiblings(h, leaves, before) && |after| == TREE_DEPTH
    requires after[l] == if Above(|leaves|, l) % 2 == 0 then Node(h, leaves + [x], l, Above(|leaves|, l)) else before[l]
    requires Above(|leaves| + 1, l) % 2 == 1
    ensures after[l] == Node(h, leaves + [x], l, Above(|leaves| + 1, l) - 1)
  {
    hide Node, Above;
    AboveNext(|leaves|, l);
    if Above(|leaves|, l) % 2 == 1 {
      AppendLocal(h, leaves, x, l, Above(|leaves|, l) - 1);
    }
  }

  lemma InitialState(h: NodeHash, filled: seq<Fr>, roots: seq<Fr>)
    requires |filled| == TREE_DEPTH
    requires |roots| == ROOT_HISTORY
    requires roots[0] == Zero(h, TREE_DEPTH) && forall j | 1 <= j < ROOT_HISTORY :: roots[j] == 0
    ensures HoldsLeftSiblings(h, [], filled) && HoldsRoots(h, [], roots)
  {
    hide Node, Zero, Above;
    forall l | 0 <= l < TREE_DEPTH ensures Above(0, l) == 0 {
      ZeroAbove(l);
    }
    EmptyBeyond(h, [], TREE_DEPTH, 0);
    var none: seq<Fr> := [];
    assert none[..0] == none;
  }

  lemma {:induction false} ZeroAbove(level: nat)
    ensures Above(0, level) == 0
  {
    if level > 0 {
      ZeroAbove(level - 1);
    }
  }

  lemma {:induction false} AboveNext(i: nat, level: nat)
    ensures Above(i, level) <= Above(i + 1, level) <= Above(i, level) + 1
  {
    if level > 0 {
      AboveNext(i, level - 1);
    }
  }

  lemma RootsAfterInsert(h: NodeHash, leaves: seq<Fr>, x: Fr, roots: seq<Fr>)
    requires HoldsRoots(h, leaves, roots)
    ensures HoldsRoots(h, leaves + [x], roots[(|leaves| + 1) % ROOT_HISTORY := Root(h, leaves + [x])])
  {
    var n := |leaves| + 1;
    var after := roots[n % ROOT_HISTORY := Root(h, leaves + [x])];
    forall k | 0 <= k <= n < k + ROOT_HISTORY
      ensures after[k % ROOT_HISTORY] == Root(h, (leaves + [x])[..k])
    {
      if k == n {
        assert (leaves + [x])[..k] == leaves + [x];
      } else {
        assert (leaves + [x])[..k] == leaves[..k];
        assert k % ROOT_HISTORY != n % ROOT_HISTORY;
      }
    }
  }

  lemma TopIsRoot(h: NodeHash, leaves: seq<Fr>)
    ensures Node(h, leaves, TREE_DEPTH, 0) == Root(h, leaves)
  {
  }

  class PoolState {
    const h: NodeHash
    const filled: array<Fr>
    const roots: array<Fr>
    var rootIndex: nat
    var nextLeaf: nat
    /** Every leaf inserted so far. */
    ghost var leaves: seq<Fr>

    ghost predicate Valid()
      reads this, filled, roots
    {
      && filled.Length == TREE_DEPTH && roots.Length == ROOT_HISTORY
      && filled != roots
      && nextLeaf == |leaves| <= CAPACITY
      && rootIndex == |leaves| % ROOT_HISTORY
      && HoldsLeftSiblings(h, leaves, filled[..])
      && HoldsRoots(h, leaves, roots[..])
    }

    constructor (h: NodeHash)
      ensures Valid() && leaves == [] && this.h == h && fresh(filled) && fresh(roots)
    {
      hide Node, Above, Zero, HoldsLeftSiblings, HoldsRoots;
      this.h := h;
      filled := new Fr[TREE_DEPTH](l => Zero(h, l));
      roots := new Fr[ROOT_HISTORY](j => if j == 0 then Zero(h, TREE_DEPTH) else 0);
      rootIndex, nextLeaf, leaves := 0, 0, [];
      new;
      InitialState(h, filled[..], roots[..]);
    }

    function CurrentRoot(): (r: Fr)
      requires Valid()
      reads this, filled, roots
      ensures r == Root(h, leaves)
    {
      assert leaves[..|leaves|] == leaves;
      roots[rootIndex]
    }

    /** Exactly the recent prefixes' roots are known. */
    predicate IsKnownRoot(candidate: FieldBytes)
      requires Valid()
      reads this, filled, roots
      ensures IsKnownRoot(candidate) <==> KnownRoot(h, leaves, candidate)
    {
      KnownRootSlot(candidate);
      if candidate == 0 then false else exists j | 0 <= j < ROOT_HISTORY :: roots[j] == candidate
    }

    lemma KnownRootSlot(candidate: FieldBytes)
      requires Valid()
      ensures candidate != 0 ==>
                ((exists j | 0 <= j < ROOT_HISTORY :: roots[j] == candidate) <==> KnownRoot(h, leaves, candidate))
    {
      if candidate != 0 {
        if j :| 0 <= j < ROOT_HISTORY && roots[j] == candidate {
          var n := |leaves|;
          assert roots[..][j] == candidate;
          assert j <= n;
          var k := n - (n - j) % ROOT_HISTORY;
          assert k % ROOT_HISTORY == j;
          assert roots[..][k % ROOT_HISTORY] == Root(h, leaves[..k]);
        }
        if KnownRoot(h, leaves, candidate) {
          var k :| 0 <= k <= |leaves| < k + ROOT_HISTORY && candidate == Root(h, leaves[..k]);
          assert roots[..][k % ROOT_HISTORY] == candidate;
        }
      }
    }

    /** Append a leaf. The current root becomes the root of the full tree over
        all leaves; a full tree is left untouched. */
    method Insert(leaf: Fr) returns (r: InsertResult)
      requires Valid()
      modifies this, filled, roots
      ensures Valid()
      ensures r.Full? <==> old(|leaves|) == CAPACITY
      ensures r.Full? ==> unchanged(this) && unchanged(filled) && unchanged(roots)
      ensures r.Inserted? ==> r.index == old(|leaves|) && leaves == old(leaves) + [leaf]
    {
      hide Node, Above, Zero, HoldsRoots, Root;
      var index := nextLeaf;
      if index >= CAPACITY {
        return Full;
      }
      var current: Fr := leaf;
      var nodeIndex := index;
      ghost var next := leaves + [leaf];
      ghost var before, ring := filled[..], roots[..];
      LeafLevel(h, next, index);
      for level := 0 to TREE_DEPTH
        modifies filled
        invariant nodeIndex == Above(index, level)
        invariant current == Node(h, next, level, nodeIndex)
        invariant forall l | level <= l < TREE_DEPTH :: filled[l] == before[l]
        invariant forall l | 0 <= l < level ::
                    filled[l] == if Above(index, l) % 2 == 0 then Node(h, next, l, Above(index, l)) else before[l]
      {
        AboveStep(h, next, index, level);
        AppendStep(h, leaves, leaf, level);
        if nodeIndex % 2 == 0 {
          filled[level] := current;
          current := h(current, Zero(h, level));
        } else {
          assert filled[level] == before[level] == Node(h, leaves, level, nodeIndex - 1);
          current := h(filled[level], current);
        }
        nodeIndex := nodeIndex / 2;
      }
      RootPosition(index);
      assert current == Root(h, next) by {
        TopIsRoot(h, next);
      }
      forall l | 0 <= l < TREE_DEPTH && Above(|next|, l) % 2 == 1
        ensures filled[l] == Node(h, next, l, Above(|next|, l) - 1)
      {
        SiblingsAfterInsert(h, leaves, leaf, before, filled[..], l);
      }
      assert roots[..] == ring;
      RootsAfterInsert(h, leaves, leaf, ring);
      rootIndex := (rootIndex + 1) % ROOT_HISTORY;
      roots[rootIndex] := current;
      nextLeaf := nextLeaf + 1;
      assert roots[..] == ring[rootIndex := current];
      leaves := next;
      r := Inserted(index);
    }
  }
}
