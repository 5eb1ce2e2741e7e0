/** The three commitment trees side by side: the node's incremental tree, the
    wallet's layered tree, and the path fold of the circuits. */
module TreeAgreement {
  import opened Field
  import opened CommitmentTree
  import opened PoolState
  import opened WalletTree
  import opened Circuits

  /** A commitment appended on both sides: the roots agree, the node knows the
      wallet's root, and the wallet's path for any appended leaf satisfies the
      circuit against that root. */
  method AppendOnBothSides(p: Poseidon, pool: PoolState, wallet: MerkleTree, leaf: Fr, spend: nat)
    returns (root: Fr, path: seq<Fr>)
    requires pool.Valid() && wallet.Valid() && pool.h == wallet.h == p.h2 && pool.leaves == wallet.leaves
    requires |pool.leaves| < CAPACITY && spend <= |pool.leaves|
    modifies pool, pool.filled, pool.roots, wallet
    ensures pool.Valid() && wallet.Valid() && pool.leaves == wallet.leaves == old(pool.leaves) + [leaf]
    ensures root == pool.CurrentRoot()
    ensures root != 0 ==> pool.IsKnownRoot(root)
    ensures MerkleInclusion(p, wallet.leaves[spend], spend, path, root, true)
  {
    hide HoldsLeftSiblings, HoldsRoots, Holds, Root, Node, Zero, Fold, IsPath;
    var r := pool.Insert(leaf);
    var _ := wallet.Append(leaf);
    root := wallet.GetRoot();
    path := wallet.Path(spend);
    NewestRootKnown(pool.h, pool.leaves);
  }

  lemma NewestRootKnown(h: NodeHash, leaves: seq<Fr>)
    ensures Root(h, leaves) != 0 ==> KnownRoot(h, leaves, Root(h, leaves))
  {
    hide Root;
    assert leaves[..|leaves|] == leaves;
  }
}
