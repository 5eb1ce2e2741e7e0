/** Compressed inclusion and absence proofs for sparse Merkle trees. Siblings
    are listed leaf level first; bit `i` of the bitmap says whether the sibling
    at depth `depth - i` is listed or is the hash of an empty subtree. */
module SparseProof {
  import opened Bytes
  import opened SparseTree

  datatype SmtProof = SmtProof(bitmap: H256, siblings: seq<H256>)

  /** How many of the first `n` bitmap bits are set. */
  function Ones(bitmap: H256, n: nat): (c: nat)
    requires n <= PATH_BITS
    ensures c <= n
  {
    if n == 0 then 0 else Ones(bitmap, n - 1) + if PathBit(bitmap, n - 1) then 1 else 0
  }

  lemma {:induction false} OnesMonotone(bitmap: H256, m: nat, n: nat)
    requires m <= n <= PATH_BITS
    ensures Ones(bitmap, m) <= Ones(bitmap, n)
    ensures m < n && PathBit(bitmap, m) ==> Ones(bitmap, m) < Ones(bitmap, n)
    decreases n
  {
    if m < n {
      OnesMonotone(bitmap, m, n - 1);
    }
  }

  /** The proof lists exactly the siblings its bitmap announces. */
  predicate Complete(t: Smt, proof: SmtProof)
    requires t.Valid()
  {
    |proof.siblings| == Ones(proof.bitmap, t.depth)
  }

  /** The sibling at level `i`, counted from the leaf. */
  function Sibling(t: Smt, proof: SmtProof, i: nat): H256
    requires t.Valid() && Complete(t, proof) && i < t.depth
  {
    OnesMonotone(proof.bitmap, i, t.depth);
    if PathBit(proof.bitmap, i) then proof.siblings[Ones(proof.bitmap, i)] else t.Default(t.depth - i)
  }

  /** The node reached from `leaf` after climbing `i` levels along `path`. */
  function Climb(t: Smt, path: H256, leaf: H256, proof: SmtProof, i: nat): H256
    requires t.Valid() && Complete(t, proof) && i <= t.depth
  {
    if i == 0 then leaf
    else
      var below := Climb(t, path, leaf, proof, i - 1);
      var sibling := Sibling(t, proof, i - 1);
      if PathBit(path, t.depth - i) then t.node(sibling, below) else t.node(below, sibling)
  }

  /** The proof leads from `leaf` at `path` to `root`. */
  predicate Accepts(t: Smt, root: H256, path: H256, leaf: H256, proof: SmtProof)
    requires t.Valid()
  {
    Complete(t, proof) && Climb(t, path, leaf, proof, t.depth) == root
  }

  // ----- the algorithms ------------------------------------------------------

  /** Check a proof that `key` holds `content` (or, for None, nothing). */
  method Verify(t: Smt, root: H256, u: LeafUpdate, proof: SmtProof) returns (ok: bool)
    requires t.Valid()
    ensures ok <==> Accepts(t, root, t.path(u.key), t.Content(u), proof)
    ensures ok ==> |proof.siblings| == Ones(proof.bitmap, t.depth)
  {
    hide PathBit;
    var e := EmptyHashes(t);
    var path := t.path(u.key);
    var current: H256 := match u.content case Some(h) => t.leaf(u.key, h) case None => e[t.depth];
    var cursor := 0;
    for i := 0 to t.depth
      invariant cursor == Ones(proof.bitmap, i) <= |proof.siblings|
      invariant Complete(t, proof) ==> current == Climb(t, path, t.Content(u), proof, i)
    {
      var depth := t.depth - i;
      OnesMonotone(proof.bitmap, i, t.depth);
      var sibling: H256 := e[depth];
      if PathBit(proof.bitmap, i) {
        if cursor >= |proof.siblings| {
          return false;
        }
        sibling := proof.siblings[cursor];
        cursor := cursor + 1;
      }
      assert Complete(t, proof) ==> sibling == Sibling(t, proof, i);
      current := if PathBit(path, depth - 1) then t.node(sibling, current) else t.node(current, sibling);
    }
    ok := cursor == |proof.siblings| && current == root;
  }

  /** The stored siblings along `path`, leaf level first. */
  function StoredSibling(t: Smt, nodes: Nodes, path: H256, i: nat): H256
    requires t.Valid() && i < t.depth
  {
    t.Read(nodes, t.depth - i, FlipBit(path, t.depth - i - 1))
  }

  /** Build a proof for `key` from the stored nodes. It lists exactly the
      siblings that are not empty subtrees, whatever the tree holds. */
  method Prove(t: Smt, nodes: Nodes, key: H256) returns (proof: SmtProof)
    requires t.Valid()
    ensures Complete(t, proof)
    ensures forall i | 0 <= i < t.depth :: Sibling(t, proof, i) == StoredSibling(t, nodes, t.path(key), i)
    ensures forall i | 0 <= i < t.depth ::
              PathBit(proof.bitmap, i) <==> StoredSibling(t, nodes, t.path(key), i) != t.Default(t.depth - i)
  {
    hide KeyOf, PathBit, FlipBit, SetBit, Smt.Default, Listed, Ones;
    var e := EmptyHashes(t);
    var path := t.path(key);
    var bitmap: H256 := ZERO_HASH;
    var siblings: seq<H256> := [];
    ListedStart(t, nodes, path);
    for i := 0 to t.depth
      invariant Listed(t, nodes, path, bitmap, siblings, i)
    {
      var depth := t.depth - i;
      var k := KeyOf(depth, FlipBit(path, depth - 1));
      var sibling: H256 := if k in nodes then nodes[k] else e[depth];
      assert sibling == StoredSibling(t, nodes, path, i);
      ListedStep(t, nodes, path, bitmap, siblings, i);
      if sibling != e[depth] {
        bitmap := SetBit(bitmap, i);
        siblings := siblings + [sibling];
      }
    }
    proof := SmtProof(bitmap, siblings);
    ListedFinish(t, nodes, path, proof);
  }

  /** After `n` levels: the bitmap marks the non-empty siblings seen so far and
      the list holds them in order. */
  ghost predicate Listed(t: Smt, nodes: Nodes, path: H256, bitmap: H256, siblings: seq<H256>, n: nat)
    requires t.Valid() && n <= t.depth
  {
    && |siblings| == Ones(bitmap, n)
    && (forall j | 0 <= j < n :: PathBit(bitmap, j) <==> StoredSibling(t, nodes, path, j) != t.Default(t.depth - j))
    && (forall j | n <= j < PATH_BITS :: !PathBit(bitmap, j))
    && (forall j | 0 <= j < n && PathBit(bitmap, j) ::
          Ones(bitmap, j) < |siblings| && siblings[Ones(bitmap, j)] == StoredSibling(t, nodes, path, j))
  }

  lemma ListedStart(t: Smt, nodes: Nodes, path: H256)
    requires t.Valid()
    ensures Listed(t, nodes, path, ZERO_HASH, [], 0)
  {
    NoBits();
  }

  lemma ListedStep(t: Smt, nodes: Nodes, path: H256, bitmap: H256, siblings: seq<H256>, i: nat)
    requires t.Valid() && i < t.depth && Listed(t, nodes, path, bitmap, siblings, i)
    ensures var s := StoredSibling(t, nodes, path, i);
            if s == t.Default(t.depth - i) then Listed(t, nodes, path, bitmap, siblings, i + 1)
            else Listed(t, nodes, path, SetBit(bitmap, i), siblings + [s], i + 1)
  {
    hide PathBit, SetBit, StoredSibling, Smt.Default, Ones;
    var s := StoredSibling(t, nodes, path, i);
    var next := if s == t.Default(t.depth - i) then bitmap else SetBit(bitmap, i);
    assert Ones(next, i + 1) == Ones(next, i) + if PathBit(next, i) then 1 else 0 by { OnesNext(next, i); }
    forall n | 0 <= n <= i ensures Ones(next, n) == Ones(bitmap, n) {
      OnesUnchanged(bitmap, next, n);
    }
  }

  lemma OnesNext(bitmap: H256, n: nat)
    requires n < PATH_BITS
    ensures Ones(bitmap, n + 1) == Ones(bitmap, n) + if PathBit(bitmap, n) then 1 else 0
  {
  }

  lemma ListedFinish(t: Smt, nodes: Nodes, path: H256, proof: SmtProof)
    requires t.Valid() && Listed(t, nodes, path, proof.bitmap, proof.siblings, t.depth)
    ensures Complete(t, proof)
    ensures forall i | 0 <= i < t.depth :: Sibling(t, proof, i) == StoredSibling(t, nodes, path, i)
    ensures forall i | 0 <= i < t.depth ::
              PathBit(proof.bitmap, i) <==> StoredSibling(t, nodes, path, i) != t.Default(t.depth - i)
  {
    hide PathBit, StoredSibling, Smt.Default, Ones;
  }

  lemma NoBits()
    ensures forall j | 0 <= j < PATH_BITS :: !PathBit(ZERO_HASH, j)
  {
    assert forall j | 0 <= j < 8 :: !ByteBit(0, j);
  }

  lemma {:induction false} OnesUnchanged(b: H256, c: H256, n: nat)
    requires n <= PATH_BITS
    requires forall j | 0 <= j < n :: PathBit(b, j) == PathBit(c, j)
    ensures Ones(b, n) == Ones(c, n)
  {
    if n > 0 {
      OnesUnchanged(b, c, n - 1);
    }
  }

  // ----- completeness --------------------------------------------------------

  lemma {:induction false} ClimbFollowsTree(t: Smt, nodes: Nodes, leaves: Leaves, key: H256, proof: SmtProof, i: nat)
    requires t.Valid() && t.Represents(nodes, leaves) && Complete(t, proof) && i <= t.depth
    requires forall j | 0 <= j < t.depth :: Sibling(t, proof, j) == StoredSibling(t, nodes, t.path(key), j)
    ensures Climb(t, t.path(key), t.LeafAt(leaves, t.Position(key)), proof, i) ==
            t.Node(leaves, Prefix(t.path(key), t.depth - i))
  {
    hide KeyOf, PathBit, FlipBit;
    if i > 0 {
      ClimbFollowsTree(t, nodes, leaves, key, proof, i - 1);
      var d := t.depth - i + 1;
      SiblingPrefix(t.path(key), d);
      assert Sibling(t, proof, i - 1) == StoredSibling(t, nodes, t.path(key), i - 1);
    }
  }

  /** Proof from a committed tree, then check: accepted for exactly the leaf the
      tree holds at that position, present or absent. */
  method ProveThenVerify(t: Smt, nodes: Nodes, u: LeafUpdate, ghost leaves: Leaves)
    returns (proof: SmtProof, ok: bool)
    requires t.Valid() && t.Represents(nodes, leaves)
    ensures t.Content(u) == t.LeafAt(leaves, t.Position(u.key)) ==> ok
    ensures ok == Accepts(t, t.Root(leaves), t.path(u.key), t.Content(u), proof)
  {
    hide KeyOf, Smt.Represents, Climb, Sibling;
    proof := Prove(t, nodes, u.key);
    ClimbFollowsTree(t, nodes, leaves, u.key, proof, t.depth);
    RootRead(t, nodes, leaves);
    assert Prefix(t.path(u.key), 0) == [];
    var k := KeyOf(0, ZERO_HASH);
    ok := Verify(t, if k in nodes then nodes[k] else t.Default(0), u, proof);
  }

  /** Every position has an accepted proof: one that lists all its siblings. */
  lemma FullProof(t: Smt, leaves: Leaves, key: H256) returns (proof: SmtProof)
    requires t.Valid()
    ensures Accepts(t, t.Root(leaves), t.path(key), t.LeafAt(leaves, t.Position(key)), proof)
  {
    hide PathBit, Climb, Smt.Node;
    var siblings :=
      seq<H256>(t.depth, i requires 0 <= i < t.depth => t.Node(leaves, SiblingAt(Prefix(t.path(key), t.depth - i))));
    proof := SmtProof(seq(32, i => 255), siblings);
    AllOnes(proof.bitmap, t.depth);
    forall i | 0 <= i < t.depth ensures Sibling(t, proof, i) == siblings[i] {
      AllOnes(proof.bitmap, i);
    }
    FullClimb(t, leaves, key, proof, t.depth);
    assert Prefix(t.path(key), 0) == [];
  }

  function SiblingAt(at: seq<bool>): seq<bool>
    requires at != []
  {
    at[..|at| - 1] + [!at[|at| - 1]]
  }

  lemma {:induction false} AllOnes(bitmap: H256, n: nat)
    requires n <= PATH_BITS && forall i | 0 <= i < 32 :: bitmap[i] == 255
    ensures Ones(bitmap, n) == n && forall j | 0 <= j < PATH_BITS :: PathBit(bitmap, j)
  {
    assert forall j | 0 <= j < 8 :: ByteBit(255, j);
    if n > 0 {
      AllOnes(bitmap, n - 1);
    }
  }

  lemma {:induction false} FullClimb(t: Smt, leaves: Leaves, key: H256, proof: SmtProof, i: nat)
    requires t.Valid() && Complete(t, proof) && i <= t.depth
    requires forall j | 0 <= j < t.depth ::
               Sibling(t, proof, j) == t.Node(leaves, SiblingAt(Prefix(t.path(key), t.depth - j)))
    ensures Climb(t, t.path(key), t.LeafAt(leaves, t.Position(key)), proof, i) ==
            t.Node(leaves, Prefix(t.path(key), t.depth - i))
  {
    hide PathBit, Smt.Node, Sibling, SiblingAt;
    if i == 0 {
      LeafNode(t, leaves, t.path(key));
    } else {
      FullClimb(t, leaves, key, proof, i - 1);
      NodeFromChild(t, leaves, t.path(key), t.depth - i + 1);
    }
  }

  lemma LeafNode(t: Smt, leaves: Leaves, path: H256)
    requires t.Valid()
    ensures t.Node(leaves, Prefix(path, t.depth)) == t.LeafAt(leaves, Prefix(path, t.depth))
  {
  }

  lemma NodeFromChild(t: Smt, leaves: Leaves, path: H256, d: nat)
    requires t.Valid() && 0 < d <= t.depth
    ensures var here, other := t.Node(leaves, Prefix(path, d)), t.Node(leaves, SiblingAt(Prefix(path, d)));
            t.Node(leaves, Prefix(path, d - 1)) ==
            if PathBit(path, d - 1) then t.node(other, here) else t.node(here, other)
  {
    hide PathBit;
    assert Prefix(path, d) == Prefix(path, d - 1) + [PathBit(path, d - 1)];
    assert SiblingAt(Prefix(path, d)) == Prefix(path, d - 1) + [!PathBit(path, d - 1)];
  }

  // ----- soundness -----------------------------------------------------------

  /** A pair of inputs of the node hash. */
  type Pair = (H256, H256)

  /** The two inputs hashed to reach level `i + 1`. */
  function Inputs(t: Smt, path: H256, leaf: H256, proof: SmtProof, i: nat): Pair
    requires t.Valid() && Complete(t, proof) && i < t.depth
  {
    var below := Climb(t, path, leaf, proof, i);
    var sibling := Sibling(t, proof, i);
    if PathBit(path, t.depth - i - 1) then (sibling, below) else (below, sibling)
  }

  /** Walks two proofs down from a common node until their hash inputs differ. */
  function Diverge(t: Smt, path: H256, leaf1: H256, proof1: SmtProof, leaf2: H256, proof2: SmtProof, i: nat)
    : (r: (Pair, Pair))
    requires t.Valid() && Complete(t, proof1) && Complete(t, proof2) && i <= t.depth
    requires leaf1 != leaf2
    requires Climb(t, path, leaf1, proof1, i) == Climb(t, path, leaf2, proof2, i)
    ensures r.0 != r.1 && t.node(r.0.0, r.0.1) == t.node(r.1.0, r.1.1)
    ensures exists j, k | 0 <= j < i && 0 <= k < i ::
              r.0 == Inputs(t, path, leaf1, proof1, j) && r.1 == Inputs(t, path, leaf2, proof2, k)
  {
    var a := Inputs(t, path, leaf1, proof1, i - 1);
    var b := Inputs(t, path, leaf2, proof2, i - 1);
    if a != b then (a, b)
    else Diverge(t, path, leaf1, proof1, leaf2, proof2, i - 1)
  }
}
