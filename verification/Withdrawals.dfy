/** Withdrawal commitments: the leaf a burned withdrawal adds to the depth-32
    tree, the claim L1 checks against a posted root, and why an accepted claim
    was burned. */
module Withdrawals {
  import opened Common
  import opened Bytes
  import opened SparseTree
  import opened SparseProof
  import opened Hashing

  /** What a claim names: who is paid, which asset, how much, and the nonce. */
  datatype Withdrawal = Withdrawal(recipient: H256, asset: H256, amount: U64, nonce: U64)

  /** The reserved asset id of the chain's own coin. */
  const NATIVE_ASSET: H256 := ZERO_HASH

  // "PL2:bridge:withdraw-addr:v1", "PL2:bridge:withdraw:v1"
  const ADDRESS_DOMAIN: seq<Byte> :=
    [0x50, 0x4c, 0x32, 0x3a, 0x62, 0x72, 0x69, 0x64, 0x67, 0x65, 0x3a, 0x77, 0x69, 0x74, 0x68,
     0x64, 0x72, 0x61, 0x77, 0x2d, 0x61, 0x64, 0x64, 0x72, 0x3a, 0x76, 0x31]
  const WITHDRAW_DOMAIN: seq<Byte> :=
    [0x50, 0x4c, 0x32, 0x3a, 0x62, 0x72, 0x69, 0x64, 0x67, 0x65, 0x3a, 0x77, 0x69, 0x74, 0x68, 0x64, 0x72, 0x61,
     0x77, 0x3a, 0x76, 0x31]

  function AddressInput(recipient: H256, nonce: U64): seq<Byte> {
    ADDRESS_DOMAIN + recipient + LittleEndian(nonce, 8)
  }

  function CommitmentInput(w: Withdrawal): seq<Byte> {
    WITHDRAW_DOMAIN + w.recipient + w.asset + LittleEndian(w.amount, 8) + LittleEndian(w.nonce, 8)
  }

  /** The commitment string fixes every field of the withdrawal. */
  lemma CommitmentInputInjective(w: Withdrawal, v: Withdrawal)
    ensures CommitmentInput(w) == CommitmentInput(v) <==> w == v
  {
    var a, b := CommitmentInput(w), CommitmentInput(v);
    if a == b {
      assert w.recipient == a[22..54] == b[22..54] == v.recipient;
      assert w.asset == a[54..86] == b[54..86] == v.asset;
      assert LittleEndian(w.amount, 8) == a[86..94] == b[86..94] == LittleEndian(v.amount, 8);
      assert LittleEndian(w.nonce, 8) == a[94..102] == b[94..102] == LittleEndian(v.nonce, 8);
      EightBytes();
      LittleEndianInjective(w.amount, v.amount, 8);
      LittleEndianInjective(w.nonce, v.nonce, 8);
    }
  }

  /** Recipient and nonce fix the address string, and it fixes them. */
  lemma AddressInputInjective(r: H256, n: U64, r': H256, n': U64)
    ensures AddressInput(r, n) == AddressInput(r', n') <==> r == r' && n == n'
  {
    var a, b := AddressInput(r, n), AddressInput(r', n');
    if a == b {
      assert r == a[27..59] == b[27..59] == r';
      assert LittleEndian(n, 8) == a[59..67] == b[59..67] == LittleEndian(n', 8);
      EightBytes();
      LittleEndianInjective(n, n', 8);
    }
  }

  lemma EightBytes()
    ensures Pow256(8) == U64_MAX + 1
  {
    assert Pow256(4) == 0x1_0000_0000;
    assert Pow256(6) == 0x1_0000_0000_0000;
  }

  /** The leaf of a withdrawal: its address by recipient and nonce, its content
      by all four fields. */
  function LeafFor(b3: Blake3, w: Withdrawal): LeafUpdate {
    LeafUpdate(b3(AddressInput(w.recipient, w.nonce)), Some(b3(CommitmentInput(w))))
  }

  function LeavesFor(b3: Blake3, log: seq<Withdrawal>): (us: seq<LeafUpdate>)
    ensures |us| == |log|
  {
    seq(|log|, i requires 0 <= i < |log| => LeafFor(b3, log[i]))
  }

  function WithdrawTree(b3: Blake3): (t: Smt)
    ensures t.Valid() && t.depth == WITHDRAW_DEPTH
  {
    Tree(b3, WITHDRAW_DEPTH)
  }

  /** The tree after these withdrawals were burned, in order. */
  function TreeOf(b3: Blake3, log: seq<Withdrawal>): Leaves {
    WithdrawTree(b3).Apply(map[], LeavesFor(b3, log))
  }

  function RootOf(b3: Blake3, log: seq<Withdrawal>): H256 {
    WithdrawTree(b3).Root(TreeOf(b3, log))
  }

  lemma TreeOfNext(b3: Blake3, log: seq<Withdrawal>, w: Withdrawal)
    ensures TreeOf(b3, log + [w]) == WithdrawTree(b3).ApplyOne(TreeOf(b3, log), LeafFor(b3, w))
  {
    var us := LeavesFor(b3, log + [w]);
    assert us[..|log|] == LeavesFor(b3, log);
  }

  // ----- the in-memory tree --------------------------------------------------

  /** Insert one withdrawal and recompute its path to the root. */
  method Insert(b3: Blake3, tree: Nodes, w: Withdrawal, ghost log: seq<Withdrawal>) returns (next: Nodes)
    requires WithdrawTree(b3).Represents(tree, TreeOf(b3, log)) && WithdrawTree(b3).KeysValid(tree)
    ensures WithdrawTree(b3).Represents(next, TreeOf(b3, log + [w])) && WithdrawTree(b3).KeysValid(next)
  {
    hide KeyOf, Smt.Represents, Smt.IsKey, Smt.Apply, TreeOf;
    var t := WithdrawTree(b3);
    var e := EmptyHashes(t);
    assert map[] + tree == tree;
    next := WritePath(t, e, map[], tree, LeafFor(b3, w), TreeOf(b3, log));
    assert map[] + next == next;
    TreeOfNext(b3, log, w);
  }

  method CurrentRoot(b3: Blake3, tree: Nodes, ghost log: seq<Withdrawal>) returns (root: H256)
    requires WithdrawTree(b3).Represents(tree, TreeOf(b3, log))
    ensures root == RootOf(b3, log)
  {
    hide KeyOf, Smt.Represents, TreeOf;
    var t := WithdrawTree(b3);
    var e := EmptyHashes(t);
    var k := KeyOf(0, ZERO_HASH);
    root := if k in tree then tree[k] else e[0];
    RootRead(t, tree, TreeOf(b3, log));
  }

  // ----- claims --------------------------------------------------------------

  /** The check L1 makes of a claim against a posted root. */
  predicate Claimable(b3: Blake3, root: H256, w: Withdrawal, proof: SmtProof) {
    var t := WithdrawTree(b3);
    var u := LeafFor(b3, w);
    Accepts(t, root, t.path(u.key), t.Content(u), proof)
  }

  /** A proof for a withdrawal, checked before it is handed out. It is found
      exactly when no later withdrawal took the place of its leaf, as long as the
      hash does not collide on the strings of that proof. */
  method ProofFor(b3: Blake3, tree: Nodes, w: Withdrawal, ghost log: seq<Withdrawal>, ghost asked: iset<seq<Byte>>)
    returns (r: Option<SmtProof>)
    requires WithdrawTree(b3).Represents(tree, TreeOf(b3, log))
    ensures r.Some? ==> Claimable(b3, RootOf(b3, log), w, r.value)
    ensures LastAtItsPlace(b3, log, w) ==> r.Some?
    ensures r.Some? && NoCollision(b3, asked) && ClaimAsked(b3, asked, log, w, r.value) ==> LastAtItsPlace(b3, log, w)
    ensures NoCollision(b3, asked) && AddressesAsked(asked, log) && NotOvertaken(b3, log, w) ==> r.Some?
    ensures r.Some? && NoCollision(b3, asked) && AddressesAsked(asked, log) ==>
              (ClaimAsked(b3, asked, log, w, r.value) ==> NotOvertaken(b3, log, w))
  {
    hide KeyOf, Smt.Represents, Accepts, LastAtItsPlace, NoCollision, ClaimAsked, AddressesAsked, NotOvertaken;
    var t := WithdrawTree(b3);
    if NoCollision(b3, asked) && AddressesAsked(asked, log) {
      LastAtItsPlaceIff(b3, asked, log, w);
    }
    if LastAtItsPlace(b3, log, w) {
      LeafStays(b3, log, w);
    }
    var proof, ok := ProveThenVerify(t, tree, LeafFor(b3, w), TreeOf(b3, log));
    r := if ok then Some(proof) else None;
    if ok && NoCollision(b3, asked) && ClaimAsked(b3, asked, log, w, proof) {
      ClaimWasBurned(b3, asked, log, w, proof);
    }
  }

  /** Burned, and no later withdrawal shares its 32-bit path. */
  ghost predicate LastAtItsPlace(b3: Blake3, log: seq<Withdrawal>, w: Withdrawal) {
    exists i | 0 <= i < |log| :: log[i] == w &&
      forall j | i < j < |log| ::
        WithdrawTree(b3).Position(LeafFor(b3, log[j]).key) != WithdrawTree(b3).Position(LeafFor(b3, w).key)
  }

  /** Different keys whose paths agree on the 32 bits the tree uses. */
  ghost predicate ShortCollision(b3: Blake3, k: H256, k': H256) {
    k != k' && Prefix(b3(KEY_DOMAIN + k), 32) == Prefix(b3(KEY_DOMAIN + k'), 32)
  }

  /** The addresses of these withdrawals are among the strings in play. */
  ghost predicate AddressesAsked(asked: iset<seq<Byte>>, log: seq<Withdrawal>) {
    forall w | w in log :: AddressInput(w.recipient, w.nonce) in asked
  }

  /** Burned, and no later withdrawal has the same recipient and nonce or a key
      whose 32-bit path collides. */
  ghost predicate NotOvertaken(b3: Blake3, log: seq<Withdrawal>, w: Withdrawal) {
    exists i | 0 <= i < |log| :: log[i] == w &&
      forall j | i < j < |log| ::
        && !(log[j].recipient == w.recipient && log[j].nonce == w.nonce)
        && !ShortCollision(b3, LeafFor(b3, log[j]).key, LeafFor(b3, w).key)
  }

  /** Without a collision, two withdrawals share a key exactly when they have the
      same recipient and nonce, and a place exactly when they share the key or
      their short paths collide. */
  lemma SamePlaceIff(b3: Blake3, asked: iset<seq<Byte>>, w: Withdrawal, v: Withdrawal)
    requires NoCollision(b3, asked) && AddressesAsked(asked, [w, v])
    ensures LeafFor(b3, w).key == LeafFor(b3, v).key <==> w.recipient == v.recipient && w.nonce == v.nonce
    ensures WithdrawTree(b3).Position(LeafFor(b3, w).key) == WithdrawTree(b3).Position(LeafFor(b3, v).key) <==>
            || (w.recipient == v.recipient && w.nonce == v.nonce)
            || ShortCollision(b3, LeafFor(b3, w).key, LeafFor(b3, v).key)
  {
    hide AddressInput, CommitmentInput;
    assert w in [w, v] && v in [w, v];
    AddressInputInjective(w.recipient, w.nonce, v.recipient, v.nonce);
  }

  lemma LastAtItsPlaceIff(b3: Blake3, asked: iset<seq<Byte>>, log: seq<Withdrawal>, w: Withdrawal)
    requires NoCollision(b3, asked) && AddressesAsked(asked, log)
    ensures LastAtItsPlace(b3, log, w) <==> NotOvertaken(b3, log, w)
  {
    hide WithdrawTree, Smt.Position, LeafFor, ShortCollision, NoCollision;
    if w in log {
      forall j | 0 <= j < |log|
        ensures WithdrawTree(b3).Position(LeafFor(b3, log[j]).key) == WithdrawTree(b3).Position(LeafFor(b3, w).key) <==>
                || (log[j].recipient == w.recipient && log[j].nonce == w.nonce)
                || ShortCollision(b3, LeafFor(b3, log[j]).key, LeafFor(b3, w).key)
      {
        assert log[j] in log;
        SamePlaceIff(b3, asked, log[j], w);
      }
    }
  }

  /** A withdrawal that was not overtaken has a proof that L1 accepts against the
      root of its log. */
  lemma ProofExists(b3: Blake3, asked: iset<seq<Byte>>, log: seq<Withdrawal>, w: Withdrawal) returns (proof: SmtProof)
    requires NoCollision(b3, asked) && AddressesAsked(asked, log) && NotOvertaken(b3, log, w)
    ensures Claimable(b3, RootOf(b3, log), w, proof)
  {
    hide Smt.Node, Climb, Smt.Position, TreeOf, NoCollision, NotOvertaken, LastAtItsPlace, AddressesAsked;
    LastAtItsPlaceIff(b3, asked, log, w);
    LeafStays(b3, log, w);
    proof := FullProof(WithdrawTree(b3), TreeOf(b3, log), LeafFor(b3, w).key);
  }

  lemma LeafStays(b3: Blake3, log: seq<Withdrawal>, w: Withdrawal)
    requires LastAtItsPlace(b3, log, w)
    ensures var t, u := WithdrawTree(b3), LeafFor(b3, w);
            t.LeafAt(TreeOf(b3, log), t.Position(u.key)) == t.Content(u)
  {
    hide Smt.Apply, Smt.Position;
    var i :| 0 <= i < |log| && log[i] == w &&
      forall j | i < j < |log| ::
        WithdrawTree(b3).Position(LeafFor(b3, log[j]).key) != WithdrawTree(b3).Position(LeafFor(b3, w).key);
    WithdrawTree(b3).ApplyAt(map[], LeavesFor(b3, log), i);
  }

  // ----- an accepted claim was burned ----------------------------------------

  /** The hash does not collide on the strings in play. */
  ghost predicate NoCollision(b3: Blake3, asked: iset<seq<Byte>>) {
    forall x, y | x in asked && y in asked && b3(x) == b3(y) :: x == y
  }

  ghost predicate LeafAsked(b3: Blake3, asked: iset<seq<Byte>>, w: Withdrawal) {
    var u := LeafFor(b3, w);
    CommitmentInput(w) in asked && LeafInput(u.key, u.content.value) in asked
  }

  /** Children of the node of the tree that covers the first `d` bits of `path`. */
  ghost function Children(t: Smt, leaves: Leaves, path: H256, d: nat): Pair
    requires t.Valid() && d < t.depth
  {
    (t.Node(leaves, Prefix(path, d) + [false]), t.Node(leaves, Prefix(path, d) + [true]))
  }

  /** The strings hashed by the walk of a claim, and by the tree along its path. */
  ghost predicate WalkAsked(b3: Blake3, asked: iset<seq<Byte>>, leaves: Leaves, path: H256, leaf: H256,
                            proof: SmtProof) {
    var t := WithdrawTree(b3);
    Complete(t, proof) ==>
      forall i | 0 <= i < t.depth ::
        NodeInput(Inputs(t, path, leaf, proof, i)) in asked &&
          NodeInput(Children(t, leaves, path, t.depth - i - 1)) in asked
  }

  /** Everything hashed by a claim against the tree of `log`. */
  ghost predicate ClaimAsked(b3: Blake3, asked: iset<seq<Byte>>, log: seq<Withdrawal>, w: Withdrawal, proof: SmtProof) {
    var t := WithdrawTree(b3);
    var u := LeafFor(b3, w);
    && EMPTY_DOMAIN in asked && LeafAsked(b3, asked, w)
    && (forall v | v in log :: LeafAsked(b3, asked, v))
    && WalkAsked(b3, asked, TreeOf(b3, log), t.path(u.key), t.Content(u), proof)
  }

  /** A walk that ends at the root passed through the tree's own nodes. */
  lemma {:induction false} WalkFollowsTree(b3: Blake3, asked: iset<seq<Byte>>, leaves: Leaves, path: H256, leaf: H256,
                                           proof: SmtProof, i: nat)
    requires var t := WithdrawTree(b3);
             Accepts(t, t.Root(leaves), path, leaf, proof) && i <= t.depth
    requires NoCollision(b3, asked) && WalkAsked(b3, asked, leaves, path, leaf, proof)
    ensures var t := WithdrawTree(b3);
            Climb(t, path, leaf, proof, i) == t.Node(leaves, Prefix(path, t.depth - i))
    decreases WITHDRAW_DEPTH - i
  {
    hide NodeInput, PathBit, Sibling;
    var t := WithdrawTree(b3);
    if i == t.depth {
      assert Prefix(path, 0) == [];
    } else {
      WalkFollowsTree(b3, asked, leaves, path, leaf, proof, i + 1);
      var d := t.depth - i - 1;
      var mine, theirs := Inputs(t, path, leaf, proof, i), Children(t, leaves, path, d);
      assert b3(NodeInput(mine)) == b3(NodeInput(theirs));
      NodeInputInjective(mine, theirs);
      assert Prefix(path, d + 1) == Prefix(path, d) + [PathBit(path, d)];
    }
  }

  /** A claim accepted against the root of a log of burned withdrawals is one of
      them, field by field, and the last at its place: even if addresses repeat
      or 32-bit paths collide. */
  lemma ClaimWasBurned(b3: Blake3, asked: iset<seq<Byte>>, log: seq<Withdrawal>, w: Withdrawal, proof: SmtProof)
    requires Claimable(b3, RootOf(b3, log), w, proof)
    requires NoCollision(b3, asked) && ClaimAsked(b3, asked, log, w, proof)
    ensures w in log && LastAtItsPlace(b3, log, w)
  {
    hide Smt.Apply, Smt.Node, Climb, Smt.Position, LeafInput, CommitmentInput, AddressInput, WithdrawTree, Smt.Content;
    var t, u := WithdrawTree(b3), LeafFor(b3, w);
    var p := t.Position(u.key);
    WalkFollowsTree(b3, asked, TreeOf(b3, log), t.path(u.key), t.Content(u), proof, 0);
    LeafOfWalk(b3, TreeOf(b3, log), u, proof);
    ContentHashed(b3, u);
    var i := LastAt(b3, log, p);
    if i < 0 {
      t.ApplyElsewhere(map[], LeavesFor(b3, log), p);
      ContentHashed(b3, LeafUpdate(u.key, None));
      LeafIsNotEmpty(u.key, u.content.value);
    } else {
      t.ApplyAt(map[], LeavesFor(b3, log), i);
      ContentHashed(b3, LeafFor(b3, log[i]));
      LeafBinds(b3, asked, w, log[i]);
      assert log[i] == w;
    }
  }

  lemma ContentHashed(b3: Blake3, u: LeafUpdate)
    ensures WithdrawTree(b3).Content(u) == b3(ContentInput(u))
    ensures u.content.None? ==> WithdrawTree(b3).empty == b3(ContentInput(u))
  {
  }

  /** Equal leaves commit to equal withdrawals. */
  lemma LeafBinds(b3: Blake3, asked: iset<seq<Byte>>, w: Withdrawal, v: Withdrawal)
    requires NoCollision(b3, asked) && LeafAsked(b3, asked, w) && LeafAsked(b3, asked, v)
    requires b3(ContentInput(LeafFor(b3, w))) == b3(ContentInput(LeafFor(b3, v)))
    ensures w == v
  {
    hide LeafInput, CommitmentInput, AddressInput;
    var a, b := LeafFor(b3, w), LeafFor(b3, v);
    LeafInputInjective(a.key, a.content.value, b.key, b.content.value);
    CommitmentInputInjective(w, v);
  }

  lemma LeafOfWalk(b3: Blake3, leaves: Leaves, u: LeafUpdate, proof: SmtProof)
    requires var t := WithdrawTree(b3);
             && Complete(t, proof)
             && Climb(t, t.path(u.key), t.Content(u), proof, 0) == t.Node(leaves, Prefix(t.path(u.key), t.depth))
    ensures var t := WithdrawTree(b3); t.Content(u) == t.LeafAt(leaves, t.Position(u.key))
  {
  }

  lemma LeafIsNotEmpty(key: H256, content: H256)
    ensures LeafInput(key, content) != EMPTY_DOMAIN
  {
    assert |LeafInput(key, content)| == 76;
  }

  /** The last withdrawal of the log at position `p`, or -1. */
  ghost function LastAt(b3: Blake3, log: seq<Withdrawal>, p: seq<bool>): (i: int)
    ensures -1 <= i < |log|
    ensures i >= 0 ==> WithdrawTree(b3).Position(LeafFor(b3, log[i]).key) == p
    ensures forall j | i < j < |log| :: WithdrawTree(b3).Position(LeafFor(b3, log[j]).key) != p
  {
    if log == [] then -1
    else if WithdrawTree(b3).Position(LeafFor(b3, log[|log| - 1]).key) == p then |log| - 1
    else LastAt(b3, log[..|log| - 1], p)
  }
}
