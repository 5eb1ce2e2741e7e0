/** Sparse Merkle trees over 256-bit paths: the account tree (depth 256) and the
    withdrawals tree (depth 32) are two values of `Smt`.

    The reference is `Smt.Node`, the plain recursive hash of every leaf under a
    position. The algorithms below keep only the nodes that differ from the
    hash of an empty subtree. */
module SparseTree {
  import opened Common
  import opened Bytes

  /** The leaves of a tree, by full path. An absent leaf hashes as empty. */
  type Leaves = map<seq<bool>, H256>

  /** Stored nodes, by storage key. A missing node is the root of an empty subtree. */
  type Nodes = map<NodeKey, H256>

  /** One key's new leaf content: an account hash, or None to delete it. */
  datatype LeafUpdate = LeafUpdate(key: H256, content: Option<H256>)

  datatype Smt = Smt(
    depth: nat,
    node: (H256, H256) -> H256,
    leaf: (H256, H256) -> H256,
    path: H256 -> H256,
    empty: H256)
  {
    predicate Valid() {
      depth <= PATH_BITS
    }

    /** Hash of an empty subtree whose root is at depth `d`. */
    function Default(d: nat): H256
      requires d <= depth
      decreases depth - d
    {
      if d == depth then empty else node(Default(d + 1), Default(d + 1))
    }

    function LeafAt(leaves: Leaves, p: seq<bool>): H256 {
      if p in leaves then leaves[p] else empty
    }

    /** Hash of the subtree at position `at`. */
    function Node(leaves: Leaves, at: seq<bool>): H256
      requires |at| <= depth
      decreases depth - |at|
    {
      if |at| == depth then LeafAt(leaves, at)
      else node(Node(leaves, at + [false]), Node(leaves, at + [true]))
    }

    function Root(leaves: Leaves): H256 {
      Node(leaves, [])
    }

    function Position(key: H256): (p: seq<bool>)
      requires Valid()
    {
      Prefix(path(key), depth)
    }

    function Content(u: LeafUpdate): H256 {
      match u.content
      case Some(h) => leaf(u.key, h)
      case None => empty
    }

    function ApplyOne(leaves: Leaves, u: LeafUpdate): Leaves
      requires Valid()
    {
      if u.content.Some? then leaves[Position(u.key) := Content(u)] else leaves - {Position(u.key)}
    }

    function Apply(leaves: Leaves, updates: seq<LeafUpdate>): Leaves
      requires Valid()
    {
      if updates == [] then leaves
      else ApplyOne(Apply(leaves, updates[..|updates| - 1]), updates[|updates| - 1])
    }

    /** The stored node covering the first `d` bits of `p`. */
    function Read(nodes: Nodes, d: nat, p: H256): H256
      requires Valid() && d <= depth
    {
      var k := KeyOf(d, p);
      if k in nodes then nodes[k] else Default(d)
    }

    /** The stored nodes agree with the reference tree everywhere. */
    ghost predicate Represents(nodes: Nodes, leaves: Leaves)
      requires Valid()
    {
      forall d: nat, p: H256 | d <= depth :: Read(nodes, d, p) == Node(leaves, Prefix(p, d))
    }

    /** Every stored key is the key of some position. */
    ghost predicate KeysValid(nodes: Nodes)
      requires Valid()
    {
      forall k | k in nodes :: IsKey(k)
    }

    ghost predicate IsKey(k: NodeKey)
      requires Valid()
    {
      exists d: nat, p: H256 :: d <= depth && k == KeyOf(d, p)
    }

    // ----- facts about the reference tree ------------------------------------

    lemma {:induction false} NodeLocal(l1: Leaves, l2: Leaves, at: seq<bool>)
      requires |at| <= depth
      requires forall p | |p| == depth && at <= p :: LeafAt(l1, p) == LeafAt(l2, p)
      ensures Node(l1, at) == Node(l2, at)
      decreases depth - |at|
    {
      if |at| < depth {
        NodeLocal(l1, l2, at + [false]);
        NodeLocal(l1, l2, at + [true]);
      }
    }

    lemma {:induction false} NodeEmpty(leaves: Leaves, at: seq<bool>)
      requires |at| <= depth
      requires forall p | |p| == depth && at <= p :: p !in leaves
      ensures Node(leaves, at) == Default(|at|)
      decreases depth - |at|
    {
      if |at| < depth {
        NodeEmpty(leaves, at + [false]);
        NodeEmpty(leaves, at + [true]);
      }
    }

    /** An update changes only the nodes on the path to its leaf. */
    lemma UpdateLocal(leaves: Leaves, u: LeafUpdate, p: H256, d: nat)
      requires Valid() && d <= depth
      requires Prefix(p, d) != Prefix(path(u.key), d)
      ensures Node(ApplyOne(leaves, u), Prefix(p, d)) == Node(leaves, Prefix(p, d))
    {
      var at := Prefix(p, d);
      assert Position(u.key)[..d] == Prefix(path(u.key), d);
      NodeLocal(ApplyOne(leaves, u), leaves, at);
    }

    /** The clear bit is the left child. */
    lemma TwoLeaves(a: H256, b: H256)
      requires depth == 1
      ensures Root(map[[false] := a, [true] := b]) == node(a, b)
    {
      var leaves: Leaves := map[[false] := a, [true] := b];
      assert [] + [false] == [false] && [] + [true] == [true];
      assert Node(leaves, [false]) == a && Node(leaves, [true]) == b;
    }

    lemma ApplyOneAt(leaves: Leaves, u: LeafUpdate, p: seq<bool>)
      requires Valid()
      ensures LeafAt(ApplyOne(leaves, u), p) == if p == Position(u.key) then Content(u) else LeafAt(leaves, p)
    {
    }

    /** The leaf an update leaves behind: the last update at its position wins. */
    lemma {:induction false} ApplyAt(leaves: Leaves, updates: seq<LeafUpdate>, i: nat)
      requires Valid() && i < |updates|
      requires forall j | i < j < |updates| :: Position(updates[j].key) != Position(updates[i].key)
      ensures LeafAt(Apply(leaves, updates), Position(updates[i].key)) == Content(updates[i])
    {
      var n := |updates| - 1;
      ApplyOneAt(Apply(leaves, updates[..n]), updates[n], Position(updates[i].key));
      if i < n {
        ApplyAt(leaves, updates[..n], i);
      }
    }

    lemma {:induction false} ApplyElsewhere(leaves: Leaves, updates: seq<LeafUpdate>, p: seq<bool>)
      requires Valid()
      requires forall j | 0 <= j < |updates| :: Position(updates[j].key) != p
      ensures LeafAt(Apply(leaves, updates), p) == LeafAt(leaves, p)
    {
      if updates != [] {
        var n := |updates| - 1;
        ApplyElsewhere(leaves, updates[..n], p);
        ApplyOneAt(Apply(leaves, updates[..n]), updates[n], p);
      }
    }

    ghost predicate DistinctPositions(updates: seq<LeafUpdate>)
      requires Valid()
    {
      forall i, j | 0 <= i < j < |updates| :: Position(updates[i].key) != Position(updates[j].key)
    }

    /** The root does not depend on the order in which a batch is applied. */
    lemma OrderIndependent(leaves: Leaves, us: seq<LeafUpdate>, vs: seq<LeafUpdate>)
      requires Valid()
      requires DistinctPositions(us) && DistinctPositions(vs)
      requires forall u :: u in us <==> u in vs
      ensures Root(Apply(leaves, us)) == Root(Apply(leaves, vs))
    {
      forall p | |p| == depth
        ensures LeafAt(Apply(leaves, us), p) == LeafAt(Apply(leaves, vs), p)
      {
        if i :| 0 <= i < |us| && Position(us[i].key) == p {
          assert us[i] in vs;
          var j :| 0 <= j < |vs| && vs[j] == us[i];
          ApplyAt(leaves, us, i);
          ApplyAt(leaves, vs, j);
        } else {
          forall j | 0 <= j < |vs| ensures Position(vs[j].key) != p {
            assert vs[j] in us;
          }
          ApplyElsewhere(leaves, us, p);
          ApplyElsewhere(leaves, vs, p);
        }
      }
      NodeLocal(Apply(leaves, us), Apply(leaves, vs), []);
    }

    /** Whatever a batch did at a position before, deleting it last gives the
        root of a tree in which that batch never touched the position. */
    lemma DeletionForgets(leaves: Leaves, updates: seq<LeafUpdate>, key: H256)
      requires Valid()
      requires Position(key) !in leaves
      ensures Root(Apply(leaves, updates + [LeafUpdate(key, None)])) ==
              Root(Apply(leaves, Without(updates, Position(key))))
    {
      var all := updates + [LeafUpdate(key, None)];
      assert all[..|all| - 1] == updates;
      var l1, l2 := Apply(leaves, all), Apply(leaves, Without(updates, Position(key)));
      forall p | |p| == depth ensures LeafAt(l1, p) == LeafAt(l2, p) {
        WithoutAgrees(leaves, updates, Position(key), p);
      }
      NodeLocal(l1, l2, []);
    }

    function Without(updates: seq<LeafUpdate>, p: seq<bool>): seq<LeafUpdate>
      requires Valid()
    {
      if updates == [] then []
      else
        var n := |updates| - 1;
        Without(updates[..n], p) + (if Position(updates[n].key) == p then [] else [updates[n]])
    }

    lemma {:induction false} WithoutAgrees(leaves: Leaves, updates: seq<LeafUpdate>, hole: seq<bool>, p: seq<bool>)
      requires Valid()
      ensures LeafAt(Apply(leaves, Without(updates, hole)), p) ==
              if p == hole then LeafAt(leaves, p) else LeafAt(Apply(leaves, updates), p)
    {
      if updates != [] {
        var n := |updates| - 1;
        var kept := Without(updates[..n], hole);
        WithoutAgrees(leaves, updates[..n], hole, p);
        ApplyOneAt(Apply(leaves, updates[..n]), updates[n], p);
        if Position(updates[n].key) != hole {
          ApplyOneAt(Apply(leaves, kept), updates[n], p);
          assert (kept + [updates[n]])[..|kept|] == kept;
        } else {
          assert kept + [] == kept;
        }
      }
    }

    lemma EmptyRepresents()
      requires Valid()
      ensures Represents(map[], map[])
    {
      forall d: nat, p: H256 | d <= depth ensures Read(map[], d, p) == Node(map[], Prefix(p, d)) {
        NodeEmpty(map[], Prefix(p, d));
      }
    }
  }

  // ----- reads and writes of stored nodes ------------------------------------

  lemma ReadAfterWrite(t: Smt, nodes: Nodes, d0: nat, p0: H256, v: H256, d: nat, p: H256)
    requires t.Valid() && d0 <= t.depth && d <= t.depth
    ensures t.Read(nodes[KeyOf(d0, p0) := v], d, p) ==
            if Prefix(p, d) == Prefix(p0, d0) then v else t.Read(nodes, d, p)
  {
    hide KeyOf;
    KeyIdentifiesPrefix(d, p, d0, p0);
  }

  lemma KeyOfIsKey(t: Smt, d: nat, p: H256)
    requires t.Valid() && d <= t.depth
    ensures t.IsKey(KeyOf(d, p))
  {
  }

  /** During an update: positions on the path from depth `done` down are new,
      everything else still shows the old tree. */
  ghost function Mixed(t: Smt, leaves: Leaves, u: LeafUpdate, done: nat, at: seq<bool>): H256
    requires t.Valid() && |at| <= t.depth
  {
    if |at| >= done && at == Prefix(t.path(u.key), |at|) then t.Node(t.ApplyOne(leaves, u), at) else t.Node(leaves, at)
  }

  ghost predicate PathWritten(t: Smt, nodes: Nodes, leaves: Leaves, u: LeafUpdate, done: nat)
    requires t.Valid()
  {
    forall d: nat, p: H256 | d <= t.depth :: t.Read(nodes, d, p) == Mixed(t, leaves, u, done, Prefix(p, d))
  }

  lemma PathStart(t: Smt, nodes: Nodes, leaves: Leaves, u: LeafUpdate)
    requires t.Valid() && t.Represents(nodes, leaves)
    ensures PathWritten(t, nodes[KeyOf(t.depth, t.path(u.key)) := t.Content(u)], leaves, u, t.depth)
    ensures t.Node(t.ApplyOne(leaves, u), Prefix(t.path(u.key), t.depth)) == t.Content(u)
  {
    hide KeyOf;
    forall d: nat, p: H256 | d <= t.depth
      ensures t.Read(nodes[KeyOf(t.depth, t.path(u.key)) := t.Content(u)], d, p) ==
              Mixed(t, leaves, u, t.depth, Prefix(p, d))
    {
      ReadAfterWrite(t, nodes, t.depth, t.path(u.key), t.Content(u), d, p);
    }
  }

  /** One level of the walk: the parent of the node just written. */
  lemma PathStep(t: Smt, nodes: Nodes, leaves: Leaves, u: LeafUpdate, depth: nat)
    requires t.Valid() && 0 < depth <= t.depth
    requires PathWritten(t, nodes, leaves, u, depth)
    ensures var p := t.path(u.key);
            var sibling := t.Read(nodes, depth, FlipBit(p, depth - 1));
            var here := t.Node(t.ApplyOne(leaves, u), Prefix(p, depth));
            t.Node(t.ApplyOne(leaves, u), Prefix(p, depth - 1)) ==
            if PathBit(p, depth - 1) then t.node(sibling, here) else t.node(here, sibling)
  {
    var p := t.path(u.key);
    SiblingPrefix(p, depth);
    var q := FlipBit(p, depth - 1);
    assert Prefix(q, depth)[depth - 1] != Prefix(p, depth)[depth - 1];
    t.UpdateLocal(leaves, u, q, depth);
  }

  lemma PathExtend(t: Smt, nodes: Nodes, leaves: Leaves, u: LeafUpdate, depth: nat)
    requires t.Valid() && 0 < depth <= t.depth
    requires PathWritten(t, nodes, leaves, u, depth)
    ensures var p := t.path(u.key);
            var v := t.Node(t.ApplyOne(leaves, u), Prefix(p, depth - 1));
            PathWritten(t, nodes[KeyOf(depth - 1, p) := v], leaves, u, depth - 1)
  {
    hide KeyOf;
    var p0 := t.path(u.key);
    var v := t.Node(t.ApplyOne(leaves, u), Prefix(p0, depth - 1));
    forall d: nat, p: H256 | d <= t.depth
      ensures t.Read(nodes[KeyOf(depth - 1, p0) := v], d, p) == Mixed(t, leaves, u, depth - 1, Prefix(p, d))
    {
      ReadAfterWrite(t, nodes, depth - 1, p0, v, d, p);
    }
  }

  lemma PathFinish(t: Smt, nodes: Nodes, leaves: Leaves, u: LeafUpdate)
    requires t.Valid() && PathWritten(t, nodes, leaves, u, 0)
    ensures t.Represents(nodes, t.ApplyOne(leaves, u))
  {
    forall d: nat, p: H256 | d <= t.depth
      ensures t.Read(nodes, d, p) == t.Node(t.ApplyOne(leaves, u), Prefix(p, d))
    {
      if Prefix(p, d) != Prefix(t.path(u.key), d) {
        t.UpdateLocal(leaves, u, p, d);
      }
    }
  }

  // ----- the algorithms ------------------------------------------------------

  /** The table of empty-subtree hashes, deepest first. */
  method EmptyHashes(t: Smt) returns (e: seq<H256>)
    ensures |e| == t.depth + 1
    ensures forall d | 0 <= d <= t.depth :: e[d] == t.Default(d)
  {
    e := seq(t.depth + 1, i => t.empty);
    for d := t.depth downto 0
      invariant |e| == t.depth + 1
      invariant forall i | d <= i <= t.depth :: e[i] == t.Default(i)
    {
      e := e[d := t.node(e[d + 1], e[d + 1])];
    }
  }

  /** Write one leaf and recompute its path to the root, reading siblings from
      `overlay` first and `source` otherwise. */
  method WritePath(t: Smt, e: seq<H256>, source: Nodes, overlay: Nodes, u: LeafUpdate, ghost leaves: Leaves)
    returns (next: Nodes)
    requires t.Valid() && |e| == t.depth + 1
    requires forall d | 0 <= d <= t.depth :: e[d] == t.Default(d)
    requires t.Represents(source + overlay, leaves)
    requires t.KeysValid(overlay)
    ensures t.Represents(source + next, t.ApplyOne(leaves, u))
    ensures t.KeysValid(next) && KeyOf(0, ZERO_HASH) in next
  {
    hide KeyOf, PathBit, FlipBit, Prefix, PathWritten, Smt.Represents, Smt.IsKey, Smt.Node, Smt.ApplyOne;
    var path := t.path(u.key);
    var current := match u.content case Some(h) => t.leaf(u.key, h) case None => e[t.depth];
    PathStart(t, source + overlay, leaves, u);
    KeyOfIsKey(t, t.depth, path);
    next := overlay[KeyOf(t.depth, path) := current];
    assert source + next == (source + overlay)[KeyOf(t.depth, path) := current];
    for depth := t.depth downto 0
      invariant t.KeysValid(next) && KeyOf(depth, path) in next
      invariant current == t.Node(t.ApplyOne(leaves, u), Prefix(path, depth))
      invariant PathWritten(t, source + next, leaves, u, depth)
    {
      var k := KeyOf(depth + 1, FlipBit(path, depth));
      var sibling := if k in next then next[k] else if k in source then source[k] else e[depth + 1];
      PathStep(t, source + next, leaves, u, depth + 1);
      PathExtend(t, source + next, leaves, u, depth + 1);
      KeyOfIsKey(t, depth, path);
      current := if PathBit(path, depth) then t.node(sibling, current) else t.node(current, sibling);
      assert source + next[KeyOf(depth, path) := current] == (source + next)[KeyOf(depth, path) := current];
      next := next[KeyOf(depth, path) := current];
    }
    PathFinish(t, source + next, leaves, u);
    KeyIdentifiesPrefix(0, path, 0, ZERO_HASH);
  }

  lemma RootRead(t: Smt, nodes: Nodes, leaves: Leaves)
    requires t.Valid() && t.Represents(nodes, leaves)
    ensures t.Read(nodes, 0, ZERO_HASH) == t.Root(leaves)
  {
    assert Prefix(ZERO_HASH, 0) == [];
  }

  /** Apply a batch of updates over committed nodes without touching them: the
      overlay holds the dirty nodes to persist. */
  method ApplyUpdates(t: Smt, source: Nodes, updates: seq<LeafUpdate>, ghost leaves: Leaves)
    returns (newRoot: H256, overlay: Nodes)
    requires t.Valid() && t.Represents(source, leaves)
    ensures newRoot == t.Root(t.Apply(leaves, updates))
    ensures t.Represents(source + overlay, t.Apply(leaves, updates))
    ensures t.KeysValid(overlay)
  {
    hide KeyOf, Smt.Represents, Smt.IsKey;
    var e := EmptyHashes(t);
    overlay := map[];
    assert source + overlay == source;
    for i := 0 to |updates|
      invariant t.Represents(source + overlay, t.Apply(leaves, updates[..i]))
      invariant t.KeysValid(overlay)
    {
      overlay := WritePath(t, e, source, overlay, updates[i], t.Apply(leaves, updates[..i]));
      assert updates[..i + 1][..i] == updates[..i];
    }
    assert updates[..|updates|] == updates;
    var rootKey := KeyOf(0, ZERO_HASH);
    newRoot := if rootKey in overlay then overlay[rootKey] else if rootKey in source then source[rootKey] else e[0];
    assert newRoot == t.Read(source + overlay, 0, ZERO_HASH);
    RootRead(t, source + overlay, t.Apply(leaves, updates));
  }

  /** Depth recorded in the first two bytes of a storage key. */
  function DepthOfKey(k: NodeKey): nat {
    k[0] as int * 256 + k[1] as int
  }

  /** No stored node equals the hash of the empty subtree at its depth. */
  ghost predicate Sparse(t: Smt, nodes: Nodes) {
    forall k | k in nodes :: DepthOfKey(k) <= t.depth && nodes[k] != t.Default(DepthOfKey(k))
  }

  lemma KeysHaveDepth(t: Smt, nodes: Nodes, k: NodeKey)
    requires t.Valid() && t.KeysValid(nodes) && k in nodes
    ensures DepthOfKey(k) <= t.depth
  {
    var d: nat, p: H256 :| d <= t.depth && k == KeyOf(d, p);
    KeyDepth(d, p);
  }

  ghost predicate SameReads(t: Smt, m: Nodes, n: Nodes)
    requires t.Valid()
  {
    forall d: nat, p: H256 | d <= t.depth :: t.Read(m, d, p) == t.Read(n, d, p)
  }

  /** Store a dirty node, or remove it when it equals its empty-subtree hash. */
  function PersistOne(t: Smt, nodes: Nodes, k: NodeKey, v: H256): Nodes
    requires DepthOfKey(k) <= t.depth
  {
    if v == t.Default(DepthOfKey(k)) then nodes - {k} else nodes[k := v]
  }

  lemma PersistOneReads(t: Smt, m: Nodes, n: Nodes, k: NodeKey, v: H256)
    requires t.Valid() && DepthOfKey(k) <= t.depth && SameReads(t, m, n)
    ensures SameReads(t, PersistOne(t, m, k, v), n[k := v])
  {
    hide KeyOf;
    forall d: nat, p: H256 | d <= t.depth
      ensures t.Read(PersistOne(t, m, k, v), d, p) == t.Read(n[k := v], d, p)
    {
      KeyDepth(d, p);
      assert t.Read(m, d, p) == t.Read(n, d, p);
    }
  }

  /** Persist dirty nodes: the table stays sparse and reads like table + dirty. */
  method WriteNodes(t: Smt, table: Nodes, dirty: Nodes) returns (next: Nodes)
    requires t.Valid() && t.KeysValid(dirty)
    ensures SameReads(t, next, table + dirty)
    ensures Sparse(t, table) ==> Sparse(t, next)
  {
    hide KeyOf, SameReads;
    var e := EmptyHashes(t);
    next := table;
    var left := dirty.Keys;
    ghost var written: Nodes := map[];
    assert table + written == table;
    SameReadsRefl(t, table);
    while left != {}
      invariant written.Keys + left == dirty.Keys
      invariant forall k | k in written :: written[k] == dirty[k]
      invariant SameReads(t, next, table + written)
      invariant Sparse(t, table) ==> Sparse(t, next)
      decreases left
    {
      var k :| k in left;
      KeysHaveDepth(t, dirty, k);
      PersistOneReads(t, next, table + written, k, dirty[k]);
      if dirty[k] == e[DepthOfKey(k)] {
        next := next - {k};
      } else {
        next := next[k := dirty[k]];
      }
      assert table + written[k := dirty[k]] == (table + written)[k := dirty[k]];
      left, written := left - {k}, written[k := dirty[k]];
    }
    assert written == dirty;
  }

  lemma SameReadsRefl(t: Smt, m: Nodes)
    requires t.Valid()
    ensures SameReads(t, m, m)
  {
  }
}
