/** The trees of the rollup over one byte-string hash (blake3), with the domain
    tags that keep its uses apart. Nothing is assumed about the hash: claims
    about forgery end in two explicit strings on which it collides. */
module Hashing {
  import opened Common
  import opened Bytes
  import opened SparseTree
  import opened SparseProof

  type Blake3 = seq<Byte> -> H256

  // "PL2:smt:leaf", "PL2:smt:node", "PL2:smt:empty", "PL2:smt:key"
  const LEAF_DOMAIN: seq<Byte> := [0x50, 0x4c, 0x32, 0x3a, 0x73, 0x6d, 0x74, 0x3a, 0x6c, 0x65, 0x61, 0x66]
  const NODE_DOMAIN: seq<Byte> := [0x50, 0x4c, 0x32, 0x3a, 0x73, 0x6d, 0x74, 0x3a, 0x6e, 0x6f, 0x64, 0x65]
  const EMPTY_DOMAIN: seq<Byte> := [0x50, 0x4c, 0x32, 0x3a, 0x73, 0x6d, 0x74, 0x3a, 0x65, 0x6d, 0x70, 0x74, 0x79]
  const KEY_DOMAIN: seq<Byte> := [0x50, 0x4c, 0x32, 0x3a, 0x73, 0x6d, 0x74, 0x3a, 0x6b, 0x65, 0x79]

  function NodeInput(p: Pair): seq<Byte> {
    NODE_DOMAIN + p.0 + p.1
  }

  function LeafInput(key: H256, content: H256): seq<Byte> {
    LEAF_DOMAIN + key + content
  }

  function Tree(b3: Blake3, depth: nat): (t: Smt) {
    Smt(
      depth,
      (l: H256, r: H256) => b3(NodeInput((l, r))),
      (key: H256, content: H256) => b3(LeafInput(key, content)),
      (key: H256) => b3(KEY_DOMAIN + key),
      b3(EMPTY_DOMAIN))
  }

  const WITHDRAW_DEPTH := 32

  lemma NodeInputInjective(p: Pair, q: Pair)
    ensures NodeInput(p) == NodeInput(q) <==> p == q
  {
    if NodeInput(p) == NodeInput(q) {
      assert p.0 == NodeInput(p)[12..44] == NodeInput(q)[12..44] == q.0;
      assert p.1 == NodeInput(p)[44..] == NodeInput(q)[44..] == q.1;
    }
  }

  lemma LeafInputInjective(k: H256, c: H256, k': H256, c': H256)
    ensures LeafInput(k, c) == LeafInput(k', c') <==> k == k' && c == c'
  {
    if LeafInput(k, c) == LeafInput(k', c') {
      assert k == LeafInput(k, c)[12..44] == LeafInput(k', c')[12..44] == k';
      assert c == LeafInput(k, c)[44..] == LeafInput(k', c')[44..] == c';
    }
  }

  /** The string hashed into a leaf: an account leaf or the empty leaf. */
  function ContentInput(u: LeafUpdate): seq<Byte> {
    match u.content
    case Some(c) => LeafInput(u.key, c)
    case None => EMPTY_DOMAIN
  }

  /** The string is hashed while the proof for `u` is checked. */
  ghost predicate HashedFor(b3: Blake3, depth: nat, u: LeafUpdate, proof: SmtProof, x: seq<Byte>)
    requires depth <= PATH_BITS && Complete(Tree(b3, depth), proof)
  {
    var t := Tree(b3, depth);
    || x == ContentInput(u)
    || exists j | 0 <= j < depth :: x == NodeInput(Inputs(t, t.path(u.key), t.Content(u), proof, j))
  }

  /** Two accepted proofs for one root and one key with different claimed
      contents (present or absent) exhibit a collision between strings hashed
      while checking them. */
  function Collision(b3: Blake3, depth: nat, root: H256, key: H256,
                     c1: Option<H256>, proof1: SmtProof, c2: Option<H256>, proof2: SmtProof)
    : (xy: (seq<Byte>, seq<Byte>))
    requires depth <= PATH_BITS && c1 != c2
    requires Accepts(Tree(b3, depth), root, b3(KEY_DOMAIN + key), Tree(b3, depth).Content(LeafUpdate(key, c1)), proof1)
    requires Accepts(Tree(b3, depth), root, b3(KEY_DOMAIN + key), Tree(b3, depth).Content(LeafUpdate(key, c2)), proof2)
    ensures xy.0 != xy.1 && b3(xy.0) == b3(xy.1)
    ensures HashedFor(b3, depth, LeafUpdate(key, c1), proof1, xy.0) &&
            HashedFor(b3, depth, LeafUpdate(key, c2), proof2, xy.1)
  {
    var t := Tree(b3, depth);
    var u1, u2 := LeafUpdate(key, c1), LeafUpdate(key, c2);
    if t.Content(u1) == t.Content(u2) then
      ContentInputsDiffer(u1, u2);
      (ContentInput(u1), ContentInput(u2))
    else
      var d := Diverge(t, t.path(key), t.Content(u1), proof1, t.Content(u2), proof2, depth);
      NodeInputInjective(d.0, d.1);
      (NodeInput(d.0), NodeInput(d.1))
  }

  lemma ContentInputsDiffer(u1: LeafUpdate, u2: LeafUpdate)
    requires u1.key == u2.key && u1.content != u2.content
    ensures ContentInput(u1) != ContentInput(u2)
  {
    if u1.content.Some? && u2.content.Some? {
      LeafInputInjective(u1.key, u1.content.value, u2.key, u2.content.value);
    }
  }
}
