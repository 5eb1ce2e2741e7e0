/** The per-block transactions root: pairwise hashing, level by level, with an
    odd node promoted unchanged. It equals the recursive tree that splits at the
    largest power of two below the leaf count, and so binds the block body. */
module TransactionsRoot {
  import opened Common
  import opened Bytes
  import Hashing

  type NodeHash = (H256, H256) -> H256
  type Pair = (H256, H256)

  // ----- the reference tree --------------------------------------------------

  /** Where the recursive tree over `n` leaves splits. */
  function Split(n: nat): (k: nat)
    requires n > 1
    ensures 0 < k < n
  {
    if n == 2 then 1 else 2 * Split((n + 1) / 2)
  }

  /** The split point is the largest power of two below `n`. */
  lemma {:induction false} SplitIsLargest(n: nat) returns (j: nat)
    requires n > 1
    ensures Split(n) == Pow2(j) && Pow2(j) < n <= Pow2(j + 1)
  {
    if n == 2 {
      j := 0;
      assert Pow2(1) == 2;
    } else {
      j := SplitIsLargest((n + 1) / 2);
      j := j + 1;
    }
  }

  function Tree(h: NodeHash, leaves: seq<H256>): H256
    requires leaves != []
  {
    if |leaves| == 1 then leaves[0]
    else
      var k := Split(|leaves|);
      h(Tree(h, leaves[..k]), Tree(h, leaves[k..]))
  }

  /** Left before right, and an odd last leaf is paired last. */
  lemma SmallTrees(h: NodeHash, a: H256, b: H256, c: H256)
    ensures Tree(h, [a]) == a && Tree(h, [a, b]) == h(a, b) && Tree(h, [a, b, c]) == h(h(a, b), c)
  {
    assert [a, b][..1] == [a] && [a, b][1..] == [b];
    assert Split(2) == 1 && Split(3) == 2 && [a, b, c][..2] == [a, b] && [a, b, c][2..] == [c];
    assert Tree(h, [a, b]) == h(Tree(h, [a]), Tree(h, [b]));
  }

  // ----- one level of the loop -----------------------------------------------

  /** Hash neighbours in pairs; an odd last node is kept. */
  function PairUp(h: NodeHash, level: seq<H256>): (next: seq<H256>)
    ensures |next| == (|level| + 1) / 2
  {
    if |level| < 2 then level else [h(level[0], level[1])] + PairUp(h, level[2..])
  }

  lemma {:induction false} PairUpConcat(h: NodeHash, a: seq<H256>, b: seq<H256>)
    requires |a| % 2 == 0
    ensures PairUp(h, a + b) == PairUp(h, a) + PairUp(h, b)
    decreases |a|
  {
    if a == [] {
      assert a + b == b;
    } else {
      var s := a + b;
      PairUpConcat(h, a[2..], b);
      assert s[2..] == a[2..] + b;
      assert s[0] == a[0] && s[1] == a[1];
      assert PairUp(h, s) == [h(s[0], s[1])] + PairUp(h, s[2..]);
      assert PairUp(h, a) == [h(a[0], a[1])] + PairUp(h, a[2..]);
    }
  }

  /** Pairing up a level does not change the tree over it. */
  lemma {:induction false} PairUpKeepsTree(h: NodeHash, level: seq<H256>)
    requires level != []
    ensures Tree(h, PairUp(h, level)) == Tree(h, level)
    decreases |level|
  {
    if |level| == 2 {
      assert PairUp(h, level) == [h(level[0], level[1])];
    } else if |level| > 2 {
      var k := Split(|level|);
      var a, b := level[..k], level[k..];
      assert level == a + b;
      PairUpConcat(h, a, b);
      PairUpKeepsTree(h, a);
      PairUpKeepsTree(h, b);
      var next := PairUp(h, level);
      assert Split(|next|) == k / 2 == |PairUp(h, a)|;
      assert next[..k / 2] == PairUp(h, a) && next[k / 2..] == PairUp(h, b);
    }
  }

  lemma PairUpFrom(h: NodeHash, level: seq<H256>, i: nat)
    requires i < |level|
    ensures i + 1 < |level| ==> PairUp(h, level[i..]) == [h(level[i], level[i + 1])] + PairUp(h, level[i + 2..])
    ensures i + 1 == |level| ==> PairUp(h, level[i..]) == [level[i]]
  {
    var rest := level[i..];
    if i + 1 < |level| {
      assert rest[2..] == level[i + 2..];
    }
  }

  method PairLevel(h: NodeHash, level: seq<H256>) returns (next: seq<H256>)
    ensures next == PairUp(h, level)
  {
    hide PairUp;
    next := [];
    var i := 0;
    assert level[0..] == level;
    while i < |level|
      invariant 0 <= i <= |level|
      invariant next + PairUp(h, level[i..]) == PairUp(h, level)
    {
      PairUpFrom(h, level, i);
      if i + 1 < |level| {
        next := next + [h(level[i], level[i + 1])];
        i := i + 2;
      } else {
        next := next + [level[i]];
        i := i + 1;
        NoPairs(h, level[i..]);
      }
    }
    NoPairs(h, level[i..]);
  }

  lemma NoPairs(h: NodeHash, level: seq<H256>)
    requires level == []
    ensures PairUp(h, level) == []
  {
  }

  method RootFromLeaves(h: NodeHash, empty: H256, leaves: seq<H256>) returns (root: H256)
    ensures root == if leaves == [] then empty else Tree(h, leaves)
  {
    hide PairUp;
    if leaves == [] {
      return empty;
    }
    var level: seq<H256> := leaves;
    while |level| > 1
      invariant level != [] && Tree(h, level) == Tree(h, leaves)
      decreases |level|
    {
      PairUpKeepsTree(h, level);
      level := PairLevel(h, level);
    }
    root := level[0];
  }

  // ----- binding -------------------------------------------------------------

  /** The pair is hashed at some inner node of the tree. */
  ghost predicate HashedAt(h: NodeHash, leaves: seq<H256>, p: Pair)
    decreases |leaves|
  {
    |leaves| > 1 &&
    var k := Split(|leaves|);
    p == (Tree(h, leaves[..k]), Tree(h, leaves[k..])) || HashedAt(h, leaves[..k], p) || HashedAt(h, leaves[k..], p)
  }

  /** Two different leaf lists of one length with one root exhibit two distinct
      pairs with the same hash, each hashed in its own tree. */
  function Diverge(h: NodeHash, a: seq<H256>, b: seq<H256>): (r: (Pair, Pair))
    requires a != b && |a| == |b| > 0
    requires Tree(h, a) == Tree(h, b)
    ensures r.0 != r.1 && h(r.0.0, r.0.1) == h(r.1.0, r.1.1)
    ensures HashedAt(h, a, r.0) && HashedAt(h, b, r.1)
    decreases |a|
  {
    var k := if |a| == 1 then 1 else Split(|a|);
    assert a == a[..k] + a[k..] && b == b[..k] + b[k..];
    var x := (Tree(h, a[..k]), Tree(h, a[k..]));
    var y := (Tree(h, b[..k]), Tree(h, b[k..]));
    if x != y then (x, y)
    else if a[..k] != b[..k] then Diverge(h, a[..k], b[..k])
    else Diverge(h, a[k..], b[k..])
  }

  // ----- over transactions ---------------------------------------------------

  // "PL2:merkle:leaf", "PL2:merkle:node", "PL2:merkle:empty"
  const LEAF_DOMAIN: seq<Byte> :=
    [0x50, 0x4c, 0x32, 0x3a, 0x6d, 0x65, 0x72, 0x6b, 0x6c, 0x65, 0x3a, 0x6c, 0x65, 0x61, 0x66]
  const NODE_DOMAIN: seq<Byte> :=
    [0x50, 0x4c, 0x32, 0x3a, 0x6d, 0x65, 0x72, 0x6b, 0x6c, 0x65, 0x3a, 0x6e, 0x6f, 0x64, 0x65]
  const EMPTY_DOMAIN: seq<Byte> :=
    [0x50, 0x4c, 0x32, 0x3a, 0x6d, 0x65, 0x72, 0x6b, 0x6c, 0x65, 0x3a, 0x65, 0x6d, 0x70, 0x74, 0x79]

  function NodeInput(p: Pair): seq<Byte> {
    NODE_DOMAIN + p.0 + p.1
  }

  function HashNode(b3: Hashing.Blake3): NodeHash {
    (l: H256, r: H256) => b3(NodeInput((l, r)))
  }

  function LeafHashes(b3: Hashing.Blake3, txs: seq<seq<Byte>>): (hs: seq<H256>)
    ensures |hs| == |txs|
  {
    seq(|txs|, i requires 0 <= i < |txs| => b3(LEAF_DOMAIN + txs[i]))
  }

  /** Root over serialized transactions. */
  function BodyRoot(b3: Hashing.Blake3, txs: seq<seq<Byte>>): H256 {
    if txs == [] then b3(EMPTY_DOMAIN) else Tree(HashNode(b3), LeafHashes(b3, txs))
  }

  datatype Header = Header(slot: nat, parentHash: H256, stateRoot: H256, transactionsRoot: H256, timestampMs: nat,
                           transactionCount: nat)
  datatype Block = Block(header: Header, transactions: seq<seq<Byte>>, signature: seq<Byte>)

  /** Body integrity and the sequencer's signature over the header. */
  method VerifyBlock(b3: Hashing.Blake3, signed: (Header, seq<Byte>) -> bool, block: Block) returns (ok: bool)
    ensures ok <==>
              && block.header.transactionCount == |block.transactions|
              && block.header.transactionsRoot == BodyRoot(b3, block.transactions)
              && signed(block.header, block.signature)
  {
    if block.header.transactionCount != |block.transactions| {
      return false;
    }
    var root := RootFromLeaves(HashNode(b3), b3(EMPTY_DOMAIN), LeafHashes(b3, block.transactions));
    if block.header.transactionsRoot != root {
      return false;
    }
    ok := signed(block.header, block.signature);
  }

  /** What `VerifyBlock` accepts. */
  predicate BlockOk(b3: Hashing.Blake3, signed: (Header, seq<Byte>) -> bool, block: Block) {
    && block.header.transactionCount == |block.transactions|
    && block.header.transactionsRoot == BodyRoot(b3, block.transactions)
    && signed(block.header, block.signature)
  }

  function FirstDifference(a: seq<seq<Byte>>, b: seq<seq<Byte>>): (i: nat)
    requires a != b && |a| == |b|
    ensures i < |a| && a[i] != b[i]
  {
    if a[0] != b[0] then 0
    else
      assert a == [a[0]] + a[1..] && b == [b[0]] + b[1..];
      1 + FirstDifference(a[1..], b[1..])
  }

  /** The string is hashed while the root over `txs` is computed. */
  ghost predicate HashedFor(b3: Hashing.Blake3, txs: seq<seq<Byte>>, x: seq<Byte>) {
    || (exists i | 0 <= i < |txs| :: x == LEAF_DOMAIN + txs[i])
    || (exists p :: HashedAt(HashNode(b3), LeafHashes(b3, txs), p) && x == NodeInput(p))
  }

  /** A header fixes its body: two verified blocks with one header and different
      transactions exhibit a collision between strings hashed for their roots. */
  function BodyCollision(b3: Hashing.Blake3, signed: (Header, seq<Byte>) -> bool, a: Block, b: Block)
    : (xy: (seq<Byte>, seq<Byte>))
    requires BlockOk(b3, signed, a) && BlockOk(b3, signed, b)
    requires a.header == b.header && a.transactions != b.transactions
    ensures xy.0 != xy.1 && b3(xy.0) == b3(xy.1)
    ensures HashedFor(b3, a.transactions, xy.0) && HashedFor(b3, b.transactions, xy.1)
  {
    var i := FirstDifference(a.transactions, b.transactions);
    var s, t := a.transactions[i], b.transactions[i];
    var la, lb := LeafHashes(b3, a.transactions), LeafHashes(b3, b.transactions);
    if la[i] == lb[i] then
      assert (LEAF_DOMAIN + s)[15..] == s && (LEAF_DOMAIN + t)[15..] == t;
      (LEAF_DOMAIN + s, LEAF_DOMAIN + t)
    else
      var d := Diverge(HashNode(b3), la, lb);
      assert NodeInput(d.0)[15..47] == d.0.0 && NodeInput(d.0)[47..] == d.0.1;
      assert NodeInput(d.1)[15..47] == d.1.0 && NodeInput(d.1)[47..] == d.1.1;
      (NodeInput(d.0), NodeInput(d.1))
  }
}
