/** The join-split and unshield circuits as relations between public inputs and
    witnesses, over field elements. */
module Circuits {
  import opened Field
  import opened CommitmentTree

  const TWO_64: nat := 0x1_0000_0000_0000_0000

  datatype TransferInputs = TransferInputs(root: Fr, nf0: Fr, nf1: Fr, cm0: Fr, cm1: Fr, fee: Fr)
  datatype UnshieldInputs = UnshieldInputs(root: Fr, nf: Fr, change: Fr, asset: Fr, amount: Fr, recipient: Fr)

  /** A note being spent: its value, its owner's key and its place in the tree. */
  datatype Spend = Spend(amount: Fr, s: Fr, blinding: Fr, index: Fr, path: seq<Fr>)

  /** A note being created. */
  datatype Output = Output(amount: Fr, pk: Fr, blinding: Fr)

  datatype TransferWitness = TransferWitness(asset: Fr, in0: Spend, in1: Spend, out0: Output, out1: Output)
  datatype UnshieldWitness = UnshieldWitness(in0: Spend, change: Output)

  function SpendSecret(h: Poseidon, i: Spend): Fr {
    h.NoteSecret(h.OwnerKey(i.s), i.blinding)
  }

  function SpendCommitment(h: Poseidon, asset: Fr, i: Spend): Fr {
    h.Commitment(asset, i.amount, SpendSecret(h, i))
  }

  function OutputCommitment(h: Poseidon, asset: Fr, o: Output): Fr {
    h.Commitment(asset, o.amount, h.NoteSecret(o.pk, o.blinding))
  }

  /** A 64-bit decomposition exists. */
  predicate AmountCheck(x: Fr) {
    x < TWO_64
  }

  /** The index has `TREE_DEPTH` bits, and (root computed - root) * enabled = 0. */
  predicate MerkleInclusion(h: Poseidon, leaf: Fr, index: Fr, path: seq<Fr>, root: Fr, enabled: bool) {
    && index < CAPACITY && |path| == TREE_DEPTH
    && (enabled ==> Fold(h.h2, leaf, index, path, TREE_DEPTH) == root)
  }

  predicate SpendOk(h: Poseidon, asset: Fr, i: Spend, nf: Fr, root: Fr, enabled: bool) {
    && AmountCheck(i.amount)
    && nf == h.Nullifier(SpendCommitment(h, asset, i), i.index, i.s)
    && MerkleInclusion(h, SpendCommitment(h, asset, i), i.index, i.path, root, enabled)
  }

  predicate OutputOk(h: Poseidon, asset: Fr, o: Output, cm: Fr) {
    AmountCheck(o.amount) && cm == OutputCommitment(h, asset, o)
  }

  /** Two inputs, two outputs, one asset. A zero-amount input skips membership. */
  predicate TransferCircuit(h: Poseidon, x: TransferInputs, w: TransferWitness) {
    && SpendOk(h, w.asset, w.in0, x.nf0, x.root, w.in0.amount != 0)
    && SpendOk(h, w.asset, w.in1, x.nf1, x.root, w.in1.amount != 0)
    && OutputOk(h, w.asset, w.out0, x.cm0)
    && OutputOk(h, w.asset, w.out1, x.cm1)
    && Add(w.in0.amount, w.in1.amount) == Add(Add(w.out0.amount, w.out1.amount), x.fee)
    && (w.asset != 0 ==> x.fee == 0)
    && x.nf0 != x.nf1
  }

  predicate UnshieldCircuit(h: Poseidon, x: UnshieldInputs, w: UnshieldWitness) {
    && SpendOk(h, x.asset, w.in0, x.nf, x.root, true)
    && AmountCheck(x.amount)
    && OutputOk(h, x.asset, w.change, x.change)
    && w.in0.amount == Add(x.amount, w.change.amount)
  }

  // ----- sums cannot wrap ----------------------------------------------------

  lemma AddExact(a: Fr, b: Fr)
    requires a + b < P
    ensures Add(a, b) == a + b
  {
  }

  /** With a 64-bit fee, field conservation is conservation of integers. */
  lemma TransferConserves(h: Poseidon, x: TransferInputs, w: TransferWitness)
    requires TransferCircuit(h, x, w) && x.fee < TWO_64
    ensures w.in0.amount + w.in1.amount == w.out0.amount + w.out1.amount + x.fee
  {
    AddExact(w.in0.amount, w.in1.amount);
    AddExact(w.out0.amount, w.out1.amount);
    AddExact(w.out0.amount + w.out1.amount, x.fee);
  }

  lemma UnshieldConserves(h: Poseidon, x: UnshieldInputs, w: UnshieldWitness)
    requires UnshieldCircuit(h, x, w)
    ensures w.in0.amount == x.amount + w.change.amount
  {
    AddExact(x.amount, w.change.amount);
  }

  /** A note is spent by its owner: its nullifier comes from commitment, place and
      key, and unless it is a dummy its path leads to the root. */
  predicate ProperSpend(h: Poseidon, asset: Fr, i: Spend, nf: Fr, root: Fr, dummy: bool) {
    var cm := h.h3(asset, i.amount, h.h2(h.h1(i.s), i.blinding));
    && i.amount < TWO_64 && nf == h.h3(cm, i.index, i.s)
    && i.index < CAPACITY && |i.path| == TREE_DEPTH
    && (dummy || Fold(h.h2, cm, i.index, i.path, TREE_DEPTH) == root)
  }

  predicate ProperOutput(h: Poseidon, asset: Fr, o: Output, cm: Fr) {
    o.amount < TWO_64 && cm == h.h3(asset, o.amount, h.h2(o.pk, o.blinding))
  }

  /** What the transfer circuit accepts: two spends and two outputs of one asset,
      different nullifiers, sums equal as integers, and a fee in the native asset
      only. */
  lemma TransferCircuitIff(h: Poseidon, x: TransferInputs, w: TransferWitness)
    requires x.fee < TWO_64
    ensures TransferCircuit(h, x, w) <==>
            && ProperSpend(h, w.asset, w.in0, x.nf0, x.root, w.in0.amount == 0)
            && ProperSpend(h, w.asset, w.in1, x.nf1, x.root, w.in1.amount == 0)
            && ProperOutput(h, w.asset, w.out0, x.cm0) && ProperOutput(h, w.asset, w.out1, x.cm1)
            && w.in0.amount + w.in1.amount == w.out0.amount + w.out1.amount + x.fee
            && (x.fee > 0 ==> w.asset == 0) && x.nf0 != x.nf1
  {
    hide Fold;
    if w.in0.amount < TWO_64 && w.in1.amount < TWO_64 && w.out0.amount < TWO_64 && w.out1.amount < TWO_64 {
      AddExact(w.in0.amount, w.in1.amount);
      AddExact(w.out0.amount, w.out1.amount);
      AddExact(w.out0.amount + w.out1.amount, x.fee);
    }
  }

  /** What the unshield circuit accepts: one spend, its change of the same asset, and
      the released amount as the difference. */
  lemma UnshieldCircuitIff(h: Poseidon, x: UnshieldInputs, w: UnshieldWitness)
    ensures UnshieldCircuit(h, x, w) <==>
            && ProperSpend(h, x.asset, w.in0, x.nf, x.root, false) && ProperOutput(h, x.asset, w.change, x.change)
            && x.amount < TWO_64 && w.in0.amount == x.amount + w.change.amount
  {
    hide Fold;
    if x.amount < TWO_64 && w.change.amount < TWO_64 {
      AddExact(x.amount, w.change.amount);
    }
  }

  // ----- hash inputs in play -------------------------------------------------

  /** Poseidon inputs that the node or some prover evaluated. */
  datatype Asked = Asked(h1: iset<Fr>, h2: Pairs, h3: iset<(Fr, Fr, Fr)>)

  /** No two of those inputs collide, and no commitment is the empty leaf. */
  ghost predicate NoCollisions(h: Poseidon, q: Asked) {
    && (forall a, b | a in q.h1 && b in q.h1 && h.h1(a) == h.h1(b) :: a == b)
    && CollisionFree(h.h2, q.h2)
    && (forall a, b | a in q.h3 && b in q.h3 && h.h3(a.0, a.1, a.2) == h.h3(b.0, b.1, b.2) :: a == b)
    && (forall a | a in q.h3 :: h.h3(a.0, a.1, a.2) != EMPTY_LEAF)
  }

  ghost predicate SpendAsked(h: Poseidon, asset: Fr, i: Spend, q: Asked) {
    && i.s in q.h1
    && (h.OwnerKey(i.s), i.blinding) in q.h2
    && (asset, i.amount, SpendSecret(h, i)) in q.h3
    && (SpendCommitment(h, asset, i), i.index, i.s) in q.h3
    && FoldAsked(h.h2, SpendCommitment(h, asset, i), i.index, i.path, q.h2)
  }

  ghost predicate OutputAsked(h: Poseidon, asset: Fr, o: Output, q: Asked) {
    (asset, o.amount, h.NoteSecret(o.pk, o.blinding)) in q.h3
  }

  ghost predicate TransferAsked(h: Poseidon, w: TransferWitness, q: Asked) {
    && SpendAsked(h, w.asset, w.in0, q) && SpendAsked(h, w.asset, w.in1, q)
    && OutputAsked(h, w.asset, w.out0, q) && OutputAsked(h, w.asset, w.out1, q)
  }

  ghost predicate UnshieldAsked(h: Poseidon, x: UnshieldInputs, w: UnshieldWitness, q: Asked) {
    SpendAsked(h, x.asset, w.in0, q) && OutputAsked(h, x.asset, w.change, q)
  }

  /** A spend checked against the root of a tree opens a leaf of that tree. */
  lemma SpendIsMember(h: Poseidon, asset: Fr, i: Spend, nf: Fr, leaves: seq<Fr>, q: Asked)
    requires NoCollisions(h, q) && SpendAsked(h, asset, i, q) && TreeAsked(h.h2, leaves, q.h2)
    requires SpendOk(h, asset, i, nf, Root(h.h2, leaves), true)
    ensures i.index < |leaves| && leaves[i.index] == SpendCommitment(h, asset, i)
  {
    hide Node, Fold, Above, CollisionFree, TreeAsked, FoldAsked;
    var cm := SpendCommitment(h, asset, i);
    RootPosition(i.index);
    FoldBinds(h.h2, leaves, cm, i.index, i.path, TREE_DEPTH, q.h2);
    assert cm == h.h3(asset, i.amount, SpendSecret(h, i)) != EMPTY_LEAF;
    LeafOrEmpty(h.h2, leaves, i.index);
  }

  lemma LeafOrEmpty(h: NodeHash, leaves: seq<Fr>, i: nat)
    ensures Node(h, leaves, 0, i) == if i < |leaves| then leaves[i] else EMPTY_LEAF
  {
  }
}
