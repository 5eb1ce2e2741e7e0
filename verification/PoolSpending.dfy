/** What an owner of shielded value can count on: funded deposits are accepted,
    valid spends are never refused for vault funds, and every unspent note can be
    spent in any split. */
module PoolSpending {
  import opened Common
  import opened Field
  import opened CommitmentTree
  import opened PoolState
  import opened Circuits
  import opened Pool
  import opened PoolSolvency
  import TreeAgreement

  // ----- when a transaction goes through -------------------------------------

  /** The payer holds the flat fee and the amount. A need beyond 64 bits is cut to
      the largest balance there is. */
  predicate ShieldFunded(c: Config, w: World, payer: Pubkey, asset: Asset, amount: U64) {
    var coins := Get(w.lamports, payer);
    match asset
    case Native => coins >= amount + c.flatFee || coins == U64_MAX
    case Spl(mint) => coins >= c.flatFee && Get(w.tokens, (mint, payer)) >= amount
  }

  /** A shield goes through exactly for a payer who holds fee and amount, a positive
      amount, a canonical secret and room in the tree. */
  lemma ShieldAcceptedIff(c: Config, w: World, payer: Pubkey, asset: Asset, amount: U64, secret: FieldBytes)
    ensures var status := ApplyTx(c, w, Tx(payer, Shield(asset, amount, secret))).status;
            && (status.Ok? <==>
                  ShieldFunded(c, w, payer, asset, amount) && amount > 0 && secret < P && |w.leaves| < CAPACITY)
            && (status == InsufficientFunds <==> !ShieldFunded(c, w, payer, asset, amount))
  {
    hide Process, MoveLamports, ApplyEffects;
    ShieldVerdict(c, w.leaves, w.spent, asset, amount, secret);
  }

  /** A spend is refused for funds exactly when its payer lacks the flat fee or the
      vault lacks what it must pay; otherwise the processor decides. */
  lemma SpendStatus(c: Config, w: World, tx: Tx)
    requires !tx.ix.Shield?
    ensures var funded :=
              && Get(w.lamports, tx.payer) >= c.flatFee
              && match tx.ix
                 case Transfer(_, _, _, _, _, _, fee) => Get(w.lamports, c.vault) >= fee
                 case Unshield(_, _, _, _, Native, amount, _) => Get(w.lamports, c.vault) >= amount
                 case Unshield(_, _, _, _, Spl(mint), amount, _) => Get(w.tokens, (mint, c.vault)) >= amount;
            var verdict := Process(c, w.leaves, w.spent, tx.ix).verdict;
            ApplyTx(c, w, tx).status ==
            if !funded then InsufficientFunds else if verdict.Rejected? then PoolRejected(verdict.error) else Ok
  {
    hide Process, MoveLamports, ApplyEffects;
  }

  /** A spend that passes every check of the processor. */
  ghost predicate Spendable(c: Config, w: World, ix: Instruction) {
    || (ix.Transfer? && TransferRefusal(c, w.leaves, w.spent, ix).None?)
    || (ix.Unshield? && UnshieldRefusal(c, w.leaves, w.spent, ix).None?)
  }

  /** In a solvent pool the pre-check on funds asks of a valid spend only that its
      payer holds the flat fee. */
  lemma SpendPayableIff(c: Config, q: Asked, mints: iset<Pubkey>, w: World, tx: Tx)
    requires Trusted(c, q, mints) && Solvent(c, q, mints, w) && PrefixesAsked(c.hash, q, w.leaves)
    requires InUse(mints, AssetOf(tx.ix)) && Witnessed(c, q, tx.ix) && Spendable(c, w, tx.ix)
    ensures FundsAvailable(c, w, tx.payer, tx.ix) <==> Get(w.lamports, tx.payer) >= c.flatFee
  {
    hide Trusted, Solvent, PrefixesAsked, Witnessed, TransferRefusal, UnshieldRefusal, InUse;
    ValidSpendCovered(c, q, mints, w, tx.ix);
  }

  /** So it goes through exactly when the payer holds the fee and the tree has room
      for the new notes. */
  lemma SpendAcceptedIff(c: Config, q: Asked, mints: iset<Pubkey>, w: World, tx: Tx)
    requires Trusted(c, q, mints) && Solvent(c, q, mints, w) && PrefixesAsked(c.hash, q, w.leaves)
    requires InUse(mints, AssetOf(tx.ix)) && Witnessed(c, q, tx.ix) && Spendable(c, w, tx.ix)
    ensures var room := |w.leaves| + (if tx.ix.Transfer? then 2 else 1) <= CAPACITY;
            ApplyTx(c, w, tx).status ==
            if Get(w.lamports, tx.payer) < c.flatFee then InsufficientFunds
            else if room then Ok else PoolRejected(TreeFull)
  {
    hide Trusted, Solvent, PrefixesAsked, Witnessed, TransferRefusal, UnshieldRefusal, InUse, FundsAvailable;
    hide MoveLamports, ApplyEffects;
    SpendPayableIff(c, q, mints, w, tx);
  }

  // ----- completeness of the circuits ----------------------------------------

  /** The true siblings of a leaf. */
  function PathOf(h: NodeHash, leaves: seq<Fr>, index: nat): (path: seq<Fr>)
    ensures |path| == TREE_DEPTH
  {
    seq(TREE_DEPTH, l requires 0 <= l < TREE_DEPTH => Node(h, leaves, l, SiblingIndex(Above(index, l))))
  }

  /** The spend of the note at `index` by its owner. */
  function SpendOf(h: Poseidon, leaves: seq<Fr>, index: nat, amount: Fr, s: Fr, blinding: Fr): Spend
    requires index < CAPACITY
  {
    Spend(amount, s, blinding, index, PathOf(h.h2, leaves, index))
  }

  /** A leaf of the tree has a path that the circuit accepts. */
  lemma LeafIsIncluded(h: Poseidon, leaves: seq<Fr>, index: nat)
    requires index < |leaves| <= CAPACITY
    ensures MerkleInclusion(h, leaves[index], index, PathOf(h.h2, leaves, index), Root(h.h2, leaves), true)
  {
    hide Node, Fold;
    var path := PathOf(h.h2, leaves, index);
    FoldReachesNode(h.h2, leaves, index, path, TREE_DEPTH);
    LeafLevel(h.h2, leaves, index);
    RootPosition(index);
  }

  /** The owner of a note can satisfy the unshield circuit for any amount up to its
      value, with the rest as change to anybody. */
  lemma UnshieldCompletes(h: Poseidon, leaves: seq<Fr>, index: nat, asset: Fr, s: Fr, blinding: Fr, amount: nat,
                          change: Output, recipient: Fr)
    requires index < |leaves| <= CAPACITY && amount + change.amount < TWO_64
    requires leaves[index] == h.h3(asset, amount + change.amount, h.h2(h.h1(s), blinding))
    ensures UnshieldCircuit(h,
                            UnshieldInputs(Root(h.h2, leaves), h.h3(leaves[index], index, s),
                                           h.h3(asset, change.amount, h.h2(change.pk, change.blinding)),
                                           asset, amount, recipient),
                            UnshieldWitness(SpendOf(h, leaves, index, amount + change.amount, s, blinding), change))
  {
    hide MerkleInclusion, Root;
    LeafIsIncluded(h, leaves, index);
    AddExact(amount, change.amount);
  }

  /** An input of a transfer: a note of the tree, or a dummy of amount zero. */
  ghost predicate Spends(h: Poseidon, leaves: seq<Fr>, asset: Fr, i: Spend) {
    && i.amount < TWO_64 && i.index < CAPACITY && |i.path| == TREE_DEPTH
    && (i.amount > 0 ==>
          && i.index < |leaves| && i.path == PathOf(h.h2, leaves, i.index)
          && leaves[i.index] == h.h3(asset, i.amount, h.h2(h.h1(i.s), i.blinding)))
  }

  /** Two inputs of one asset can be turned into any two outputs of the same total
      less a fee, which only the native asset pays. */
  lemma TransferCompletes(h: Poseidon, leaves: seq<Fr>, asset: Fr, i: Spend, j: Spend, a: Output, b: Output, fee: nat)
    requires |leaves| <= CAPACITY && Spends(h, leaves, asset, i) && Spends(h, leaves, asset, j)
    requires a.amount < TWO_64 && b.amount < TWO_64 && fee < TWO_64 && (asset == 0 || fee == 0)
    requires i.amount + j.amount == a.amount + b.amount + fee
    requires h.Nullifier(SpendCommitment(h, asset, i), i.index, i.s) !=
             h.Nullifier(SpendCommitment(h, asset, j), j.index, j.s)
    ensures TransferCircuit(h,
                            TransferInputs(Root(h.h2, leaves),
                                           h.Nullifier(SpendCommitment(h, asset, i), i.index, i.s),
                                           h.Nullifier(SpendCommitment(h, asset, j), j.index, j.s),
                                           h.h3(asset, a.amount, h.h2(a.pk, a.blinding)),
                                           h.h3(asset, b.amount, h.h2(b.pk, b.blinding)), fee),
                            TransferWitness(asset, i, j, a, b))
  {
    hide Root, Fold;
    if i.amount > 0 {
      LeafIsIncluded(h, leaves, i.index);
    }
    if j.amount > 0 {
      LeafIsIncluded(h, leaves, j.index);
    }
    AddExact(i.amount, j.amount);
    AddExact(a.amount, b.amount);
    AddExact(a.amount + b.amount, fee);
  }

  // ----- an unspent note can leave the pool ----------------------------------

  /** The owner's statement: this much of the note at `index` to `recipient`, the rest
      as change. */
  function OwnerStatement(c: Config, w: World, index: nat, s: Fr, asset: Asset, amount: U64, change: Output,
                          recipient: Pubkey): UnshieldInputs
    requires index < |w.leaves| <= CAPACITY
  {
    UnshieldInputs(Root(c.hash.h2, w.leaves), c.hash.Nullifier(w.leaves[index], index, s),
                   OutputCommitment(c.hash, AssetId(asset), change), AssetId(asset), amount, recipient % P)
  }

  /** In a solvent pool the owner of a note whose nullifier is not recorded can take
      any part of it out to any address. The statement has a witness, and with a
      proof of it and a payer who holds the flat fee the pool pays: the nullifier is
      recorded, the change becomes a leaf, and the recipient gets the amount. */
  lemma NoteCanLeave(c: Config, q: Asked, mints: iset<Pubkey>, w: World, index: nat, s: Fr, blinding: Fr, asset: Asset,
                     amount: U64, change: Output, recipient: Pubkey, proof: Proof, payer: Pubkey)
    requires Trusted(c, q, mints) && Solvent(c, q, mints, w) && PrefixesAsked(c.hash, q, w.leaves)
    requires InUse(mints, asset) && index < |w.leaves| < CAPACITY && Root(c.hash.h2, w.leaves) != 0
    requires 0 < amount && amount + change.amount < TWO_64
    requires w.leaves[index] ==
             c.hash.h3(AssetId(asset), amount + change.amount, c.hash.h2(c.hash.h1(s), blinding))
    requires c.hash.Nullifier(w.leaves[index], index, s) !in w.spent
    requires var i := SpendOf(c.hash, w.leaves, index, amount + change.amount, s, blinding);
             SpendAsked(c.hash, AssetId(asset), i, q) && OutputAsked(c.hash, AssetId(asset), change, q)
    requires Get(w.lamports, payer) >= c.flatFee
    ensures var x := OwnerStatement(c, w, index, s, asset, amount, change, recipient);
            && (exists v :: UnshieldCircuit(c.hash, x, v))
            && (c.verifier.unshield(proof, x) ==>
                  var tx := Tx(payer, Unshield(proof, x.root, x.nf, x.change, asset, amount, recipient));
                  var r := Process(c, w.leaves, w.spent, tx.ix);
                  && ApplyTx(c, w, tx).status.Ok?
                  && r.leaves == w.leaves + [x.change] && r.spent == w.spent + [x.nf]
                  && r.verdict == Accepted([WithdrawFromVault(asset, amount, recipient)]))
  {
    hide Trusted, Solvent, PrefixesAsked, Root, Process, ApplyTx, UnshieldCircuit, SpendAsked, InUse, KnownRoot;
    var x := OwnerStatement(c, w, index, s, asset, amount, change, recipient);
    var i := SpendOf(c.hash, w.leaves, index, amount + change.amount, s, blinding);
    var v := UnshieldWitness(i, change);
    UnshieldCompletes(c.hash, w.leaves, index, AssetId(asset), s, blinding, amount, change, recipient % P);
    assert UnshieldCircuit(c.hash, x, v);
    if c.verifier.unshield(proof, x) {
      var ix := Unshield(proof, x.root, x.nf, x.change, asset, amount, recipient);
      assert UnshieldInputsOf(ix) == x && UnshieldAsked(c.hash, x, v, q);
      TreeAgreement.NewestRootKnown(c.hash.h2, w.leaves);
      assert UnshieldRefusal(c, w.leaves, w.spent, ix).None?;
      SpendAcceptedIff(c, q, mints, w, Tx(payer, ix));
      UnshieldVerdict(c, w.leaves, w.spent, ix);
    }
  }
}
