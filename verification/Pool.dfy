/** The shielded pool as a function on values: the checks and effects of one
    instruction, the public fund movements around it, and a block of them. */
module Pool {
  import opened Common
  import opened Field
  import opened CommitmentTree
  import opened PoolState
  import opened Circuits

  type Pubkey = FieldBytes
  type Proof = seq<bv8>

  datatype Asset = Native | Spl(mint: Pubkey)

  datatype Instruction =
    | Shield(asset: Asset, amount: U64, secret: FieldBytes)
    | Transfer(proof: Proof, root: FieldBytes, nf0: FieldBytes, nf1: FieldBytes, cm0: FieldBytes, cm1: FieldBytes,
               fee: U64)
    | Unshield(proof: Proof, root: FieldBytes, nf: FieldBytes, change: FieldBytes, asset: Asset, amount: U64,
               recipient: Pubkey)

  datatype PoolError =
    | BadField | UnknownRoot | DoubleSpend | DuplicateNullifier | ZeroAmount | TreeFull | InvalidProof

  datatype Effect =
    | DepositToVault(asset: Asset, amount: U64)
    | WithdrawFromVault(asset: Asset, amount: U64, recipient: Pubkey)
    | PayFee(amount: U64)

  datatype Verdict = Accepted(effects: seq<Effect>) | Rejected(error: PoolError)

  /** The proof system, as the processor calls it. */
  datatype Verifier = Verifier(
    transfer: (Proof, TransferInputs) -> bool,
    unshield: (Proof, UnshieldInputs) -> bool)

  datatype Config = Config(hash: Poseidon, verifier: Verifier, vault: Pubkey, collector: Pubkey, flatFee: U64)

  /** Native is 0; a mint is its 32 bytes reduced into the field. */
  function AssetId(a: Asset): Fr {
    match a
    case Native => 0
    case Spl(mint) => mint % P
  }

  // ----- the processor -------------------------------------------------------

  /** The tree's leaves and the log of recorded nullifiers after an instruction,
      with its verdict. A rejection for a full tree comes after the
      nullifiers are recorded, and keeps them. */
  datatype Processed = Processed(leaves: seq<Fr>, spent: seq<FieldBytes>, verdict: Verdict)

  function ShieldCommitment(c: Config, asset: Asset, amount: U64, secret: Fr): Fr {
    c.hash.Commitment(AssetId(asset), amount, secret)
  }

  ghost function ProcessShield(c: Config, leaves: seq<Fr>, spent: seq<FieldBytes>, ix: Instruction): Processed
    requires ix.Shield?
  {
    var secret := FrFromBytes(ix.secret);
    if ix.amount == 0 then Processed(leaves, spent, Rejected(ZeroAmount))
    else if secret.None? then Processed(leaves, spent, Rejected(BadField))
    else if |leaves| >= CAPACITY then Processed(leaves, spent, Rejected(TreeFull))
    else Processed(leaves + [ShieldCommitment(c, ix.asset, ix.amount, secret.value)], spent,
                   Accepted([DepositToVault(ix.asset, ix.amount)]))
  }

  predicate Canonical(b: FieldBytes) {
    FrFromBytes(b).Some?
  }

  function TransferInputsOf(ix: Instruction): TransferInputs
    requires ix.Transfer? && Canonical(ix.root) && Canonical(ix.nf0) && Canonical(ix.nf1) && Canonical(ix.cm0) &&
             Canonical(ix.cm1)
  {
    TransferInputs(ix.root, ix.nf0, ix.nf1, ix.cm0, ix.cm1, ix.fee)
  }

  /** The first check a transfer fails, if any. */
  ghost function TransferRefusal(c: Config, leaves: seq<Fr>, spent: seq<FieldBytes>, ix: Instruction): Option<PoolError>
    requires ix.Transfer?
  {
    if !KnownRoot(c.hash.h2, leaves, ix.root) then Some(UnknownRoot)
    else if ix.nf0 == ix.nf1 then Some(DuplicateNullifier)
    else if ix.nf0 in spent || ix.nf1 in spent then Some(DoubleSpend)
    else if !(Canonical(ix.root) && Canonical(ix.nf0) && Canonical(ix.nf1) && Canonical(ix.cm0) &&
              Canonical(ix.cm1)) then Some(BadField)
    else if !c.verifier.transfer(ix.proof, TransferInputsOf(ix)) then Some(InvalidProof)
    else None
  }

  /** Nullifiers are recorded first; each insert may then find the tree full. */
  ghost function ProcessTransfer(c: Config, leaves: seq<Fr>, spent: seq<FieldBytes>, ix: Instruction): Processed
    requires ix.Transfer?
  {
    var refusal := TransferRefusal(c, leaves, spent, ix);
    if refusal.Some? then Processed(leaves, spent, Rejected(refusal.value))
    else
      var recorded := spent + [ix.nf0, ix.nf1];
      if |leaves| >= CAPACITY then Processed(leaves, recorded, Rejected(TreeFull))
      else if |leaves| + 1 >= CAPACITY then Processed(leaves + [ix.cm0], recorded, Rejected(TreeFull))
      else Processed(leaves + [ix.cm0, ix.cm1], recorded, Accepted(if ix.fee > 0 then [PayFee(ix.fee)] else []))
  }

  function UnshieldInputsOf(ix: Instruction): UnshieldInputs
    requires ix.Unshield? && Canonical(ix.root) && Canonical(ix.nf) && Canonical(ix.change)
  {
    UnshieldInputs(ix.root, ix.nf, ix.change, AssetId(ix.asset), ix.amount, ix.recipient % P)
  }

  ghost function UnshieldRefusal(c: Config, leaves: seq<Fr>, spent: seq<FieldBytes>, ix: Instruction): Option<PoolError>
    requires ix.Unshield?
  {
    if ix.amount == 0 then Some(ZeroAmount)
    else if !KnownRoot(c.hash.h2, leaves, ix.root) then Some(UnknownRoot)
    else if ix.nf in spent then Some(DoubleSpend)
    else if !(Canonical(ix.root) && Canonical(ix.nf) && Canonical(ix.change)) then Some(BadField)
    else if !c.verifier.unshield(ix.proof, UnshieldInputsOf(ix)) then Some(InvalidProof)
    else None
  }

  ghost function ProcessUnshield(c: Config, leaves: seq<Fr>, spent: seq<FieldBytes>, ix: Instruction): Processed
    requires ix.Unshield?
  {
    var refusal := UnshieldRefusal(c, leaves, spent, ix);
    if refusal.Some? then Processed(leaves, spent, Rejected(refusal.value))
    else if |leaves| >= CAPACITY then Processed(leaves, spent + [ix.nf], Rejected(TreeFull))
    else Processed(leaves + [ix.change], spent + [ix.nf],
                   Accepted([WithdrawFromVault(ix.asset, ix.amount, ix.recipient)]))
  }

  ghost function Process(c: Config, leaves: seq<Fr>, spent: seq<FieldBytes>, ix: Instruction): Processed {
    match ix
    case Shield(_, _, _) => ProcessShield(c, leaves, spent, ix)
    case Transfer(_, _, _, _, _, _, _) => ProcessTransfer(c, leaves, spent, ix)
    case Unshield(_, _, _, _, _, _, _) => ProcessUnshield(c, leaves, spent, ix)
  }

  // ----- what decides an instruction -----------------------------------------

  /** A shield is accepted exactly for a positive amount, a canonical secret and
      room in the tree. It then appends the commitment to its asset, its amount
      and that secret, and takes the amount in. */
  lemma ShieldVerdict(c: Config, leaves: seq<Fr>, spent: seq<FieldBytes>, asset: Asset, amount: U64, secret: FieldBytes)
    ensures var r := Process(c, leaves, spent, Shield(asset, amount, secret));
            && (r.verdict.Accepted? <==> amount > 0 && secret < P && |leaves| < CAPACITY)
            && (r.verdict.Accepted? ==>
                  && r.leaves == leaves + [c.hash.h3(AssetId(asset), amount, secret)] && r.spent == spent
                  && r.verdict.effects == [DepositToVault(asset, amount)])
            && (r.verdict == Rejected(ZeroAmount) <==> amount == 0)
            && (r.verdict == Rejected(BadField) <==> amount > 0 && secret >= P)
            && (r.verdict == Rejected(TreeFull) <==> amount > 0 && secret < P && |leaves| >= CAPACITY)
  {
  }

  /** The public fields of a transfer are reduced field elements. */
  predicate TransferCanonical(ix: Instruction)
    requires ix.Transfer?
  {
    ix.root < P && ix.nf0 < P && ix.nf1 < P && ix.cm0 < P && ix.cm1 < P
  }

  /** A transfer is accepted exactly for a known root, two different unused
      nullifiers, canonical fields, an accepted proof of them and the fee, and room
      for two leaves. Each rejection says which of these fails first. */
  lemma TransferVerdict(c: Config, leaves: seq<Fr>, spent: seq<FieldBytes>, ix: Instruction)
    requires ix.Transfer?
    ensures var r := Process(c, leaves, spent, ix);
            var known := KnownRoot(c.hash.h2, leaves, ix.root);
            var unused := ix.nf0 != ix.nf1 && ix.nf0 !in spent && ix.nf1 !in spent;
            var proved :=
              TransferCanonical(ix) &&
              c.verifier.transfer(ix.proof, TransferInputs(ix.root, ix.nf0, ix.nf1, ix.cm0, ix.cm1, ix.fee));
            && (r.verdict.Accepted? <==> known && unused && proved && |leaves| + 2 <= CAPACITY)
            && (r.verdict.Accepted? ==>
                  && r.leaves == leaves + [ix.cm0] + [ix.cm1] && r.spent == spent + [ix.nf0] + [ix.nf1]
                  && r.verdict.effects == if ix.fee > 0 then [PayFee(ix.fee)] else [])
            && (r.verdict == Rejected(UnknownRoot) <==> !known)
            && (r.verdict == Rejected(DuplicateNullifier) <==> known && ix.nf0 == ix.nf1)
            && (r.verdict == Rejected(DoubleSpend) <==>
                  known && ix.nf0 != ix.nf1 && (ix.nf0 in spent || ix.nf1 in spent))
            && (r.verdict == Rejected(BadField) <==> known && unused && !TransferCanonical(ix))
            && (r.verdict == Rejected(InvalidProof) <==> known && unused && TransferCanonical(ix) && !proved)
            && (r.verdict == Rejected(TreeFull) <==> known && unused && proved && |leaves| + 2 > CAPACITY)
  {
    hide KnownRoot;
  }

  predicate UnshieldCanonical(ix: Instruction)
    requires ix.Unshield?
  {
    ix.root < P && ix.nf < P && ix.change < P
  }

  /** The same for an unshield, whose proof also covers asset, amount and
      recipient. */
  lemma UnshieldVerdict(c: Config, leaves: seq<Fr>, spent: seq<FieldBytes>, ix: Instruction)
    requires ix.Unshield?
    ensures var r := Process(c, leaves, spent, ix);
            var known := ix.amount > 0 && KnownRoot(c.hash.h2, leaves, ix.root);
            var unused := ix.nf !in spent;
            var proved :=
              UnshieldCanonical(ix) &&
              c.verifier.unshield(ix.proof, UnshieldInputs(ix.root, ix.nf, ix.change, AssetId(ix.asset), ix.amount,
                                                           ix.recipient % P));
            && (r.verdict.Accepted? <==> known && unused && proved && |leaves| < CAPACITY)
            && (r.verdict.Accepted? ==>
                  && r.leaves == leaves + [ix.change] && r.spent == spent + [ix.nf]
                  && r.verdict.effects == [WithdrawFromVault(ix.asset, ix.amount, ix.recipient)])
            && (r.verdict == Rejected(ZeroAmount) <==> ix.amount == 0)
            && (r.verdict == Rejected(UnknownRoot) <==> ix.amount > 0 && !known)
            && (r.verdict == Rejected(DoubleSpend) <==> known && !unused)
            && (r.verdict == Rejected(BadField) <==> known && unused && !UnshieldCanonical(ix))
            && (r.verdict == Rejected(InvalidProof) <==> known && unused && UnshieldCanonical(ix) && !proved)
            && (r.verdict == Rejected(TreeFull) <==> known && unused && proved && |leaves| >= CAPACITY)
  {
    hide KnownRoot;
  }

  /** The verifier accepts this proof for one statement only. */
  ghost predicate ProvesOne(v: Verifier, proof: Proof) {
    forall x, y | v.unshield(proof, x) && v.unshield(proof, y) :: x == y
  }

  /** An accepted unshield pays the amount to its recipient. The same proof is good
      for another recipient exactly when the two addresses agree modulo the field
      order, and for no other amount, root, nullifier or change. */
  lemma ProofBindsPayment(c: Config, leaves: seq<Fr>, spent: seq<FieldBytes>, ix: Instruction, other: Instruction)
    requires ix.Unshield? && other.Unshield? && other.proof == ix.proof && ProvesOne(c.verifier, ix.proof)
    requires Process(c, leaves, spent, ix).verdict.Accepted?
    ensures Process(c, leaves, spent, ix).verdict.effects == [WithdrawFromVault(ix.asset, ix.amount, ix.recipient)]
    ensures Process(c, leaves, spent, other).verdict.Accepted? <==>
              && other.root == ix.root && other.nf == ix.nf && other.change == ix.change && other.amount == ix.amount
              && AssetId(other.asset) == AssetId(ix.asset) && other.recipient % P == ix.recipient % P
  {
    hide KnownRoot, Process;
    UnshieldVerdict(c, leaves, spent, ix);
    UnshieldVerdict(c, leaves, spent, other);
  }

  /** There always is another such address. */
  lemma RecipientHasAlias(c: Config, leaves: seq<Fr>, spent: seq<FieldBytes>, ix: Instruction) returns (to: Pubkey)
    requires ix.Unshield? && ProvesOne(c.verifier, ix.proof) && Process(c, leaves, spent, ix).verdict.Accepted?
    ensures to != ix.recipient && Process(c, leaves, spent, ix.(recipient := to)).verdict.Accepted?
  {
    hide KnownRoot, Process;
    to := if ix.recipient < P then ix.recipient + P else ix.recipient % P;
    assert (ix.recipient + P) % P == ix.recipient % P;
    ProofBindsPayment(c, leaves, spent, ix, ix.(recipient := to));
  }

  /** A rejected instruction leaves the pool as it was, except that a spend which
      passes every check and then finds too little room in the tree keeps its
      nullifiers recorded. */
  lemma RejectionMarksIff(c: Config, leaves: seq<Fr>, spent: seq<FieldBytes>, ix: Instruction)
    requires Process(c, leaves, spent, ix).verdict.Rejected? && |leaves| <= CAPACITY
    ensures Process(c, leaves, spent, ix).leaves == leaves && Process(c, leaves, spent, ix).spent == spent <==>
            match ix
            case Shield(_, _, _) => true
            case Transfer(_, _, _, _, _, _, _) =>
              TransferRefusal(c, leaves, spent, ix).Some? || |leaves| + 2 <= CAPACITY
            case Unshield(_, _, _, _, _, _, _) =>
              UnshieldRefusal(c, leaves, spent, ix).Some? || |leaves| + 1 <= CAPACITY
  {
    hide TransferRefusal, UnshieldRefusal;
    if ix.Transfer? {
      assert |spent + [ix.nf0, ix.nf1]| == |spent| + 2;
    } else if ix.Unshield? {
      assert |spent + [ix.nf]| == |spent| + 1;
    }
  }

  // ----- public funds --------------------------------------------------------

  type Lamports = map<Pubkey, U64>

  /** Wrapped-token balances by (mint, owner). */
  type Tokens = map<(Pubkey, Pubkey), U64>

  function Get<K>(m: map<K, U64>, k: K): U64 {
    if k in m then m[k] else 0
  }

  /** Both balances are read before either is written. */
  function MoveLamports(b: Lamports, from: Pubkey, to: Pubkey, amount: U64): Lamports {
    b[from := SatSub(Get(b, from), amount)][to := SatAdd(Get(b, to), amount)]
  }

  /** The destination is read after the source is written. */
  function MoveWrapped(t: Tokens, mint: Pubkey, from: Pubkey, to: Pubkey, amount: U64): Tokens {
    var t' := t[(mint, from) := SatSub(Get(t, (mint, from)), amount)];
    t'[(mint, to) := SatAdd(Get(t', (mint, to)), amount)]
  }

  /** The pool and the public balances it moves. */
  datatype World = World(leaves: seq<Fr>, spent: seq<FieldBytes>, lamports: Lamports, tokens: Tokens)

  function VaultBalance(c: Config, w: World, a: Asset): U64 {
    match a
    case Native => Get(w.lamports, c.vault)
    case Spl(mint) => Get(w.tokens, (mint, c.vault))
  }

  /** Can the public side of the instruction be paid? */
  predicate FundsAvailable(c: Config, w: World, payer: Pubkey, ix: Instruction) {
    match ix
    case Shield(asset, amount, _) =>
      (match asset
       case Native => Get(w.lamports, payer) >= SatAdd(amount, c.flatFee)
       case Spl(mint) => Get(w.lamports, payer) >= c.flatFee && Get(w.tokens, (mint, payer)) >= amount)
    case Transfer(_, _, _, _, _, _, fee) =>
      Get(w.lamports, payer) >= c.flatFee && VaultBalance(c, w, Native) >= fee
    case Unshield(_, _, _, _, asset, amount, _) =>
      Get(w.lamports, payer) >= c.flatFee && VaultBalance(c, w, asset) >= amount
  }

  function ApplyEffect(c: Config, w: World, payer: Pubkey, e: Effect): World {
    match e
    case DepositToVault(Native, amount) => w.(lamports := MoveLamports(w.lamports, payer, c.vault, amount))
    case DepositToVault(Spl(mint), amount) => w.(tokens := MoveWrapped(w.tokens, mint, payer, c.vault, amount))
    case WithdrawFromVault(Native, amount, recipient) =>
      w.(lamports := MoveLamports(w.lamports, c.vault, recipient, amount))
    case WithdrawFromVault(Spl(mint), amount, recipient) =>
      w.(tokens := MoveWrapped(w.tokens, mint, c.vault, recipient, amount))
    case PayFee(amount) => w.(lamports := MoveLamports(w.lamports, c.vault, c.collector, amount))
  }

  function ApplyEffects(c: Config, w: World, payer: Pubkey, es: seq<Effect>): World {
    if es == [] then w else ApplyEffect(c, ApplyEffects(c, w, payer, es[..|es| - 1]), payer, es[|es| - 1])
  }

  lemma OneEffect(c: Config, w: World, payer: Pubkey, e: Effect)
    ensures ApplyEffects(c, w, payer, [e]) == ApplyEffect(c, w, payer, e)
  {
    assert [e][..0] == [];
  }

  lemma {:induction false} EffectsKeepPool(c: Config, w: World, payer: Pubkey, es: seq<Effect>)
    ensures ApplyEffects(c, w, payer, es).leaves == w.leaves && ApplyEffects(c, w, payer, es).spent == w.spent
  {
    if es != [] {
      EffectsKeepPool(c, w, payer, es[..|es| - 1]);
    }
  }

  datatype Status = Ok | InsufficientFunds | PoolRejected(error: PoolError)

  datatype Tx = Tx(payer: Pubkey, ix: Instruction)

  datatype Applied = Applied(world: World, status: Status)

  /** One transaction: pre-check, processor, flat fee, effects. */
  ghost function ApplyTx(c: Config, w: World, tx: Tx): Applied {
    if !FundsAvailable(c, w, tx.payer, tx.ix) then Applied(w, InsufficientFunds)
    else
      var r := Process(c, w.leaves, w.spent, tx.ix);
      var w1 := w.(leaves := r.leaves, spent := r.spent);
      match r.verdict
      case Rejected(e) => Applied(w1, PoolRejected(e))
      case Accepted(effects) =>
        var w2 := w1.(lamports := MoveLamports(w1.lamports, tx.payer, c.collector, c.flatFee));
        Applied(ApplyEffects(c, w2, tx.payer, effects), Ok)
  }

  /** A rejected transaction moves no balance, and forgets no nullifier. */
  lemma RejectionMovesNothing(c: Config, w: World, tx: Tx)
    requires !ApplyTx(c, w, tx).status.Ok?
    ensures ApplyTx(c, w, tx).world.lamports == w.lamports && ApplyTx(c, w, tx).world.tokens == w.tokens
    ensures w.spent <= ApplyTx(c, w, tx).world.spent
  {
    hide KnownRoot, TransferInputsOf, UnshieldInputsOf, MoveLamports, FundsAvailable;
  }

  ghost function ApplyTxs(c: Config, w: World, txs: seq<Tx>): World {
    if txs == [] then w else ApplyTx(c, ApplyTxs(c, w, txs[..|txs| - 1]), txs[|txs| - 1]).world
  }

  /** Some transaction of the block succeeded. */
  ghost predicate Dirty(c: Config, w: World, txs: seq<Tx>) {
    txs != [] && (Dirty(c, w, txs[..|txs| - 1]) ||
                  ApplyTx(c, ApplyTxs(c, w, txs[..|txs| - 1]), txs[|txs| - 1]).status.Ok?)
  }

  /** A committed block: nullifiers and balances always persist, the tree state
      only if some transaction succeeded. */
  ghost function ApplyBlock(c: Config, w: World, txs: seq<Tx>): World {
    var after := ApplyTxs(c, w, txs);
    after.(leaves := if Dirty(c, w, txs) then after.leaves else w.leaves)
  }

  /** The tree state is that of the last transaction if some transaction succeeded,
      and that before the block if none did. */
  lemma BlockTreeIff(c: Config, w: World, txs: seq<Tx>)
    ensures var after := ApplyTxs(c, w, txs);
            var succeeded := exists i | 0 <= i < |txs| :: ApplyTx(c, ApplyTxs(c, w, txs[..i]), txs[i]).status.Ok?;
            ApplyBlock(c, w, txs) == after.(leaves := if succeeded then after.leaves else w.leaves)
  {
    hide ApplyTx, ApplyTxs, Dirty;
    DirtySome(c, w, txs);
  }

  lemma {:induction false} DirtySome(c: Config, w: World, txs: seq<Tx>)
    ensures Dirty(c, w, txs) <==>
            exists i | 0 <= i < |txs| :: ApplyTx(c, ApplyTxs(c, w, txs[..i]), txs[i]).status.Ok?
    decreases |txs|
  {
    hide ApplyTx, ApplyTxs;
    if txs != [] {
      var n := |txs| - 1;
      DirtySome(c, w, txs[..n]);
      assert forall i | 0 <= i < n :: txs[..n][..i] == txs[..i];
      if i :| 0 <= i < n && ApplyTx(c, ApplyTxs(c, w, txs[..i]), txs[i]).status.Ok? {
        assert ApplyTx(c, ApplyTxs(c, w, txs[..n][..i]), txs[..n][i]).status.Ok?;
      }
    }
  }

  // ----- runs ----------------------------------------------------------------

  /** A block of pool transactions, or anything else that moves public balances
      (ordinary transactions, deposits, withdrawals). */
  datatype Step = Block(txs: seq<Tx>) | Elsewhere(lamports: Lamports, tokens: Tokens)

  ghost function ApplyStep(c: Config, w: World, s: Step): World {
    match s
    case Block(txs) => ApplyBlock(c, w, txs)
    case Elsewhere(lamports, tokens) => w.(lamports := lamports, tokens := tokens)
  }

  ghost function Run(c: Config, w: World, steps: seq<Step>): World {
    if steps == [] then w else ApplyStep(c, Run(c, w, steps[..|steps| - 1]), steps[|steps| - 1])
  }
}
