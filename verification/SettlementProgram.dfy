/** The L1 settlement program: batch records, the bridge vaults, and claims of
    withdrawals proved against a posted withdrawals root. */
module SettlementProgram {
  import opened Common
  import opened Bytes
  import opened SparseProof
  import opened Hashing
  import opened Ledger
  import opened Withdrawals
  import opened Bridge

  datatype Batch = Batch(no: U64, first: U64, last: U64, stateRoot: H256, withdrawalsRoot: H256, daHash: H256,
                         chunkCount: nat)

  /** Everything the program keeps on L1, with the deposit events it emitted and
      the withdrawals it paid out. */
  datatype L1 = L1(
    authority: H256,
    batches: seq<Batch>,
    totalDeposited: U64,
    sol: U64,
    vaults: map<H256, U64>,
    claims: set<(H256, U64)>,
    events: seq<Deposit>,
    paid: seq<Withdrawal>)
  {
    /** Tokens of `m` held for the bridge. */
    function Vault(m: H256): U64 {
      if m in vaults then vaults[m] else 0
    }
  }

  datatype Error =
    | Unauthorized | NonSequentialBatch | InvalidSlotRange | ZeroAmount | Overflow | InvalidProof | UnsupportedMint
    | NoSuchBatch | AlreadyClaimed | TransferFailed

  datatype Result<+T> = Ok(value: T) | Err(error: Error)

  function PostBatch(s: L1, signer: H256, b: Batch): Result<L1> {
    if signer != s.authority then Err(Unauthorized)
    else if b.no != |s.batches| then Err(NonSequentialBatch)
    else if b.last < b.first then Err(InvalidSlotRange)
    else if |s.batches| >= U64_MAX then Err(Overflow)
    else Ok(s.(batches := s.batches + [b]))
  }

  function DepositSol(s: L1, sig: Signature, amount: U64, recipient: Address): Result<L1> {
    if amount == 0 then Err(ZeroAmount)
    else if s.sol + amount > U64_MAX then Err(TransferFailed)
    else if s.totalDeposited + amount > U64_MAX then Err(Overflow)
    else Ok(s.(sol := s.sol + amount, totalDeposited := s.totalDeposited + amount,
               events := s.events + [Deposit(sig, None, 9, amount, recipient)]))
  }

  /** A token deposit. `received` is what the transfer delivered, which a mint
      with a transfer fee makes less than what was asked for. */
  function DepositSpl(s: L1, sig: Signature, mint: H256, safe: bool, decimals: nat, amount: U64, received: U64,
                      recipient: Address): Result<L1>
  {
    if amount == 0 then Err(ZeroAmount)
    else if !safe then Err(UnsupportedMint)
    else if s.Vault(mint) + received > U64_MAX then Err(TransferFailed)
    else if received == 0 then Err(ZeroAmount)
    else Ok(s.(vaults := s.vaults[mint := s.Vault(mint) + received],
               events := s.events + [Deposit(sig, Some(mint), decimals, received, recipient)]))
  }

  /** A claim against batch `no`, native or of a token. The claim record is
      addressed by recipient and nonce only, for either kind. */
  function Claim(b3: Blake3, s: L1, no: nat, w: Withdrawal, proof: SmtProof): Result<L1> {
    if no >= |s.batches| then Err(NoSuchBatch)
    else if (w.recipient, w.nonce) in s.claims then Err(AlreadyClaimed)
    else if w.amount == 0 then Err(ZeroAmount)
    else if !Claimable(b3, s.batches[no].withdrawalsRoot, w, proof) then Err(InvalidProof)
    else if (if w.asset == NATIVE_ASSET then s.sol else s.Vault(w.asset)) < w.amount then Err(TransferFailed)
    else
      var claimed := s.(claims := s.claims + {(w.recipient, w.nonce)}, paid := s.paid + [w]);
      Ok(if w.asset == NATIVE_ASSET then claimed.(sol := s.sol - w.amount)
         else claimed.(vaults := s.vaults[w.asset := s.Vault(w.asset) - w.amount]))
  }

  /** The vaults pay out exactly what the claim names. */
  lemma ClaimPaysExactly(b3: Blake3, s: L1, no: nat, w: Withdrawal, proof: SmtProof, m: H256)
    requires Claim(b3, s, no, w, proof).Ok? && m != NATIVE_ASSET
    ensures Claim(b3, s, no, w, proof).value.Vault(m) + (if w.asset == m then w.amount else 0) == s.Vault(m)
    ensures Claim(b3, s, no, w, proof).value.sol + (if w.asset == NATIVE_ASSET then w.amount else 0) == s.sol
  {
  }

  /** Anyone may send coins or tokens to a vault's address; nothing is announced. */
  function Donate(s: L1, mint: Option<H256>, amount: U64): Result<L1> {
    match mint
    case None => if s.sol + amount > U64_MAX then Err(TransferFailed) else Ok(s.(sol := s.sol + amount))
    case Some(m) =>
      if s.Vault(m) + amount > U64_MAX then Err(TransferFailed)
        else Ok(s.(vaults := s.vaults[m := s.Vault(m) + amount]))
  }
}
