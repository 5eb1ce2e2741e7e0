/** The L1 settlement program as an object. Its records stay consistent, and every
    instruction that succeeds is one step of the two-chain protocol. */
module Program {
  import opened Common
  import opened Bytes
  import opened SparseProof
  import opened Hashing
  import opened Ledger
  import opened Withdrawals
  import opened Bridge
  import opened Backing
  import opened SettlementProgram
  import opened TwoChains
  import opened Exits

  class Program {
    var authority: H256
    var batches: seq<Batch>
    var totalDeposited: U64
    var sol: U64
    var vaults: map<H256, U64>
    var claims: set<(H256, U64)>

    // history
    ghost var events: seq<Deposit>
    ghost var paid: seq<Withdrawal>

    ghost function State(): L1
      reads this
    {
      L1(authority, batches, totalDeposited, sol, vaults, claims, events, paid)
    }

    /** The program is in protocol state `s`, with consistent records. */
    ghost predicate Shows(s: World)
      reads this
    {
      State() == s.l1 && ProgramInv(State())
    }

    constructor (signer: H256, ghost u: Setup)
      requires u.authority == signer
      ensures Shows(Start(u))
    {
      authority, batches, totalDeposited, sol, vaults, claims, events, paid := signer, [], 0, 0, map[], {}, [], [];
    }

    /** A post succeeds exactly for the authority, with the next number and a
        proper range; the record is then the last one, at its own number. */
    method Post(signer: H256, b: Batch, ghost u: Setup, ghost s: World, ghost i: nat) returns (r: Result<()>)
      requires Shows(s) && u.authority == authority && (signer == authority ==> i < |s.sent| && s.sent[i] == b)
      modifies this`batches
      ensures r.Ok? <==> signer == authority && b.no == |old(batches)| < U64_MAX && b.first <= b.last
      ensures r == Err(Unauthorized) <==> signer != authority
      ensures r == Err(NonSequentialBatch) <==> signer == authority && b.no != |old(batches)|
      ensures r == Err(InvalidSlotRange) <==> signer == authority && b.no == |old(batches)| && b.last < b.first
      ensures r.Ok? ==> |batches| == b.no + 1 && batches[b.no] == b && old(batches) <= batches
      ensures var e := if signer == u.authority then Landed(i) else PostedBy(signer, b);
              if r.Ok? then Enabled(u, s, e) && Shows(Next(u, s, e)) else !Enabled(u, s, e) && Shows(s)
    {
      if signer != authority {
        return Err(Unauthorized);
      }
      if b.no != |batches| {
        return Err(NonSequentialBatch);
      }
      if b.last < b.first {
        return Err(InvalidSlotRange);
      }
      if |batches| >= U64_MAX {
        return Err(Overflow);
      }
      NextProgram(u, s, Landed(i));
      batches := batches + [b];
      r := Ok(());
    }

    /** A SOL deposit: the vault, the running total and the announced deposit grow
        together, or nothing does. */
    method AcceptSol(sig: Signature, amount: U64, recipient: Address, ghost u: Setup, ghost s: World)
      returns (r: Result<()>)
      requires Shows(s) && sig !in Sigs(events)
      modifies this
      ensures r.Ok? <==> 0 < amount && old(sol) + amount <= U64_MAX && old(totalDeposited) + amount <= U64_MAX
      ensures r == Err(ZeroAmount) <==> amount == 0
      ensures r == Err(TransferFailed) <==> amount > 0 && old(sol) + amount > U64_MAX
      ensures r.Ok? ==> events == old(events) + [Deposit(sig, None, 9, amount, recipient)]
      ensures r.Ok? ==>
                sol - old(sol) == totalDeposited - old(totalDeposited) ==
                Sum(events, SolOf()) - Sum(old(events), SolOf()) == amount
      ensures var e := SolDeposited(sig, amount, recipient);
              if r.Ok? then Enabled(u, s, e) && Shows(Next(u, s, e)) else !Enabled(u, s, e) && Shows(s)
    {
      hide Sum;
      if amount == 0 {
        return Err(ZeroAmount);
      }
      if sol + amount > U64_MAX {
        return Err(TransferFailed);
      }
      if totalDeposited + amount > U64_MAX {
        return Err(Overflow);
      }
      NextProgram(u, s, SolDeposited(sig, amount, recipient));
      SumAppend(events, Deposit(sig, None, 9, amount, recipient), SolOf());
      sol := sol + amount;
      totalDeposited := totalDeposited + amount;
      events := events + [Deposit(sig, None, 9, amount, recipient)];
      r := Ok(());
    }

    /** A token deposit: the mint's vault and the announced deposits grow by what
        was received, whatever was asked for, and no other mint's do. */
    method AcceptSpl(sig: Signature, mint: H256, safe: bool, decimals: nat, amount: U64, received: U64,
                     recipient: Address,
                     ghost u: Setup, ghost s: World)
      returns (r: Result<()>)
      requires Shows(s) && sig !in Sigs(events)
      modifies this
      ensures r.Ok? <==> 0 < amount && safe && old(State()).Vault(mint) + received <= U64_MAX && 0 < received
      ensures r == Err(UnsupportedMint) <==> 0 < amount && !safe
      ensures r == Err(TransferFailed) <==> 0 < amount && safe && old(State()).Vault(mint) + received > U64_MAX
      ensures r.Ok? ==> events == old(events) + [Deposit(sig, Some(mint), decimals, received, recipient)]
      ensures r.Ok? ==> forall m ::
                State().Vault(m) - old(State()).Vault(m) ==
                  Sum(events, DepositOf(m)) - Sum(old(events), DepositOf(m)) ==
                if m == mint then received else 0
      ensures var e := SplDeposited(sig, mint, safe, decimals, amount, received, recipient);
              if r.Ok? then Enabled(u, s, e) && Shows(Next(u, s, e)) else !Enabled(u, s, e) && Shows(s)
    {
      hide Sum, Enabled, Next, ProgramInv;
      SplStep(u, s, SplDeposited(sig, mint, safe, decimals, amount, received, recipient));
      if amount == 0 {
        return Err(ZeroAmount);
      }
      if !safe {
        return Err(UnsupportedMint);
      }
      var before := if mint in vaults then vaults[mint] else 0;
      if before + received > U64_MAX {
        return Err(TransferFailed);
      }
      if received == 0 {
        return Err(ZeroAmount);
      }
      NextProgram(u, s, SplDeposited(sig, mint, safe, decimals, amount, received, recipient));
      ghost var d := Deposit(sig, Some(mint), decimals, received, recipient);
      forall m
        ensures Sum(events + [d], DepositOf(m)) == Sum(events, DepositOf(m)) + if m == mint then received else 0
      {
        SumAppend(events, d, DepositOf(m));
      }
      vaults := vaults[mint := before + received];
      events := events + [d];
      r := Ok(());
    }

    /** The claim of the chain's own coin. */
    method ClaimWithdrawal(b3: Blake3, no: nat, recipient: H256, amount: U64, nonce: U64, proof: SmtProof,
                           ghost u: Setup, ghost s: World)
      returns (r: Result<()>)
      requires Shows(s) && u.b3 == b3
      modifies this
      ensures var w := Withdrawal(recipient, NATIVE_ASSET, amount, nonce);
              && (r.Ok? <==> Passes(b3, old(State()), no, w, proof) && amount <= old(sol))
              && (r == Err(TransferFailed) <==> Passes(b3, old(State()), no, w, proof) && amount > old(sol))
      ensures r.Ok? ==>
                sol == old(sol) - amount && vaults == old(vaults) && claims == old(claims) + {(recipient, nonce)}
      ensures var e := Claimed(no, Withdrawal(recipient, NATIVE_ASSET, amount, nonce), proof);
              if r.Ok? then Enabled(u, s, e) && Shows(Next(u, s, e)) else !Enabled(u, s, e) && Shows(s)
    {
      hide Accepts, WithdrawTree, LeafFor, Sum, Enabled, Next;
      ClaimStep(u, s, no, Withdrawal(recipient, NATIVE_ASSET, amount, nonce), proof);
      if no >= |batches| {
        return Err(NoSuchBatch);
      }
      if (recipient, nonce) in claims {
        return Err(AlreadyClaimed);
      }
      if amount == 0 {
        return Err(ZeroAmount);
      }
      var w := Withdrawal(recipient, NATIVE_ASSET, amount, nonce);
      var proved := Verify(WithdrawTree(b3), batches[no].withdrawalsRoot, LeafFor(b3, w), proof);
      if !proved {
        return Err(InvalidProof);
      }
      if sol < amount {
        return Err(TransferFailed);
      }
      NextProgram(u, s, Claimed(no, w, proof));
      sol := sol - amount;
      claims := claims + {(recipient, nonce)};
      paid := paid + [w];
      r := Ok(());
    }

    /** The claim of a token. No token mint has the reserved native id. */
    method ClaimWithdrawalSpl(b3: Blake3, no: nat, recipient: H256, mint: H256, amount: U64, nonce: U64,
                              proof: SmtProof,
                              ghost u: Setup, ghost s: World)
      returns (r: Result<()>)
      requires Shows(s) && u.b3 == b3 && mint != NATIVE_ASSET
      modifies this
      ensures var w := Withdrawal(recipient, mint, amount, nonce);
              && (r.Ok? <==> Passes(b3, old(State()), no, w, proof) && amount <= old(State()).Vault(mint))
              && (r == Err(TransferFailed) <==>
                  Passes(b3, old(State()), no, w, proof) && amount > old(State()).Vault(mint))
      ensures r.Ok? ==> sol == old(sol) && claims == old(claims) + {(recipient, nonce)} &&
                        forall m :: State().Vault(m) == old(State()).Vault(m) - if m == mint then amount else 0
      ensures var e := Claimed(no, Withdrawal(recipient, mint, amount, nonce), proof);
              if r.Ok? then Enabled(u, s, e) && Shows(Next(u, s, e)) else !Enabled(u, s, e) && Shows(s)
    {
      hide Accepts, WithdrawTree, LeafFor, Sum, Enabled, Next;
      ClaimStep(u, s, no, Withdrawal(recipient, mint, amount, nonce), proof);
      if no >= |batches| {
        return Err(NoSuchBatch);
      }
      if (recipient, nonce) in claims {
        return Err(AlreadyClaimed);
      }
      if amount == 0 {
        return Err(ZeroAmount);
      }
      var w := Withdrawal(recipient, mint, amount, nonce);
      var proved := Verify(WithdrawTree(b3), batches[no].withdrawalsRoot, LeafFor(b3, w), proof);
      if !proved {
        return Err(InvalidProof);
      }
      var held := if mint in vaults then vaults[mint] else 0;
      if held < amount {
        return Err(TransferFailed);
      }
      NextProgram(u, s, Claimed(no, w, proof));
      vaults := vaults[mint := held - amount];
      claims := claims + {(recipient, nonce)};
      paid := paid + [w];
      r := Ok(());
    }
  }

  lemma SplStep(u: Setup, s: World, e: Event)
    requires e.SplDeposited? && e.sig !in Sigs(s.l1.events)
    ensures Enabled(u, s, e) <==> DepositStep(s.l1, e).Ok?
    ensures Enabled(u, s, e) ==> Next(u, s, e) == s.(l1 := DepositStep(s.l1, e).value)
  {
  }

  lemma ClaimStep(u: Setup, s: World, no: nat, w: Withdrawal, proof: SmtProof)
    ensures Enabled(u, s, Claimed(no, w, proof)) <==> Claim(u.b3, s.l1, no, w, proof).Ok?
    ensures Enabled(u, s, Claimed(no, w, proof)) ==>
              Next(u, s, Claimed(no, w, proof)) == s.(l1 := Claim(u.b3, s.l1, no, w, proof).value)
  {
    hide Claimable;
  }

  /** A claim comes for the first time and its proof is accepted. */
  ghost predicate Passes(b3: Blake3, s: L1, no: nat, w: Withdrawal, proof: SmtProof) {
    && no < |s.batches| && ClaimKey(w) !in s.claims && w.amount > 0
    && Claimable(b3, s.batches[no].withdrawalsRoot, w, proof)
  }
}
