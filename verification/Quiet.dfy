/** Blocks whose deposits and withdrawals read no account that the same block
    deleted: building them on what could be read or on what will be committed
    comes to the same. */
module Quiet {
  import opened Common
  import opened Bytes
  import opened Ledger
  import opened WithdrawTxs
  import opened Bridge

  /** What a credit reads besides its receipt, which it finds deleted as well. */
  function DepositReads(c: Config, d: Deposit): set<Address> {
    if CreditsGas(c, d) then {d.recipient} else {WrappedMint(WrappedAs(d)), Ata(d.recipient, WrappedAs(d))}
  }

  function WithdrawReads(c: Config, x: WithdrawTx): set<Address> {
    {Wallet(x.payer), Wallet(c.collector), Ata(Wallet(x.payer), x.w.asset), WrappedMint(x.w.asset)}
  }

  /** Accounts can be taken away, mints excepted, without breaking shapes. */
  lemma WithoutWellFormed(accounts: Accounts, gone: set<Address>)
    requires WellFormed(accounts) && forall a | a in gone && a in accounts :: !a.WrappedMint?
    ensures WellFormed(accounts - gone)
  {
  }

  // ----- locality ------------------------------------------------------------

  lemma MintTokenLocal(accounts: Accounts, gone: set<Address>, m: H256, owner: Address, amount: U64, decimals: nat)
    requires WellFormed(accounts) && WellFormed(accounts - gone) && Mintable(accounts, m, owner)
    requires WrappedMint(m) !in gone && Ata(owner, m) !in gone
    ensures Mintable(accounts - gone, m, owner)
    ensures MintToken(accounts, m, owner, amount, decimals) - gone ==
            MintToken(accounts - gone, m, owner, amount, decimals)
  {
  }

  lemma CreditLocal(c: Config, dead: set<Address>, accounts: Accounts, gone: set<Address>, d: Deposit)
    requires WellFormed(accounts) && WellFormed(accounts - gone) && Creditable(c, dead, accounts, d)
    requires gone <= dead && DepositReads(c, d) !! gone
    ensures Seen(dead, accounts, d.sig) == Seen(dead, accounts - gone, d.sig)
    ensures Creditable(c, dead, accounts - gone, d)
    ensures Credit(c, dead, accounts, d) - gone == Credit(c, dead, accounts - gone, d)
    ensures CreditTouches(c, dead, accounts, d) !! gone
    ensures Credit(c, dead, accounts, d).Keys <= accounts.Keys + CreditTouches(c, dead, accounts, d)
  {
    hide WellFormed;
    assert forall a | a in DepositReads(c, d) :: a !in gone;
    if !Seen(dead, accounts, d.sig) && !CreditsGas(c, d) {
      hide MintToken, Mintable;
      MintTokenLocal(accounts, gone, WrappedAs(d), d.recipient, d.amount, DecimalsOf(d));
      MintTokenKeys(accounts, WrappedAs(d), d.recipient, d.amount, DecimalsOf(d));
    }
  }

  lemma MintTokenKeys(accounts: Accounts, m: H256, owner: Address, amount: U64, decimals: nat)
    requires WellFormed(accounts) && Mintable(accounts, m, owner)
    ensures MintToken(accounts, m, owner, amount, decimals).Keys == accounts.Keys + {WrappedMint(m), Ata(owner, m)}
  {
  }

  ghost predicate NoDepositReads(c: Config, ds: seq<Deposit>, gone: set<Address>) {
    forall d | d in ds :: DepositReads(c, d) !! gone
  }

  lemma {:induction false} CreditAllLocal(c: Config, dead: set<Address>, accounts: Accounts, gone: set<Address>,
                                          ds: seq<Deposit>)
    requires WellFormed(accounts) && WellFormed(accounts - gone) && AllCreditable(c, dead, accounts, ds)
    requires gone <= dead && NoDepositReads(c, ds, gone)
    ensures AllCreditable(c, dead, accounts - gone, ds)
    ensures CreditAll(c, dead, accounts, ds) - gone == CreditAll(c, dead, accounts - gone, ds)
    ensures Credited(c, dead, accounts, ds) == Credited(c, dead, accounts - gone, ds)
    ensures CreditAllTouches(c, dead, accounts, ds) !! gone
    ensures CreditAll(c, dead, accounts, ds).Keys <= accounts.Keys + CreditAllTouches(c, dead, accounts, ds)
  {
    hide WellFormed, Credit, Creditable, CreditTouches, Seen;
    if ds != [] {
      var n := |ds| - 1;
      CreditAllLocal(c, dead, accounts, gone, ds[..n]);
      assert ds[n] in ds;
      CreditLocal(c, dead, CreditAll(c, dead, accounts, ds[..n]), gone, ds[n]);
    }
  }

  lemma BurnLocal(accounts: Accounts, gone: set<Address>, m: H256, owner: Address, amount: U64)
    requires WellFormed(accounts) && WellFormed(accounts - gone) && WrappedMint(m) !in gone && Ata(owner, m) !in gone
    ensures BurnToken(accounts, m, owner, amount).Some? == BurnToken(accounts - gone, m, owner, amount).Some?
    ensures BurnToken(accounts, m, owner, amount).Some? ==>
              && BurnToken(accounts, m, owner, amount).value - gone ==
                 BurnToken(accounts - gone, m, owner, amount).value
              && BurnToken(accounts, m, owner, amount).value.Keys <= accounts.Keys
  {
  }

  lemma WithdrawLocal(c: Config, accounts: Accounts, gone: set<Address>, x: WithdrawTx)
    requires WellFormed(accounts) && WellFormed(accounts - gone) && WithdrawReads(c, x) !! gone
    ensures Withdraw(c, accounts, x).Some? == Withdraw(c, accounts - gone, x).Some?
    ensures Withdraw(c, accounts, x).Some? ==>
              && Withdraw(c, accounts, x).value - gone == Withdraw(c, accounts - gone, x).value
              && Withdraw(c, accounts, x).value.Keys <= accounts.Keys + WithdrawTouches(c, x)
    ensures WithdrawTouches(c, x) !! gone
  {
    hide WellFormed, BurnToken;
    assert forall a | a in WithdrawReads(c, x) :: a !in gone;
    assert WithdrawTouches(c, x) <= WithdrawReads(c, x);
    BurnLocal(accounts, gone, x.w.asset, Wallet(x.payer), x.w.amount);
  }

  lemma {:induction false} WithdrawAllLocal(c: Config, accounts: Accounts, gone: set<Address>, xs: seq<WithdrawTx>)
    requires WellFormed(accounts) && WellFormed(accounts - gone)
    requires forall x | x in xs :: WithdrawReads(c, x) !! gone
    ensures WithdrawAll(c, accounts, xs).flags == WithdrawAll(c, accounts - gone, xs).flags
    ensures WithdrawAll(c, accounts, xs).accounts - gone == WithdrawAll(c, accounts - gone, xs).accounts
    ensures BurnTouches(c, xs, WithdrawAll(c, accounts, xs).flags) !! gone
    ensures WithdrawAll(c, accounts, xs).accounts.Keys <=
            accounts.Keys + BurnTouches(c, xs, WithdrawAll(c, accounts, xs).flags)
  {
    hide WellFormed, Withdraw, WithdrawTouches, WithdrawAll, BurnTouches;
    if xs == [] {
      assert xs[..0] == xs;
      WithdrawNone(c, accounts, xs);
      WithdrawNone(c, accounts - gone, xs);
    } else {
      var n := |xs| - 1;
      assert xs[..n + 1] == xs && xs[n] in xs;
      WithdrawAllLocal(c, accounts, gone, xs[..n]);
      WithdrawAllNext(c, accounts, xs, n);
      WithdrawAllNext(c, accounts - gone, xs, n);
      var before := WithdrawAll(c, accounts, xs[..n]);
      WithdrawLocal(c, before.accounts, gone, xs[n]);
      BurnedNext(c, xs, n, before.flags, Withdraw(c, before.accounts, xs[n]).Some?);
    }
  }
}
