/** What one credit or one burn does to receipts and to wrapped-token totals. */
module Backing {
  import opened Common
  import opened Bytes
  import opened Ledger
  import opened Withdrawals
  import opened WithdrawTxs
  import opened Bridge

  // ----- per-asset amounts ---------------------------------------------------

  /** Amount a deposit brings in of L1 mint `m`. */
  ghost function DepositOf(m: H256): Deposit -> nat {
    (d: Deposit) => if d.mint == Some(m) then d.amount else 0
  }

  ghost function AmountOf(asset: H256): Withdrawal -> nat {
    (w: Withdrawal) => if w.asset == asset then w.amount else 0
  }

  function Sigs(ds: seq<Deposit>): (sigs: seq<Signature>)
    ensures |sigs| == |ds|
  {
    seq(|ds|, i requires 0 <= i < |ds| => ds[i].sig)
  }

  /** A mint whose L2 token is only ever issued for deposits of that mint: not
      the gas mint, and not wrapped SOL while SOL deposits are wrapped. */
  predicate Backable(c: Config, m: H256) {
    m != NATIVE_ASSET && c.gasMint != Some(m) && (c.gasMint.None? || m != WSOL)
  }

  // ----- one deposit ---------------------------------------------------------

  lemma AddSupplyTotals(accounts: Accounts, l1: H256, amount: U64, decimals: nat, m: H256)
    requires WellFormed(accounts) && (WrappedMint(l1) in accounts ==> accounts[WrappedMint(l1)].data.Mint?)
    requires l1 == m ==> Supply(accounts, m) + amount <= U64_MAX
    ensures var after := AddSupply(accounts, l1, amount, decimals);
            && Supply(after, m) == Supply(accounts, m) + (if l1 == m then amount else 0)
            && Holdings(after, m) == Holdings(accounts, m)
  {
    var after := AddSupply(accounts, l1, amount, decimals);
    OverAfter(accounts, WrappedMint(l1), after[WrappedMint(l1)], TokensOf(m));
  }

  lemma MintTokenTotals(accounts: Accounts, l1: H256, owner: Address, amount: U64, decimals: nat, m: H256)
    requires WellFormed(accounts) && Mintable(accounts, l1, owner)
    requires Supply(accounts, m) == Holdings(accounts, m) && (l1 == m ==> Supply(accounts, m) + amount <= U64_MAX)
    ensures var after := MintToken(accounts, l1, owner, amount, decimals);
            Supply(after, m) == Holdings(after, m) == Supply(accounts, m) + if l1 == m then amount else 0
  {
    hide Supply, Holdings;
    var minted := AddSupply(accounts, l1, amount, decimals);
    AddSupplyTotals(accounts, l1, amount, decimals, m);
    PutTokenTotals(minted, l1, owner, SatAdd(Balance(minted, l1, owner), amount), m);
  }

  /** Writes that keep an account's data, or put data that is not of a token where
      there was none, leave the totals alone. */
  lemma SameDataTotals(accounts: Accounts, a: Address, account: Account, m: H256)
    requires if a in accounts && !accounts[a].data.Plain? then account.data == accounts[a].data
             else account.data.Plain? || account.data.Marker?
    ensures Supply(accounts[a := account], m) == Supply(accounts, m) &&
            Holdings(accounts[a := account], m) == Holdings(accounts, m)
  {
    OverAfter(accounts, a, account, TokensOf(m));
  }

  /** A deposit credited for the first time raises the supply and the holdings of
      its own token alike, and nothing else. */
  lemma CreditTotals(c: Config, dead: set<Address>, accounts: Accounts, d: Deposit, m: H256)
    requires WellFormed(accounts) && Creditable(c, dead, accounts, d) && !Seen(dead, accounts, d.sig) && Backable(c, m)
    requires Supply(accounts, m) == Holdings(accounts, m) && Supply(accounts, m) + DepositOf(m)(d) <= U64_MAX
    ensures Supply(Credit(c, dead, accounts, d), m) == Holdings(Credit(c, dead, accounts, d), m) ==
            Supply(accounts, m) + DepositOf(m)(d)
  {
    hide Supply, Holdings, MintToken, WellFormed, Mintable;
    var receipt := Account(0, Marker(d.amount, d.recipient));
    if CreditsGas(c, d) {
      var paid := AddLamports(accounts, d.recipient, d.amount);
      SameDataTotals(accounts, d.recipient, paid[d.recipient], m);
      SameDataTotals(paid, Receipt(d.sig), receipt, m);
    } else {
      var paid := MintToken(accounts, WrappedAs(d), d.recipient, d.amount, DecimalsOf(d));
      MintTokenTotals(accounts, WrappedAs(d), d.recipient, d.amount, DecimalsOf(d), m);
      MintTokenElsewhere(accounts, WrappedAs(d), d.recipient, d.amount, DecimalsOf(d), Receipt(d.sig));
      SameDataTotals(paid, Receipt(d.sig), receipt, m);
    }
  }

  lemma MintTokenElsewhere(accounts: Accounts, l1: H256, owner: Address, amount: U64, decimals: nat, a: Address)
    requires WellFormed(accounts) && Mintable(accounts, l1, owner) && !a.WrappedMint? && !a.Ata?
    ensures Lookup(MintToken(accounts, l1, owner, amount, decimals), a) == Lookup(accounts, a)
  {
  }

  /** What a credit writes: a receipt with amount and recipient, and for a token the
      mint and the recipient's account. A new mint takes its decimals from the
      deposit and keeps them. */
  lemma CreditWrites(c: Config, dead: set<Address>, accounts: Accounts, d: Deposit)
    requires WellFormed(accounts) && Creditable(c, dead, accounts, d) && !Seen(dead, accounts, d.sig)
    ensures var after, mint, ata :=
              Credit(c, dead, accounts, d), WrappedMint(WrappedAs(d)), Ata(d.recipient, WrappedAs(d));
            && Lookup(after, Receipt(d.sig)) == Some(Account(0, Marker(d.amount, d.recipient)))
            && (!CreditsGas(c, d) ==>
                  && mint in after && after[mint].data.Mint?
                  && after[mint].data.decimals ==
                     (if mint in accounts then accounts[mint].data.decimals
                      else if d.mint.Some? then d.decimals else 9)
                  && ata in after && after[ata].data.Token?
                  && after[ata].data.l1 == WrappedAs(d)
                  && (ata !in accounts ==> after[ata].data.holder == d.recipient))
            && forall a | a !in {Receipt(d.sig), d.recipient, mint, ata} :: Lookup(after, a) == Lookup(accounts, a)
  {
    assert Ata(d.recipient, WrappedAs(d)) in accounts ==>
             WellPlaced(Ata(d.recipient, WrappedAs(d)), accounts[Ata(d.recipient, WrappedAs(d))].data);
  }

  // ----- receipts ------------------------------------------------------------

  /** The signatures whose receipt address some coin deposit of the list names. */
  function Named(c: Config, ds: seq<Deposit>): set<Signature> {
    set d | d in ds && CreditsGas(c, d) && d.recipient.Receipt? :: d.recipient.sig
  }

  /** A credit adds its own receipt, and the receipt its coins are sent to. */
  lemma CreditReceipts(c: Config, dead: set<Address>, accounts: Accounts, d: Deposit, sig: Signature)
    requires WellFormed(accounts) && Creditable(c, dead, accounts, d)
    ensures Receipt(sig) in Credit(c, dead, accounts, d) <==>
            || Receipt(sig) in accounts
            || (!Seen(dead, accounts, d.sig) && (sig == d.sig || sig in Named(c, [d])))
  {
    hide MintToken, Mintable;
    assert sig in Named(c, [d]) <==> CreditsGas(c, d) && d.recipient == Receipt(sig) by {
      assert d in [d];
    }
    if !Seen(dead, accounts, d.sig) && !CreditsGas(c, d) {
      MintTokenElsewhere(accounts, WrappedAs(d), d.recipient, d.amount, DecimalsOf(d), Receipt(sig));
    }
  }

  lemma NamedSplit(c: Config, a: seq<Deposit>, b: seq<Deposit>)
    ensures Named(c, a + b) == Named(c, a) + Named(c, b)
  {
  }

  lemma NamedNone(c: Config)
    ensures Named(c, []) == {}
  {
  }

  /** After a list, every listed signature was seen, and the new receipts are those
      of the credited deposits and those they name. */
  lemma {:induction false} CreditAllReceipts(c: Config, dead: set<Address>, accounts: Accounts, ds: seq<Deposit>,
                                             sig: Signature)
    requires WellFormed(accounts) && AllCreditable(c, dead, accounts, ds)
    ensures sig in Sigs(ds) ==> Seen(dead, CreditAll(c, dead, accounts, ds), sig)
    ensures Receipt(sig) in CreditAll(c, dead, accounts, ds) <==>
            || Receipt(sig) in accounts
            || sig in Sigs(Credited(c, dead, accounts, ds)) || sig in Named(c, Credited(c, dead, accounts, ds))
    ensures Seen(dead, accounts, sig) ==> sig !in Sigs(Credited(c, dead, accounts, ds))
  {
    hide Credit, WellFormed, Creditable, Named;
    if ds == [] {
      NamedNone(c);
    } else {
      var n := |ds| - 1;
      CreditAllReceipts(c, dead, accounts, ds[..n], sig);
      CreditReceipts(c, dead, CreditAll(c, dead, accounts, ds[..n]), ds[n], sig);
      assert Sigs(ds) == Sigs(ds[..n]) + [ds[n].sig];
      var done := Credited(c, dead, accounts, ds[..n]);
      assert Sigs(done + [ds[n]]) == Sigs(done) + [ds[n].sig] && done + [] == done;
      NamedSplit(c, done, [ds[n]]);
    }
  }

  /** Only listed deposits are credited. */
  lemma {:induction false} CreditedListed(c: Config, dead: set<Address>, accounts: Accounts, ds: seq<Deposit>)
    requires WellFormed(accounts) && AllCreditable(c, dead, accounts, ds)
    ensures forall d | d in Credited(c, dead, accounts, ds) :: d in ds
  {
    hide WellFormed, Credit, Creditable;
    if ds != [] {
      CreditedListed(c, dead, accounts, ds[..|ds| - 1]);
    }
  }

  // ----- the credit log ------------------------------------------------------

  /** The log holds L1 deposits, each signature once, and each has its receipt. */
  ghost predicate LogOnce(accounts: Accounts, credits: seq<Deposit>, events: seq<Deposit>) {
    && Distinct(Sigs(credits))
    && (forall d | d in credits :: d in events)
    && (forall sig | sig in Sigs(credits) :: Receipt(sig) in accounts)
  }

  lemma CreditLog(c: Config, dead: set<Address>, accounts: Accounts, credits: seq<Deposit>, events: seq<Deposit>,
                  d: Deposit)
    requires WellFormed(accounts) && Creditable(c, dead, accounts, d) && d in events
    requires LogOnce(accounts, credits, events)
    ensures LogOnce(Credit(c, dead, accounts, d),
                    if Seen(dead, accounts, d.sig) then credits else credits + [d], events)
  {
    hide WellFormed, Creditable, Credit, Named;
    var after := if Seen(dead, accounts, d.sig) then credits else credits + [d];
    assert Sigs(credits + [d]) == Sigs(credits) + [d.sig];
    forall sig | sig in Sigs(after) ensures Receipt(sig) in Credit(c, dead, accounts, d) {
      CreditReceipts(c, dead, accounts, d, sig);
    }
  }

  /** Over a whole list, with repeats and deposits credited long ago. */
  lemma {:induction false} CreditAllLog(c: Config, dead: set<Address>, accounts: Accounts, credits: seq<Deposit>,
                                        events: seq<Deposit>, ds: seq<Deposit>)
    requires WellFormed(accounts) && AllCreditable(c, dead, accounts, ds) && (forall d | d in ds :: d in events)
    requires LogOnce(accounts, credits, events)
    ensures LogOnce(CreditAll(c, dead, accounts, ds), credits + Credited(c, dead, accounts, ds), events)
  {
    hide WellFormed, LogOnce, Credit, Creditable, Seen;
    if ds == [] {
      assert credits + [] == credits;
    } else {
      var n := |ds| - 1;
      var here, done := CreditAll(c, dead, accounts, ds[..n]), Credited(c, dead, accounts, ds[..n]);
      CreditAllLog(c, dead, accounts, credits, events, ds[..n]);
      CreditLog(c, dead, here, credits + done, events, ds[n]);
      assert credits + done + [ds[n]] == credits + (done + [ds[n]]) && credits + (done + []) == credits + done;
    }
  }

  lemma DistinctBySig(ds: seq<Deposit>)
    requires Distinct(Sigs(ds))
    ensures Distinct(ds)
  {
    forall i, j | 0 <= i < j < |ds| ensures ds[i] != ds[j] {
      assert Sigs(ds)[i] != Sigs(ds)[j];
    }
  }

  /** The books of one mint: supply equals holdings, and what was issued less
      what was burned covers it. */
  ghost predicate Balanced(accounts: Accounts, m: H256, issued: nat, burned: nat) {
    WellFormed(accounts) && Supply(accounts, m) == Holdings(accounts, m) && Supply(accounts, m) + burned <= issued
  }

  lemma CreditBalanced(c: Config, dead: set<Address>, accounts: Accounts, credits: seq<Deposit>, events: seq<Deposit>,
                       d: Deposit, m: H256, burned: nat)
    requires Creditable(c, dead, accounts, d) && Backable(c, m) && d in events && LogOnce(accounts, credits, events)
    requires Balanced(accounts, m, Sum(credits, DepositOf(m)), burned) && Sum(events, DepositOf(m)) <= burned + U64_MAX
    ensures Balanced(Credit(c, dead, accounts, d), m,
                     Sum(if Seen(dead, accounts, d.sig) then credits else credits + [d], DepositOf(m)), burned)
  {
    hide WellFormed, Supply, Holdings, Credit, DepositOf, Backable, Creditable, Seen;
    if Seen(dead, accounts, d.sig) {
      CreditSkips(c, dead, accounts, d);
    } else {
      CreditLog(c, dead, accounts, credits, events, d);
      DistinctBySig(credits + [d]);
      SumWithin(credits + [d], events, DepositOf(m));
      assert (credits + [d])[..|credits|] == credits;
      CreditTotals(c, dead, accounts, d, m);
    }
  }

  lemma {:induction false} CreditAllBalanced(c: Config, dead: set<Address>, accounts: Accounts, credits: seq<Deposit>,
                                             events: seq<Deposit>, ds: seq<Deposit>, m: H256, burned: nat)
    requires WellFormed(accounts) && AllCreditable(c, dead, accounts, ds) && Backable(c, m)
    requires (forall d | d in ds :: d in events) && LogOnce(accounts, credits, events)
    requires Balanced(accounts, m, Sum(credits, DepositOf(m)), burned) && Sum(events, DepositOf(m)) <= burned + U64_MAX
    ensures Balanced(CreditAll(c, dead, accounts, ds), m,
                     Sum(credits + Credited(c, dead, accounts, ds), DepositOf(m)), burned)
  {
    hide LogOnce, Credit, Supply, Holdings, Backable, Sum, Creditable, WellFormed, Seen;
    if ds == [] {
      assert credits + [] == credits;
    } else {
      var n := |ds| - 1;
      var here, done := CreditAll(c, dead, accounts, ds[..n]), Credited(c, dead, accounts, ds[..n]);
      CreditAllBalanced(c, dead, accounts, credits, events, ds[..n], m, burned);
      CreditAllLog(c, dead, accounts, credits, events, ds[..n]);
      CreditBalanced(c, dead, here, credits + done, events, ds[n], m, burned);
      assert credits + done + [ds[n]] == credits + (done + [ds[n]]) && credits + (done + []) == credits + done;
    }
  }

  // ----- withdrawals ---------------------------------------------------------

  lemma BurnTotals(accounts: Accounts, l1: H256, owner: Address, amount: U64, m: H256)
    requires WellFormed(accounts) && Supply(accounts, m) == Holdings(accounts, m)
    requires BurnToken(accounts, l1, owner, amount).Some?
    ensures var after := BurnToken(accounts, l1, owner, amount).value;
            && Supply(after, m) == Holdings(after, m) == Supply(accounts, m) - (if l1 == m then amount else 0)
  {
    var taken := PutToken(accounts, l1, owner, Balance(accounts, l1, owner) - amount);
    PutTokenTotals(accounts, l1, owner, Balance(accounts, l1, owner) - amount, m);
    var after := BurnToken(accounts, l1, owner, amount).value;
    OverAfter(taken, WrappedMint(l1), after[WrappedMint(l1)], TokensOf(m));
  }

  lemma BurnElsewhere(accounts: Accounts, l1: H256, owner: Address, amount: U64, a: Address)
    requires WellFormed(accounts) && !a.WrappedMint? && !a.Ata? && BurnToken(accounts, l1, owner, amount).Some?
    ensures Lookup(BurnToken(accounts, l1, owner, amount).value, a) == Lookup(accounts, a)
  {
  }

  /** A successful withdrawal burns its amount of its own token, if it is one. */
  lemma WithdrawBalanced(c: Config, accounts: Accounts, x: WithdrawTx, m: H256, issued: nat, burned: nat)
    requires Backable(c, m) && Balanced(accounts, m, issued, burned) && Withdraw(c, accounts, x).Some?
    ensures Balanced(Withdraw(c, accounts, x).value, m, issued, burned + AmountOf(m)(x.w))
  {
    hide Supply, Holdings, BurnToken, WellFormed;
    var payer := Wallet(x.payer);
    var burnt := if IsNative(c, x.w.asset) then accounts else BurnToken(accounts, x.w.asset, payer, x.w.amount).value;
    if !IsNative(c, x.w.asset) {
      BurnTotals(accounts, x.w.asset, payer, x.w.amount, m);
      BurnElsewhere(accounts, x.w.asset, payer, x.w.amount, payer);
    }
    var account := accounts[payer].(lamports := accounts[payer].lamports - Needed(c, x.w));
    var charged := burnt[payer := account];
    SameDataTotals(burnt, payer, account, m);
    var after := AddLamports(charged, Wallet(c.collector), FEE);
    SameDataTotals(charged, Wallet(c.collector), after[Wallet(c.collector)], m);
  }

  /** A withdrawal goes through exactly for a positive amount, from a payer who holds
      the fee, and the amount in coins or in the token. A need beyond 64 bits is cut
      to the largest balance there is. */
  lemma WithdrawAcceptedIff(c: Config, accounts: Accounts, x: WithdrawTx)
    requires WellFormed(accounts)
    ensures var native := x.w.asset == NATIVE_ASSET || c.gasMint == Some(x.w.asset);
            Withdraw(c, accounts, x).Some? <==>
            && x.w.amount > 0 && Wallet(x.payer) in accounts
            && var coins := accounts[Wallet(x.payer)].lamports;
               if native then coins >= x.w.amount + 5_000 || coins == U64_MAX
               else coins >= 5_000 && Balance(accounts, x.w.asset, Wallet(x.payer)) >= x.w.amount
  {
    hide WellFormed;
  }

  lemma WithdrawReceipts(c: Config, accounts: Accounts, x: WithdrawTx, sig: Signature)
    requires WellFormed(accounts) && Withdraw(c, accounts, x).Some?
    ensures Receipt(sig) in Withdraw(c, accounts, x).value <==> Receipt(sig) in accounts
  {
    hide BurnToken, WellFormed;
    if !IsNative(c, x.w.asset) {
      BurnElsewhere(accounts, x.w.asset, Wallet(x.payer), x.w.amount, Receipt(sig));
    }
  }

  lemma {:induction false} WithdrawAllBalanced(c: Config, accounts: Accounts, xs: seq<WithdrawTx>, m: H256,
                                               issued: nat, burned: nat)
    requires WellFormed(accounts) && Backable(c, m) && Balanced(accounts, m, issued, burned)
    ensures var r := WithdrawAll(c, accounts, xs);
            Balanced(r.accounts, m, issued, burned + Sum(Burned(xs, r.flags), AmountOf(m)))
  {
    hide Balanced, Withdraw, WellFormed, Backable, AmountOf, WithdrawAll, Burned;
    if xs == [] {
      WithdrawNone(c, accounts, xs);
      assert xs[..0] == xs;
    } else {
      var n := |xs| - 1;
      assert xs[..n + 1] == xs;
      WithdrawAllBalanced(c, accounts, xs[..n], m, issued, burned);
      WithdrawAllNext(c, accounts, xs, n);
      var before := WithdrawAll(c, accounts, xs[..n]);
      var done := Burned(xs[..n], before.flags);
      var ok := Withdraw(c, before.accounts, xs[n]).Some?;
      BurnedNext(c, xs, n, before.flags, ok);
      if ok {
        WithdrawBalanced(c, before.accounts, xs[n], m, issued, burned + Sum(done, AmountOf(m)));
        SumAppend(done, xs[n].w, AmountOf(m));
      } else {
        assert done + [] == done;
      }
    }
  }

  lemma {:induction false} WithdrawAllReceipts(c: Config, accounts: Accounts, xs: seq<WithdrawTx>, sig: Signature)
    requires WellFormed(accounts)
    ensures Receipt(sig) in WithdrawAll(c, accounts, xs).accounts <==> Receipt(sig) in accounts
  {
    hide Withdraw, WellFormed;
    if xs != [] {
      var n := |xs| - 1;
      WithdrawAllReceipts(c, accounts, xs[..n], sig);
      var before := WithdrawAll(c, accounts, xs[..n]);
      if Withdraw(c, before.accounts, xs[n]).Some? {
        WithdrawReceipts(c, before.accounts, xs[n], sig);
      }
    }
  }

  // ----- who pays and who is paid --------------------------------------------

  function LamportsAt(accounts: Accounts, a: Address): nat {
    if a in accounts then accounts[a].lamports else 0
  }

  lemma AddLamportsFlows(accounts: Accounts, at: Address, amount: U64)
    requires Coins(accounts) + amount <= U64_MAX
    ensures var after := AddLamports(accounts, at, amount);
            && (forall a :: LamportsAt(after, a) == LamportsAt(accounts, a) + if a == at then amount else 0)
            && Coins(after) == Coins(accounts) + amount
  {
    OverAfter(accounts, at, AddLamports(accounts, at, amount)[at], LamportsOf());
  }

  /** A coin deposit pays its recipient in full and touches no other balance. Only
      coins sent to the deposit's own receipt are wiped out by that receipt. */
  lemma CoinCreditFlows(c: Config, dead: set<Address>, accounts: Accounts, d: Deposit)
    requires WellFormed(accounts) && !Seen(dead, accounts, d.sig)
    requires CreditsGas(c, d) && Coins(accounts) + d.amount <= U64_MAX
    ensures var after := Credit(c, dead, accounts, d);
            var kept := if d.recipient == Receipt(d.sig) then 0 else d.amount;
            && (forall a :: LamportsAt(after, a) == LamportsAt(accounts, a) + if a == d.recipient then kept else 0)
            && Coins(after) == Coins(accounts) + kept
            && (forall m, owner :: Balance(after, m, owner) == Balance(accounts, m, owner))
  {
    hide Coins;
    AddLamportsFlows(accounts, d.recipient, d.amount);
    CoinsAfter(AddLamports(accounts, d.recipient, d.amount), Receipt(d.sig), Account(0, Marker(d.amount, d.recipient)));
  }

  lemma CoinsAfter(accounts: Accounts, a: Address, account: Account)
    ensures Coins(accounts[a := account]) == Coins(accounts) - LamportsAt(accounts, a) + account.lamports
    ensures LamportsAt(accounts, a) <= Coins(accounts)
  {
    OverAfter(accounts, a, account, LamportsOf());
  }

  /** A token deposit pays its recipient in full and touches no other balance;
      the rent of the accounts it creates is all it adds in coins. */
  lemma TokenCreditFlows(c: Config, dead: set<Address>, accounts: Accounts, d: Deposit)
    requires WellFormed(accounts) && Creditable(c, dead, accounts, d) && !Seen(dead, accounts, d.sig)
    requires !CreditsGas(c, d) && Balance(accounts, WrappedAs(d), d.recipient) + d.amount <= U64_MAX
    ensures var after := Credit(c, dead, accounts, d);
            && (forall m, owner :: Balance(after, m, owner) ==
                  Balance(accounts, m, owner) + if m == WrappedAs(d) && owner == d.recipient then d.amount else 0)
            && (forall a | a in accounts :: LamportsAt(after, a) == LamportsAt(accounts, a))
            && Coins(after) == Coins(accounts)
                 + (if WrappedMint(WrappedAs(d)) in accounts then 0 else 1_461_600)
                 + (if Ata(d.recipient, WrappedAs(d)) in accounts then 0 else 2_039_280)
  {
    hide Coins;
    var l1, owner := WrappedAs(d), d.recipient;
    var minted := AddSupply(accounts, l1, d.amount, DecimalsOf(d));
    CoinsAfter(accounts, WrappedMint(l1), minted[WrappedMint(l1)]);
    var paid := MintToken(accounts, l1, owner, d.amount, DecimalsOf(d));
    CoinsAfter(minted, Ata(owner, l1), paid[Ata(owner, l1)]);
    CoinsAfter(paid, Receipt(d.sig), Account(0, Marker(d.amount, d.recipient)));
  }

  /** A withdrawal takes the fee and the amount from its payer, in coins or in
      its token, and the collector gets exactly the fee: the amount is gone. */
  lemma WithdrawFlows(c: Config, accounts: Accounts, x: WithdrawTx)
    requires WellFormed(accounts) && Withdraw(c, accounts, x).Some? && Coins(accounts) < U64_MAX
    ensures var after := Withdraw(c, accounts, x).value;
            var coins := if IsNative(c, x.w.asset) then x.w.amount else 0;
            && (forall a :: LamportsAt(after, a) == LamportsAt(accounts, a)
                  - (if a == Wallet(x.payer) then coins + FEE else 0) + (if a == Wallet(c.collector) then FEE else 0))
            && Coins(after) == Coins(accounts) - coins
            && (forall m, owner :: Balance(after, m, owner) == Balance(accounts, m, owner)
                  - if !IsNative(c, x.w.asset) && m == x.w.asset && owner == Wallet(x.payer) then x.w.amount else 0)
  {
    hide Coins, BurnToken, WellFormed;
    var payer := Wallet(x.payer);
    CoinsAfter(accounts, payer, accounts[payer]);
    var burnt := if IsNative(c, x.w.asset) then accounts else BurnToken(accounts, x.w.asset, payer, x.w.amount).value;
    if !IsNative(c, x.w.asset) {
      BurnFlows(accounts, x.w.asset, payer, x.w.amount);
    }
    var account := accounts[payer].(lamports := accounts[payer].lamports - Needed(c, x.w));
    CoinsAfter(burnt, payer, account);
    AddLamportsFlows(burnt[payer := account], Wallet(c.collector), FEE);
  }

  lemma BurnFlows(accounts: Accounts, l1: H256, from: Address, amount: U64)
    requires WellFormed(accounts) && BurnToken(accounts, l1, from, amount).Some?
    ensures var after := BurnToken(accounts, l1, from, amount).value;
            && (forall m, owner ::
                  Balance(after, m, owner) ==
                  Balance(accounts, m, owner) - if m == l1 && owner == from then amount else 0)
            && (forall a :: LamportsAt(after, a) == LamportsAt(accounts, a))
            && Coins(after) == Coins(accounts)
  {
    hide Coins;
    var taken := PutToken(accounts, l1, from, Balance(accounts, l1, from) - amount);
    CoinsAfter(accounts, Ata(from, l1), taken[Ata(from, l1)]);
    var after := BurnToken(accounts, l1, from, amount).value;
    CoinsAfter(taken, WrappedMint(l1), after[WrappedMint(l1)]);
  }
}
