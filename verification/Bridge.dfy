/** The node's side of the bridge: crediting L1 deposits once and burning
    withdrawals, both inside the write set of the block being built. */
module Bridge {
  import opened Common
  import opened Bytes
  import opened Ledger
  import opened Withdrawals
  import opened WithdrawTxs

  const FEE: U64 := 5_000

  /** The canonical wrapped-SOL mint. */
  const WSOL: H256 :=
    [0x06, 0x9b, 0x88, 0x57, 0xfe, 0xab, 0x81, 0x84, 0xfb, 0x68, 0x7f, 0x63, 0x46, 0x18, 0xc0, 0x35,
     0xda, 0xc4, 0x39, 0xdc, 0x1a, 0xeb, 0x3b, 0x55, 0x98, 0xa0, 0xf0, 0x00, 0x00, 0x00, 0x00, 0x01]

  datatype Config = Config(gasMint: Option<H256>, collector: H256)

  /** A deposit seen on L1; no mint means SOL. */
  datatype Deposit = Deposit(sig: Signature, mint: Option<H256>, decimals: nat, amount: U64, recipient: Address)

  // ----- deposits ------------------------------------------------------------

  /** Credited as the chain's own coin: the gas mint, or SOL if there is none. */
  predicate CreditsGas(c: Config, d: Deposit) {
    match d.mint
    case Some(m) => c.gasMint == Some(m)
    case None => c.gasMint.None?
  }

  function WrappedAs(d: Deposit): H256 {
    match d.mint
    case Some(m) => m
    case None => WSOL
  }

  function DecimalsOf(d: Deposit): nat {
    if d.mint.Some? then d.decimals else 9
  }

  function AddLamports(accounts: Accounts, a: Address, amount: U64): Accounts {
    var prior := if a in accounts then accounts[a] else Account(0, Plain);
    accounts[a := prior.(lamports := SatAdd(prior.lamports, amount))]
  }

  /** Minting sets fields in place: data that is neither a mint nor a token
      account, left by coins sent to a derived address, makes it panic. */
  predicate Mintable(accounts: Accounts, m: H256, owner: Address) {
    (WrappedMint(m) in accounts ==> accounts[WrappedMint(m)].data.Mint?) && Settable(accounts, m, owner)
  }

  function AddSupply(accounts: Accounts, m: H256, amount: U64, decimals: nat): (after: Accounts)
    requires WellFormed(accounts) && (WrappedMint(m) in accounts ==> accounts[WrappedMint(m)].data.Mint?)
    ensures WellFormed(after) && HasMint(after, m)
  {
    var a := WrappedMint(m);
    accounts[a := if a in accounts
                  then accounts[a].(data := accounts[a].data.(supply := SatAdd(accounts[a].data.supply, amount)))
                  else Account(MINT_RENT, Mint(amount, decimals))]
  }

  function MintToken(accounts: Accounts, m: H256, owner: Address, amount: U64, decimals: nat): (after: Accounts)
    requires WellFormed(accounts) && Mintable(accounts, m, owner)
    ensures WellFormed(after)
  {
    var minted := AddSupply(accounts, m, amount, decimals);
    PutToken(minted, m, owner, SatAdd(Balance(minted, m, owner), amount))
  }

  /** A write to the receipt address counts as a credit, even one that deletes it.
      `dead` are the addresses the block's other transactions deleted. */
  predicate Seen(dead: set<Address>, accounts: Accounts, sig: Signature) {
    Receipt(sig) in accounts || Receipt(sig) in dead
  }

  /** The deposit can be processed without a panic. */
  predicate Creditable(c: Config, dead: set<Address>, accounts: Accounts, d: Deposit) {
    Seen(dead, accounts, d.sig) || CreditsGas(c, d) || Mintable(accounts, WrappedAs(d), d.recipient)
  }

  /** One deposit: skipped if its receipt was seen, otherwise credited with a
      receipt written beside the credit. */
  function Credit(c: Config, dead: set<Address>, accounts: Accounts, d: Deposit): (after: Accounts)
    requires WellFormed(accounts) && Creditable(c, dead, accounts, d)
    ensures WellFormed(after)
  {
    if Seen(dead, accounts, d.sig) then accounts
    else
      var paid := if CreditsGas(c, d) then AddLamports(accounts, d.recipient, d.amount)
                  else MintToken(accounts, WrappedAs(d), d.recipient, d.amount, DecimalsOf(d));
      paid[Receipt(d.sig) := Account(0, Marker(d.amount, d.recipient))]
  }

  /** The accounts a deposit writes. */
  function CreditTouches(c: Config, dead: set<Address>, accounts: Accounts, d: Deposit): set<Address> {
    if Seen(dead, accounts, d.sig) then {}
    else {Receipt(d.sig)} +
         if CreditsGas(c, d) then {d.recipient} else {WrappedMint(WrappedAs(d)), Ata(d.recipient, WrappedAs(d))}
  }

  /** A whole list, each deposit in the state the earlier ones left. */
  predicate AllCreditable(c: Config, dead: set<Address>, accounts: Accounts, ds: seq<Deposit>)
    requires WellFormed(accounts)
    decreases |ds|, 0
  {
    ds == [] || (AllCreditable(c, dead, accounts, ds[..|ds| - 1]) &&
                 Creditable(c, dead, CreditAll(c, dead, accounts, ds[..|ds| - 1]), ds[|ds| - 1]))
  }

  function CreditAll(c: Config, dead: set<Address>, accounts: Accounts, ds: seq<Deposit>): (after: Accounts)
    requires WellFormed(accounts) && AllCreditable(c, dead, accounts, ds)
    ensures WellFormed(after)
    decreases |ds|, 1
  {
    if ds == [] then accounts else Credit(c, dead, CreditAll(c, dead, accounts, ds[..|ds| - 1]), ds[|ds| - 1])
  }

  function CreditAllTouches(c: Config, dead: set<Address>, accounts: Accounts, ds: seq<Deposit>): set<Address>
    requires WellFormed(accounts) && AllCreditable(c, dead, accounts, ds)
  {
    if ds == [] then {}
    else
      var n := |ds| - 1;
      CreditAllTouches(c, dead, accounts, ds[..n]) +
      CreditTouches(c, dead, CreditAll(c, dead, accounts, ds[..n]), ds[n])
  }

  /** The deposits of the list that were credited, in order. */
  function Credited(c: Config, dead: set<Address>, accounts: Accounts, ds: seq<Deposit>): seq<Deposit>
    requires WellFormed(accounts) && AllCreditable(c, dead, accounts, ds)
  {
    if ds == [] then []
    else
      var n := |ds| - 1;
      Credited(c, dead, accounts, ds[..n]) +
      if Seen(dead, CreditAll(c, dead, accounts, ds[..n]), ds[n].sig) then [] else [ds[n]]
  }

  lemma {:induction false} CreditableSplit(c: Config, dead: set<Address>, accounts: Accounts, ds: seq<Deposit>, i: nat)
    requires WellFormed(accounts) && AllCreditable(c, dead, accounts, ds) && i < |ds|
    ensures AllCreditable(c, dead, accounts, ds[..i]) && AllCreditable(c, dead, accounts, ds[..i + 1])
    ensures Creditable(c, dead, CreditAll(c, dead, accounts, ds[..i]), ds[i])
    ensures CreditAll(c, dead, accounts, ds[..i + 1]) ==
            Credit(c, dead, CreditAll(c, dead, accounts, ds[..i]), ds[i])
  {
    hide WellFormed, Credit, Creditable;
    var n := |ds| - 1;
    if i == n {
      assert ds[..i + 1] == ds;
    } else {
      CreditableSplit(c, dead, accounts, ds[..n], i);
      assert ds[..n][..i] == ds[..i] && ds[..n][..i + 1] == ds[..i + 1] && ds[..n][i] == ds[i];
    }
  }

  method CreditWrapped(store: Accounts, writes: Writes, m: H256, owner: Address, amount: U64, decimals: nat)
    returns (next: Writes)
    requires WellFormed(View(store, writes)) && Mintable(View(store, writes), m, owner)
    ensures View(store, next) == MintToken(View(store, writes), m, owner, amount, decimals)
    ensures Deletions(next) == Deletions(writes) - {WrappedMint(m), Ata(owner, m)} && writes.Keys <= next.Keys
  {
    hide Deletions;
    var mint, ata := WrappedMint(m), Ata(owner, m);
    var mintAccount := match Read(store, writes, mint)
      case Some(prior) => prior.(data := prior.data.(supply := SatAdd(prior.data.supply, amount)))
      case None => Account(MINT_RENT, Mint(amount, decimals));
    next := writes[mint := Some(mintAccount)];
    ViewWrite(store, writes, mint, mintAccount);
    var tokenAccount := match Read(store, next, ata)
      case Some(prior) => prior.(data := prior.data.(amount := SatAdd(prior.data.amount, amount)))
      case None => Account(TOKEN_RENT, Token(m, owner, amount));
    ViewWrite(store, next, ata, tokenAccount);
    next := next[ata := Some(tokenAccount)];
  }

  method CreditLamports(store: Accounts, writes: Writes, a: Address, amount: U64) returns (next: Writes)
    ensures View(store, next) == AddLamports(View(store, writes), a, amount)
    ensures Deletions(next) == Deletions(writes) - {a} && writes.Keys <= next.Keys
  {
    hide Deletions;
    var prior := match Read(store, writes, a) case Some(x) => x case None => Account(0, Plain);
    var account := prior.(lamports := SatAdd(prior.lamports, amount));
    next := writes[a := Some(account)];
    ViewWrite(store, writes, a, account);
  }

  /** Queued deposits into the block's writes. The receipt test looks at the keys
      of the writes first, so a repeat inside the block is skipped as well, and so
      is a deposit whose receipt address the block deleted. */
  method ApplyDeposits(c: Config, store: Accounts, writes: Writes, ds: seq<Deposit>)
    returns (next: Writes, credited: nat)
    requires WellFormed(View(store, writes)) && AllCreditable(c, Deletions(writes), View(store, writes), ds)
    ensures var dead, before := Deletions(writes), View(store, writes);
            && View(store, next) == CreditAll(c, dead, before, ds)
            && credited == |Credited(c, dead, before, ds)|
            && Deletions(next) == dead - CreditAllTouches(c, dead, before, ds)
  {
    hide Deletions, Credit, WellFormed, View, Creditable, AllCreditable, CreditAll, Seen;
    ghost var dead, before := Deletions(writes), View(store, writes);
    next, credited := writes, 0;
    CreditNothing(c, dead, before, ds);
    for i := 0 to |ds|
      invariant writes.Keys <= next.Keys
      invariant AllCreditable(c, dead, before, ds[..i]) && View(store, next) == CreditAll(c, dead, before, ds[..i])
      invariant credited == |Credited(c, dead, before, ds[..i])|
      invariant Deletions(next) == dead - CreditAllTouches(c, dead, before, ds[..i])
    {
      var d := ds[i];
      CreditableSplit(c, dead, before, ds, i);
      assert ds[..i + 1][..i] == ds[..i];
      SeenInWrites(store, writes, next, d.sig);
      if Receipt(d.sig) in next || Receipt(d.sig) in store {
        CreditSkips(c, dead, View(store, next), d);
      } else {
        next := CreditOne(c, dead, store, next, d);
        credited := credited + 1;
      }
    }
    assert ds[..|ds|] == ds;
  }

  lemma CreditNothing(c: Config, dead: set<Address>, accounts: Accounts, ds: seq<Deposit>)
    requires WellFormed(accounts)
    ensures AllCreditable(c, dead, accounts, ds[..0]) && CreditAll(c, dead, accounts, ds[..0]) == accounts
  {
  }

  /** The test on the writes' keys and the store is the one on what was readable or
      deleted at the start of the deposits. */
  lemma SeenInWrites(store: Accounts, writes: Writes, next: Writes, sig: Signature)
    requires writes.Keys <= next.Keys && Deletions(next) <= Deletions(writes)
    ensures Seen(Deletions(writes), View(store, next), sig) <==> Receipt(sig) in next || Receipt(sig) in store
  {
    if Receipt(sig) in next && next[Receipt(sig)].None? {
      assert Receipt(sig) in Deletions(next);
    }
  }

  lemma CreditSkips(c: Config, dead: set<Address>, accounts: Accounts, d: Deposit)
    requires WellFormed(accounts) && Seen(dead, accounts, d.sig)
    ensures Creditable(c, dead, accounts, d)
    ensures Credit(c, dead, accounts, d) == accounts && CreditTouches(c, dead, accounts, d) == {}
  {
  }

  method CreditOne(c: Config, ghost dead: set<Address>, store: Accounts, writes: Writes, d: Deposit)
    returns (next: Writes)
    requires WellFormed(View(store, writes)) && Creditable(c, dead, View(store, writes), d)
    requires !Seen(dead, View(store, writes), d.sig)
    ensures View(store, next) == Credit(c, dead, View(store, writes), d)
    ensures Deletions(next) == Deletions(writes) - CreditTouches(c, dead, View(store, writes), d)
    ensures writes.Keys <= next.Keys
  {
    hide Deletions, MintToken, AddLamports, WellFormed, View;
    if CreditsGas(c, d) {
      next := CreditLamports(store, writes, d.recipient, d.amount);
    } else {
      next := CreditWrapped(store, writes, WrappedAs(d), d.recipient, d.amount, DecimalsOf(d));
    }
    var receipt := Account(0, Marker(d.amount, d.recipient));
    ViewWrite(store, next, Receipt(d.sig), receipt);
    next := next[Receipt(d.sig) := Some(receipt)];
  }

  // ----- withdrawals ---------------------------------------------------------

  predicate IsNative(c: Config, asset: H256) {
    asset == NATIVE_ASSET || c.gasMint == Some(asset)
  }

  /** Coins the payer must hold: the fee, and the amount itself if native. */
  function Needed(c: Config, w: Withdrawal): U64 {
    if IsNative(c, w.asset) then SatAdd(w.amount, FEE) else FEE
  }

  /** Burn from the owner's token account and from the supply, if covered. */
  function BurnToken(accounts: Accounts, m: H256, owner: Address, amount: U64): (after: Option<Accounts>)
    requires WellFormed(accounts)
    ensures after.Some? ==> WellFormed(after.value)
  {
    var mint := WrappedMint(m);
    if amount == 0 || Balance(accounts, m, owner) < amount then None
    else
      var taken := PutToken(accounts, m, owner, Balance(accounts, m, owner) - amount);
      Some(taken[mint := taken[mint].(data := taken[mint].data.(supply := SatSub(taken[mint].data.supply, amount)))])
  }

  /** One withdrawal: all of it, or None and nothing changes. The payer's account
      is read before the token burn and written after it. */
  function Withdraw(c: Config, accounts: Accounts, x: WithdrawTx): (after: Option<Accounts>)
    requires WellFormed(accounts)
    ensures after.Some? ==> WellFormed(after.value)
  {
    var payer := Wallet(x.payer);
    if payer !in accounts || accounts[payer].lamports < Needed(c, x.w) || x.w.amount == 0 then None
    else
      var burnt := if IsNative(c, x.w.asset) then Some(accounts) else BurnToken(accounts, x.w.asset, payer, x.w.amount);
      if burnt.None? then None
      else
        var prior := accounts[payer];
        var charged := prior.(lamports := prior.lamports - Needed(c, x.w));
        PayerKeepsShape(burnt.value, payer, charged, accounts);
        Some(AddLamports(burnt.value[payer := charged], Wallet(c.collector), FEE))
  }

  /** A wallet keeps its data when its lamports change. */
  lemma PayerKeepsShape(after: Accounts, payer: Address, account: Account, before: Accounts)
    requires WellFormed(after) && payer.Wallet? && payer in before && account.data == before[payer].data
    requires Lookup(after, payer) == Lookup(before, payer)
    ensures WellFormed(after[payer := account])
  {
  }

  function WithdrawTouches(c: Config, x: WithdrawTx): set<Address> {
    {Wallet(x.payer), Wallet(c.collector)} +
    if IsNative(c, x.w.asset) then {} else {Ata(Wallet(x.payer), x.w.asset), WrappedMint(x.w.asset)}
  }

  datatype Withdrawn = Withdrawn(accounts: Accounts, flags: seq<bool>)

  function WithdrawAll(c: Config, accounts: Accounts, xs: seq<WithdrawTx>): (r: Withdrawn)
    requires WellFormed(accounts)
    ensures WellFormed(r.accounts) && |r.flags| == |xs|
  {
    if xs == [] then Withdrawn(accounts, [])
    else
      var n := |xs| - 1;
      var before := WithdrawAll(c, accounts, xs[..n]);
      var after := Withdraw(c, before.accounts, xs[n]);
      Withdrawn(if after.Some? then after.value else before.accounts, before.flags + [after.Some?])
  }

  /** The withdrawals that went through, and the accounts they wrote. */
  function Burned(xs: seq<WithdrawTx>, flags: seq<bool>): seq<Withdrawal>
    requires |flags| == |xs|
  {
    if xs == [] then []
    else
      var n := |xs| - 1;
      Burned(xs[..n], flags[..n]) + if flags[n] then [xs[n].w] else []
  }

  function BurnTouches(c: Config, xs: seq<WithdrawTx>, flags: seq<bool>): set<Address>
    requires |flags| == |xs|
  {
    if xs == [] then {}
    else
      var n := |xs| - 1;
      BurnTouches(c, xs[..n], flags[..n]) + if flags[n] then WithdrawTouches(c, xs[n]) else {}
  }

  method BurnWrapped(store: Accounts, writes: Writes, m: H256, owner: Address, amount: U64)
    returns (ok: bool, next: Writes)
    requires WellFormed(View(store, writes))
    ensures var after := BurnToken(View(store, writes), m, owner, amount);
            ok == after.Some? && View(store, next) == if ok then after.value else View(store, writes)
    ensures Deletions(next) == Deletions(writes) - if ok then {WrappedMint(m), Ata(owner, m)} else {}
  {
    hide Deletions;
    ok, next := false, writes;
    if amount == 0 {
      return;
    }
    var mint, ata := WrappedMint(m), Ata(owner, m);
    var held := Read(store, writes, ata);
    if held.None? {
      return;
    }
    var balance := if held.value.data.Token? then held.value.data.amount else 0;
    if balance < amount {
      return;
    }
    assert HasMint(View(store, writes), m) by { assert WellPlaced(ata, View(store, writes)[ata].data); }
    var token := held.value.(data := held.value.data.(amount := balance - amount));
    ok, next := true, writes[ata := Some(token)];
    ViewWrite(store, writes, ata, token);
    var minted := Read(store, next, mint);
    if minted.Some? {
      var account := minted.value.(data := minted.value.data.(supply := SatSub(minted.value.data.supply, amount)));
      ViewWrite(store, next, mint, account);
      next := next[mint := Some(account)];
    }
  }

  method WithdrawOne(c: Config, store: Accounts, writes: Writes, x: WithdrawTx) returns (ok: bool, next: Writes)
    requires WellFormed(View(store, writes))
    ensures var after := Withdraw(c, View(store, writes), x);
            ok == after.Some? && View(store, next) == if ok then after.value else View(store, writes)
    ensures Deletions(next) == Deletions(writes) - if ok then WithdrawTouches(c, x) else {}
  {
    hide Deletions, BurnToken, AddLamports, WellFormed;
    ok, next := false, writes;
    var payer := Wallet(x.payer);
    var found := Read(store, writes, payer);
    var needed := Needed(c, x.w);
    if found.None? || found.value.lamports < needed || x.w.amount == 0 {
      return;
    }
    ok := true;
    if !IsNative(c, x.w.asset) {
      ok, next := BurnWrapped(store, writes, x.w.asset, payer, x.w.amount);
    }
    if ok {
      var account := found.value.(lamports := found.value.lamports - needed);
      ViewWrite(store, next, payer, account);
      next := next[payer := Some(account)];
      next := CreditLamports(store, next, Wallet(c.collector), FEE);
    }
  }

  /** Every withdrawal in turn, with its status; the successful ones are the
      leaves to publish once the block commits. */
  method ApplyWithdraws(c: Config, store: Accounts, writes: Writes, xs: seq<WithdrawTx>)
    returns (next: Writes, flags: seq<bool>, leaves: seq<Withdrawal>)
    requires WellFormed(View(store, writes))
    ensures WithdrawAll(c, View(store, writes), xs) == Withdrawn(View(store, next), flags)
    ensures |flags| == |xs| && leaves == Burned(xs, flags)
    ensures Deletions(next) == Deletions(writes) - BurnTouches(c, xs, flags)
  {
    hide View, Deletions, Withdraw, WithdrawAll, Burned, BurnTouches, WellFormed;
    ghost var before := View(store, writes);
    WithdrawNone(c, before, xs);
    next, flags, leaves := writes, [], [];
    for i := 0 to |xs|
      invariant WithdrawAll(c, before, xs[..i]) == Withdrawn(View(store, next), flags)
      invariant |flags| == i && leaves == Burned(xs[..i], flags)
      invariant Deletions(next) == Deletions(writes) - BurnTouches(c, xs[..i], flags)
    {
      var ok: bool;
      ok, next := WithdrawOne(c, store, next, xs[i]);
      WithdrawAllNext(c, before, xs, i);
      BurnedNext(c, xs, i, flags, ok);
      flags := flags + [ok];
      if ok {
        leaves := leaves + [xs[i].w];
      }
    }
    assert xs[..|xs|] == xs;
  }

  lemma WithdrawNone(c: Config, accounts: Accounts, xs: seq<WithdrawTx>)
    requires WellFormed(accounts)
    ensures WithdrawAll(c, accounts, xs[..0]) == Withdrawn(accounts, [])
    ensures Burned(xs[..0], []) == [] && BurnTouches(c, xs[..0], []) == {}
  {
  }

  lemma WithdrawAllNext(c: Config, accounts: Accounts, xs: seq<WithdrawTx>, i: nat)
    requires WellFormed(accounts) && i < |xs|
    ensures var before := WithdrawAll(c, accounts, xs[..i]);
            var after := Withdraw(c, before.accounts, xs[i]);
            WithdrawAll(c, accounts, xs[..i + 1]) ==
            Withdrawn(if after.Some? then after.value else before.accounts, before.flags + [after.Some?])
  {
    hide Withdraw, WellFormed;
    assert xs[..i + 1][..i] == xs[..i];
  }

  lemma BurnedNext(c: Config, xs: seq<WithdrawTx>, i: nat, flags: seq<bool>, ok: bool)
    requires |flags| == i < |xs|
    ensures Burned(xs[..i + 1], flags + [ok]) == Burned(xs[..i], flags) + if ok then [xs[i].w] else []
    ensures BurnTouches(c, xs[..i + 1], flags + [ok]) ==
            BurnTouches(c, xs[..i], flags) + if ok then WithdrawTouches(c, xs[i]) else {}
  {
    hide WithdrawTouches;
    assert xs[..i + 1][..i] == xs[..i] && (flags + [ok])[..i] == flags;
  }
}
