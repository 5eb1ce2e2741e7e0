/** Accounts as the bridge sees them, the write set of the block being built, and
    the totals of the wrapped tokens they hold. */
module Ledger {
  import opened Common
  import opened Bytes

  type Signature = seq<Byte>

  /** Account addresses by how they come about. Derived addresses are hashes of
      their inputs: here, different inputs give different addresses. */
  datatype Address = Wallet(key: H256) | WrappedMint(l1: H256) | Ata(owner: Address, l1: H256) | Receipt(sig: Signature)

  /** What an account's data says, where the bridge cares. */
  datatype Data =
    | Plain
    | Mint(supply: U64, decimals: nat)
    | Token(l1: H256, holder: Address, amount: U64)
    | Marker(credited: U64, recipient: Address)

  datatype Account = Account(lamports: U64, data: Data)

  type Accounts = map<Address, Account>

  /** The block's writes so far: a new account, or None for a deletion. */
  type Writes = map<Address, Option<Account>>

  // ----- reading through the write set ---------------------------------------

  function Lookup(accounts: Accounts, a: Address): Option<Account> {
    if a in accounts then Some(accounts[a]) else None
  }

  /** The accounts once the block commits. */
  function Merge(store: Accounts, writes: Writes): Accounts {
    map a | a in store.Keys + writes.Keys && (a in writes ==> writes[a].Some?) ::
      if a in writes then writes[a].value else store[a]
  }

  /** How the node reads while it builds a block: its own write if there is one,
      the committed account otherwise. */
  function Read(store: Accounts, writes: Writes, a: Address): Option<Account> {
    if a in writes && writes[a].Some? then writes[a] else Lookup(store, a)
  }

  /** Everything the node can read while it builds a block. */
  function View(store: Accounts, writes: Writes): Accounts {
    map a | a in store.Keys + writes.Keys && Read(store, writes, a).Some? :: Read(store, writes, a).value
  }

  function Deletions(writes: Writes): set<Address> {
    set a | a in writes && writes[a].None?
  }

  /** The block deleted a stored account: a later read brings it back. */
  predicate Revived(store: Accounts, writes: Writes, a: Address) {
    a in Deletions(writes) && a in store
  }

  /** A read shows what will be committed, except for an account the same block
      deleted. */
  lemma ReadIsMerged(store: Accounts, writes: Writes, a: Address)
    ensures Read(store, writes, a) == Lookup(Merge(store, writes), a) <==> !Revived(store, writes, a)
  {
  }

  /** What is committed is what could be read, without what is still deleted. */
  lemma MergeIsView(store: Accounts, writes: Writes)
    ensures Merge(store, writes) == View(store, writes) - Deletions(writes)
  {
  }

  lemma ViewWrite(store: Accounts, writes: Writes, a: Address, account: Account)
    ensures View(store, writes[a := Some(account)]) == View(store, writes)[a := account]
    ensures Deletions(writes[a := Some(account)]) == Deletions(writes) - {a}
  {
  }

  // ----- shapes --------------------------------------------------------------

  /** Data at a derived address has the shape that address is for, unless only
      coins were ever sent there. */
  predicate WellPlaced(a: Address, d: Data) {
    && (a.WrappedMint? ==> d.Mint? || d.Plain?)
    && (a.Ata? ==> (d.Token? && d.l1 == a.l1) || d.Plain?)
  }

  predicate HasMint(accounts: Accounts, m: H256) {
    WrappedMint(m) in accounts && accounts[WrappedMint(m)].data.Mint?
  }

  /** Accounts have their shapes, and tokens have a mint. */
  ghost predicate WellFormed(accounts: Accounts) {
    forall a | a in accounts ::
      WellPlaced(a, accounts[a].data) && (accounts[a].data.Token? ==> HasMint(accounts, accounts[a].data.l1))
  }

  // ----- totals --------------------------------------------------------------

  /** Recorded supply of the wrapped token of L1 mint `m`. */
  function Supply(accounts: Accounts, m: H256): nat {
    var a := WrappedMint(m);
    if a in accounts && accounts[a].data.Mint? then accounts[a].data.supply else 0
  }

  /** Sum of `f` over these accounts. */
  ghost function Over(accounts: Accounts, f: Account -> nat, keys: set<Address>): nat
    requires keys <= accounts.Keys
  {
    if keys == {} then 0
    else
      var a :| a in keys;
      f(accounts[a]) + Over(accounts, f, keys - {a})
  }

  ghost function TokensOf(m: H256): Account -> nat {
    (x: Account) => if x.data.Token? && x.data.l1 == m then x.data.amount else 0
  }

  ghost function LamportsOf(): Account -> nat {
    (x: Account) => x.lamports
  }

  /** Sum of all token accounts of `m`, wherever they are. */
  ghost function Holdings(accounts: Accounts, m: H256): nat {
    Over(accounts, TokensOf(m), accounts.Keys)
  }

  /** All coins on the chain. */
  ghost function Coins(accounts: Accounts): nat {
    Over(accounts, LamportsOf(), accounts.Keys)
  }

  lemma {:induction false} OverSplit(accounts: Accounts, f: Account -> nat, keys: set<Address>, a: Address)
    requires a in keys && keys <= accounts.Keys
    ensures Over(accounts, f, keys) == f(accounts[a]) + Over(accounts, f, keys - {a})
    decreases keys
  {
    var b :| b in keys && Over(accounts, f, keys) == f(accounts[b]) + Over(accounts, f, keys - {b});
    if a != b {
      OverSplit(accounts, f, keys - {b}, a);
      OverSplit(accounts, f, keys - {a}, b);
      assert keys - {b} - {a} == keys - {a} - {b};
    }
  }

  lemma {:induction false} OverSame(before: Accounts, after: Accounts, f: Account -> nat, keys: set<Address>)
    requires keys <= before.Keys && keys <= after.Keys
    requires forall a | a in keys :: before[a] == after[a]
    ensures Over(before, f, keys) == Over(after, f, keys)
    decreases keys
  {
    if keys != {} {
      var a :| a in keys;
      OverSplit(before, f, keys, a);
      OverSplit(after, f, keys, a);
      OverSame(before, after, f, keys - {a});
    }
  }

  /** Writing one account moves a sum by the difference at that account. */
  lemma OverAfter(accounts: Accounts, a: Address, account: Account, f: Account -> nat)
    ensures var after := accounts[a := account];
            Over(after, f, after.Keys) ==
              Over(accounts, f, accounts.Keys) - (if a in accounts then f(accounts[a]) else 0) + f(account)
    ensures a in accounts ==> f(accounts[a]) <= Over(accounts, f, accounts.Keys)
  {
    var after := accounts[a := account];
    OverSplit(after, f, after.Keys, a);
    OverSame(accounts, after, f, accounts.Keys - {a});
    assert after.Keys - {a} == accounts.Keys - {a};
    if a in accounts {
      OverSplit(accounts, f, accounts.Keys, a);
    } else {
      assert accounts.Keys - {a} == accounts.Keys;
    }
  }

  // ----- moves between token accounts ----------------------------------------

  /** Rent-exempt lamports of a fresh 82-byte mint and 165-byte token account. */
  const MINT_RENT: U64 := (128 + 82) * 3480 * 2
  const TOKEN_RENT: U64 := (128 + 165) * 3480 * 2

  /** The owner's token amount; an account without token data reads as zero. */
  function Balance(accounts: Accounts, m: H256, owner: Address): U64 {
    var a := Ata(owner, m);
    if a in accounts && accounts[a].data.Token? then accounts[a].data.amount else 0
  }

  /** Setting the amount needs token data to set it in. */
  predicate Settable(accounts: Accounts, m: H256, owner: Address) {
    Ata(owner, m) in accounts ==> accounts[Ata(owner, m)].data.Token?
  }

  /** Set the owner's token amount, leaving the account's other fields alone. */
  function PutToken(accounts: Accounts, m: H256, owner: Address, amount: U64): (after: Accounts)
    requires WellFormed(accounts) && HasMint(accounts, m) && Settable(accounts, m, owner)
    ensures WellFormed(after) && HasMint(after, m)
  {
    var a := Ata(owner, m);
    accounts[a := if a in accounts then accounts[a].(data := accounts[a].data.(amount := amount))
                  else Account(TOKEN_RENT, Token(m, owner, amount))]
  }

  lemma PutTokenTotals(accounts: Accounts, l1: H256, owner: Address, amount: U64, m: H256)
    requires WellFormed(accounts) && HasMint(accounts, l1) && Settable(accounts, l1, owner)
    ensures var after := PutToken(accounts, l1, owner, amount);
            && Supply(after, m) == Supply(accounts, m)
            && Holdings(after, m) ==
               Holdings(accounts, m) + (if l1 == m then amount - Balance(accounts, l1, owner) else 0)
    ensures l1 == m ==> Balance(accounts, l1, owner) <= Holdings(accounts, m)
  {
    var after := PutToken(accounts, l1, owner, amount);
    OverAfter(accounts, Ata(owner, l1), after[Ata(owner, l1)], TokensOf(m));
  }

  /** The pool moves wrapped tokens between two owners' associated accounts,
      creating either on first use; the destination is read after the source is
      written. */
  function MoveToken(accounts: Accounts, m: H256, from: Address, to: Address, amount: U64): (after: Accounts)
    requires WellFormed(accounts) && HasMint(accounts, m) && Settable(accounts, m, from) && Settable(accounts, m, to)
    ensures WellFormed(after)
  {
    var taken := PutToken(accounts, m, from, SatSub(Balance(accounts, m, from), amount));
    PutToken(taken, m, to, SatAdd(Balance(taken, m, to), amount))
  }

  /** A covered move keeps every mint's supply and total holdings. */
  lemma MoveKeepsTotals(accounts: Accounts, l1: H256, from: Address, to: Address, amount: U64, m: H256)
    requires WellFormed(accounts) && HasMint(accounts, l1) && Settable(accounts, l1, from) && Settable(accounts, l1, to)
    requires amount <= Balance(accounts, l1, from) && Holdings(accounts, l1) <= U64_MAX
    ensures var after := MoveToken(accounts, l1, from, to, amount);
            Supply(after, m) == Supply(accounts, m) && Holdings(after, m) == Holdings(accounts, m)
  {
    hide Holdings, Supply;
    var taken := PutToken(accounts, l1, from, SatSub(Balance(accounts, l1, from), amount));
    PutTokenTotals(accounts, l1, from, SatSub(Balance(accounts, l1, from), amount), m);
    PutTokenTotals(accounts, l1, from, SatSub(Balance(accounts, l1, from), amount), l1);
    PutTokenTotals(taken, l1, to, SatAdd(Balance(taken, l1, to), amount), m);
    PutTokenTotals(taken, l1, to, SatAdd(Balance(taken, l1, to), amount), l1);
  }
}
