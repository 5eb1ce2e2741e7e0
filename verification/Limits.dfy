/** Where promises of the bridge end: a deposit whose receipt address was written
    to first, one whose receipt was deleted, a withdrawal included twice with
    different outcomes, a token account read after the same block deleted it, and
    withdrawals of coins that were never deposited. */
module Limits {
  import opened Common
  import opened Bytes
  import opened Ledger
  import opened Withdrawals
  import opened WithdrawTxs
  import opened Bridge
  import opened Backing
  import opened Quiet
  import opened Chain
  import opened TwoChains
  import opened Exits

  // ----- a suppressed deposit ------------------------------------------------

  /** Deposited on L1 and not credited, but its receipt is there. */
  ghost predicate Suppressed(s: World, d: Deposit) {
    d in s.l1.events && Receipt(d.sig) in s.chain.accounts && d.sig !in Sigs(s.chain.credits)
  }

  lemma CommitSuppresses(u: Setup, s: World, k: Work, d: Deposit)
    requires Enabled(u, s, Committed(k)) && Suppressed(s, d) && Receipt(d.sig) !in Deletions(k.svm)
    ensures Suppressed(Next(u, s, Committed(k)), d)
  {
    hide WellFormed, CreditAll, Credited, AccountsAfter, ForeignIn, Determined, Enabled, Next, AllCreditable;
    CommittedState(u, s, k);
    CommitReceipts(u.c, s.chain, s.queue, k, d.sig);
    var more := NewlyCredited(u.c, s.chain.accounts, s.queue, k);
    CreditAllReceipts(u.c, Deletions(k.svm), View(s.chain.accounts, k.svm), s.queue, d.sig);
    assert Sigs(s.chain.credits + more) == Sigs(s.chain.credits) + Sigs(more);
  }

  ghost predicate Spares(e: Event, sig: Signature) {
    e.Committed? ==> Receipt(sig) !in Deletions(e.work.svm)
  }

  lemma StaysSuppressed(u: Setup, s: World, e: Event, d: Deposit)
    requires Enabled(u, s, e) && Suppressed(s, d) && Spares(e, d.sig)
    ensures Suppressed(Next(u, s, e), d)
  {
    hide WorkOk, Commit, NewlyBurned, Rebuilt, RootOf, Claimable;
    if e.Committed? {
      CommitSuppresses(u, s, e.work, d);
    }
  }

  /** However the run goes on, it is not credited until a block deletes what is at
      its receipt address. */
  lemma {:induction false} NeverCredited(u: Setup, events: seq<Event>, more: seq<Event>, d: Deposit)
    requires Runs(u, events) && Runs(u, events + more) && Suppressed(After(u, events), d)
    requires forall e | e in more :: Spares(e, d.sig)
    ensures Suppressed(After(u, events + more), d)
  {
    hide Suppressed, Enabled, Next, Start, Spares;
    if more == [] {
      assert events + more == events;
    } else {
      var n := |more| - 1;
      assert (events + more)[..|events + more| - 1] == events + more[..n];
      NeverCredited(u, events, more[..n], d);
      StaysSuppressed(u, After(u, events + more[..n]), more[n], d);
    }
  }

  /** One coin of the chain deposited on L1. */
  function CoinEvent(c: Config, sig: Signature, recipient: Address): Event {
    match c.gasMint
    case None => SolDeposited(sig, 1, recipient)
    case Some(m) => SplDeposited(sig, m, true, 9, 1, 1, recipient)
  }

  function CoinOf(c: Config, sig: Signature, recipient: Address): Deposit {
    Deposit(sig, c.gasMint, 9, 1, recipient)
  }

  lemma CoinLands(u: Setup, s: World, sig: Signature, recipient: Address)
    requires sig !in Sigs(s.l1.events) && s.l1.sol <= 1 && s.l1.totalDeposited <= 1 && forall m :: s.l1.Vault(m) <= 1
    ensures var e := CoinEvent(u.c, sig, recipient);
            && Enabled(u, s, e)
            && Next(u, s, e) == s.(l1 := Next(u, s, e).l1)
            && Next(u, s, e).l1.events == s.l1.events + [CoinOf(u.c, sig, recipient)]
            && Next(u, s, e).l1.sol <= s.l1.sol + 1 && Next(u, s, e).l1.totalDeposited <= s.l1.totalDeposited + 1
            && forall m :: Next(u, s, e).l1.Vault(m) <= s.l1.Vault(m) + 1
  {
  }

  /** Two coin deposits, the first sent to the receipt address of the second. */
  lemma TwoCoins(c: Config, accounts: Accounts, a: Deposit, b: Deposit)
    requires WellFormed(accounts) && CreditsGas(c, a) && CreditsGas(c, b)
    requires Receipt(a.sig) !in accounts && a.sig != b.sig && a.recipient == Receipt(b.sig)
    ensures AllCreditable(c, {}, accounts, [a, b]) && Credited(c, {}, accounts, [a, b]) == [a]
    ensures Receipt(b.sig) in CreditAll(c, {}, accounts, [a, b])
  {
    assert [a, b][..1] == [a] && [a][..0] == [];
    OneCreditable(c, {}, accounts, a);
    assert Credited(c, {}, accounts, [a]) == [] + [a];
    assert Receipt(b.sig) in CreditAll(c, {}, accounts, [a]);
    assert Credited(c, {}, accounts, [a, b]) == [a] + [];
  }

  /** Both land and are fetched. */
  lemma CoinsArrive(u: Setup, a: Deposit, b: Deposit) returns (events: seq<Event>)
    requires a == CoinOf(u.c, a.sig, a.recipient) && b == CoinOf(u.c, b.sig, b.recipient) && a.sig != b.sig
    ensures Runs(u, events)
    ensures var s := After(u, events); s == Start(u).(queue := [a, b], l1 := s.l1) && s.l1.events == [a, b]
  {
    hide Enabled, Next, RootOf, CoinEvent;
    var e0, e1, e2 := CoinEvent(u.c, a.sig, a.recipient), CoinEvent(u.c, b.sig, b.recipient), Fetched([a, b]);
    CoinLands(u, Start(u), a.sig, a.recipient);
    RunExtends(u, [], e0);
    var s1 := Next(u, Start(u), e0);
    assert s1.l1.events == [a] && Sigs(s1.l1.events) == [a.sig];
    CoinLands(u, s1, b.sig, b.recipient);
    RunExtends(u, [] + [e0], e1);
    var s2 := Next(u, s1, e1);
    assert s2.l1.events == [a, b];
    FetchStep(u, s2, [a, b]);
    events := [] + [e0] + [e1] + [e2];
    RunExtends(u, [] + [e0] + [e1], e2);
    assert [] + [a, b] == [a, b];
  }

  /** A run that ends with a suppressed deposit. */
  lemma SuppressedDeposit(u: Setup) returns (events: seq<Event>, d: Deposit)
    requires ValidSetup(u)
    ensures Runs(u, events) && Suppressed(After(u, events), d)
  {
    hide Enabled, Next, AllCreditable, CreditAll, Credited, Determined, Runs, After, Suppressed, WellFormed, RootOf;
    var a, b := CoinOf(u.c, [], Receipt([0])), CoinOf(u.c, [0], Wallet(ZERO_HASH));
    var before := CoinsArrive(u, a, b);
    var s := After(u, before);
    GenesisWellFormed(u);
    assert Receipt([]) !in u.genesis;
    TwoCoins(u.c, u.genesis, a, b);
    assert Determined([]) by { SameTxDetermined([], Transaction([], [], [])); }
    EmptyWorkEnabled(u, s);
    RunExtends(u, before, Committed(NO_WORK));
    OneCredit(u, s, a, b);
    events, d := before + [Committed(NO_WORK)], b;
  }

  lemma FetchStep(u: Setup, s: World, ds: seq<Deposit>)
    requires forall d | d in ds :: d in s.l1.events
    ensures Enabled(u, s, Fetched(ds)) && Next(u, s, Fetched(ds)) == s.(queue := s.queue + ds)
  {
  }

  lemma OneCredit(u: Setup, s: World, a: Deposit, b: Deposit)
    requires Enabled(u, s, Committed(NO_WORK)) && s.queue == [a, b] && s.chain.credits == []
    requires WellFormed(s.chain.accounts) && AllCreditable(u.c, {}, s.chain.accounts, [a, b])
    requires Credited(u.c, {}, s.chain.accounts, [a, b]) == [a] &&
             Receipt(b.sig) in CreditAll(u.c, {}, s.chain.accounts, [a, b])
    requires a.sig != b.sig && b in s.l1.events
    ensures Suppressed(Next(u, s, Committed(NO_WORK)), b)
  {
    hide Enabled, Next, AllCreditable, CreditAll, Credited, WellFormed;
    EmptyWorkNext(u, s);
    assert [] + [a] == [a] && Sigs([a]) == [a.sig];
  }

  // ----- blocks with nothing but other writes --------------------------------

  /** A block of other transactions leaves what they leave. */
  lemma WritesOnly(u: Setup, s: World, svm: Writes)
    requires s.queue == [] && s.pending == [] && Determined(Flat(s.chain.blocks))
    requires WellFormed(View(s.chain.accounts, svm)) && KeepsMints(s.chain.accounts, svm)
    ensures var k := Work(svm, [], []);
            && Enabled(u, s, Committed(k))
            && var t := Next(u, s, Committed(k));
               && t == s.(chain := t.chain) && t.chain.accounts == Merge(s.chain.accounts, svm)
               && t.chain.credits == s.chain.credits
  {
    hide WellFormed, Determined, Flat, RecordAll, ForeignIn, ErasedAfter, KeepsMints;
    var k := Work(svm, [], []);
    assert Withdraws([]) == [] by { NothingSucceeds(map[]); }
    assert BlockOf(u.c, s.chain.accounts, [], k) == [] && s.chain.credits + [] == s.chain.credits;
    assert Flat(s.chain.blocks) + [] == Flat(s.chain.blocks);
    MergeIsView(s.chain.accounts, svm);
    assert StillGone(u.c, s.chain.accounts, [], k) == Deletions(svm);
  }

  /** An ordinary transfer, or an unshield, to the receipt address of a deposit not
      yet credited suppresses it as well. */
  lemma TransferSuppresses(u: Setup, events: seq<Event>, d: Deposit, lamports: U64)
    requires ValidSetup(u) && Runs(u, events)
    requires var s := After(u, events);
             s.queue == [] && s.pending == [] && d in s.l1.events && d.sig !in Sigs(s.chain.credits)
    ensures var e := Committed(Work(map[Receipt(d.sig) := Some(Account(lamports, Plain))], [], []));
            Runs(u, events + [e]) && Suppressed(After(u, events + [e]), d)
  {
    hide Enabled, Next, Runs, After, Determined, Flat;
    var s := After(u, events);
    ReachableShape(u, events);
    var svm := map[Receipt(d.sig) := Some(Account(lamports, Plain))];
    assert Deletions(svm) == {};
    assert WellFormed(View(s.chain.accounts, svm)) by {
      assert View(s.chain.accounts, svm) == s.chain.accounts[Receipt(d.sig) := Account(lamports, Plain)];
      assert forall m | HasMint(s.chain.accounts, m) :: HasMint(View(s.chain.accounts, svm), m);
    }
    WritesOnly(u, s, svm);
    RunExtends(u, events, Committed(Work(svm, [], [])));
  }

  // ----- a deleted receipt ---------------------------------------------------

  /** What the watcher and the next block do when a deposit has no receipt. */
  function Refetch(d: Deposit): (more: seq<Event>) {
    [Dropped, Fetched([d]), Committed(NO_WORK)]
  }

  lemma RefetchSteps(u: Setup, s: World, d: Deposit)
    requires s.pending == [] && d in s.l1.events && WellFormed(s.chain.accounts) && Determined(Flat(s.chain.blocks))
    requires Creditable(u.c, {}, s.chain.accounts, d)
    ensures var fetched := s.(queue := [d]);
            && Enabled(u, s.(queue := []), Fetched([d])) && Next(u, s.(queue := []), Fetched([d])) == fetched
            && Enabled(u, fetched, Committed(NO_WORK)) && StepFair(u, fetched, Committed(NO_WORK))
            && var t := Next(u, fetched, Committed(NO_WORK));
               && t == s.(chain := t.chain, queue := [])
               && t.chain.accounts == Credit(u.c, {}, s.chain.accounts, d)
               && t.chain.credits == s.chain.credits + if Receipt(d.sig) in s.chain.accounts then [] else [d]
  {
    hide Enabled, Next, WellFormed, Determined, Flat, Credit, Creditable, AllCreditable, CreditAll, StepFair, Credited;
    FetchStep(u, s.(queue := []), [d]);
    assert [] + [d] == [d];
    OneCreditable(u.c, {}, s.chain.accounts, d);
    EmptyWorkEnabled(u, s.(queue := [d]));
    EmptyWorkNext(u, s.(queue := [d]));
    OneCredited(u.c, s.chain.accounts, d);
  }

  lemma OneCredited(c: Config, accounts: Accounts, d: Deposit)
    requires WellFormed(accounts) && AllCreditable(c, {}, accounts, [d])
    ensures Credited(c, {}, accounts, [d]) == if Receipt(d.sig) in accounts then [] else [d]
  {
    hide WellFormed, Creditable, Credit;
    assert [d][..0] == [];
    NoneListed(c, accounts, []);
    assert Credited(c, {}, accounts, [d]) == [] + if Receipt(d.sig) in accounts then [] else [d];
  }

  lemma NoneListed(c: Config, accounts: Accounts, none: seq<Deposit>)
    requires WellFormed(accounts) && none == []
    ensures AllCreditable(c, {}, accounts, none)
    ensures CreditAll(c, {}, accounts, none) == accounts && Credited(c, {}, accounts, none) == []
  {
  }

  /** From any reachable state, fetching a deposit and committing a block credits it,
      for the first time or once more, exactly when its receipt is absent. */
  lemma RefetchCreditsIff(u: Setup, events: seq<Event>, d: Deposit)
    requires ValidSetup(u) && Runs(u, events)
    requires var s := After(u, events);
             s.pending == [] && d in s.l1.events && Creditable(u.c, {}, s.chain.accounts, d)
    ensures Runs(u, events + Refetch(d))
    ensures var s, t := After(u, events), After(u, events + Refetch(d));
            && t == s.(chain := t.chain, queue := [])
            && WellFormed(s.chain.accounts) && t.chain.accounts == Credit(u.c, {}, s.chain.accounts, d)
            && t.chain.credits == s.chain.credits + if Receipt(d.sig) in s.chain.accounts then [] else [d]
  {
    hide Enabled, Next, Runs, After, Determined, Flat, WellFormed, Credit, Creditable, StepFair;
    var s := After(u, events);
    ReachableShape(u, events);
    RefetchSteps(u, s, d);
    DropStep(u, s);
    RunExtendsBy3(u, events, Dropped, Fetched([d]), Committed(NO_WORK));
  }

  lemma ReachableShape(u: Setup, events: seq<Event>)
    requires ValidSetup(u) && Runs(u, events)
    ensures WellFormed(After(u, events).chain.accounts) && Determined(Flat(After(u, events).chain.blocks))
  {
    hide Runs, After, RecordAll, BurnedIn, Determined, Flat, Consistent, AllIn, StoredRoot, RootOf, WellFormed;
    RunsKeepDeposits(u, events);
    RunsKeepTree(u, events);
  }

  lemma RunExtendsBy3(u: Setup, events: seq<Event>, e0: Event, e1: Event, e2: Event)
    requires Runs(u, events) && Enabled(u, After(u, events), e0) && Enabled(u, Next(u, After(u, events), e0), e1)
    requires Enabled(u, Next(u, Next(u, After(u, events), e0), e1), e2)
    ensures Runs(u, events + [e0, e1, e2])
    ensures After(u, events + [e0, e1, e2]) == Next(u, Next(u, Next(u, After(u, events), e0), e1), e2)
  {
    hide Enabled, Next, Runs, After;
    RunExtends(u, events, e0);
    RunExtends(u, events + [e0], e1);
    RunExtends(u, events + [e0] + [e1], e2);
    assert events + [e0, e1, e2] == events + [e0] + [e1] + [e2];
  }

  lemma DropStep(u: Setup, s: World)
    ensures Enabled(u, s, Dropped) && Next(u, s, Dropped) == s.(queue := [])
  {
  }

  // ----- one token on its way ------------------------------------------------

  /** One token of a mint deposited on L1 for an L2 wallet. */
  function TokenEvent(m: H256, sig: Signature): Event {
    SplDeposited(sig, m, true, 9, 1, 1, Wallet(ZERO_HASH))
  }

  function TokenOf(m: H256, sig: Signature): Deposit {
    Deposit(sig, Some(m), 9, 1, Wallet(ZERO_HASH))
  }

  lemma TokenLands(u: Setup, s: World, m: H256, sig: Signature)
    requires sig !in Sigs(s.l1.events) && s.l1.Vault(m) <= 1
    ensures var e := TokenEvent(m, sig);
            && Enabled(u, s, e)
            && Next(u, s, e) == s.(l1 := Next(u, s, e).l1)
            && Next(u, s, e).l1.events == s.l1.events + [TokenOf(m, sig)]
            && Next(u, s, e).l1.Vault(m) == s.l1.Vault(m) + 1
  {
  }

  /** The accounts once it is credited. */
  function WithToken(accounts: Accounts, m: H256, sig: Signature): Accounts {
    accounts[WrappedMint(m) := Account(MINT_RENT, Mint(1, 9))]
            [Ata(Wallet(ZERO_HASH), m) := Account(TOKEN_RENT, Token(m, Wallet(ZERO_HASH), 1))]
            [Receipt(sig) := Account(0, Marker(1, Wallet(ZERO_HASH)))]
  }

  lemma FirstToken(c: Config, accounts: Accounts, m: H256, sig: Signature)
    requires WellFormed(accounts) && Backable(c, m) && forall a | a in accounts :: a.Wallet?
    ensures var d := TokenOf(m, sig);
            Creditable(c, {}, accounts, d) && Credit(c, {}, accounts, d) == WithToken(accounts, m, sig)
  {
    assert WrappedMint(m) !in accounts && Ata(Wallet(ZERO_HASH), m) !in accounts && Receipt(sig) !in accounts;
  }

  /** A run that deposits one token and credits it. */
  lemma TokenArrives(u: Setup, m: H256) returns (events: seq<Event>)
    requires ValidSetup(u) && Backable(u.c, m)
    ensures Runs(u, events)
    ensures var s := After(u, events);
            && s.queue == [] && s.pending == [] && s.l1.events == [TokenOf(m, [])] && s.l1.Vault(m) == 1
            && s.chain.credits == [TokenOf(m, [])] && s.chain.accounts == WithToken(u.genesis, m, [])
  {
    hide Enabled, Next, Backable, Credit, Creditable, WellFormed, RootOf;
    var d := TokenOf(m, []);
    GenesisWellFormed(u);
    FirstToken(u.c, u.genesis, m, []);
    TokenLands(u, Start(u), m, []);
    RunExtends(u, [], TokenEvent(m, []));
    var before := [] + [TokenEvent(m, [])];
    assert [] + [d] == [d];
    RefetchCreditsIff(u, before, d);
    events := before + Refetch(d);
  }

  /** A transaction that lists the receipt address as writable deletes the receipt,
      because it holds no coins. The deposit is then credited again, and the vault
      no longer covers the supply. */
  lemma DeletedReceiptCreditsTwice(u: Setup, m: H256) returns (events: seq<Event>, d: Deposit)
    requires ValidSetup(u) && Backable(u.c, m)
    ensures Runs(u, events) && !RunKeeps(u, events)
    ensures var s := After(u, events); s.l1.events == [d] && s.chain.credits == [d, d] && !Covered(s, m)
  {
    hide Enabled, Next, Backable, Credit, Creditable, WellFormed, Runs, After, RunKeeps, Supply;
    hide Determined, Flat;
    d := TokenOf(m, []);
    var before := TokenArrives(u, m);
    var s := After(u, before);
    var svm: Writes := map[Receipt([]) := None];
    ReachableShape(u, before);
    assert View(s.chain.accounts, svm) == s.chain.accounts && Deletions(svm) == {Receipt([])};
    WritesOnly(u, s, svm);
    var e := Committed(Work(svm, [], []));
    RunExtends(u, before, e);
    var t := After(u, before + [e]);
    assert t.chain.accounts == WithToken(u.genesis, m, []) - {Receipt([])};
    ReachableShape(u, before + [e]);
    SecondToken(u, m);
    RefetchCreditsIff(u, before + [e], d);
    events := before + [e] + Refetch(d);
    assert [d] + [d] == [d, d];
    SigListed([d], d);
    NotKept(u, before, e, Refetch(d));
  }

  lemma SecondToken(u: Setup, m: H256)
    requires Backable(u.c, m)
    requires WellFormed(WithToken(u.genesis, m, []) - {Receipt([])})
    ensures var accounts, d := WithToken(u.genesis, m, []) - {Receipt([])}, TokenOf(m, []);
            && Creditable(u.c, {}, accounts, d) && Receipt([]) !in accounts
            && Supply(Credit(u.c, {}, accounts, d), m) == 2
  {
  }

  lemma {:induction false} NotKept(u: Setup, before: seq<Event>, e: Event, more: seq<Event>)
    requires Runs(u, before) && Runs(u, before + [e] + more) && !StepKeeps(After(u, before), e)
    ensures !RunKeeps(u, before + [e] + more)
  {
    hide Enabled, Next, Start, StepKeeps;
    var all := before + [e] + more;
    if more == [] {
      assert all == before + [e] && all[..|all| - 1] == before;
    } else {
      assert all[..|all| - 1] == before + [e] + more[..|more| - 1];
      NotKept(u, before, e, more[..|more| - 1]);
    }
  }

  // ----- in and out in one block ---------------------------------------------

  /** Coins can leave in the block that credits them: deposits come before
      withdrawals. */
  lemma SameBlockExit(c: Config, accounts: Accounts, d: Deposit, x: WithdrawTx)
    requires WellFormed(accounts) && Parse(x.tx) == Some(x) && CreditsGas(c, d) && Receipt(d.sig) !in accounts
    requires d.recipient == Wallet(x.payer) && d.recipient !in accounts
    requires x.w.asset == NATIVE_ASSET && 0 < x.w.amount && d.amount >= x.w.amount + FEE
    ensures var k := Work(map[], [], [x.tx]);
            && Buildable(c, accounts, [d], k)
            && NewlyCredited(c, accounts, [d], k) == [d] && NewlyBurned(c, accounts, [d], k) == [x.w]
  {
    hide WellFormed, Withdraw, Parse, WithdrawAll, Burned, Withdraws, Credit, Creditable, AllCreditable, CreditAll;
    var k := Work(map[], [], [x.tx]);
    assert View(accounts, map[]) == accounts && Deletions(k.svm) == {};
    CoinForPayer(c, accounts, d, x);
    OneCreditable(c, {}, accounts, d);
    OneCredited(c, accounts, d);
    WithdrawsOne(x);
    var after := Credit(c, {}, accounts, d);
    WithdrawAllOne(c, after, x);
    CoinsCovered(c, after, x);
  }

  lemma CoinForPayer(c: Config, accounts: Accounts, d: Deposit, x: WithdrawTx)
    requires WellFormed(accounts) && CreditsGas(c, d) && Receipt(d.sig) !in accounts
    requires d.recipient == Wallet(x.payer) && d.recipient !in accounts
    ensures Creditable(c, {}, accounts, d)
    ensures var after := Credit(c, {}, accounts, d);
            Wallet(x.payer) in after && after[Wallet(x.payer)].lamports == d.amount
  {
  }

  // ----- a replayed withdrawal -----------------------------------------------

  lemma WithdrawsOne(x: WithdrawTx)
    requires Parse(x.tx) == Some(x)
    ensures Withdraws([x.tx]) == [x]
  {
    hide Parse;
    assert [x.tx] == TxsOf([x]);
    WithdrawsOfTxs([x]);
  }

  lemma WithdrawAllOne(c: Config, accounts: Accounts, x: WithdrawTx)
    requires WellFormed(accounts)
    ensures var after := Withdraw(c, accounts, x);
            && WithdrawAll(c, accounts, [x]) == Withdrawn(if after.Some? then after.value else accounts, [after.Some?])
            && Burned([x], [after.Some?]) == if after.Some? then [x.w] else []
  {
    hide Withdraw, WellFormed;
    assert [x][..0] == [] && [x][..1] == [x];
    WithdrawAllNext(c, accounts, [x], 0);
    var ok := Withdraw(c, accounts, x).Some?;
    assert [] + [ok] == [ok];
    BurnedNext(c, [x], 0, [], ok);
  }

  /** A block of one withdrawal on accounts nobody else writes. */
  lemma OneWithdrawal(c: Config, accounts: Accounts, x: WithdrawTx)
    requires WellFormed(accounts) && Parse(x.tx) == Some(x)
    ensures var k := Work(map[], [], [x.tx]);
            && Buildable(c, accounts, [], k)
            && var after := Withdraw(c, accounts, x);
               && AccountsAfter(c, accounts, [], k) == (if after.Some? then after.value else accounts)
               && BlockOf(c, accounts, [], k) == [Entry(x.tx, after.Some?)]
               && NewlyBurned(c, accounts, [], k) == if after.Some? then [x.w] else []
  {
    hide WellFormed, Withdraw, Parse, WithdrawAll, Burned, BurnTouches, Withdraws;
    assert View(accounts, map[]) == accounts;
    WithdrawsOne(x);
    WithdrawAllOne(c, accounts, x);
    var ok := Withdraw(c, accounts, x).Some?;
    assert [] + EntriesOf([x], [ok]) == [Entry(x.tx, ok)];
  }

  /** The payer can cover the withdrawal once and no more. */
  ghost predicate CoversOnce(c: Config, accounts: Accounts, x: WithdrawTx) {
    && x.w.asset == NATIVE_ASSET && 0 < x.w.amount && x.w.amount + FEE <= U64_MAX
    && x.payer != c.collector
    && Wallet(x.payer) in accounts && accounts[Wallet(x.payer)].lamports == x.w.amount + FEE
  }

  lemma SecondFails(c: Config, accounts: Accounts, x: WithdrawTx)
    requires WellFormed(accounts) && CoversOnce(c, accounts, x)
    ensures Withdraw(c, accounts, x).Some? && Withdraw(c, Withdraw(c, accounts, x).value, x).None?
  {
  }

  lemma WithdrawalStep(u: Setup, s: World, x: WithdrawTx)
    requires WellFormed(s.chain.accounts) && Parse(x.tx) == Some(x) && s.queue == [] && s.pending == []
    requires forall e | e in Flat(s.chain.blocks) :: e.tx == x.tx
    ensures var k := Work(map[], [], [x.tx]);
            var after := Withdraw(u.c, s.chain.accounts, x);
            && Enabled(u, s, Committed(k))
            && var t := Next(u, s, Committed(k));
               && t.chain.accounts == (if after.Some? then after.value else s.chain.accounts)
               && t.chain.blocks == s.chain.blocks + [[Entry(x.tx, after.Some?)]]
               && t.chain.status == s.chain.status[x.tx.sig := after.Some?]
               && t.pending == (if after.Some? then [x.w] else []) && t.queue == [] && t.live == s.live && t.l1 == s.l1
               && t.chain.burned == s.chain.burned + if after.Some? then [x.w] else []
  {
    hide Withdraw, Parse, AccountsAfter, BlockOf, NewlyBurned, WellFormed, Flat, RecordAll;
    var k := Work(map[], [], [x.tx]);
    OneWithdrawal(u.c, s.chain.accounts, x);
    RecordOne(s.chain.status, Entry(x.tx, Withdraw(u.c, s.chain.accounts, x).Some?));
    SameTxDetermined(Flat(s.chain.blocks) + BlockOf(u.c, s.chain.accounts, [], k), x.tx);
  }

  lemma RecordOne(status: map<Signature, bool>, e: Entry)
    ensures RecordAll(status, [e]) == status[e.tx.sig := e.ok]
  {
    assert [e][..0] == [];
  }

  lemma SameTxDetermined(es: seq<Entry>, tx: Transaction)
    requires forall e | e in es :: e.tx == tx
    ensures Determined(es)
  {
    assert forall i | 0 <= i < |es| :: es[i] in es;
  }

  /** A run that includes one withdrawal twice, first successfully and then not. A
      restart loses it: the second outcome overwrote the first. */
  lemma ReplayBreaksRestart(u: Setup, x: WithdrawTx) returns (events: seq<Event>)
    requires ValidSetup(u) && Parse(x.tx) == Some(x) && CoversOnce(u.c, u.genesis, x)
    ensures Runs(u, events)
    ensures var s := After(u, events);
            && !Consistent(Flat(s.chain.blocks)) && s.live + s.pending == [x.w]
            && Next(u, s, Restarted).live == [] && !RebuildsLive(u, s)
  {
    hide Enabled, Next, Withdraw, CoversOnce, Parse, WellFormed;
    var e := Committed(Work(map[], [], [x.tx]));
    GenesisWellFormed(u);
    SecondFails(u.c, u.genesis, x);
    WithdrawalStep(u, Start(u), x);
    RunExtends(u, [], e);
    var s1 := After(u, [] + [e]);
    PublishStep(u, s1);
    RunExtends(u, [] + [e], Published(true));
    var s2 := After(u, [] + [e] + [Published(true)]);
    var first, second := [Entry(x.tx, true)], [Entry(x.tx, false)];
    assert s2.chain.blocks == [] + [first];
    TwoBlocksFlat(first, second);
    WithdrawalStep(u, s2, x);
    RunExtends(u, [] + [e] + [Published(true)], e);
    events := [] + [e] + [Published(true)] + [e];
    var s := After(u, events);
    assert s.live + s.pending == [x.w];
    NothingRebuilt(u, s, x);
  }

  lemma PublishStep(u: Setup, s: World)
    requires s.pending != []
    ensures Enabled(u, s, Published(true))
    ensures var t := Next(u, s, Published(true));
            t.live == s.live + s.pending && t.pending == [] && t.queue == s.queue &&
              t.chain == s.chain.(root := t.chain.root)
  {
    hide RootOf;
  }

  lemma TwoBlocksFlat(a: Block, b: Block)
    ensures Flat([] + [a]) == a && Flat([] + [a] + [b]) == a + b
  {
    assert ([] + [a])[..0] == [] && ([] + [a] + [b])[..1] == [] + [a];
    assert Flat([] + [a]) == [] + a;
  }

  lemma TwoOutcomes(x: WithdrawTx, status: map<Signature, bool>)
    requires Parse(x.tx) == Some(x) && x.tx.sig in status && !status[x.tx.sig]
    ensures var blocks := [] + [[Entry(x.tx, true)]] + [[Entry(x.tx, false)]];
            !Consistent(Flat(blocks)) && Rebuilt(blocks, status) == []
  {
    hide Parse, Rebuilt, Withdraws, Flat;
    var blocks := [] + [[Entry(x.tx, true)]] + [[Entry(x.tx, false)]];
    var es := [Entry(x.tx, true)] + [Entry(x.tx, false)];
    TwoBlocksFlat([Entry(x.tx, true)], [Entry(x.tx, false)]);
    assert es[0].ok && !es[1].ok && es[0].tx.sig == es[1].tx.sig;
    RebuiltFlat(blocks, status);
    assert TxsIn(es) == TxsOf([x, x]);
    WithdrawsOfTxs([x, x]);
    NoneSucceed(x, status);
  }

  lemma NoneSucceed(x: WithdrawTx, status: map<Signature, bool>)
    requires x.tx.sig in status && !status[x.tx.sig]
    ensures Succeeded([x, x], status) == []
  {
    assert [x, x][..1] == [x] && [x][..0] == [];
    assert Succeeded([x], status) == [];
  }

  lemma NothingRebuilt(u: Setup, s: World, x: WithdrawTx)
    requires Parse(x.tx) == Some(x) && s.chain.blocks == [] + [[Entry(x.tx, true)]] + [[Entry(x.tx, false)]]
    requires x.tx.sig in s.chain.status && !s.chain.status[x.tx.sig] && s.live + s.pending == [x.w]
    ensures !Consistent(Flat(s.chain.blocks)) && Next(u, s, Restarted).live == [] && !RebuildsLive(u, s)
  {
    hide Parse, RootOf, Rebuilt, Flat, Consistent, Next;
    TwoOutcomes(x, s.chain.status);
    RestartedState(u, s);
  }

  // ----- a revived token account ---------------------------------------------

  /** The holder of the one token burns it and closes the account. */
  function BurnAndClose(m: H256): Writes {
    map[WrappedMint(m) := Some(Account(MINT_RENT, Mint(0, 9))), Ata(Wallet(ZERO_HASH), m) := None]
  }

  /** A token deposit to that holder in the same block brings the burned token back:
      the holder has it again, and the supply does not count it. */
  lemma RevivedTokensReturn(u: Setup, m: H256) returns (events: seq<Event>)
    requires ValidSetup(u) && Backable(u.c, m)
    ensures Runs(u, events)
    ensures var s := After(u, events);
            && Balance(s.chain.accounts, m, Wallet(ZERO_HASH)) == 2 && Supply(s.chain.accounts, m) == 1
            && !FullyBacked(s, m)
  {
    hide Enabled, Next, Backable, WellFormed, Runs, After, Supply, Holdings, Balance, Sum, AccountsAfter, WorkOk;
    hide Determined, Flat;
    var before := TokenArrives(u, m);
    var d := TokenOf(m, [0]);
    var s := After(u, before);
    assert Sigs(s.l1.events) == [[]];
    TokenLands(u, s, m, [0]);
    RunExtends(u, before, TokenEvent(m, [0]));
    before := before + [TokenEvent(m, [0])];
    FetchStep(u, After(u, before), [d]);
    RunExtends(u, before, Fetched([d]));
    before := before + [Fetched([d])];
    s := After(u, before);
    assert [] + [d] == [d];
    var k := Work(BurnAndClose(m), [], []);
    ReachableShape(u, before);
    ReviveStep(u, s, m);
    RunExtends(u, before, Committed(k));
    events := before + [Committed(k)];
    ReachableShape(u, events);
    HeldWithin(After(u, events).chain.accounts, m, Wallet(ZERO_HASH));
  }

  lemma ReviveStep(u: Setup, s: World, m: H256)
    requires ValidSetup(u) && Backable(u.c, m) && s.queue == [TokenOf(m, [0])] && s.pending == []
    requires s.chain.accounts == WithToken(u.genesis, m, []) && Determined(Flat(s.chain.blocks))
    ensures var k := Work(BurnAndClose(m), [], []);
            && Enabled(u, s, Committed(k))
            && var after := Next(u, s, Committed(k)).chain.accounts;
               && Ata(Wallet(ZERO_HASH), m) in after
               && Balance(after, m, Wallet(ZERO_HASH)) == 2 && Supply(after, m) == 1
  {
    hide Backable, WellFormed, Credit, Balance, Supply, Determined, Flat, RecordAll, ForeignIn, ErasedAfter, Creditable;
    var svm, d := BurnAndClose(m), TokenOf(m, [0]);
    var k, dead, view := Work(svm, [], []), Deletions(svm), View(s.chain.accounts, svm);
    assert dead == {Ata(Wallet(ZERO_HASH), m)};
    assert WellFormed(view) by { HolderWellFormed(u, m); }
    CreditToHolder(u.c, dead, view, m, d);
    OneCreditable(u.c, dead, view, d);
    assert Withdraws([]) == [] by { NothingSucceeds(map[]); }
    assert [d][..0] == [];
    assert BlockOf(u.c, s.chain.accounts, [d], k) == [] && Flat(s.chain.blocks) + [] == Flat(s.chain.blocks);
    assert StillGone(u.c, s.chain.accounts, [d], k) == {} by { TouchesHolder(u.c, dead, view, m, d); }
    assert AccountsAfter(u.c, s.chain.accounts, [d], k) == Credit(u.c, dead, view, d);
  }

  lemma TouchesHolder(c: Config, dead: set<Address>, accounts: Accounts, m: H256, d: Deposit)
    requires WellFormed(accounts) && AllCreditable(c, dead, accounts, [d]) && dead == {Ata(Wallet(ZERO_HASH), m)}
    requires d == TokenOf(m, d.sig) && Backable(c, m) && Receipt(d.sig) !in accounts
    ensures Ata(Wallet(ZERO_HASH), m) in CreditAllTouches(c, dead, accounts, [d])
  {
    assert [d][..0] == [];
    var none: seq<Deposit> := [];
    assert CreditAll(c, dead, accounts, none) == accounts;
  }

  lemma CreditToHolder(c: Config, dead: set<Address>, accounts: Accounts, m: H256, d: Deposit)
    requires Backable(c, m) && d == TokenOf(m, d.sig) && WellFormed(accounts) && !Seen(dead, accounts, d.sig)
    requires WrappedMint(m) in accounts && Ata(d.recipient, m) in accounts
    requires accounts[WrappedMint(m)].data == Mint(0, 9)
    requires accounts[Ata(d.recipient, m)].data == Token(m, d.recipient, 1)
    ensures Creditable(c, dead, accounts, d)
    ensures var after := Credit(c, dead, accounts, d);
            Ata(d.recipient, m) in after && Balance(after, m, d.recipient) == 2 && Supply(after, m) == 1
  {
  }

  lemma HolderWellFormed(u: Setup, m: H256)
    requires ValidSetup(u)
    ensures WellFormed(View(WithToken(u.genesis, m, []), BurnAndClose(m)))
    ensures KeepsMints(WithToken(u.genesis, m, []), BurnAndClose(m))
  {
  }

  /** A holder's balance is part of the holdings. */
  lemma HeldWithin(accounts: Accounts, m: H256, owner: Address)
    requires Ata(owner, m) in accounts && WellFormed(accounts)
    ensures Balance(accounts, m, owner) <= Holdings(accounts, m)
  {
    OverSplit(accounts, TokensOf(m), accounts.Keys, Ata(owner, m));
  }

  // ----- withdrawals the vault cannot pay ------------------------------------

  /** If this withdrawal was burned and not yet claimed, its vault can pay it. */
  ghost predicate Payable(s: World, w: Withdrawal) {
    w in s.chain.burned && ClaimKey(w) !in s.l1.claims ==>
      w.amount <= if w.asset == NATIVE_ASSET then s.l1.sol else s.l1.Vault(w.asset)
  }

  lemma BackedIsPayable(u: Setup, events: seq<Event>, w: Withdrawal)
    requires ValidSetup(u) && Trusted(u, events) && Backable(u.c, w.asset)
    ensures Payable(After(u, events), w)
  {
    hide Runs, After, RunAsked, RunFair, NoCollision, Sum, Supply, Holdings, DepositOf;
    var asked :| NoCollision(u.b3, asked) && RunAsked(u, asked, events);
    var s := After(u, events);
    RunsKeepExits(u, asked, events);
    AlwaysBacked(u, asked, events, w.asset);
    if w in s.chain.burned && ClaimKey(w) !in s.l1.claims {
      RoomForOne(s, w);
    }
  }

  /** A block of one withdrawal is fair. */
  lemma OneWithdrawalFair(u: Setup, s: World, x: WithdrawTx)
    ensures StepFair(u, s, Committed(Work(map[], [], [x.tx])))
  {
    hide DepositReads, WithdrawReads;
    var k := Work(map[], [], [x.tx]);
    assert Merge(s.chain.accounts, k.svm) == s.chain.accounts && Deletions(k.svm) == {};
    assert (set a | a in s.chain.accounts && Revived(s.chain.accounts, k.svm, a)) == {};
  }

  /** A run goes on with one withdrawal that its payer can cover and its vault
      cannot. */
  lemma BurnUnpaid(u: Setup, before: seq<Event>, x: WithdrawTx) returns (events: seq<Event>)
    requires Runs(u, before) && RunFair(u, before) && forall e | e in before :: !e.Claimed?
    requires var s := After(u, before);
             && WellFormed(s.chain.accounts) && Parse(x.tx) == Some(x) && s.queue == [] && s.pending == []
             && Flat(s.chain.blocks) == [] && Withdraw(u.c, s.chain.accounts, x).Some?
             && s.l1.claims == {}
             && (if x.w.asset == NATIVE_ASSET then s.l1.sol else s.l1.Vault(x.w.asset)) < x.w.amount
    ensures Trusted(u, events) && !Payable(After(u, events), x.w)
  {
    hide Runs, After, RunFair, RunAsked, NoCollision, Enabled, Next, StepFair, Withdraw, Parse, WellFormed, Flat;
    var e := Committed(Work(map[], [], [x.tx]));
    WithdrawalStep(u, After(u, before), x);
    OneWithdrawalFair(u, After(u, before), x);
    RunExtends(u, before, e);
    events := before + [e];
    FairExtends(u, before, e);
    NoClaimsTrusted(u, events);
  }

  lemma CoinsCovered(c: Config, accounts: Accounts, x: WithdrawTx)
    requires WellFormed(accounts) && IsNative(c, x.w.asset) && 0 < x.w.amount
    requires Wallet(x.payer) in accounts && accounts[Wallet(x.payer)].lamports >= x.w.amount + FEE
    ensures Withdraw(c, accounts, x).Some?
  {
  }

  lemma TokenCovered(c: Config, accounts: Accounts, x: WithdrawTx)
    requires WellFormed(accounts) && !IsNative(c, x.w.asset) && 0 < x.w.amount
    requires Wallet(x.payer) in accounts && accounts[Wallet(x.payer)].lamports >= FEE
    requires Balance(accounts, x.w.asset, Wallet(x.payer)) >= x.w.amount
    ensures Withdraw(c, accounts, x).Some?
  {
  }

  /** Coins of genesis burned for SOL or for the gas mint, and wrapped SOL while a
      gas mint is set, leave withdrawals that nothing on L1 backs. */
  lemma UnbackedIsUnpaid(u: Setup, x: WithdrawTx) returns (events: seq<Event>)
    requires ValidSetup(u) && Parse(x.tx) == Some(x) && 0 < x.w.amount && !Backable(u.c, x.w.asset)
    requires Wallet(x.payer) in u.genesis && u.genesis[Wallet(x.payer)].lamports >= x.w.amount + FEE
    ensures Trusted(u, events) && !Payable(After(u, events), x.w)
  {
    hide Withdraw, Parse, WellFormed, Flat, Credit, Creditable, Balance, Supply, RootOf, Trusted, Payable;
    GenesisWellFormed(u);
    if IsNative(u.c, x.w.asset) {
      CoinsCovered(u.c, u.genesis, x);
      var none: seq<Block> := [];
      assert Flat(none) == [] by { NothingFlat(); }
      events := BurnUnpaid(u, [], x);
    } else {
      var d := Deposit([], None, 9, x.w.amount, Wallet(x.payer));
      var before := WrappedSolArrives(u, d);
      FirstIssue(u.c, u.genesis, d);
      TokenCovered(u.c, After(u, before).chain.accounts, x);
      events := BurnUnpaid(u, before, x);
    }
  }

  lemma NothingFlat()
    ensures Flat([]) == []
  {
  }

  /** In every trusted run a burned withdrawal can be paid, exactly when its asset
      is neither native nor the gas mint, nor wrapped SOL beside a gas mint. */
  lemma PayableIff(u: Setup, x: WithdrawTx)
    requires ValidSetup(u) && Parse(x.tx) == Some(x) && 0 < x.w.amount
    requires Wallet(x.payer) in u.genesis && u.genesis[Wallet(x.payer)].lamports >= x.w.amount + FEE
    ensures (forall events | Trusted(u, events) :: Payable(After(u, events), x.w)) <==> Backable(u.c, x.w.asset)
  {
    hide Runs, After, RunAsked, RunFair, NoCollision, Parse, Backable, Payable;
    if Backable(u.c, x.w.asset) {
      forall events | Trusted(u, events) ensures Payable(After(u, events), x.w) {
        BackedIsPayable(u, events, x.w);
      }
    } else {
      var events := UnbackedIsUnpaid(u, x);
    }
  }
}
