/** Money across the two chains: L1 never releases more than L2 burned, and the
    vault of a mint covers its wrapped supply. */
module Exits {
  import opened Common
  import opened Bytes
  import opened SparseProof
  import opened Ledger
  import opened Withdrawals
  import opened WithdrawTxs
  import opened Bridge
  import opened Backing
  import opened Chain
  import opened SettlementProgram
  import opened TwoChains

  // ----- exits ---------------------------------------------------------------

  function ClaimKey(w: Withdrawal): (H256, U64) {
    (w.recipient, w.nonce)
  }

  /** Every payout was burned on L2, and none was paid twice. */
  ghost predicate ExitInv(s: World) {
    && (forall w | w in s.l1.paid :: w in s.chain.burned && ClaimKey(w) in s.l1.claims)
    && (forall i, j | 0 <= i < j < |s.l1.paid| :: ClaimKey(s.l1.paid[i]) != ClaimKey(s.l1.paid[j]))
  }

  /** Every string a claim hashes, against any tree the node ever stored, is among
      those on which the hash is trusted not to collide. */
  ghost predicate StepAsked(u: Setup, asked: iset<seq<Byte>>, s: World, e: Event) {
    e.Claimed? ==> forall log | log in s.trees :: ClaimAsked(u.b3, asked, log, e.w, e.proof)
  }

  ghost predicate RunAsked(u: Setup, asked: iset<seq<Byte>>, events: seq<Event>)
    requires Runs(u, events)
  {
    events == [] || (RunAsked(u, asked, events[..|events| - 1]) &&
                     StepAsked(u, asked, After(u, events[..|events| - 1]), events[|events| - 1]))
  }

  /** A claim that passes the proof check names a burned withdrawal. */
  lemma ProvedWasBurned(u: Setup, asked: iset<seq<Byte>>, s: World, no: nat, w: Withdrawal, proof: SmtProof)
    requires TreeInv(u, s) && no < |s.l1.batches| && Claimable(u.b3, s.l1.batches[no].withdrawalsRoot, w, proof)
    requires NoCollision(u.b3, asked) && forall log | log in s.trees :: ClaimAsked(u.b3, asked, log, w, proof)
    ensures w in s.chain.burned
  {
    hide RootOf, Claimable, ClaimAsked, NoCollision, Flat, RecordAll, BurnedIn, Consistent, Determined, LastAtItsPlace;
    assert s.l1.batches[no] in s.l1.batches;
    var log :| log in s.trees && s.l1.batches[no].withdrawalsRoot == RootOf(u.b3, log);
    ClaimWasBurned(u.b3, asked, log, w, proof);
    assert AllIn(log, s.chain.burned);
  }

  lemma ClaimExits(u: Setup, asked: iset<seq<Byte>>, s: World, e: Event)
    requires TreeInv(u, s) && ExitInv(s) && Enabled(u, s, e) && e.Claimed?
    requires NoCollision(u.b3, asked) && StepAsked(u, asked, s, e)
    ensures ExitInv(Next(u, s, e))
  {
    hide TreeInv, Claimable, ClaimAsked, NoCollision;
    ProvedWasBurned(u, asked, s, e.no, e.w, e.proof);
    assert forall w | w in s.l1.paid :: ClaimKey(w) != ClaimKey(e.w);
    assert forall i | 0 <= i < |s.l1.paid| :: s.l1.paid[i] in s.l1.paid;
  }

  lemma NextExits(u: Setup, asked: iset<seq<Byte>>, s: World, e: Event)
    requires TreeInv(u, s) && ExitInv(s) && Enabled(u, s, e)
    requires NoCollision(u.b3, asked) && StepAsked(u, asked, s, e)
    ensures ExitInv(Next(u, s, e))
  {
    hide TreeInv, NoCollision, StepAsked, Rebuilt, WorkOk, NewlyBurned, Claimable, RootOf;
    if e.Claimed? {
      ClaimExits(u, asked, s, e);
    }
  }

  lemma {:induction false} RunsKeepExits(u: Setup, asked: iset<seq<Byte>>, events: seq<Event>)
    requires Runs(u, events) && NoCollision(u.b3, asked) && RunAsked(u, asked, events)
    ensures ExitInv(After(u, events))
  {
    hide TreeInv, Enabled, Next, NoCollision, StepAsked;
    if events != [] {
      var before := events[..|events| - 1];
      RunsKeepExits(u, asked, before);
      RunsKeepTree(u, before);
      NextExits(u, asked, After(u, before), events[|events| - 1]);
    }
  }

  /** L1 released at most what L2 burned of this asset. */
  ghost predicate ExitsCovered(s: World, asset: H256) {
    Sum(s.l1.paid, AmountOf(asset)) <= Sum(s.chain.burned, AmountOf(asset))
  }

  lemma PaidWithinBurned(s: World, asset: H256)
    requires ExitInv(s)
    ensures ExitsCovered(s, asset)
  {
    assert Distinct(s.l1.paid);
    SumWithin(s.l1.paid, s.chain.burned, AmountOf(asset));
  }

  /** Over every run, what L1 released of an asset never exceeds what L2 burned
      of it, even when recipients and nonces repeat or tree paths collide. */
  lemma ExitSafety(u: Setup, asked: iset<seq<Byte>>, events: seq<Event>, asset: H256)
    requires Runs(u, events) && NoCollision(u.b3, asked) && RunAsked(u, asked, events)
    ensures ExitsCovered(After(u, events), asset)
  {
    hide Runs, After, RunAsked, NoCollision, Sum;
    RunsKeepExits(u, asked, events);
    PaidWithinBurned(After(u, events), asset);
  }

  // ----- the program's own books ---------------------------------------------

  ghost function SolOf(): Deposit -> nat {
    (d: Deposit) => if d.mint.None? then d.amount else 0
  }

  /** Batches are numbered in order with proper ranges, the running total is that
      of the SOL deposits, and the SOL vault holds at least those less the native
      withdrawals paid. */
  ghost predicate ProgramInv(s: L1) {
    && (forall i | 0 <= i < |s.batches| :: s.batches[i].no == i && s.batches[i].first <= s.batches[i].last)
    && Sum(s.events, SolOf()) == s.totalDeposited
    && s.sol + Sum(s.paid, AmountOf(NATIVE_ASSET)) >= s.totalDeposited
  }

  lemma NextProgram(u: Setup, s: World, e: Event)
    requires ProgramInv(s.l1) && Enabled(u, s, e)
    ensures ProgramInv(Next(u, s, e).l1)
  {
    hide WorkOk, Commit, NewlyBurned, Rebuilt, Claimable, RootOf, Sum;
    match e
    case SolDeposited(sig, amount, to) => SumAppend(s.l1.events, Deposit(sig, None, 9, amount, to), SolOf());
    case SplDeposited(sig, mint, _, decimals, _, received, to) =>
      SumAppend(s.l1.events, Deposit(sig, Some(mint), decimals, received, to), SolOf());
    case Claimed(_, w, _) => SumAppend(s.l1.paid, w, AmountOf(NATIVE_ASSET));
    case _ =>
  }

  /** Over every run the program's records stay consistent. */
  lemma {:induction false} ProgramConsistent(u: Setup, events: seq<Event>)
    requires Runs(u, events)
    ensures ProgramInv(After(u, events).l1)
  {
    hide Enabled, Next;
    if events != [] {
      ProgramConsistent(u, events[..|events| - 1]);
      NextProgram(u, After(u, events[..|events| - 1]), events[|events| - 1]);
    }
  }

  // ----- backing -------------------------------------------------------------

  /** What the other transactions of a block must leave to the bridge: they issue
      no wrapped tokens and delete no receipt of a credited deposit, and the bridge
      reads no other account they deleted. */
  ghost predicate StepFair(u: Setup, s: World, e: Event) {
    e.Committed? ==>
      && StepKeeps(s, e)
      && ReadsLive(u.c, s.chain.accounts, s.queue, e.work)
      && forall m :: SvmKeeps(s.chain.accounts, Merge(s.chain.accounts, e.work.svm), m)
  }

  ghost predicate SvmKeeps(before: Accounts, after: Accounts, m: H256) {
    && Supply(after, m) <= Supply(before, m)
    && (Supply(before, m) == Holdings(before, m) ==> Supply(after, m) == Holdings(after, m))
  }

  /** The pool's own token moves issue nothing. */
  lemma PoolMoveKeeps(accounts: Accounts, l1: H256, from: Address, to: Address, amount: U64, m: H256)
    requires WellFormed(accounts) && HasMint(accounts, l1) && Settable(accounts, l1, from) && Settable(accounts, l1, to)
    requires amount <= Balance(accounts, l1, from) && Holdings(accounts, l1) <= U64_MAX
    ensures SvmKeeps(accounts, MoveToken(accounts, l1, from, to, amount), m)
  {
    hide Supply, Holdings, MoveToken;
    MoveKeepsTotals(accounts, l1, from, to, amount, m);
  }

  ghost predicate RunFair(u: Setup, events: seq<Event>)
    requires Runs(u, events)
  {
    events == [] || (RunFair(u, events[..|events| - 1]) &&
                     StepFair(u, After(u, events[..|events| - 1]), events[|events| - 1]))
  }

  lemma {:induction false} FairKeeps(u: Setup, events: seq<Event>)
    requires Runs(u, events) && RunFair(u, events)
    ensures RunKeeps(u, events)
  {
    hide Enabled, Next, Start, ReadsLive, SvmKeeps, StepKeeps;
    if events != [] {
      FairKeeps(u, events[..|events| - 1]);
      StepFairKeeps(u, After(u, events[..|events| - 1]), events[|events| - 1]);
    }
  }

  lemma StepFairKeeps(u: Setup, s: World, e: Event)
    requires StepFair(u, s, e)
    ensures StepKeeps(s, e)
  {
  }

  /** The books of one mint across both chains: the vault holds at least the
      deposits less the payouts, and the L2 supply is what was credited less what
      was burned. */
  ghost predicate BooksInv(s: World, m: H256) {
    && s.l1.Vault(m) + Sum(s.l1.paid, AmountOf(m)) >= Sum(s.l1.events, DepositOf(m))
    && Balanced(s.chain.accounts, m, Sum(s.chain.credits, DepositOf(m)), Sum(s.chain.burned, AmountOf(m)))
  }

  lemma {:induction false} NothingHeld(accounts: Accounts, m: H256, keys: set<Address>)
    requires keys <= accounts.Keys && forall a | a in keys :: !accounts[a].data.Token?
    ensures Over(accounts, TokensOf(m), keys) == 0
    decreases keys
  {
    if keys != {} {
      var a :| a in keys;
      OverSplit(accounts, TokensOf(m), keys, a);
      NothingHeld(accounts, m, keys - {a});
    }
  }

  lemma StartBooks(u: Setup, m: H256)
    requires ValidSetup(u)
    ensures BooksInv(Start(u), m)
  {
    NothingHeld(u.genesis, m, u.genesis.Keys);
  }

  lemma CommitBooks(u: Setup, s: World, k: Work, m: H256)
    requires DepositInv(s) && LogOnce(s.chain.accounts, s.chain.credits, s.l1.events)
    requires ExitInv(s) && BooksInv(s, m) && Backable(u.c, m)
    requires Enabled(u, s, Committed(k)) && StepFair(u, s, Committed(k))
    ensures BooksInv(Next(u, s, Committed(k)), m)
  {
    hide WellFormed, Merge, View, CreditAll, Credited, WithdrawAll, LogOnce, Withdraws, Sum, Balanced, AmountOf;
    hide DepositOf, Burned, Backable, Enabled, Next, RecordAll, EntriesOf, ExitInv, AccountsAfter, ReadsLive;
    hide AllCreditable, Written, ForeignIn, ErasedAfter, StepKeeps, Deletions, StillGone, KeepsMints;
    hide Determined;
    CommittedState(u, s, k);
    BuiltOnMerged(u.c, s.chain.accounts, s.queue, k);
    var dead, base := Deletions(k.svm), Merge(s.chain.accounts, k.svm);
    var burned := Sum(s.chain.burned, AmountOf(m));
    MergeReceipts(s, k);
    SvmBalanced(s.chain.accounts, k.svm, m, Sum(s.chain.credits, DepositOf(m)), burned);
    PaidWithinBurned(s, m);
    CreditAllBalanced(u.c, dead, base, s.chain.credits, s.l1.events, s.queue, m, burned);
    var after, credits := CreditAll(u.c, dead, base, s.queue), s.chain.credits + Credited(u.c, dead, base, s.queue);
    WithdrawAllBalanced(u.c, after, Withdraws(k.txs), m, Sum(credits, DepositOf(m)), burned);
    SumSplit(s.chain.burned, NewlyBurned(u.c, s.chain.accounts, s.queue, k), AmountOf(m));
  }

  /** The receipts of credited deposits survive the other transactions. */
  lemma MergeReceipts(s: World, k: Work)
    requires LogOnce(s.chain.accounts, s.chain.credits, s.l1.events) && StepKeeps(s, Committed(k))
    ensures LogOnce(Merge(s.chain.accounts, k.svm), s.chain.credits, s.l1.events)
  {
  }

  lemma SvmBalanced(accounts: Accounts, svm: Writes, m: H256, issued: nat, burned: nat)
    requires SvmKeeps(accounts, Merge(accounts, svm), m) && Balanced(accounts, m, issued, burned)
    requires WellFormed(Merge(accounts, svm))
    ensures Balanced(Merge(accounts, svm), m, issued, burned)
  {
    hide WellFormed, Merge, Supply, Holdings;
  }

  lemma DepositBooks(u: Setup, s: World, e: Event, m: H256)
    requires BooksInv(s, m) && Enabled(u, s, e) && (e.SolDeposited? || e.SplDeposited?)
    ensures BooksInv(Next(u, s, e), m)
  {
    hide DepositStep, Balanced, DepositOf, AmountOf;
    var d := DepositStepAppends(s.l1, e);
    assert (s.l1.events + [d])[..|s.l1.events|] == s.l1.events;
  }

  lemma ClaimBooks(u: Setup, s: World, e: Event, m: H256)
    requires BooksInv(s, m) && m != NATIVE_ASSET && Enabled(u, s, e) && e.Claimed?
    ensures BooksInv(Next(u, s, e), m)
  {
    hide Balanced, DepositOf, Claimable;
    ClaimPaysExactly(u.b3, s.l1, e.no, e.w, e.proof, m);
    assert (s.l1.paid + [e.w])[..|s.l1.paid|] == s.l1.paid;
  }

  lemma NextBooks(u: Setup, s: World, e: Event, m: H256)
    requires DepositInv(s) && LogOnce(s.chain.accounts, s.chain.credits, s.l1.events)
    requires ExitInv(s) && BooksInv(s, m) && Backable(u.c, m) && Enabled(u, s, e) && StepFair(u, s, e)
    ensures BooksInv(Next(u, s, e), m)
  {
    hide DepositInv, LogOnce, ExitInv, WorkOk, Commit, NewlyBurned, Rebuilt, Claimable, Balanced, Sum, RootOf, StepFair;
    match e
    case Committed(k) => CommitBooks(u, s, k, m);
    case SolDeposited(_, _, _) => DepositBooks(u, s, e, m);
    case SplDeposited(_, _, _, _, _, _, _) => DepositBooks(u, s, e, m);
    case Claimed(_, _, _) => ClaimBooks(u, s, e, m);
    case _ =>
  }

  lemma {:induction false} RunsKeepBooks(u: Setup, asked: iset<seq<Byte>>, events: seq<Event>, m: H256)
    requires ValidSetup(u) && Backable(u.c, m)
    requires Runs(u, events) && NoCollision(u.b3, asked) && RunAsked(u, asked, events) && RunFair(u, events)
    ensures BooksInv(After(u, events), m)
  {
    hide BooksInv, DepositInv, ExitInv, Enabled, Next, NoCollision, StepAsked, StepFair, Backable, Start, LogOnce;
    hide RunKeeps;
    if events == [] {
      StartBooks(u, m);
    } else {
      var before := events[..|events| - 1];
      RunsKeepBooks(u, asked, before, m);
      RunsKeepDeposits(u, before);
      FairKeeps(u, before);
      RunsKeepOnce(u, before);
      RunsKeepExits(u, asked, before);
      NextBooks(u, After(u, before), events[|events| - 1], m);
    }
  }

  /** The wrapped supply equals the sum of all token accounts, and the L1 vault
      covers it together with every deposit still to be credited and every burn
      still to be claimed. */
  ghost predicate FullyBacked(s: World, m: H256) {
    var uncredited := Sum(s.l1.events, DepositOf(m)) - Sum(s.chain.credits, DepositOf(m));
    var unclaimed := Sum(s.chain.burned, AmountOf(m)) - Sum(s.l1.paid, AmountOf(m));
    && Supply(s.chain.accounts, m) == Holdings(s.chain.accounts, m)
    && uncredited >= 0 && unclaimed >= 0
    && s.l1.Vault(m) >= Supply(s.chain.accounts, m) + uncredited + unclaimed
  }

  /** Over every run. */
  lemma AlwaysBacked(u: Setup, asked: iset<seq<Byte>>, events: seq<Event>, m: H256)
    requires ValidSetup(u) && Backable(u.c, m)
    requires Runs(u, events) && NoCollision(u.b3, asked) && RunAsked(u, asked, events) && RunFair(u, events)
    ensures FullyBacked(After(u, events), m)
  {
    hide Runs, After, RunAsked, RunFair, RunKeeps, NoCollision, Sum, WellFormed, Supply, Holdings, DepositOf, AmountOf;
    var s := After(u, events);
    RunsKeepBooks(u, asked, events, m);
    RunsKeepExits(u, asked, events);
    PaidWithinBurned(s, m);
    FairKeeps(u, events);
    CreditedExactlyOnce(u, events);
    SumWithin(s.chain.credits, s.l1.events, DepositOf(m));
  }

  /** So a claim of a backable mint that passes the proof check and comes for the
      first time is never refused for lack of funds. */
  lemma ClaimIsPayable(u: Setup, asked: iset<seq<Byte>>, events: seq<Event>, no: nat, w: Withdrawal, proof: SmtProof)
    requires ValidSetup(u) && Backable(u.c, w.asset)
    requires Runs(u, events) && NoCollision(u.b3, asked) && RunAsked(u, asked, events) && RunFair(u, events)
    requires StepAsked(u, asked, After(u, events), Claimed(no, w, proof))
    ensures Claim(u.b3, After(u, events).l1, no, w, proof) != Err(TransferFailed)
  {
    hide Runs, After, RunAsked, RunFair, NoCollision, Sum, Supply, Holdings, DepositOf, ClaimAsked, TreeInv, Claimable;
    var s := After(u, events);
    if Claim(u.b3, s.l1, no, w, proof) == Err(TransferFailed) {
      RunsKeepTree(u, events);
      ProvedWasBurned(u, asked, s, no, w, proof);
      RunsKeepExits(u, asked, events);
      AlwaysBacked(u, asked, events, w.asset);
      RoomForOne(s, w);
    }
  }

  lemma RoomForOne(s: World, w: Withdrawal)
    requires ExitInv(s) && w in s.chain.burned && ClaimKey(w) !in s.l1.claims
    ensures Sum(s.l1.paid, AmountOf(w.asset)) + w.amount <= Sum(s.chain.burned, AmountOf(w.asset))
  {
    hide Sum;
    var all := s.l1.paid + [w];
    forall i, j | 0 <= i < j < |all| ensures all[i] != all[j] {
      assert all[i] in s.l1.paid;
    }
    SumWithin(all, s.chain.burned, AmountOf(w.asset));
    SumAppend(s.l1.paid, w, AmountOf(w.asset));
  }

  // ----- which mints are backed ----------------------------------------------

  ghost predicate Covered(s: World, m: H256) {
    s.l1.Vault(m) >= Supply(s.chain.accounts, m)
  }

  /** A run in which the hash does not collide on the strings it uses and the
      other transactions are fair to the bridge. */
  ghost predicate Trusted(u: Setup, events: seq<Event>) {
    Runs(u, events) && RunFair(u, events) && exists asked :: NoCollision(u.b3, asked) && RunAsked(u, asked, events)
  }

  /** Nobody ever issues the wrapped token of this mint. */
  ghost predicate NeverIssued(c: Config, m: H256) {
    c.gasMint == Some(m) && m != WSOL
  }

  lemma CreditIssuesNothing(c: Config, dead: set<Address>, accounts: Accounts, d: Deposit, m: H256)
    requires WellFormed(accounts) && Creditable(c, dead, accounts, d) && NeverIssued(c, m)
    ensures Supply(Credit(c, dead, accounts, d), m) == Supply(accounts, m)
  {
  }

  lemma {:induction false} CreditsIssueNothing(c: Config, dead: set<Address>, accounts: Accounts, ds: seq<Deposit>,
                                               m: H256)
    requires WellFormed(accounts) && AllCreditable(c, dead, accounts, ds) && NeverIssued(c, m)
    ensures Supply(CreditAll(c, dead, accounts, ds), m) == Supply(accounts, m)
  {
    hide Credit, WellFormed, Supply, NeverIssued, Creditable;
    if ds != [] {
      CreditsIssueNothing(c, dead, accounts, ds[..|ds| - 1], m);
      CreditIssuesNothing(c, dead, CreditAll(c, dead, accounts, ds[..|ds| - 1]), ds[|ds| - 1], m);
    }
  }

  lemma {:induction false} WithdrawsIssueNothing(c: Config, accounts: Accounts, xs: seq<WithdrawTx>, m: H256)
    requires WellFormed(accounts)
    ensures Supply(WithdrawAll(c, accounts, xs).accounts, m) <= Supply(accounts, m)
  {
    hide WellFormed, Withdraw, Supply;
    if xs != [] {
      var n := |xs| - 1;
      WithdrawsIssueNothing(c, accounts, xs[..n], m);
      var before := WithdrawAll(c, accounts, xs[..n]).accounts;
      if Withdraw(c, before, xs[n]).Some? {
        WithdrawIssuesNothing(c, before, xs[n], m);
      }
    }
  }

  lemma WithdrawIssuesNothing(c: Config, accounts: Accounts, x: WithdrawTx, m: H256)
    requires WellFormed(accounts) && Withdraw(c, accounts, x).Some?
    ensures Supply(Withdraw(c, accounts, x).value, m) <= Supply(accounts, m)
  {
  }

  lemma GenesisIssuesNothing(u: Setup, m: H256)
    requires ValidSetup(u)
    ensures Supply(u.genesis, m) == 0
  {
    assert !WrappedMint(m).Wallet?;
  }

  lemma {:induction false} RunsNeverIssue(u: Setup, events: seq<Event>, m: H256)
    requires ValidSetup(u) && Runs(u, events) && RunFair(u, events) && NeverIssued(u.c, m)
    ensures Supply(After(u, events).chain.accounts, m) == 0
  {
    hide NeverIssued, StepFair, Commit, NewlyBurned, Supply, Claimable, Rebuilt, RootOf, WorkOk;
    if events == [] {
      GenesisIssuesNothing(u, m);
    } else {
      var before, e := events[..|events| - 1], events[|events| - 1];
      RunsNeverIssue(u, before, m);
      if e.Committed? {
        CommitIssuesNothing(u, After(u, before), e.work, m);
      }
    }
  }

  lemma CommitIssuesNothing(u: Setup, s: World, k: Work, m: H256)
    requires Enabled(u, s, Committed(k)) && StepFair(u, s, Committed(k)) && NeverIssued(u.c, m)
    requires Supply(s.chain.accounts, m) == 0
    ensures Supply(Next(u, s, Committed(k)).chain.accounts, m) == 0
  {
    hide NeverIssued, WellFormed, CreditAll, WithdrawAll, Merge, View, Supply, Withdraws, Credited, Burned;
    hide Enabled, Next;
    hide AllCreditable, ReadsLive, AccountsAfter, Determined;
    CommittedState(u, s, k);
    BuiltOnMerged(u.c, s.chain.accounts, s.queue, k);
    var dead, base := Deletions(k.svm), Merge(s.chain.accounts, k.svm);
    assert SvmKeeps(s.chain.accounts, base, m);
    CreditsIssueNothing(u.c, dead, base, s.queue, m);
    WithdrawsIssueNothing(u.c, CreditAll(u.c, dead, base, s.queue), Withdraws(k.txs), m);
  }

  /** Wrapped SOL while a gas mint is set: a SOL deposit fills the SOL vault but
      issues the token of the wrapped-SOL mint, whose vault stays empty. */
  lemma WrappedSolIsUnbacked(u: Setup) returns (events: seq<Event>)
    requires ValidSetup(u) && u.c.gasMint.Some?
    ensures Trusted(u, events) && !Covered(After(u, events), WSOL)
  {
    hide Runs, After, RunFair, RunAsked, NoCollision, Supply, Credit, Creditable, WellFormed;
    var d := Deposit([], None, 9, 1, Wallet(ZERO_HASH));
    events := WrappedSolArrives(u, d);
    FirstIssue(u.c, u.genesis, d);
    NoClaimsTrusted(u, events);
  }

  /** A run in which one SOL deposit lands, is fetched and is credited. */
  lemma WrappedSolArrives(u: Setup, d: Deposit) returns (events: seq<Event>)
    requires ValidSetup(u) && u.c.gasMint.Some? && d == Deposit([], None, 9, d.amount, d.recipient) && 0 < d.amount
    ensures Runs(u, events) && RunFair(u, events) && forall e | e in events :: !e.Claimed?
    ensures var s := After(u, events);
            && WellFormed(u.genesis) && Creditable(u.c, {}, u.genesis, d)
            && s == Start(u).(chain := s.chain, l1 := s.l1) && s.chain.accounts == Credit(u.c, {}, u.genesis, d)
            && s.chain.burned == [] && Flat(s.chain.blocks) == [] && s.l1.claims == {} && s.l1.vaults == map[]
  {
    hide Commit, NewlyBurned, WorkOk, RootOf, StepFair, Credit, Creditable, WellFormed, Credited, AllCreditable;
    var e0, e1, e2 := SolDeposited([], d.amount, d.recipient), Fetched([d]), Committed(NO_WORK);
    var s2 := SolArrives(u, d);
    GenesisWellFormed(u);
    FirstIssue(u.c, u.genesis, d);
    OneCreditable(u.c, {}, u.genesis, d);
    EmptyWorkEnabled(u, s2);
    EmptyWorkNext(u, s2);
    RunOf3(u, e0, e1, e2);
    events := [e0, e1, e2];
  }

  /** A block with no other transactions. */
  const NO_WORK := Work(map[], [], [])

  lemma GenesisWellFormed(u: Setup)
    requires ValidSetup(u)
    ensures WellFormed(u.genesis)
  {
  }

  lemma OneCreditable(c: Config, dead: set<Address>, accounts: Accounts, d: Deposit)
    requires WellFormed(accounts) && Creditable(c, dead, accounts, d)
    ensures AllCreditable(c, dead, accounts, [d]) && CreditAll(c, dead, accounts, [d]) == Credit(c, dead, accounts, d)
  {
    assert [d][..0] == [];
  }

  /** One SOL deposit lands and is fetched. */
  lemma SolArrives(u: Setup, d: Deposit) returns (s: World)
    requires d == Deposit([], None, 9, d.amount, d.recipient) && 0 < d.amount
    ensures var e0, e1 := SolDeposited([], d.amount, d.recipient), Fetched([d]);
            && Enabled(u, Start(u), e0) && Enabled(u, Next(u, Start(u), e0), e1)
            && s == Next(u, Next(u, Start(u), e0), e1)
            && s == Start(u).(queue := [d], l1 := s.l1) && s.l1.vaults == map[] && s.l1.claims == {}
  {
    hide RootOf;
    var e0, e1 := SolDeposited([], d.amount, d.recipient), Fetched([d]);
    assert DepositStep(Start(u).l1, e0).value.events == [] + [d];
    s := Next(u, Next(u, Start(u), e0), e1);
    assert [] + [d] == [d];
  }

  lemma NothingDeleted()
    ensures Deletions(NO_WORK.svm) == {}
  {
  }

  /** With nothing but deposits, a block is built on the accounts as they are, and
      is fair. */
  lemma EmptyWorkEnabled(u: Setup, s: World)
    requires s.pending == [] && WellFormed(s.chain.accounts) && AllCreditable(u.c, {}, s.chain.accounts, s.queue)
    requires Determined(Flat(s.chain.blocks))
    ensures Enabled(u, s, Committed(NO_WORK)) && StepFair(u, s, Committed(NO_WORK))
  {
    hide AllCreditable, WellFormed, Determined, Flat;
    NothingDeleted();
    assert View(s.chain.accounts, map[]) == s.chain.accounts == Merge(s.chain.accounts, map[]);
    assert Withdraws([]) == [] by { NothingSucceeds(map[]); }
    assert BlockOf(u.c, s.chain.accounts, s.queue, NO_WORK) == [];
    assert Flat(s.chain.blocks) + [] == Flat(s.chain.blocks);
    NothingRevived(u.c, s.chain.accounts, s.queue);
  }

  /** It credits the queue and does nothing else. */
  lemma EmptyWorkNext(u: Setup, s: World)
    requires Enabled(u, s, Committed(NO_WORK))
    requires WellFormed(s.chain.accounts) && AllCreditable(u.c, {}, s.chain.accounts, s.queue)
    ensures var t := Next(u, s, Committed(NO_WORK));
            && t == s.(chain := t.chain, queue := [], pending := [])
            && t.chain.accounts == CreditAll(u.c, {}, s.chain.accounts, s.queue)
            && t.chain.credits == s.chain.credits + Credited(u.c, {}, s.chain.accounts, s.queue)
            && t.chain.burned == s.chain.burned && Flat(t.chain.blocks) == Flat(s.chain.blocks)
  {
    hide AllCreditable, WellFormed, Determined, Enabled, Next, CreditAll, Credited, RecordAll, ForeignIn, ErasedAfter;
    CommittedState(u, s, NO_WORK);
    NothingDeleted();
    assert View(s.chain.accounts, map[]) == s.chain.accounts;
    assert Withdraws([]) == [] by { NothingSucceeds(map[]); }
    assert (s.chain.blocks + [[]])[..|s.chain.blocks|] == s.chain.blocks;
    var b := BlockOf(u.c, s.chain.accounts, s.queue, NO_WORK);
    assert b == [] && Flat(s.chain.blocks) + [] == Flat(s.chain.blocks) && s.chain.burned + [] == s.chain.burned;
  }

  lemma NothingRevived(c: Config, accounts: Accounts, queue: seq<Deposit>)
    ensures ReadsLive(c, accounts, queue, NO_WORK)
  {
    assert (set a | a in accounts && Revived(accounts, NO_WORK.svm, a)) == {};
    assert Withdraws([]) == [] by { NothingSucceeds(map[]); }
  }

  lemma RunOf3(u: Setup, e0: Event, e1: Event, e2: Event)
    requires Enabled(u, Start(u), e0) && Enabled(u, Next(u, Start(u), e0), e1)
    requires Enabled(u, Next(u, Next(u, Start(u), e0), e1), e2)
    requires !e0.Committed? && !e1.Committed? && StepFair(u, Next(u, Next(u, Start(u), e0), e1), e2)
    ensures Runs(u, [e0, e1, e2]) && After(u, [e0, e1, e2]) == Next(u, Next(u, Next(u, Start(u), e0), e1), e2)
    ensures RunFair(u, [e0, e1, e2])
  {
    hide Enabled, Next, Start, ReadsLive;
    assert [] + [e0] == [e0] && [e0] + [e1] == [e0, e1] && [e0, e1] + [e2] == [e0, e1, e2];
    RunExtends(u, [], e0);
    RunExtends(u, [e0], e1);
    RunExtends(u, [e0, e1], e2);
    FairExtends(u, [], e0);
    FairExtends(u, [e0], e1);
    FairExtends(u, [e0, e1], e2);
  }

  lemma FairExtends(u: Setup, events: seq<Event>, e: Event)
    requires Runs(u, events + [e]) && Runs(u, events) && RunFair(u, events) && StepFair(u, After(u, events), e)
    ensures RunFair(u, events + [e])
  {
    hide StepFair, Runs, After;
    assert (events + [e])[..|events|] == events;
  }

  lemma {:induction false} NoClaimsAsked(u: Setup, asked: iset<seq<Byte>>, events: seq<Event>)
    requires Runs(u, events) && forall e | e in events :: !e.Claimed?
    ensures RunAsked(u, asked, events)
  {
    hide Enabled, Next, Start;
    if events != [] {
      NoClaimsAsked(u, asked, events[..|events| - 1]);
      assert events[|events| - 1] in events;
    }
  }

  lemma NoClaimsTrusted(u: Setup, events: seq<Event>)
    requires Runs(u, events) && RunFair(u, events) && forall e | e in events :: !e.Claimed?
    ensures Trusted(u, events)
  {
    hide Runs, RunAsked, RunFair;
    var none: iset<seq<Byte>> := iset{};
    NoClaimsAsked(u, none, events);
    assert NoCollision(u.b3, none);
  }

  lemma FirstIssue(c: Config, accounts: Accounts, d: Deposit)
    requires WellFormed(accounts) && forall a | a in accounts :: a.Wallet?
    requires c.gasMint.Some? && d.mint.None?
    ensures Creditable(c, {}, accounts, d)
    ensures var after := Credit(c, {}, accounts, d);
            && Supply(after, WSOL) == Balance(after, WSOL, d.recipient) == d.amount
            && forall a | a in accounts :: a in after && after[a] == accounts[a]
  {
    assert WrappedMint(WSOL) !in accounts && Receipt(d.sig) !in accounts && Ata(d.recipient, WSOL) !in accounts;
  }

  /** The vault of a mint covers its wrapped supply in every run exactly when it
      is not wrapped SOL on a chain with a gas mint. */
  lemma BackedIff(u: Setup, m: H256)
    requires ValidSetup(u) && m != NATIVE_ASSET
    ensures (forall events | Trusted(u, events) :: Covered(After(u, events), m)) <==> u.c.gasMint.None? || m != WSOL
  {
    hide Runs, After, RunAsked, RunFair, NoCollision, Sum, Supply, Holdings, Covered;
    if u.c.gasMint.None? || m != WSOL {
      forall events | Trusted(u, events) ensures Covered(After(u, events), m) {
        CoveredInRun(u, events, m);
      }
    } else {
      var events := WrappedSolIsUnbacked(u);
    }
  }

  lemma CoveredInRun(u: Setup, events: seq<Event>, m: H256)
    requires ValidSetup(u) && m != NATIVE_ASSET && (u.c.gasMint.None? || m != WSOL) && Trusted(u, events)
    ensures Covered(After(u, events), m)
  {
    hide Runs, After, RunAsked, RunFair, NoCollision, Sum, Supply, Holdings;
    var asked :| NoCollision(u.b3, asked) && RunAsked(u, asked, events);
    if Backable(u.c, m) {
      AlwaysBacked(u, asked, events, m);
    } else {
      RunsNeverIssue(u, events, m);
    }
  }
}
