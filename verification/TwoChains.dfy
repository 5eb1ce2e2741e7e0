/** The two chains together: L1 deposits, posts and claims interleaved with L2
    blocks, publications of the withdrawals root, crashes and restarts. */
module TwoChains {
  import opened Common
  import opened Bytes
  import opened SparseProof
  import opened Hashing
  import opened Ledger
  import opened Withdrawals
  import opened WithdrawTxs
  import opened Bridge
  import opened Backing
  import opened Chain
  import opened SettlementProgram

  datatype Setup = Setup(b3: Blake3, c: Config, authority: H256, genesis: Accounts)

  /** `chain` and `l1` are durable. The deposit queue, the withdrawals in the tree
      (`live`) and those not yet published live in memory. `sent` are batch posts
      on their way to L1. `trees` is history: the log behind every root the node
      ever stored. */
  datatype World = World(
    l1: L1,
    chain: Chain,
    queue: seq<Deposit>,
    live: seq<Withdrawal>,
    pending: seq<Withdrawal>,
    sent: seq<Batch>,
    trees: seq<seq<Withdrawal>>)

  datatype Event =
    | SolDeposited(sig: Signature, amount: U64, recipient: Address)
    | SplDeposited(sig: Signature, mint: H256, safe: bool, decimals: nat, amount: U64, received: U64,
                   recipient: Address)
    | Donated(token: Option<H256>, amount: U64)
    | Fetched(deposits: seq<Deposit>)        // the watcher queues deposits it read from L1, again if it likes
    | Committed(work: Work)                  // a block with the whole queue
    | Published(persisted: bool)             // its leaves enter the tree; storing the root may fail
    | Dropped                                // a block and the deposits it drained are lost before the commit
    | Restarted                              // memory is lost and rebuilt
    | Sent(batch: Batch)                     // the batcher reads the stored root and posts
    | Landed(i: nat)                         // a post arrives, now or late, perhaps never
    | PostedBy(signer: H256, batch: Batch)   // somebody else posts whatever they like
    | Claimed(no: nat, w: Withdrawal, proof: SmtProof)

  function DepositStep(s: L1, e: Event): Result<L1>
    requires e.SolDeposited? || e.SplDeposited?
  {
    if e.SolDeposited? then DepositSol(s, e.sig, e.amount, e.recipient)
    else DepositSpl(s, e.sig, e.mint, e.safe, e.decimals, e.amount, e.received, e.recipient)
  }

  /** Nobody deletes mints, accounts keep their shapes, only withdrawals parse as
      such, and a signature belongs to one transaction. A block in which a credit
      panics is never committed. Anybody may write to or delete receipts. */
  ghost predicate WorkOk(c: Config, s: Chain, queue: seq<Deposit>, k: Work) {
    && KeepsMints(s.accounts, k.svm)
    && (forall e | e in k.included :: Parse(e.tx).None?)
    && Buildable(c, s.accounts, queue, k)
    && Determined(Flat(s.blocks) + BlockOf(c, s.accounts, queue, k))
  }

  ghost predicate Enabled(u: Setup, s: World, e: Event) {
    match e
    case SolDeposited(sig, _, _) => sig !in Sigs(s.l1.events) && DepositStep(s.l1, e).Ok?
    case SplDeposited(sig, _, _, _, _, _, _) => sig !in Sigs(s.l1.events) && DepositStep(s.l1, e).Ok?
    case Donated(mint, amount) => Donate(s.l1, mint, amount).Ok?
    case Fetched(ds) => forall d | d in ds :: d in s.l1.events
    case Committed(k) => s.pending == [] && WorkOk(u.c, s.chain, s.queue, k)
    case Published(_) => s.pending != []
    case Dropped => true
    case Restarted => true
    case Sent(b) => b.withdrawalsRoot == s.chain.root
    case Landed(i) => i < |s.sent| && PostBatch(s.l1, u.authority, s.sent[i]).Ok?
    case PostedBy(signer, b) => signer != u.authority && PostBatch(s.l1, signer, b).Ok?
    case Claimed(no, w, proof) => Claim(u.b3, s.l1, no, w, proof).Ok?
  }

  ghost function Next(u: Setup, s: World, e: Event): World
    requires Enabled(u, s, e)
  {
    match e
    case SolDeposited(_, _, _) => s.(l1 := DepositStep(s.l1, e).value)
    case SplDeposited(_, _, _, _, _, _, _) => s.(l1 := DepositStep(s.l1, e).value)
    case Donated(mint, amount) => s.(l1 := Donate(s.l1, mint, amount).value)
    case Fetched(ds) => s.(queue := s.queue + ds)
    case Committed(k) =>
      s.(chain := Commit(u.c, s.chain, s.queue, k), queue := [],
         pending := NewlyBurned(u.c, s.chain.accounts, s.queue, k))
    case Published(persisted) =>
      var published := s.(live := s.live + s.pending, pending := []);
      if persisted then Stored(u, published) else published
    case Dropped => s.(queue := [])
    case Restarted => Stored(u, s.(queue := [], pending := [], live := Rebuilt(s.chain.blocks, s.chain.status)))
    case Sent(b) => s.(sent := s.sent + [b])
    case Landed(i) => s.(l1 := PostBatch(s.l1, u.authority, s.sent[i]).value)
    case PostedBy(signer, b) => s.(l1 := PostBatch(s.l1, signer, b).value)
    case Claimed(no, w, proof) => s.(l1 := Claim(u.b3, s.l1, no, w, proof).value)
  }

  /** The root of the live tree goes to disk. */
  ghost function Stored(u: Setup, s: World): World {
    s.(chain := s.chain.(root := RootOf(u.b3, s.live)), trees := s.trees + [s.live])
  }

  ghost predicate ValidSetup(u: Setup) {
    forall a | a in u.genesis :: a.Wallet? && !u.genesis[a].data.Token?
  }

  ghost function Start(u: Setup): World {
    World(L1(u.authority, [], 0, 0, map[], {}, [], []),
          Chain(u.genesis, [], map[], RootOf(u.b3, []), [], [], {}, {}), [], [], [], [], [[]])
  }

  ghost predicate Runs(u: Setup, events: seq<Event>)
    decreases |events|, 0
  {
    events == [] || (Runs(u, events[..|events| - 1]) &&
                     Enabled(u, After(u, events[..|events| - 1]), events[|events| - 1]))
  }

  ghost function After(u: Setup, events: seq<Event>): World
    requires Runs(u, events)
    decreases |events|, 1
  {
    if events == [] then Start(u) else Next(u, After(u, events[..|events| - 1]), events[|events| - 1])
  }

  lemma RunExtends(u: Setup, events: seq<Event>, e: Event)
    requires Runs(u, events) && Enabled(u, After(u, events), e)
    ensures Runs(u, events + [e]) && After(u, events + [e]) == Next(u, After(u, events), e)
  {
    hide Enabled, Next, Start;
    assert (events + [e])[..|events|] == events;
  }

  /** What a commit is, once enabled. */
  lemma CommittedState(u: Setup, s: World, k: Work)
    requires Enabled(u, s, Committed(k))
    ensures s.pending == [] && WorkOk(u.c, s.chain, s.queue, k) && Buildable(u.c, s.chain.accounts, s.queue, k)
    ensures Next(u, s, Committed(k)) ==
            s.(chain := Commit(u.c, s.chain, s.queue, k), queue := [],
               pending := NewlyBurned(u.c, s.chain.accounts, s.queue, k))
  {
    hide Commit, NewlyBurned, Buildable, Determined;
  }

  /** What a restart leaves. */
  lemma RestartedState(u: Setup, s: World)
    ensures var t := Next(u, s, Restarted);
            var log := Rebuilt(s.chain.blocks, s.chain.status);
            t.queue == [] && t.pending == [] && t.live == log && t.chain == s.chain.(root := RootOf(u.b3, log))
  {
    hide Rebuilt, RootOf;
  }

  // ----- deposits ------------------------------------------------------------

  /** Only L1 deposits are queued or credited, and every receipt has a writer: the
      credit of its signature, or somebody else. */
  ghost predicate DepositInv(s: World) {
    && WellFormed(s.chain.accounts)
    && Distinct(Sigs(s.l1.events))
    && (forall d | d in s.queue :: d in s.l1.events)
    && (forall d | d in s.chain.credits :: d in s.l1.events)
    && (forall sig :: Receipt(sig) in s.chain.accounts <==> Written(s.chain, sig) && sig !in s.chain.erased)
  }

  ghost predicate Written(s: Chain, sig: Signature) {
    sig in Sigs(s.credits) || sig in s.foreign
  }

  lemma StartDeposits(u: Setup)
    requires ValidSetup(u)
    ensures DepositInv(Start(u))
  {
  }

  lemma DepositStepAppends(s: L1, e: Event) returns (d: Deposit)
    requires (e.SolDeposited? || e.SplDeposited?) && DepositStep(s, e).Ok?
    ensures d.sig == e.sig && d.recipient == e.recipient && d.mint == if e.SplDeposited? then Some(e.mint) else None
    ensures DepositStep(s, e).value.events == s.events + [d]
    ensures DepositStep(s, e).value.(events := s.events, sol := s.sol, totalDeposited := s.totalDeposited,
                                     vaults := s.vaults) == s
    ensures forall m :: DepositStep(s, e).value.Vault(m) == s.Vault(m) + DepositOf(m)(d)
  {
    var events := DepositStep(s, e).value.events;
    d := events[|s.events|];
  }

  lemma CommitDeposits(u: Setup, s: World, k: Work)
    requires DepositInv(s) && Enabled(u, s, Committed(k))
    ensures DepositInv(Next(u, s, Committed(k)))
  {
    hide WellFormed, Credited, AccountsAfter, StillGone, ForeignIn, Determined, View, Enabled, Next, AllCreditable;
    CommittedState(u, s, k);
    CommitWellFormed(u.c, s.chain.accounts, s.queue, k);
    CreditedListed(u.c, Deletions(k.svm), View(s.chain.accounts, k.svm), s.queue);
    var more := NewlyCredited(u.c, s.chain.accounts, s.queue, k);
    assert Sigs(s.chain.credits + more) == Sigs(s.chain.credits) + Sigs(more);
    var t := Next(u, s, Committed(k)).chain;
    forall sig ensures Receipt(sig) in t.accounts <==> Written(t, sig) && sig !in t.erased {
      CommitReceipts(u.c, s.chain, s.queue, k, sig);
      var gone := StillGone(u.c, s.chain.accounts, s.queue, k);
      assert sig in ReceiptsIn(gone) <==> Receipt(sig) in gone;
    }
  }

  lemma DepositArrives(u: Setup, s: World, e: Event)
    requires DepositInv(s) && Enabled(u, s, e) && (e.SolDeposited? || e.SplDeposited?)
    ensures DepositInv(Next(u, s, e))
  {
    hide WellFormed, DepositStep, Written;
    var d := DepositStepAppends(s.l1, e);
    assert Sigs(s.l1.events + [d]) == Sigs(s.l1.events) + [d.sig];
  }

  lemma NextDeposits(u: Setup, s: World, e: Event)
    requires DepositInv(s) && Enabled(u, s, e)
    ensures DepositInv(Next(u, s, e))
  {
    hide WellFormed, WorkOk, Commit, NewlyBurned, Rebuilt, RootOf, Claimable;
    match e
    case Committed(k) => CommitDeposits(u, s, k);
    case SolDeposited(_, _, _) => DepositArrives(u, s, e);
    case SplDeposited(_, _, _, _, _, _, _) => DepositArrives(u, s, e);
    case _ =>
  }

  lemma {:induction false} RunsKeepDeposits(u: Setup, events: seq<Event>)
    requires ValidSetup(u) && Runs(u, events)
    ensures DepositInv(After(u, events))
  {
    hide DepositInv, Enabled, Next, Start;
    if events == [] {
      StartDeposits(u);
    } else {
      RunsKeepDeposits(u, events[..|events| - 1]);
      NextDeposits(u, After(u, events[..|events| - 1]), events[|events| - 1]);
    }
  }

  /** Receipts are exactly the credited signatures, in any reachable state, if and
      only if no credited signature is without its receipt since a block deleted
      it, and every other receipt address that somebody wrote to was deleted. */
  lemma ReceiptsIff(u: Setup, events: seq<Event>)
    requires ValidSetup(u) && Runs(u, events)
    ensures var s := After(u, events).chain;
            (forall sig :: Receipt(sig) in s.accounts <==> sig in Sigs(s.credits)) <==>
            && (forall sig | sig in Sigs(s.credits) :: sig !in s.erased)
            && (forall sig | sig in s.foreign && sig !in Sigs(s.credits) :: sig in s.erased)
  {
    hide WellFormed, Runs, After;
    RunsKeepDeposits(u, events);
    var s := After(u, events).chain;
    assert forall sig :: Written(s, sig) <==> sig in Sigs(s.credits) || sig in s.foreign;
  }

  // ----- at most once --------------------------------------------------------

  /** The block's other transactions delete no receipt of a credited deposit. */
  ghost predicate StepKeeps(s: World, e: Event) {
    e.Committed? ==> forall sig | sig in Sigs(s.chain.credits) :: Receipt(sig) !in Deletions(e.work.svm)
  }

  ghost predicate RunKeeps(u: Setup, events: seq<Event>)
    requires Runs(u, events)
  {
    events == [] || (RunKeeps(u, events[..|events| - 1]) &&
                     StepKeeps(After(u, events[..|events| - 1]), events[|events| - 1]))
  }

  lemma CommitOnce(u: Setup, s: World, k: Work)
    requires DepositInv(s) && Enabled(u, s, Committed(k)) && StepKeeps(s, Committed(k))
    requires LogOnce(s.chain.accounts, s.chain.credits, s.l1.events)
    ensures var t := Next(u, s, Committed(k)); LogOnce(t.chain.accounts, t.chain.credits, t.l1.events)
  {
    hide WellFormed, Credited, CreditAll, AccountsAfter, ForeignIn, Determined, Enabled, Next, AllCreditable, Written;
    hide CreditAllTouches, BurnTouches;
    CommittedState(u, s, k);
    var dead, view := Deletions(k.svm), View(s.chain.accounts, k.svm);
    CreditAllLog(u.c, dead, view, s.chain.credits, s.l1.events, s.queue);
    var more := Credited(u.c, dead, view, s.queue);
    assert Sigs(s.chain.credits + more) == Sigs(s.chain.credits) + Sigs(more);
    forall sig | sig in Sigs(s.chain.credits + more)
      ensures Receipt(sig) in AccountsAfter(u.c, s.chain.accounts, s.queue, k)
    {
      CommitReceipts(u.c, s.chain, s.queue, k, sig);
      CreditAllReceipts(u.c, dead, view, s.queue, sig);
    }
  }

  lemma NextOnce(u: Setup, s: World, e: Event)
    requires DepositInv(s) && Enabled(u, s, e) && StepKeeps(s, e)
    requires LogOnce(s.chain.accounts, s.chain.credits, s.l1.events)
    ensures var t := Next(u, s, e); LogOnce(t.chain.accounts, t.chain.credits, t.l1.events)
  {
    hide DepositInv, StepKeeps, WorkOk, Commit, NewlyBurned, Rebuilt, RootOf, Claimable;
    match e
    case Committed(k) => CommitOnce(u, s, k);
    case SolDeposited(_, _, _) => var d := DepositStepAppends(s.l1, e);
    case SplDeposited(_, _, _, _, _, _, _) => var d := DepositStepAppends(s.l1, e);
    case _ =>
  }

  lemma {:induction false} RunsKeepOnce(u: Setup, events: seq<Event>)
    requires ValidSetup(u) && Runs(u, events) && RunKeeps(u, events)
    ensures var s := After(u, events); LogOnce(s.chain.accounts, s.chain.credits, s.l1.events)
  {
    hide DepositInv, StepKeeps, Enabled, Next;
    if events != [] {
      var before := events[..|events| - 1];
      RunsKeepOnce(u, before);
      RunsKeepDeposits(u, before);
      NextOnce(u, After(u, before), events[|events| - 1]);
    }
  }

  /** An L1 deposit is credited at most once, only L1 deposits are, and every
      credit has its receipt. */
  ghost predicate OnceCredited(s: World) {
    && Distinct(Sigs(s.chain.credits)) && Distinct(s.chain.credits)
    && (forall d | d in s.chain.credits :: d in s.l1.events && Receipt(d.sig) in s.chain.accounts)
  }

  /** Whatever is fetched again, repeated in a block, or lost in a crash, and
      whoever writes to receipts, as long as no block deletes the receipt of a
      deposit already credited. */
  lemma CreditedExactlyOnce(u: Setup, events: seq<Event>)
    requires ValidSetup(u) && Runs(u, events) && RunKeeps(u, events)
    ensures OnceCredited(After(u, events))
  {
    hide Runs, After, RunKeeps;
    RunsKeepOnce(u, events);
    var s := After(u, events);
    DistinctBySig(s.chain.credits);
    forall d | d in s.chain.credits ensures Receipt(d.sig) in s.chain.accounts {
      SigListed(s.chain.credits, d);
    }
  }

  lemma SigListed(ds: seq<Deposit>, d: Deposit)
    requires d in ds
    ensures d.sig in Sigs(ds)
  {
    var i :| 0 <= i < |ds| && ds[i] == d;
    assert Sigs(ds)[i] == d.sig;
  }

  /** Everything queued is credited by the block, except where a receipt was there
      before, another transaction of the block wrote to or deleted it, or credited
      coins were sent to it. */
  lemma QueuedIsCredited(u: Setup, s: World, k: Work, d: Deposit)
    requires DepositInv(s) && Enabled(u, s, Committed(k)) && d in s.queue
    ensures var t := Next(u, s, Committed(k)).chain;
            && s.chain.credits <= t.credits
            && var more := t.credits[|s.chain.credits|..];
               && (Receipt(d.sig) in s.chain.accounts || Receipt(d.sig) in k.svm ==> d.sig !in Sigs(more))
               && (Receipt(d.sig) !in s.chain.accounts && Receipt(d.sig) !in k.svm ==>
                     d in more || d.sig in Named(u.c, more))
  {
    hide WellFormed, CreditAll, Credited, AccountsAfter, Determined, Named, AllCreditable, Enabled, Next, Written;
    CommittedState(u, s, k);
    var dead, view := Deletions(k.svm), View(s.chain.accounts, k.svm);
    var more := Credited(u.c, dead, view, s.queue);
    assert (s.chain.credits + more)[|s.chain.credits|..] == more;
    SigListed(s.queue, d);
    CreditAllReceipts(u.c, dead, view, s.queue, d.sig);
    CreditedListed(u.c, dead, view, s.queue);
    if d.sig in Sigs(more) {
      SameSigSameDeposit(s.l1.events, more, d);
    }
  }

  lemma SameSigSameDeposit(events: seq<Deposit>, credits: seq<Deposit>, d: Deposit)
    requires Distinct(Sigs(events)) && d in events && d.sig in Sigs(credits) && forall c | c in credits :: c in events
    ensures d in credits
  {
    var i :| 0 <= i < |credits| && Sigs(credits)[i] == d.sig;
    var c := credits[i];
    assert c in events;
    var j, k :| 0 <= j < |events| && 0 <= k < |events| && events[j] == c && events[k] == d;
    assert Sigs(events)[j] == Sigs(events)[k];
  }

  // ----- the withdrawals tree and its roots ----------------------------------

  /** Some tree the node stored has this root. */
  ghost predicate StoredRoot(b3: Blake3, trees: seq<seq<Withdrawal>>, root: H256) {
    exists log | log in trees :: root == RootOf(b3, log)
  }

  ghost predicate AllIn(log: seq<Withdrawal>, burned: seq<Withdrawal>) {
    forall w | w in log :: w in burned
  }

  /** The chain's records are those of its blocks. Every tree holds burned
      withdrawals only, and every root in the store, on the way to L1, or on L1 is
      of a tree the node stored. While outcomes are consistent, the tree with what
      is still to be published is the burned log. */
  ghost predicate TreeInv(u: Setup, s: World) {
    var es := Flat(s.chain.blocks);
    && s.l1.authority == u.authority
    && s.chain.status == RecordAll(map[], es) && s.chain.burned == BurnedIn(es) && Determined(es)
    && AllIn(s.live, s.chain.burned) && AllIn(s.pending, s.chain.burned)
    && (forall log | log in s.trees :: AllIn(log, s.chain.burned))
    && (Consistent(es) ==> s.live + s.pending == s.chain.burned)
    && StoredRoot(u.b3, s.trees, s.chain.root)
    && (forall b | b in s.sent :: StoredRoot(u.b3, s.trees, b.withdrawalsRoot))
    && (forall b | b in s.l1.batches :: StoredRoot(u.b3, s.trees, b.withdrawalsRoot))
  }

  lemma StartTree(u: Setup)
    ensures TreeInv(u, Start(u))
  {
    hide RootOf;
    var none: seq<Withdrawal> := [];
    assert none in [none];
  }

  lemma RootsGrow(b3: Blake3, trees: seq<seq<Withdrawal>>, log: seq<Withdrawal>, batches: seq<Batch>)
    requires forall b | b in batches :: StoredRoot(b3, trees, b.withdrawalsRoot)
    ensures forall b | b in batches :: StoredRoot(b3, trees + [log], b.withdrawalsRoot)
    ensures StoredRoot(b3, trees + [log], RootOf(b3, log))
  {
    hide RootOf;
    forall b | b in batches ensures StoredRoot(b3, trees + [log], b.withdrawalsRoot) {
      var earlier :| earlier in trees && b.withdrawalsRoot == RootOf(b3, earlier);
      assert earlier in trees + [log];
    }
    assert log in trees + [log];
  }

  lemma StoreTree(u: Setup, s: World)
    requires TreeInv(u, s)
    ensures TreeInv(u, Stored(u, s))
  {
    hide RecordAll, BurnedIn, Flat, Consistent, Determined, StoredRoot, RootOf, AllIn;
    RootsGrow(u.b3, s.trees, s.live, s.sent);
    RootsGrow(u.b3, s.trees, s.live, s.l1.batches);
  }

  lemma CommitTree(u: Setup, s: World, k: Work)
    requires TreeInv(u, s) && Enabled(u, s, Committed(k))
    ensures TreeInv(u, Next(u, s, Committed(k)))
  {
    hide RecordAll, BurnedIn, Flat, Consistent, Determined, StoredRoot, Enabled, Next, Buildable, Parse;
    hide AccountsAfter, BlockOf, Credited;
    CommittedState(u, s, k);
    CommitAdds(u.c, s.chain, s.queue, k);
    var t := Next(u, s, Committed(k));
    var b := BlockOf(u.c, s.chain.accounts, s.queue, k);
    if Consistent(Flat(t.chain.blocks)) {
      ConsistentPrefix(Flat(s.chain.blocks), b);
      assert s.live + [] == s.live;
    }
  }

  lemma ConsistentPrefix(a: seq<Entry>, b: seq<Entry>)
    requires Consistent(a + b)
    ensures Consistent(a)
  {
    forall i, j | 0 <= i < |a| && 0 <= j < |a| && a[i].tx.sig == a[j].tx.sig ensures a[i].ok == a[j].ok {
      assert (a + b)[i] == a[i] && (a + b)[j] == a[j];
    }
  }

  lemma PublishTree(u: Setup, s: World, persisted: bool)
    requires TreeInv(u, s) && s.pending != []
    ensures TreeInv(u, Next(u, s, Published(persisted)))
  {
    hide RecordAll, BurnedIn, Flat, Consistent, Determined, StoredRoot, RootOf;
    var published := s.(live := s.live + s.pending, pending := []);
    assert published.live + [] == published.live;
    assert TreeInv(u, published);
    StoreTree(u, published);
  }

  lemma RestartTree(u: Setup, s: World)
    requires TreeInv(u, s)
    ensures TreeInv(u, Next(u, s, Restarted))
  {
    hide RecordAll, BurnedIn, Flat, Consistent, Determined, StoredRoot, RootOf, Rebuilt;
    var log := Rebuilt(s.chain.blocks, s.chain.status);
    forall w | w in log ensures w in s.chain.burned {
      RebuiltWasBurned(s.chain.blocks, w);
    }
    if Consistent(Flat(s.chain.blocks)) {
      RebuiltIsBurned(s.chain.blocks);
    }
    assert log + [] == log;
    StoreTree(u, s.(queue := [], pending := [], live := log));
  }

  lemma NextTree(u: Setup, s: World, e: Event)
    requires TreeInv(u, s) && Enabled(u, s, e)
    ensures TreeInv(u, Next(u, s, e))
  {
    hide RecordAll, BurnedIn, Flat, Consistent, Determined, StoredRoot, RootOf, Rebuilt, AllIn, WorkOk, Commit;
    hide NewlyBurned, Claimable;
    match e
    case Committed(k) => CommitTree(u, s, k);
    case Published(persisted) => PublishTree(u, s, persisted);
    case Restarted => RestartTree(u, s);
    case _ =>
  }

  lemma {:induction false} RunsKeepTree(u: Setup, events: seq<Event>)
    requires Runs(u, events)
    ensures TreeInv(u, After(u, events))
  {
    hide TreeInv, Enabled, Next, Start;
    if events == [] {
      StartTree(u);
    } else {
      RunsKeepTree(u, events[..|events| - 1]);
      NextTree(u, After(u, events[..|events| - 1]), events[|events| - 1]);
    }
  }

  // ----- restarts ------------------------------------------------------------

  /** A restart rebuilds the live tree with its last leaves published, stores the
      root of that tree, and changes nothing else on the chain. */
  ghost predicate RebuildsLive(u: Setup, s: World) {
    var r := Next(u, s, Restarted);
    && r.live == s.live + s.pending
    && r.chain == s.chain.(root := RootOf(u.b3, s.live + s.pending))
    && (s.pending != [] ==> r.live == Next(u, s, Published(true)).live && r.chain == Next(u, s, Published(true)).chain)
  }

  /** At any point of any run in which no signature got two different outcomes,
      also between a commit and its publication or after a root that was never
      stored. */
  lemma RestartEquivalence(u: Setup, events: seq<Event>)
    requires Runs(u, events) && Consistent(Flat(After(u, events).chain.blocks))
    ensures RebuildsLive(u, After(u, events))
  {
    hide Runs, After, RecordAll, BurnedIn, Flat, Consistent, Determined, StoredRoot, RootOf, Rebuilt, AllIn;
    RunsKeepTree(u, events);
    RebuiltIsBurned(After(u, events).chain.blocks);
  }

  /** And that is the exact condition for reading outcomes back: in any run, every
      committed entry is recorded with its own outcome if and only if no signature
      got two different ones. */
  lemma OutcomesReadBackIff(u: Setup, events: seq<Event>)
    requires Runs(u, events)
    ensures var s := After(u, events).chain;
            (forall e | e in Flat(s.blocks) :: e.tx.sig in s.status && s.status[e.tx.sig] == e.ok) <==>
            Consistent(Flat(s.blocks))
  {
    hide Runs, After, BurnedIn, Flat, Determined, StoredRoot, RootOf, AllIn, RecordAll, Consistent;
    RunsKeepTree(u, events);
    var es := Flat(After(u, events).chain.blocks);
    ReadsBackIff(es);
    if Consistent(es) {
      forall e | e in es ensures e.tx.sig in RecordAll(map[], es) && RecordAll(map[], es)[e.tx.sig] == e.ok {
        var i :| 0 <= i < |es| && es[i] == e;
        assert ReadsBack(es, i);
      }
    }
    if forall e | e in es :: e.tx.sig in RecordAll(map[], es) && RecordAll(map[], es)[e.tx.sig] == e.ok {
      forall i | 0 <= i < |es| ensures ReadsBack(es, i) {
        assert es[i] in es;
      }
    }
  }
}
