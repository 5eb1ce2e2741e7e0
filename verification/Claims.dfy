/** Every burn can be claimed: from any reachable state the run can go on until L1
    has paid it. */
module Claims {
  import opened Common
  import opened Bytes
  import opened SparseProof
  import opened Withdrawals
  import opened WithdrawTxs
  import opened Bridge
  import opened Backing
  import opened Chain
  import opened SettlementProgram
  import opened TwoChains
  import opened Exits

  // ----- burned amounts ------------------------------------------------------

  ghost predicate AllPositive(ws: seq<Withdrawal>) {
    forall w | w in ws :: w.amount > 0
  }

  lemma {:induction false} BurnsArePositive(c: Config, accounts: Ledger.Accounts, xs: seq<WithdrawTx>)
    requires Ledger.WellFormed(accounts)
    ensures AllPositive(Burned(xs, WithdrawAll(c, accounts, xs).flags))
  {
    hide Ledger.WellFormed, BurnToken, AddLamports;
    if xs != [] {
      BurnsArePositive(c, accounts, xs[..|xs| - 1]);
    }
  }

  lemma {:induction false} RunsBurnPositive(u: Setup, events: seq<Event>)
    requires Runs(u, events)
    ensures AllPositive(After(u, events).chain.burned)
  {
    hide WorkOk, Commit, NewlyBurned, Rebuilt, RootOf, Claimable;
    if events != [] {
      var before, e := events[..|events| - 1], events[|events| - 1];
      RunsBurnPositive(u, before);
      if e.Committed? {
        CommitBurnsPositive(u, After(u, before), e.work);
      }
    }
  }

  lemma CommitBurnsPositive(u: Setup, s: World, k: Work)
    requires Enabled(u, s, Committed(k)) && AllPositive(s.chain.burned)
    ensures AllPositive(Next(u, s, Committed(k)).chain.burned)
  {
    hide Enabled, Next, WithdrawAll, CreditAll, AllCreditable, Ledger.WellFormed, Burned, Withdraws, Determined;
    hide AccountsAfter, RecordAll, ForeignIn, ErasedAfter, NewlyCredited, Ledger.View;
    CommittedState(u, s, k);
    var credited := CreditAll(u.c, Ledger.Deletions(k.svm), Ledger.View(s.chain.accounts, k.svm), s.queue);
    BurnsArePositive(u.c, credited, Withdraws(k.txs));
  }

  // ----- the way out ---------------------------------------------------------

  /** A batch with the root of the live tree, for the next number on L1. */
  function NextBatch(s: World): Batch
    requires |s.l1.batches| < U64_MAX
  {
    Batch(|s.l1.batches|, 0, 0, ZERO_HASH, s.chain.root, ZERO_HASH, 0)
  }

  /** A restart, a post and its landing put the root of the rebuilt tree on L1 and
      change nothing else there. */
  lemma RootReachesL1(u: Setup, s: World)
    requires TreeInv(u, s) && |s.l1.batches| < U64_MAX
    ensures Enabled(u, s, Restarted)
    ensures var r := Next(u, s, Restarted);
            var sent := r.(sent := r.sent + [NextBatch(r)]);
            var landed := sent.(l1 := s.l1.(batches := s.l1.batches + [NextBatch(r)]));
            && r.l1 == s.l1 && r.sent == s.sent && r.chain.burned == s.chain.burned
            && NextBatch(r).withdrawalsRoot == RootOf(u.b3, Rebuilt(s.chain.blocks, s.chain.status))
            && Enabled(u, r, Sent(NextBatch(r))) && Next(u, r, Sent(NextBatch(r))) == sent
            && Enabled(u, sent, Landed(|s.sent|)) && Next(u, sent, Landed(|s.sent|)) == landed
  {
    hide RootOf, Rebuilt, RecordAll, BurnedIn, Flat, Consistent, Determined, AllIn, StoredRoot;
  }

  /** It pays, from a vault that holds the amount. */
  lemma ClaimPays(u: Setup, s: World, no: nat, w: Withdrawal, proof: SmtProof)
    requires no < |s.l1.batches| && Claimable(u.b3, s.l1.batches[no].withdrawalsRoot, w, proof)
    requires ClaimKey(w) !in s.l1.claims && 0 < w.amount && w.asset != NATIVE_ASSET && w.amount <= s.l1.Vault(w.asset)
    ensures Enabled(u, s, Claimed(no, w, proof))
    ensures var t := Next(u, s, Claimed(no, w, proof)).l1;
            && t.paid == s.l1.paid + [w] && t.events == s.l1.events
            && t.Vault(w.asset) == s.l1.Vault(w.asset) - w.amount
  {
    hide Claimable;
  }

  /** From any state of a fair run in which no signature got two different outcomes,
      a burned withdrawal of a backed mint, not claimed and not overtaken, can still
      be paid on L1 in full. */
  lemma BurnCanBeClaimed(u: Setup, asked: iset<seq<Byte>>, events: seq<Event>, w: Withdrawal) returns (more: seq<Event>)
    requires ValidSetup(u) && Backable(u.c, w.asset)
    requires Runs(u, events) && NoCollision(u.b3, asked) && RunAsked(u, asked, events) && RunFair(u, events)
    requires var s := After(u, events);
             && Consistent(Flat(s.chain.blocks)) && |s.l1.batches| < U64_MAX
             && w in s.chain.burned && ClaimKey(w) !in s.l1.claims
             && AddressesAsked(asked, s.chain.burned) && NotOvertaken(u.b3, s.chain.burned, w)
    ensures Runs(u, events + more)
    ensures var s, t := After(u, events).l1, After(u, events + more).l1;
            t.paid == s.paid + [w] && t.Vault(w.asset) == s.Vault(w.asset) - w.amount && t.events == s.events
  {
    hide Runs, After, RunAsked, RunFair, NoCollision, Enabled, Next, Consistent, Flat, Rebuilt, RootOf, Claimable;
    hide NotOvertaken, AddressesAsked, TreeInv, FullyBacked, AllPositive, ExitInv;
    var s := After(u, events);
    RunsKeepTree(u, events);
    var proof := RebuiltProof(u, asked, s, w);
    VaultCovers(u, asked, events, w);
    RootReachesL1(u, s);
    var r := Next(u, s, Restarted);
    var b := NextBatch(r);
    var sent := r.(sent := r.sent + [b]);
    var landed := sent.(l1 := s.l1.(batches := s.l1.batches + [b]));
    ClaimPays(u, landed, |s.l1.batches|, w, proof);
    more := [Restarted, Sent(b), Landed(|s.sent|), Claimed(|s.l1.batches|, w, proof)];
    RunExtends(u, events, Restarted);
    RunExtends(u, events + [Restarted], Sent(b));
    RunExtends(u, events + [Restarted] + [Sent(b)], Landed(|s.sent|));
    RunExtends(u, events + [Restarted] + [Sent(b)] + [Landed(|s.sent|)], Claimed(|s.l1.batches|, w, proof));
    assert events + more ==
           events + [Restarted] + [Sent(b)] + [Landed(|s.sent|)] + [Claimed(|s.l1.batches|, w, proof)];
  }

  lemma RebuiltProof(u: Setup, asked: iset<seq<Byte>>, s: World, w: Withdrawal) returns (proof: SmtProof)
    requires TreeInv(u, s) && Consistent(Flat(s.chain.blocks)) && NoCollision(u.b3, asked)
    requires AddressesAsked(asked, s.chain.burned) && NotOvertaken(u.b3, s.chain.burned, w)
    ensures Claimable(u.b3, RootOf(u.b3, Rebuilt(s.chain.blocks, s.chain.status)), w, proof)
  {
    hide RootOf, Rebuilt, RecordAll, BurnedIn, Flat, Consistent, Determined, AllIn, StoredRoot, NotOvertaken, Claimable;
    RebuiltIsBurned(s.chain.blocks);
    proof := ProofExists(u.b3, asked, s.chain.burned, w);
  }

  lemma VaultCovers(u: Setup, asked: iset<seq<Byte>>, events: seq<Event>, w: Withdrawal)
    requires ValidSetup(u) && Backable(u.c, w.asset)
    requires Runs(u, events) && NoCollision(u.b3, asked) && RunAsked(u, asked, events) && RunFair(u, events)
    requires w in After(u, events).chain.burned && ClaimKey(w) !in After(u, events).l1.claims
    ensures 0 < w.amount <= After(u, events).l1.Vault(w.asset) && w.asset != NATIVE_ASSET
  {
    hide Runs, After, RunAsked, RunFair, NoCollision, Sum, Ledger.Supply, Ledger.Holdings, DepositOf, ExitInv;
    RunsKeepExits(u, asked, events);
    AlwaysBacked(u, asked, events, w.asset);
    RoomForOne(After(u, events), w);
    RunsBurnPositive(u, events);
  }
}
