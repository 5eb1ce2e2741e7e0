/** The node object: durable tables and in-memory state, updated in place. Every
    method is one step of the two-chain protocol. */
module Node {
  import opened Common
  import opened Bytes
  import opened SparseTree
  import opened SparseProof
  import opened Hashing
  import opened Ledger
  import opened Withdrawals
  import opened WithdrawTxs
  import opened Bridge
  import opened Chain
  import opened TwoChains
  import Store

  class Node {
    const b3: Blake3
    const c: Config

    // durable
    var accounts: Accounts
    var blocks: seq<Block>
    var status: map<Signature, bool>
    var root: H256

    // in memory
    var queue: seq<Deposit>
    var tree: Nodes
    var pending: seq<Withdrawal>

    // history
    ghost var past: Chain
    ghost var live: seq<Withdrawal>

    ghost function Durable(): Chain
      reads this
    {
      past.(accounts := accounts, blocks := blocks, status := status, root := root)
    }

    /** The tree stores the nodes of this log. */
    ghost predicate TreeHolds(log: seq<Withdrawal>)
      reads this
    {
      WithdrawTree(b3).Represents(tree, TreeOf(b3, log)) && WithdrawTree(b3).KeysValid(tree)
    }

    /** The node is in protocol state `s`. */
    ghost predicate Shows(u: Setup, s: World)
      reads this
    {
      && u.b3 == b3 && u.c == c
      && Durable() == s.chain && queue == s.queue && pending == s.pending && live == s.live
      && TreeInv(u, s)
      && TreeHolds(live)
    }

    /** Boot from what the disk holds. */
    constructor (b3: Blake3, c: Config, accounts: Accounts, blocks: seq<Block>, status: map<Signature, bool>,
                 root: H256,
                 ghost u: Setup, ghost s: World)
      requires u.b3 == b3 && u.c == c && TreeInv(u, s)
      requires s.chain.accounts == accounts && s.chain.blocks == blocks && s.chain.status == status &&
               s.chain.root == root
      ensures Shows(u, Next(u, s, Restarted))
    {
      this.b3, this.c := b3, c;
      this.accounts, this.blocks, this.status, this.root := accounts, blocks, status, root;
      queue, tree, pending := [], map[], [];
      past, live := s.chain, [];
      new;
      RebuildWithdrawals(u, s);
    }

    /** Walk the committed blocks, keep the withdrawals recorded as successful,
        and store the root of the tree they make. */
    method RebuildWithdrawals(ghost u: Setup, ghost s: World)
      requires u.b3 == b3 && u.c == c && TreeInv(u, s) && Durable() == s.chain
      requires queue == [] && pending == [] && tree == map[] && live == []
      modifies this
      ensures Shows(u, Next(u, s, Restarted))
    {
      hide KeyOf, Smt.Represents, Smt.IsKey, TreeOf, Withdraws, TreeInv, Succeeded, Next, TxsIn, WithdrawTree;
      EmptyTree(b3);
      for i := 0 to |blocks|
        invariant unchanged(this`accounts, this`blocks, this`status, this`root, this`queue, this`pending, this`past)
        invariant live == Rebuilt(blocks[..i], status) && TreeHolds(live)
      {
        var xs, _ := PartitionWithdraws(TxsIn(blocks[i]));
        assert blocks[..i + 1][..i] == blocks[..i];
        RebuildBlock(xs);
      }
      assert blocks[..|blocks|] == blocks;
      root := CurrentRoot(b3, tree, live);
      RestartTree(u, s);
      RestartedState(u, s);
    }

    method RebuildBlock(xs: seq<WithdrawTx>)
      requires TreeHolds(live)
      modifies this`tree, this`live
      ensures live == old(live) + Succeeded(xs, status) && TreeHolds(live)
    {
      hide KeyOf, Smt.Represents, Smt.IsKey, TreeOf;
      for j := 0 to |xs|
        invariant live == old(live) + Succeeded(xs[..j], status) && TreeHolds(live)
      {
        assert xs[..j + 1][..j] == xs[..j];
        var sig := xs[j].tx.sig;
        if sig in status && status[sig] {
          tree := Insert(b3, tree, xs[j].w, live);
          live := live + [xs[j].w];
        }
      }
      assert xs[..|xs|] == xs;
    }

    method EnqueueDeposits(ds: seq<Deposit>, ghost u: Setup, ghost s: World)
      requires Shows(u, s) && Enabled(u, s, Fetched(ds))
      modifies this`queue
      ensures Shows(u, Next(u, s, Fetched(ds))) && queue == old(queue) + ds
    {
      hide TreeOf, Smt.Represents, Smt.IsKey;
      NextTree(u, s, Fetched(ds));
      queue := queue + ds;
    }

    /** Drain the queue, build the block and commit it. */
    method ProduceBlock(k: Work, ghost u: Setup, ghost s: World)
      requires Shows(u, s) && Enabled(u, s, Committed(k))
      modifies this
      ensures Shows(u, Next(u, s, Committed(k)))
      ensures queue == [] && |blocks| == |old(blocks)| + 1 && old(blocks) <= blocks
    {
      hide TreeOf, Smt.Represents, Smt.IsKey, AccountsAfter, Credited, NewlyBurned, BlockOf, Withdraws, View, RecordAll;
      hide TreeInv, WellFormed, AllCreditable, Enabled, Next, WorkOk, ForeignIn, ErasedAfter, NewlyCredited;
      assert TreeInv(u, Next(u, s, Committed(k))) by { NextTree(u, s, Committed(k)); }
      CommittedState(u, s, k);
      var deposits := queue;
      queue := [];
      var after, entries, leaves := BuildBlock(c, accounts, deposits, k);
      past := Commit(c, s.chain, deposits, k);
      status := RecordOutcomes(status, entries);
      accounts, blocks, pending := after, blocks + [entries], leaves;
    }

    /** After the commit: the new leaves into the tree, then its root to disk. */
    method PublishWithdrawals(persisted: bool, ghost u: Setup, ghost s: World)
      requires Shows(u, s) && Enabled(u, s, Published(persisted))
      modifies this`tree, this`root, this`pending, this`live
      ensures Shows(u, Next(u, s, Published(persisted)))
    {
      hide KeyOf, TreeOf, Smt.Represents, Smt.IsKey, TreeInv, Next, WithdrawTree;
      tree := InsertAll(b3, tree, pending, live);
      live := live + pending;
      var r := CurrentRoot(b3, tree, live);
      PublishTree(u, s, persisted);
      PublishedState(u, s, persisted);
      if persisted {
        root := r;
      }
      pending := [];
    }

    /** A proof for a committed withdrawal against the current tree, checked
        before it is served. */
    method ComputeWithdrawalProof(w: Withdrawal, ghost asked: iset<seq<Byte>>) returns (r: Option<(H256, SmtProof)>)
      requires TreeHolds(live)
      ensures r.Some? ==> r.value.0 == RootOf(b3, live) && Claimable(b3, r.value.0, w, r.value.1)
      ensures LastAtItsPlace(b3, live, w) ==> r.Some?
      ensures r.Some? && NoCollision(b3, asked) && ClaimAsked(b3, asked, live, w, r.value.1) ==>
              LastAtItsPlace(b3, live, w)
      ensures NoCollision(b3, asked) && AddressesAsked(asked, live) && NotOvertaken(b3, live, w) ==> r.Some?
      ensures r.Some? && NoCollision(b3, asked) && AddressesAsked(asked, live) ==>
                (ClaimAsked(b3, asked, live, w, r.value.1) ==> NotOvertaken(b3, live, w))
    {
      hide KeyOf, TreeOf, Smt.Represents, Smt.IsKey, RootOf, Claimable, LastAtItsPlace, NoCollision, ClaimAsked;
      hide AddressesAsked, NotOvertaken;
      var proof := ProofFor(b3, tree, w, live, asked);
      var current := CurrentRoot(b3, tree, live);
      r := if proof.Some? then Some((current, proof.value)) else None;
    }
  }

  method InsertAll(b3: Blake3, tree: Nodes, ws: seq<Withdrawal>, ghost log: seq<Withdrawal>) returns (next: Nodes)
    requires WithdrawTree(b3).Represents(tree, TreeOf(b3, log)) && WithdrawTree(b3).KeysValid(tree)
    ensures WithdrawTree(b3).Represents(next, TreeOf(b3, log + ws)) && WithdrawTree(b3).KeysValid(next)
  {
    hide KeyOf, TreeOf, Smt.Represents, Smt.IsKey, WithdrawTree;
    next := tree;
    assert log + ws[..0] == log;
    for i := 0 to |ws|
      invariant WithdrawTree(b3).Represents(next, TreeOf(b3, log + ws[..i])) && WithdrawTree(b3).KeysValid(next)
    {
      next := Insert(b3, next, ws[i], log + ws[..i]);
      assert log + ws[..i] + [ws[i]] == log + ws[..i + 1];
    }
    assert ws[..|ws|] == ws;
  }

  /** Deposits and withdrawals over the writes of the other transactions. */
  method BuildBlock(c: Config, accounts: Accounts, deposits: seq<Deposit>, k: Work)
    returns (after: Accounts, entries: Block, leaves: seq<Withdrawal>)
    requires Buildable(c, accounts, deposits, k)
    ensures after == AccountsAfter(c, accounts, deposits, k)
    ensures entries == BlockOf(c, accounts, deposits, k) && leaves == NewlyBurned(c, accounts, deposits, k)
    ensures k.included <= entries
  {
    hide CreditAll, Credited, WithdrawAll, Burned, Withdraws, View, Merge, Deletions, WellFormed, EntriesOf;
    hide AllCreditable;
    hide CreditAllTouches, BurnTouches;
    var xs, _ := PartitionWithdraws(k.txs);
    var credited, _ := ApplyDeposits(c, accounts, k.svm, deposits);
    var writes, flags, burned := ApplyWithdraws(c, accounts, credited, xs);
    after, entries, leaves := Merge(accounts, writes), k.included + EntriesOf(xs, flags), burned;
    MergeIsView(accounts, writes);
  }

  lemma EmptyTree(b3: Blake3)
    ensures WithdrawTree(b3).Represents(map[], TreeOf(b3, [])) && WithdrawTree(b3).KeysValid(map[])
  {
    hide Smt.Represents;
    WithdrawTree(b3).EmptyRepresents();
    assert LeavesFor(b3, []) == [];
  }

  lemma PublishedState(u: Setup, s: World, persisted: bool)
    requires s.pending != []
    ensures var t := Next(u, s, Published(persisted));
            && t.queue == s.queue && t.pending == [] && t.live == s.live + s.pending
            && t.chain == if persisted then s.chain.(root := RootOf(u.b3, s.live + s.pending)) else s.chain
  {
    hide RootOf;
  }

  method RecordOutcomes(status: map<Signature, bool>, es: seq<Entry>) returns (next: map<Signature, bool>)
    ensures next == RecordAll(status, es)
  {
    next := status;
    for i := 0 to |es|
      invariant next == RecordAll(status, es[..i])
    {
      next := next[es[i].tx.sig := es[i].ok];
      assert es[..i + 1][..i] == es[..i];
    }
    assert es[..|es|] == es;
  }

  // ----- the stored outcomes -------------------------------------------------

  /** The store's results say what the protocol's status says. */
  ghost predicate SameOutcomes(results: map<H256, Store.TxResult>, status: map<Signature, bool>) {
    forall sig: H256 ::
      (sig in results <==> sig in status) && (sig in results ==> results[sig].succeeded == status[sig])
  }

  /** What the store keeps of a committed block is what a restart reads back. */
  lemma StoredIsRecorded(before: map<H256, Store.TxResult>, after: map<H256, Store.TxResult>, block: Store.Block,
                         metas: seq<bool>, status: map<Signature, bool>, es: seq<Entry>)
    requires Store.OutcomesStored(before, after, block, metas) && SameOutcomes(before, status) && |es| == |metas|
    requires forall i | 0 <= i < |es| ::
               && es[i].ok == metas[i] && block.transactions[i].signatures != []
               && es[i].tx.sig == block.transactions[i].signatures[0]
    ensures SameOutcomes(after, RecordAll(status, es))
  {
    hide RecordAll;
    forall sig: H256
      ensures sig in after <==> sig in RecordAll(status, es)
      ensures sig in after ==> after[sig].succeeded == RecordAll(status, es)[sig]
    {
      if exists i | 0 <= i < |es| :: es[i].tx.sig == sig {
        var j := LastRecorded(status, es, sig);
        assert Store.LastOfItsSig(block, j);
      } else {
        NotRecorded(status, es, sig);
        assert !Store.SignedIn(block, sig);
        assert Store.Entry(after, sig) == Store.Entry(before, sig);
      }
    }
  }
}
