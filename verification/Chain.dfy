/** The L2 chain as the bridge sees it: committing a block of deposits and
    withdrawals, and rebuilding the withdrawals log from committed blocks. */
module Chain {
  import opened Common
  import opened Bytes
  import opened Ledger
  import opened Withdrawals
  import opened WithdrawTxs
  import opened Bridge
  import opened Backing
  import opened Quiet

  /** A transaction as included in a block, with its outcome. */
  datatype Entry = Entry(tx: Transaction, ok: bool)

  type Block = seq<Entry>

  /** What a crash does not lose: accounts, blocks, the outcome recorded under
      each signature, and the persisted withdrawals root. The last four fields
      are history: the deposits credited, the withdrawals burned, the signatures
      whose receipt address somebody other than its own credit wrote to, and those
      whose receipt a block deleted and nobody wrote again. */
  datatype Chain = Chain(
    accounts: Accounts,
    blocks: seq<Block>,
    status: map<Signature, bool>,
    root: H256,
    credits: seq<Deposit>,
    burned: seq<Withdrawal>,
    foreign: set<Signature>,
    erased: set<Signature>)

  /** What goes into a block besides deposits: the writes and entries of ordinary
      and pool transactions, and the transactions drained from the mempool. */
  datatype Work = Work(svm: Writes, included: seq<Entry>, txs: seq<Transaction>)

  function EntriesOf(xs: seq<WithdrawTx>, flags: seq<bool>): (es: seq<Entry>)
    requires |flags| == |xs|
    ensures |es| == |xs|
  {
    seq(|xs|, i requires 0 <= i < |xs| => Entry(xs[i].tx, flags[i]))
  }

  function TxsIn(b: Block): (txs: seq<Transaction>)
    ensures |txs| == |b|
  {
    seq(|b|, i requires 0 <= i < |b| => b[i].tx)
  }

  /** Outcomes are stored by signature: a later entry overwrites. */
  function RecordAll(status: map<Signature, bool>, es: seq<Entry>): map<Signature, bool> {
    if es == [] then status
    else
      var n := |es| - 1;
      RecordAll(status, es[..n])[es[n].tx.sig := es[n].ok]
  }

  // ----- one block -----------------------------------------------------------

  /** The bridge can build the block: accounts have their shapes in everything it
      can read, and no credit panics. */
  ghost predicate Buildable(c: Config, accounts: Accounts, queue: seq<Deposit>, k: Work) {
    WellFormed(View(accounts, k.svm)) && AllCreditable(c, Deletions(k.svm), View(accounts, k.svm), queue)
  }

  /** What the node reads after the block, and which withdrawals went through. */
  function Outcome(c: Config, accounts: Accounts, queue: seq<Deposit>, k: Work): (r: Withdrawn)
    requires Buildable(c, accounts, queue, k)
    ensures WellFormed(r.accounts) && |r.flags| == |Withdraws(k.txs)|
  {
    WithdrawAll(c, CreditAll(c, Deletions(k.svm), View(accounts, k.svm), queue), Withdraws(k.txs))
  }

  function NewlyCredited(c: Config, accounts: Accounts, queue: seq<Deposit>, k: Work): seq<Deposit>
    requires Buildable(c, accounts, queue, k)
  {
    Credited(c, Deletions(k.svm), View(accounts, k.svm), queue)
  }

  /** Deletions of the other transactions that the bridge did not write over. */
  function StillGone(c: Config, accounts: Accounts, queue: seq<Deposit>, k: Work): set<Address>
    requires Buildable(c, accounts, queue, k)
  {
    Deletions(k.svm) - CreditAllTouches(c, Deletions(k.svm), View(accounts, k.svm), queue)
                     - BurnTouches(c, Withdraws(k.txs), Outcome(c, accounts, queue, k).flags)
  }

  /** The committed accounts. */
  function AccountsAfter(c: Config, accounts: Accounts, queue: seq<Deposit>, k: Work): Accounts
    requires Buildable(c, accounts, queue, k)
  {
    Outcome(c, accounts, queue, k).accounts - StillGone(c, accounts, queue, k)
  }

  /** Ordinary and pool entries first, withdrawals last. */
  function BlockOf(c: Config, accounts: Accounts, queue: seq<Deposit>, k: Work): Block
    requires Buildable(c, accounts, queue, k)
  {
    k.included + EntriesOf(Withdraws(k.txs), Outcome(c, accounts, queue, k).flags)
  }

  function NewlyBurned(c: Config, accounts: Accounts, queue: seq<Deposit>, k: Work): seq<Withdrawal>
    requires Buildable(c, accounts, queue, k)
  {
    Burned(Withdraws(k.txs), Outcome(c, accounts, queue, k).flags)
  }

  /** The signatures whose receipt address is among these. */
  function ReceiptsIn(addresses: set<Address>): set<Signature> {
    set a | a in addresses && a.Receipt? :: a.sig
  }

  /** The receipt addresses that a block writes to, other than by crediting the
      deposit itself: in ordinary transactions, the pool, or as a coin recipient. */
  function ForeignIn(c: Config, accounts: Accounts, queue: seq<Deposit>, k: Work): set<Signature>
    requires Buildable(c, accounts, queue, k)
  {
    ReceiptsIn(k.svm.Keys - Deletions(k.svm)) + Named(c, NewlyCredited(c, accounts, queue, k))
  }

  function ErasedAfter(c: Config, s: Chain, queue: seq<Deposit>, k: Work): set<Signature>
    requires Buildable(c, s.accounts, queue, k)
  {
    s.erased - ForeignIn(c, s.accounts, queue, k) - SigSet(NewlyCredited(c, s.accounts, queue, k))
      + ReceiptsIn(StillGone(c, s.accounts, queue, k))
  }

  function SigSet(ds: seq<Deposit>): set<Signature> {
    set sig | sig in Sigs(ds)
  }

  /** One committed block. The withdrawals root is not part of the commit. */
  function Commit(c: Config, s: Chain, queue: seq<Deposit>, k: Work): Chain
    requires Buildable(c, s.accounts, queue, k)
  {
    var b := BlockOf(c, s.accounts, queue, k);
    Chain(AccountsAfter(c, s.accounts, queue, k), s.blocks + [b], RecordAll(s.status, b), s.root,
          s.credits + NewlyCredited(c, s.accounts, queue, k),
          s.burned + NewlyBurned(c, s.accounts, queue, k),
          s.foreign + ForeignIn(c, s.accounts, queue, k), ErasedAfter(c, s, queue, k))
  }

  /** No wrapped mint is deleted. */
  ghost predicate KeepsMints(accounts: Accounts, svm: Writes) {
    forall a | a in accounts && Revived(accounts, svm, a) :: !a.WrappedMint?
  }

  /** The bridge reads nothing that the block's other transactions deleted. */
  ghost predicate ReadsLive(c: Config, accounts: Accounts, queue: seq<Deposit>, k: Work) {
    var revived := set a | a in accounts && Revived(accounts, k.svm, a);
    NoDepositReads(c, queue, revived) && forall x | x in Withdraws(k.txs) :: WithdrawReads(c, x) !! revived
  }

  /** Then the block is built on what the other transactions leave behind. */
  lemma BuiltOnMerged(c: Config, accounts: Accounts, queue: seq<Deposit>, k: Work)
    requires Buildable(c, accounts, queue, k) && ReadsLive(c, accounts, queue, k)
    requires KeepsMints(accounts, k.svm)
    ensures var dead, base := Deletions(k.svm), Merge(accounts, k.svm);
            && WellFormed(base) && AllCreditable(c, dead, base, queue)
            && NewlyCredited(c, accounts, queue, k) == Credited(c, dead, base, queue)
            && WithdrawAll(c, CreditAll(c, dead, base, queue), Withdraws(k.txs)) ==
               Withdrawn(AccountsAfter(c, accounts, queue, k), Outcome(c, accounts, queue, k).flags)
  {
    hide WellFormed, CreditAll, WithdrawAll, Credited, AllCreditable, CreditAllTouches, BurnTouches, Withdraws;
    hide NoDepositReads, WithdrawReads;
    var dead, view, base := Deletions(k.svm), View(accounts, k.svm), Merge(accounts, k.svm);
    var revived := set a | a in accounts && Revived(accounts, k.svm, a);
    assert base == view - revived;
    WithoutWellFormed(view, revived);
    CreditAllLocal(c, dead, view, revived, queue);
    WithoutWellFormed(CreditAll(c, dead, view, queue), revived);
    WithdrawAllLocal(c, CreditAll(c, dead, view, queue), revived, Withdraws(k.txs));
    var r := Outcome(c, accounts, queue, k);
    forall a | a in r.accounts ensures a in StillGone(c, accounts, queue, k) <==> a in revived {
    }
    assert r.accounts - StillGone(c, accounts, queue, k) == r.accounts - revived;
  }

  /** The committed accounts have their shapes. */
  lemma CommitWellFormed(c: Config, accounts: Accounts, queue: seq<Deposit>, k: Work)
    requires Buildable(c, accounts, queue, k) && KeepsMints(accounts, k.svm)
    ensures WellFormed(AccountsAfter(c, accounts, queue, k))
  {
    hide WellFormed, CreditAll, WithdrawAll, Credited, AllCreditable, CreditAllTouches, BurnTouches, Withdraws;
    hide DepositReads, WithdrawReads;
    var dead, view := Deletions(k.svm), View(accounts, k.svm);
    var credited := CreditAll(c, dead, view, queue);
    assert view - {} == view && credited - {} == credited;
    CreditAllLocal(c, dead, view, {}, queue);
    WithdrawAllLocal(c, credited, {}, Withdraws(k.txs));
    WithoutWellFormed(Outcome(c, accounts, queue, k).accounts, StillGone(c, accounts, queue, k));
  }

  /** Which receipts there are after a block. */
  lemma CommitReceipts(c: Config, s: Chain, queue: seq<Deposit>, k: Work, sig: Signature)
    requires Buildable(c, s.accounts, queue, k)
    ensures Receipt(sig) in AccountsAfter(c, s.accounts, queue, k) <==>
            && Receipt(sig) !in StillGone(c, s.accounts, queue, k)
            && (|| Receipt(sig) in s.accounts || sig in ForeignIn(c, s.accounts, queue, k)
                || sig in Sigs(NewlyCredited(c, s.accounts, queue, k)))
  {
    hide WellFormed, CreditAll, WithdrawAll, Credited, AllCreditable, CreditAllTouches, BurnTouches, Withdraws, Named;
    var dead, view := Deletions(k.svm), View(s.accounts, k.svm);
    CreditAllReceipts(c, dead, view, queue, sig);
    WithdrawAllReceipts(c, CreditAll(c, dead, view, queue), Withdraws(k.txs), sig);
    assert sig in ReceiptsIn(k.svm.Keys - dead) <==> Receipt(sig) in k.svm.Keys - dead;
    assert Receipt(sig) in view <==> Receipt(sig) in s.accounts || Receipt(sig) in k.svm.Keys - dead;
  }

  // ----- the log in the blocks -----------------------------------------------

  function Flat(blocks: seq<Block>): seq<Entry> {
    if blocks == [] then [] else Flat(blocks[..|blocks| - 1]) + blocks[|blocks| - 1]
  }

  /** The withdrawals that went through, read off the entries themselves. */
  function BurnedIn(es: seq<Entry>): seq<Withdrawal> {
    if es == [] then []
    else
      var n := |es| - 1;
      var x := Parse(es[n].tx);
      BurnedIn(es[..n]) + if x.Some? && es[n].ok then [x.value.w] else []
  }

  /** The withdrawals whose recorded outcome is success. */
  function Succeeded(xs: seq<WithdrawTx>, status: map<Signature, bool>): seq<Withdrawal> {
    if xs == [] then []
    else
      var n := |xs| - 1;
      var sig := xs[n].tx.sig;
      Succeeded(xs[..n], status) + if sig in status && status[sig] then [xs[n].w] else []
  }

  /** The log as a restart reads it back, block by block. */
  function Rebuilt(blocks: seq<Block>, status: map<Signature, bool>): seq<Withdrawal> {
    if blocks == [] then []
    else
      var n := |blocks| - 1;
      Rebuilt(blocks[..n], status) + Succeeded(Withdraws(TxsIn(blocks[n])), status)
  }

  lemma {:induction false} SucceededSplit(a: seq<WithdrawTx>, b: seq<WithdrawTx>, status: map<Signature, bool>)
    ensures Succeeded(a + b, status) == Succeeded(a, status) + Succeeded(b, status)
  {
    if b == [] {
      assert a + b == a;
    } else {
      var n := |b| - 1;
      SucceededSplit(a, b[..n], status);
      assert (a + b)[..|a + b| - 1] == a + b[..n];
    }
  }

  lemma {:induction false} RebuiltFlat(blocks: seq<Block>, status: map<Signature, bool>)
    ensures Rebuilt(blocks, status) == Succeeded(Withdraws(TxsIn(Flat(blocks))), status)
  {
    hide Parse, Withdraws, Succeeded;
    if blocks == [] {
      assert TxsIn([]) == [] && Withdraws([]) == [] && Succeeded([], status) == [] by { NothingSucceeds(status); }
    } else {
      var n := |blocks| - 1;
      var before := Flat(blocks[..n]);
      RebuiltFlat(blocks[..n], status);
      assert TxsIn(before + blocks[n]) == TxsIn(before) + TxsIn(blocks[n]);
      WithdrawsSplit(TxsIn(before), TxsIn(blocks[n]));
      SucceededSplit(Withdraws(TxsIn(before)), Withdraws(TxsIn(blocks[n])), status);
    }
  }

  lemma NothingSucceeds(status: map<Signature, bool>)
    ensures TxsIn([]) == [] && Withdraws([]) == [] && Succeeded([], status) == []
  {
  }

  // ----- reading outcomes back -----------------------------------------------

  /** No signature has two different outcomes. */
  ghost predicate Consistent(es: seq<Entry>) {
    forall i, j | 0 <= i < |es| && 0 <= j < |es| && es[i].tx.sig == es[j].tx.sig :: es[i].ok == es[j].ok
  }

  /** A signature belongs to one transaction. */
  ghost predicate Determined(es: seq<Entry>) {
    forall i, j | 0 <= i < |es| && 0 <= j < |es| && es[i].tx.sig == es[j].tx.sig :: es[i].tx == es[j].tx
  }

  ghost predicate ReadsBack(es: seq<Entry>, i: nat)
    requires i < |es|
  {
    es[i].tx.sig in RecordAll(map[], es) && RecordAll(map[], es)[es[i].tx.sig] == es[i].ok
  }

  /** A recorded outcome is that of the last entry with its signature. */
  lemma {:induction false} LastRecorded(status: map<Signature, bool>, es: seq<Entry>, sig: Signature) returns (j: nat)
    requires exists i | 0 <= i < |es| :: es[i].tx.sig == sig
    ensures j < |es| && es[j].tx.sig == sig && forall k | j < k < |es| :: es[k].tx.sig != sig
    ensures sig in RecordAll(status, es) && RecordAll(status, es)[sig] == es[j].ok
  {
    var n := |es| - 1;
    if es[n].tx.sig == sig {
      j := n;
    } else {
      j := LastRecorded(status, es[..n], sig);
    }
  }

  lemma {:induction false} NotRecorded(status: map<Signature, bool>, es: seq<Entry>, sig: Signature)
    requires forall i | 0 <= i < |es| :: es[i].tx.sig != sig
    ensures sig in RecordAll(status, es) <==> sig in status
    ensures sig in status ==> RecordAll(status, es)[sig] == status[sig]
  {
    if es != [] {
      NotRecorded(status, es[..|es| - 1], sig);
    }
  }

  /** Every entry reads back its own outcome exactly when no signature has two
      different outcomes. */
  lemma ReadsBackIff(es: seq<Entry>)
    ensures (forall i | 0 <= i < |es| :: ReadsBack(es, i)) <==> Consistent(es)
  {
    hide RecordAll;
    if Consistent(es) {
      forall i | 0 <= i < |es| ensures ReadsBack(es, i) {
        var j := LastRecorded(map[], es, es[i].tx.sig);
      }
    }
    if forall i | 0 <= i < |es| :: ReadsBack(es, i) {
      forall i, j | 0 <= i < |es| && 0 <= j < |es| && es[i].tx.sig == es[j].tx.sig ensures es[i].ok == es[j].ok {
        assert ReadsBack(es, i) && ReadsBack(es, j);
      }
    }
  }

  /** What is rebuilt from part of the entries with the outcomes of all of them. */
  lemma {:induction false} SucceededReadsBack(es: seq<Entry>, n: nat)
    requires n <= |es| && forall i | 0 <= i < |es| :: ReadsBack(es, i)
    ensures Succeeded(Withdraws(TxsIn(es[..n])), RecordAll(map[], es)) == BurnedIn(es[..n])
  {
    hide Parse, RecordAll;
    if n > 0 {
      SucceededReadsBack(es, n - 1);
      assert es[..n][..n - 1] == es[..n - 1] && TxsIn(es[..n])[..n - 1] == TxsIn(es[..n - 1]);
      assert ReadsBack(es, n - 1);
      var before, x := Withdraws(TxsIn(es[..n - 1])), Parse(es[n - 1].tx);
      if x.Some? {
        ParsedTx(es[n - 1].tx);
        assert (before + [x.value])[..|before|] == before;
      } else {
        assert before + [] == before && BurnedIn(es[..n - 1]) + [] == BurnedIn(es[..n - 1]);
      }
    }
  }

  /** With consistent outcomes the rebuilt log is the burned log. */
  lemma RebuiltIsBurned(blocks: seq<Block>)
    requires Consistent(Flat(blocks))
    ensures Rebuilt(blocks, RecordAll(map[], Flat(blocks))) == BurnedIn(Flat(blocks))
  {
    hide Rebuilt, Succeeded, Withdraws, BurnedIn, RecordAll, Flat;
    var es := Flat(blocks);
    ReadsBackIff(es);
    RebuiltFlat(blocks, RecordAll(map[], es));
    SucceededReadsBack(es, |es|);
    assert es[..|es|] == es;
  }

  /** Whatever the outcomes, nothing is rebuilt that was not burned. */
  lemma RebuiltWasBurned(blocks: seq<Block>, w: Withdrawal)
    requires Determined(Flat(blocks)) && w in Rebuilt(blocks, RecordAll(map[], Flat(blocks)))
    ensures w in BurnedIn(Flat(blocks))
  {
    hide Rebuilt, Succeeded, Withdraws, RecordAll, Flat, BurnedIn, Parse;
    var es := Flat(blocks);
    RebuiltFlat(blocks, RecordAll(map[], es));
    var x := SomeSucceeded(Withdraws(TxsIn(es)), RecordAll(map[], es), w);
    WithdrawsParse(TxsIn(es), x);
    var i :| 0 <= i < |es| && TxsIn(es)[i] == x.tx;
    var j := LastRecorded(map[], es, x.tx.sig);
    BurnedHas(es, j, x);
  }

  lemma {:induction false} SomeSucceeded(xs: seq<WithdrawTx>, status: map<Signature, bool>, w: Withdrawal)
    returns (x: WithdrawTx)
    requires w in Succeeded(xs, status)
    ensures x in xs && x.w == w && x.tx.sig in status && status[x.tx.sig]
  {
    var n := |xs| - 1;
    if w in Succeeded(xs[..n], status) {
      x := SomeSucceeded(xs[..n], status, w);
    } else {
      x := xs[n];
    }
  }

  lemma {:induction false} BurnedHas(es: seq<Entry>, i: nat, x: WithdrawTx)
    requires i < |es| && es[i].ok && Parse(es[i].tx) == Some(x)
    ensures x.w in BurnedIn(es)
  {
    hide Parse;
    if i < |es| - 1 {
      BurnedHas(es[..|es| - 1], i, x);
    }
  }

  // ----- a block added -------------------------------------------------------

  lemma {:induction false} RecordSplit(status: map<Signature, bool>, a: seq<Entry>, b: seq<Entry>)
    ensures RecordAll(status, a + b) == RecordAll(RecordAll(status, a), b)
  {
    if b == [] {
      assert a + b == a;
    } else {
      var n := |b| - 1;
      RecordSplit(status, a, b[..n]);
      assert (a + b)[..|a + b| - 1] == a + b[..n];
    }
  }

  lemma {:induction false} BurnedSplit(a: seq<Entry>, b: seq<Entry>)
    ensures BurnedIn(a + b) == BurnedIn(a) + BurnedIn(b)
  {
    hide Parse;
    if b == [] {
      assert a + b == a;
    } else {
      var n := |b| - 1;
      BurnedSplit(a, b[..n]);
      assert (a + b)[..|a + b| - 1] == a + b[..n];
    }
  }

  lemma {:induction false} NothingBurned(es: seq<Entry>)
    requires forall e | e in es :: Parse(e.tx).None?
    ensures BurnedIn(es) == []
  {
    hide Parse;
    if es != [] {
      NothingBurned(es[..|es| - 1]);
      assert es[|es| - 1] in es;
    }
  }

  lemma {:induction false} BurnedEntries(xs: seq<WithdrawTx>, flags: seq<bool>)
    requires |flags| == |xs| && forall x | x in xs :: Parse(x.tx) == Some(x)
    ensures BurnedIn(EntriesOf(xs, flags)) == Burned(xs, flags)
  {
    hide Parse;
    if xs != [] {
      var n := |xs| - 1;
      BurnedEntries(xs[..n], flags[..n]);
      assert EntriesOf(xs, flags)[..n] == EntriesOf(xs[..n], flags[..n]);
      assert xs[n] in xs;
    }
  }

  /** A committed block adds its entries, its outcomes and what it burned. */
  lemma CommitAdds(c: Config, s: Chain, queue: seq<Deposit>, k: Work)
    requires Buildable(c, s.accounts, queue, k) && forall e | e in k.included :: Parse(e.tx).None?
    requires s.status == RecordAll(map[], Flat(s.blocks)) && s.burned == BurnedIn(Flat(s.blocks))
    ensures var t := Commit(c, s, queue, k);
            && Flat(t.blocks) == Flat(s.blocks) + BlockOf(c, s.accounts, queue, k)
            && t.status == RecordAll(map[], Flat(t.blocks)) && t.burned == BurnedIn(Flat(t.blocks))
  {
    hide Buildable, Outcome, AccountsAfter, RecordAll, BurnedIn, Parse, Withdraws, Credited, EntriesOf;
    var b := BlockOf(c, s.accounts, queue, k);
    var xs, flags := Withdraws(k.txs), Outcome(c, s.accounts, queue, k).flags;
    assert (s.blocks + [b])[..|s.blocks|] == s.blocks;
    RecordSplit(map[], Flat(s.blocks), b);
    forall x | x in xs ensures Parse(x.tx) == Some(x) {
      WithdrawsParse(k.txs, x);
    }
    NothingBurned(k.included);
    BurnedEntries(xs, flags);
    BurnedSplit(k.included, EntriesOf(xs, flags));
    assert [] + Burned(xs, flags) == Burned(xs, flags);
    BurnedSplit(Flat(s.blocks), b);
  }
}
