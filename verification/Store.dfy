/** The persistent store: account table, state tree, blocks, transaction
    results, spent nullifiers and chain metadata, committed together. */
module Store {
  import opened Common
  import opened Bytes
  import opened SparseTree
  import opened SparseProof

  datatype StoredAccount = StoredAccount(lamports: nat, data: seq<Byte>, owner: H256, executable: bool, rentEpoch: nat)

  type Accounts = map<H256, StoredAccount>

  /** One account's new value, or None to delete it. */
  datatype AccountWrite = AccountWrite(key: H256, account: Option<StoredAccount>)

  datatype Transaction = Transaction(signatures: seq<H256>)
  datatype Header = Header(slot: nat, stateRoot: H256)
  datatype Block = Block(header: Header, transactions: seq<Transaction>)
  datatype TxResult = TxResult(slot: nat, index: nat, succeeded: bool)

  /** A prepared post-block root with the dirty tree nodes behind it. */
  datatype StateUpdate = StateUpdate(newRoot: H256, nodeWrites: Nodes)

  datatype StoreError = MetasMismatch | RootMismatch | NonMonotonicSlot | MissingSignature | DifferentGenesis
  datatype Outcome<+T> = Success(value: T) | Failure(error: StoreError)

  type AccountHash = (H256, StoredAccount) -> H256

  // ----- the account table as tree leaves ------------------------------------

  function WriteOne(accounts: Accounts, w: AccountWrite): Accounts {
    if w.account.Some? then accounts[w.key := w.account.value] else accounts - {w.key}
  }

  function WriteAll(accounts: Accounts, writes: seq<AccountWrite>): Accounts {
    if writes == [] then accounts else WriteOne(WriteAll(accounts, writes[..|writes| - 1]), writes[|writes| - 1])
  }

  /** The last write of a key decides, and other keys stay. */
  lemma {:induction false} WriteAllAt(accounts: Accounts, writes: seq<AccountWrite>, key: H256, i: int)
    requires -1 <= i < |writes| && (i >= 0 ==> writes[i].key == key)
    requires forall j | i < j < |writes| :: writes[j].key != key
    ensures Find(WriteAll(accounts, writes), key) == if i >= 0 then writes[i].account else Find(accounts, key)
  {
    if i < |writes| - 1 {
      WriteAllAt(accounts, writes[..|writes| - 1], key, i);
    }
  }

  function Find(accounts: Accounts, key: H256): Option<StoredAccount> {
    if key in accounts then Some(accounts[key]) else None
  }

  function LeafUpdateOf(hash: AccountHash, w: AccountWrite): LeafUpdate {
    LeafUpdate(w.key, if w.account.Some? then Some(hash(w.key, w.account.value)) else None)
  }

  function LeafUpdatesOf(hash: AccountHash, writes: seq<AccountWrite>): (us: seq<LeafUpdate>)
    ensures |us| == |writes|
  {
    seq(|writes|, i requires 0 <= i < |writes| => LeafUpdateOf(hash, writes[i]))
  }

  /** No two of these keys share a tree position. */
  ghost predicate PathsDistinct(t: Smt, keys: iset<H256>)
    requires t.Valid()
  {
    forall a, b | a in keys && b in keys && t.Position(a) == t.Position(b) :: a == b
  }

  ghost predicate KeysIn(accounts: Accounts, keys: iset<H256>) {
    forall k | k in accounts :: k in keys
  }

  ghost predicate WritesIn(writes: seq<AccountWrite>, keys: iset<H256>) {
    forall i | 0 <= i < |writes| :: writes[i].key in keys
  }

  /** The leaves of the reference tree over exactly the account table. */
  ghost function LeavesOf(t: Smt, hash: AccountHash, accounts: Accounts, keys: iset<H256>): Leaves
    requires t.Valid() && PathsDistinct(t, keys) && KeysIn(accounts, keys)
  {
    map k | k in accounts :: t.Position(k) := t.leaf(k, hash(k, accounts[k]))
  }

  lemma InLeaves(t: Smt, hash: AccountHash, accounts: Accounts, keys: iset<H256>, k: H256)
    requires t.Valid() && PathsDistinct(t, keys) && KeysIn(accounts, keys) && k in keys
    ensures t.Position(k) in LeavesOf(t, hash, accounts, keys) <==> k in accounts
    ensures k in accounts ==> LeavesOf(t, hash, accounts, keys)[t.Position(k)] == t.leaf(k, hash(k, accounts[k]))
  {
    hide Smt.Position;
  }

  lemma OnlyLeaves(t: Smt, hash: AccountHash, accounts: Accounts, keys: iset<H256>, p: seq<bool>) returns (k: H256)
    requires t.Valid() && PathsDistinct(t, keys) && KeysIn(accounts, keys)
    requires p in LeavesOf(t, hash, accounts, keys)
    ensures k in accounts && k in keys && t.Position(k) == p
  {
    hide Smt.Position;
    k :| k in accounts && t.Position(k) == p;
  }

  lemma LeavesAt(t: Smt, hash: AccountHash, accounts: Accounts, keys: iset<H256>, k: H256)
    requires t.Valid() && PathsDistinct(t, keys) && KeysIn(accounts, keys) && k in keys
    ensures t.LeafAt(LeavesOf(t, hash, accounts, keys), t.Position(k)) ==
            if k in accounts then t.leaf(k, hash(k, accounts[k])) else t.empty
  {
  }

  lemma WriteOneLeaves(t: Smt, hash: AccountHash, accounts: Accounts, keys: iset<H256>, w: AccountWrite)
    requires t.Valid() && PathsDistinct(t, keys) && KeysIn(accounts, keys) && w.key in keys
    ensures LeavesOf(t, hash, WriteOne(accounts, w), keys) ==
            t.ApplyOne(LeavesOf(t, hash, accounts, keys), LeafUpdateOf(hash, w))
  {
    hide Smt.Position, LeavesOf, PathsDistinct;
    var after := WriteOne(accounts, w);
    var l, r := LeavesOf(t, hash, after, keys), t.ApplyOne(LeavesOf(t, hash, accounts, keys), LeafUpdateOf(hash, w));
    forall p ensures p in l ==> p in r && l[p] == r[p] {
      if p in l {
        var k := OnlyLeaves(t, hash, after, keys, p);
        InLeaves(t, hash, after, keys, k);
        InLeaves(t, hash, accounts, keys, k);
        InLeaves(t, hash, after, keys, w.key);
      }
    }
    forall p ensures p in r ==> p in l {
      if p in r {
        if p == t.Position(w.key) {
          InLeaves(t, hash, after, keys, w.key);
        } else {
          var k := OnlyLeaves(t, hash, accounts, keys, p);
          InLeaves(t, hash, after, keys, k);
        }
      }
    }
    assert l.Keys == r.Keys;
  }

  lemma {:induction false} WriteAllLeaves(t: Smt, hash: AccountHash, accounts: Accounts, keys: iset<H256>,
                                          writes: seq<AccountWrite>)
    requires t.Valid() && PathsDistinct(t, keys) && KeysIn(accounts, keys) && WritesIn(writes, keys)
    ensures KeysIn(WriteAll(accounts, writes), keys)
    ensures LeavesOf(t, hash, WriteAll(accounts, writes), keys) ==
            t.Apply(LeavesOf(t, hash, accounts, keys), LeafUpdatesOf(hash, writes))
  {
    hide Smt.Position, LeavesOf, Smt.ApplyOne;
    if writes != [] {
      var n := |writes| - 1;
      WriteAllLeaves(t, hash, accounts, keys, writes[..n]);
      WriteOneLeaves(t, hash, WriteAll(accounts, writes[..n]), keys, writes[n]);
      assert LeafUpdatesOf(hash, writes)[..n] == LeafUpdatesOf(hash, writes[..n]);
    }
  }

  lemma RepresentsSameReads(t: Smt, m: Nodes, n: Nodes, leaves: Leaves)
    requires t.Valid() && SameReads(t, m, n) && t.Represents(n, leaves)
    ensures t.Represents(m, leaves)
  {
    hide Smt.Read;
    forall d: nat, p: H256 | d <= t.depth ensures t.Read(m, d, p) == t.Node(leaves, Prefix(p, d)) {
      assert t.Read(m, d, p) == t.Read(n, d, p);
    }
  }

  class Store {
    const tree: Smt
    const hash: AccountHash
    /** Account keys that may ever be written; their tree positions differ. */
    ghost const keys: iset<H256>

    var accounts: Accounts
    var smt: Nodes
    var blocks: map<nat, Block>
    var results: map<H256, TxResult>
    var nullifiers: map<H256, nat>
    var genesisHash: Option<H256>
    var stateRoot: Option<H256>
    var latestSlot: Option<nat>

    constructor (tree: Smt, hash: AccountHash, ghost keys: iset<H256>)
      requires tree.Valid() && PathsDistinct(tree, keys)
      ensures Valid() && genesisHash == None && accounts == map[] && latestSlot == None
      ensures this.tree == tree && this.hash == hash && this.keys == keys
    {
      this.tree, this.hash, this.keys := tree, hash, keys;
      accounts, smt, blocks, results, nullifiers := map[], map[], map[], map[], map[];
      genesisHash, stateRoot, latestSlot := None, None, None;
      new;
      tree.EmptyRepresents();
      assert LeavesOf(tree, hash, accounts, keys) == map[];
    }

    /** The stored nodes are the reference tree over exactly the account table,
        and the stored root is its root. */
    ghost predicate TablesAgree()
      reads this`accounts, this`smt, this`stateRoot
    {
      && tree.Valid() && PathsDistinct(tree, keys) && KeysIn(accounts, keys)
      && tree.Represents(smt, CurrentLeaves())
      && Sparse(tree, smt)
      && (stateRoot.Some? ==> stateRoot.value == tree.Root(CurrentLeaves()))
    }

    /** The tables agree, and no stored block is newer than the latest slot. */
    ghost predicate Valid()
      reads this
    {
      && TablesAgree()
      && (genesisHash.Some? ==> stateRoot.Some?)
      && (forall s | s in blocks :: latestSlot.Some? && s <= latestSlot.value)
    }

    ghost function CurrentLeaves(): Leaves
      reads this`accounts
      requires tree.Valid() && PathsDistinct(tree, keys) && KeysIn(accounts, keys)
    {
      LeavesOf(tree, hash, accounts, keys)
    }

    /** The update is what `PrepareStateUpdate` answers for these writes now. */
    ghost predicate Prepared(update: StateUpdate, writes: seq<AccountWrite>)
      reads this`accounts, this`smt, this`stateRoot
      requires TablesAgree()
    {
      && WritesIn(writes, keys)
      && tree.KeysValid(update.nodeWrites)
      && var next := tree.Apply(CurrentLeaves(), LeafUpdatesOf(hash, writes));
         update.newRoot == tree.Root(next) && tree.Represents(smt + update.nodeWrites, next)
    }

    method PrepareStateUpdate(writes: seq<AccountWrite>) returns (update: StateUpdate)
      requires TablesAgree() && WritesIn(writes, keys)
      ensures Prepared(update, writes)
    {
      var updates := LeafUpdatesOf(hash, writes);
      var root, overlay := ApplyUpdates(tree, smt, updates, CurrentLeaves());
      update := StateUpdate(root, overlay);
    }

    /** Install an update: accounts, tree nodes and root together. They agree
        again if the update was prepared for these writes. */
    method InstallState(writes: seq<AccountWrite>, update: StateUpdate)
      requires TablesAgree() && WritesIn(writes, keys) && tree.KeysValid(update.nodeWrites)
      modifies this`accounts, this`smt, this`stateRoot
      ensures old(Prepared(update, writes)) ==> TablesAgree()
      ensures accounts == WriteAll(old(accounts), writes)
      ensures stateRoot == Some(update.newRoot)
    {
      hide Smt.Represents, LeavesOf, Smt.Apply, Sparse, SameReads, Smt.Node, PathsDistinct;
      WriteAllLeaves(tree, hash, accounts, keys, writes);
      var nodes := WriteNodes(tree, smt, update.nodeWrites);
      if Prepared(update, writes) {
        RepresentsSameReads(tree, nodes, smt + update.nodeWrites,
                            tree.Apply(CurrentLeaves(), LeafUpdatesOf(hash, writes)));
      }
      ghost var before := accounts;
      for i := 0 to |writes|
        invariant accounts == WriteAll(before, writes[..i])
      {
        match writes[i].account {
          case Some(account) => accounts := accounts[writes[i].key := account];
          case None => accounts := accounts - {writes[i].key};
        }
        assert writes[..i + 1][..i] == writes[..i];
      }
      assert writes[..|writes|] == writes;
      smt := nodes;
      stateRoot := Some(update.newRoot);
    }

    /** First start writes the genesis accounts; a restart with the same genesis
        changes nothing, and a different genesis is refused. */
    method InitializeGenesis(genesis: H256, genesisAccounts: seq<AccountWrite>) returns (r: Outcome<H256>)
      requires Valid() && WritesIn(genesisAccounts, keys)
      requires forall i | 0 <= i < |genesisAccounts| :: genesisAccounts[i].account.Some?
      modifies this`accounts, this`smt, this`stateRoot, this`genesisHash
      ensures Valid()
      ensures r.Success? <==> old(genesisHash) in {None, Some(genesis)}
      ensures r.Success? ==> genesisHash == Some(genesis) && stateRoot == Some(r.value)
      ensures old(genesisHash).None? ==> accounts == WriteAll(old(accounts), genesisAccounts)
      ensures old(genesisHash).Some? ==>
                accounts == old(accounts) && genesisHash == old(genesisHash) && stateRoot == old(stateRoot)
    {
      hide Prepared, PathsDistinct, Sparse, Smt.Represents, Smt.Root, LeavesOf;
      if genesisHash.Some? {
        if genesisHash.value != genesis {
          return Failure(DifferentGenesis);
        }
        return Success(stateRoot.value);
      }
      var update := PrepareStateUpdate(genesisAccounts);
      InstallState(genesisAccounts, update);
      genesisHash := Some(genesis);
      r := Success(update.newRoot);
    }

    /** A block commits only with parallel results, the update's root, a slot
        above every earlier one and a signature on every transaction; then every
        table moves together, and agrees if the update was prepared for these
        writes. Otherwise nothing changes. */
    method CommitBlock(block: Block, metas: seq<bool>, writes: seq<AccountWrite>, update: StateUpdate, spent: seq<H256>)
      returns (r: Outcome<()>)
      requires Valid() && WritesIn(writes, keys) && tree.KeysValid(update.nodeWrites)
      modifies this
      ensures old(Prepared(update, writes)) ==> Valid()
      ensures genesisHash == old(genesisHash)
      ensures r.Failure? ==> unchanged(this)
      ensures var latest, n := old(latestSlot), |block.transactions|;
              var sealed := |metas| == n && block.header.stateRoot == update.newRoot;
              var newer := latest.Some? ==> latest.value < block.header.slot;
              var signed := forall i | 0 <= i < n :: block.transactions[i].signatures != [];
              && (r.Success? <==> sealed && newer && signed)
              && (r == Failure(MetasMismatch) <==> |metas| != n)
              && (r == Failure(RootMismatch) <==> |metas| == n && !sealed)
              && (r == Failure(NonMonotonicSlot) <==> sealed && !newer)
              && (r == Failure(MissingSignature) <==> sealed && newer && !signed)
      ensures r.Success? ==>
                && accounts == WriteAll(old(accounts), writes)
                && stateRoot == Some(block.header.stateRoot)
                && latestSlot == Some(block.header.slot)
                && blocks == old(blocks)[block.header.slot := block]
                && (forall s | s in old(blocks) :: s < block.header.slot)
                && Spends(old(nullifiers), nullifiers, spent, block.header.slot)
                && OutcomesStored(old(results), results, block, metas)
    {
      hide TablesAgree, Prepared, OutcomesStored, Spends, WriteAll, WritesIn;
      if |metas| != |block.transactions| {
        return Failure(MetasMismatch);
      }
      if block.header.stateRoot != update.newRoot {
        return Failure(RootMismatch);
      }
      if latestSlot.Some? && block.header.slot <= latestSlot.value {
        return Failure(NonMonotonicSlot);
      }
      // The indices are built inside the write transaction: a transaction
      // without a signature abandons it before anything is committed.
      var index := IndexTransactions(results, block, metas);
      if index.None? {
        return Failure(MissingSignature);
      }
      InstallState(writes, update);
      results := index.value;
      blocks := blocks[block.header.slot := block];
      nullifiers := MarkSpent(nullifiers, spent, block.header.slot);
      latestSlot := Some(block.header.slot);
      r := Success(());
    }

    /** What the node does at the end of block production: prepare the root from
        the block's writes, seal it into the header, commit. */
    method SealAndCommit(slot: nat, transactions: seq<Transaction>, metas: seq<bool>, writes: seq<AccountWrite>,
                         spent: seq<H256>)
      returns (r: Outcome<()>)
      requires Valid() && WritesIn(writes, keys)
      modifies this
      ensures Valid() && genesisHash == old(genesisHash)
      ensures r.Success? ==>
                && accounts == WriteAll(old(accounts), writes) && latestSlot == Some(slot) && stateRoot.Some?
                && Spends(old(nullifiers), nullifiers, spent, slot)
                && OutcomesStored(old(results), results, Block(Header(slot, stateRoot.value), transactions), metas)
      ensures r.Success? <==>
                && |metas| == |transactions|
                && (old(latestSlot).Some? ==> slot > old(latestSlot).value)
                && forall i | 0 <= i < |transactions| :: transactions[i].signatures != []
      ensures r.Failure? ==> unchanged(this)
    {
      var update := PrepareStateUpdate(writes);
      r := CommitBlock(Block(Header(slot, update.newRoot), transactions), metas, writes, update, spent);
    }

    /** An account (or its absence) with a proof the stored root accepts. */
    method ProveAccount(key: H256) returns (account: Option<StoredAccount>, proof: SmtProof)
      requires Valid() && stateRoot.Some? && key in keys
      ensures account == Find(accounts, key)
      ensures Accepts(tree, stateRoot.value, tree.path(key),
                      tree.Content(LeafUpdateOf(hash, AccountWrite(key, account))), proof)
    {
      account := if key in accounts then Some(accounts[key]) else None;
      var ok;
      LeavesAt(tree, hash, accounts, keys, key);
      proof, ok := ProveThenVerify(tree, smt, LeafUpdateOf(hash, AccountWrite(key, account)), CurrentLeaves());
    }
  }

  // ----- account proofs bind -------------------------------------------------

  /** Two different claims about one account that give the same leaf: the account
      hash or the leaf hash collides on them, or the latter hits the empty leaf. */
  ghost predicate LeafCollides(t: Smt, hash: AccountHash, key: H256, a: Option<StoredAccount>,
                               b: Option<StoredAccount>) {
    a != b &&
    match (a, b)
    case (Some(x), Some(y)) => hash(key, x) == hash(key, y) || t.leaf(key, hash(key, x)) == t.leaf(key, hash(key, y))
    case (Some(x), None) => t.leaf(key, hash(key, x)) == t.empty
    case (None, Some(y)) => t.leaf(key, hash(key, y)) == t.empty
    case (None, None) => false
  }

  /** A proof that the root of an account table accepts for anything but the stored
      account comes with a collision: of leaves, or of a pair hashed while checking
      it with a pair hashed by the tree. */
  lemma ProvedIsStored(t: Smt, hash: AccountHash, accounts: Accounts, keys: iset<H256>, key: H256,
                       claimed: Option<StoredAccount>, proof: SmtProof) returns (p: Pair, q: Pair)
    requires t.Valid() && PathsDistinct(t, keys) && KeysIn(accounts, keys) && key in keys
    requires Accepts(t, t.Root(LeavesOf(t, hash, accounts, keys)), t.path(key),
                     t.Content(LeafUpdateOf(hash, AccountWrite(key, claimed))), proof)
    ensures var leaves, leaf :=
              LeavesOf(t, hash, accounts, keys), t.Content(LeafUpdateOf(hash, AccountWrite(key, claimed)));
            || claimed == Find(accounts, key)
            || LeafCollides(t, hash, key, claimed, Find(accounts, key))
            || (&& p != q && t.node(p.0, p.1) == t.node(q.0, q.1)
                && (exists j | 0 <= j < t.depth :: p == Inputs(t, t.path(key), leaf, proof, j))
                && (exists at | |at| < t.depth :: q == (t.Node(leaves, at + [false]), t.Node(leaves, at + [true]))))
  {
    hide Smt.Node, Smt.Position, LeavesOf, Climb, PathsDistinct;
    p, q := (ZERO_HASH, ZERO_HASH), (ZERO_HASH, ZERO_HASH);
    var leaves, leaf := LeavesOf(t, hash, accounts, keys), t.Content(LeafUpdateOf(hash, AccountWrite(key, claimed)));
    LeavesAt(t, hash, accounts, keys, key);
    if leaf != t.LeafAt(leaves, t.Position(key)) {
      p, q := LeavesTree(t, leaves, key, leaf, proof, t.depth);
    }
  }

  /** Walking down from the root, the first level at which the proof leaves the tree. */
  lemma {:induction false} LeavesTree(t: Smt, leaves: Leaves, key: H256, leaf: H256, proof: SmtProof, i: nat)
    returns (p: Pair, q: Pair)
    requires t.Valid() && Complete(t, proof) && i <= t.depth && leaf != t.LeafAt(leaves, t.Position(key))
    requires Climb(t, t.path(key), leaf, proof, i) == t.Node(leaves, Prefix(t.path(key), t.depth - i))
    ensures p != q && t.node(p.0, p.1) == t.node(q.0, q.1)
    ensures exists j | 0 <= j < t.depth :: p == Inputs(t, t.path(key), leaf, proof, j)
    ensures exists at | |at| < t.depth :: q == (t.Node(leaves, at + [false]), t.Node(leaves, at + [true]))
  {
    hide PathBit, Sibling;
    var at := Prefix(t.path(key), t.depth - i);
    p := Inputs(t, t.path(key), leaf, proof, i - 1);
    q := (t.Node(leaves, at + [false]), t.Node(leaves, at + [true]));
    if p == q {
      assert Prefix(t.path(key), t.depth - i + 1) == at + [PathBit(t.path(key), t.depth - i)];
      p, q := LeavesTree(t, leaves, key, leaf, proof, i - 1);
    }
  }

  /** Every transaction is found under its first signature with its own place and
      outcome, unless a later one of the block has the same signature. No entry of
      another signature moves. */
  ghost predicate OutcomesStored(before: map<H256, TxResult>, after: map<H256, TxResult>, block: Block,
                                 metas: seq<bool>) {
    && |metas| == |block.transactions|
    && (forall i | 0 <= i < |metas| && LastOfItsSig(block, i) ::
          var sig := block.transactions[i].signatures[0];
          sig in after && after[sig] == TxResult(block.header.slot, i, metas[i]))
    && (forall sig | !SignedIn(block, sig) :: Entry(after, sig) == Entry(before, sig))
  }

  function Entry(results: map<H256, TxResult>, sig: H256): Option<TxResult> {
    if sig in results then Some(results[sig]) else None
  }

  predicate Signed(block: Block, i: nat, sig: H256)
    requires i < |block.transactions|
  {
    block.transactions[i].signatures != [] && block.transactions[i].signatures[0] == sig
  }

  ghost predicate SignedIn(block: Block, sig: H256) {
    exists i | 0 <= i < |block.transactions| :: Signed(block, i, sig)
  }

  /** No later transaction has its signature. */
  ghost predicate LastOfItsSig(block: Block, i: nat)
    requires i < |block.transactions|
  {
    && block.transactions[i].signatures != []
    && forall j | i < j < |block.transactions| :: !Signed(block, j, block.transactions[i].signatures[0])
  }

  /** Results by first signature; a later transaction with the same signature
      replaces an earlier one. A missing signature stops it. */
  method IndexTransactions(results: map<H256, TxResult>, block: Block, metas: seq<bool>)
    returns (r: Option<map<H256, TxResult>>)
    requires |metas| == |block.transactions|
    ensures r.Some? <==> forall i | 0 <= i < |metas| :: block.transactions[i].signatures != []
    ensures r.Some? ==> OutcomesStored(results, r.value, block, metas)
  {
    var index: map<H256, TxResult> := results;
    for i := 0 to |metas|
      invariant forall j | 0 <= j < i :: block.transactions[j].signatures != []
      invariant forall j | 0 <= j < i ::
                  var sig := block.transactions[j].signatures[0];
                  sig in index && (index[sig] == TxResult(block.header.slot, j, metas[j]) ||
                                   exists k | j < k < i :: Signed(block, k, sig))
      invariant forall sig | Entry(index, sig) != Entry(results, sig) :: SignedIn(block, sig)
    {
      if block.transactions[i].signatures == [] {
        return None;
      }
      var sig := block.transactions[i].signatures[0];
      assert Signed(block, i, sig);
      index := index[sig := TxResult(block.header.slot, i, metas[i])];
    }
    r := Some(index);
  }

  /** The spent nullifiers are recorded with the slot, and no other moves. */
  ghost predicate Spends(before: map<H256, nat>, after: map<H256, nat>, spent: seq<H256>, slot: nat) {
    && (forall n :: n in after <==> n in before || n in spent)
    && (forall n | n in after :: after[n] == if n in spent then slot else before[n])
  }

  method MarkSpent(table: map<H256, nat>, spent: seq<H256>, slot: nat) returns (next: map<H256, nat>)
    ensures Spends(table, next, spent, slot)
  {
    next := table;
    for i := 0 to |spent|
      invariant Spends(table, next, spent[..i], slot)
    {
      next := next[spent[i] := slot];
    }
    assert spent[..|spent|] == spent;
  }
}
