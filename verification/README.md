# Zul: a verified model of the L2, its shielded pool, its bridge and its settlement

Zul is a rollup on Solana. A node produces blocks and keeps accounts in a sparse
Merkle tree. A shielded pool inside the node hides transfers behind nullifiers
and zero-knowledge proofs. A batcher settles blocks to an L1 program, which also
holds the bridge vaults. Users deposit on L1, are credited once on L2, burn on
L2, and claim on L1 with a Merkle proof against a posted root.

The project models those parts and proves what they promise over every run.

- **Trees** (`Bytes`, `SparseTree`, `SparseProof`, `Hashing`, `TransactionsRoot`,
  `CommitmentTree`, `PoolState`, `WalletTree`, `TreeAgreement`). Sparse trees refine
  the plain recursive hash of all leaves. Proofs are complete, and two that disagree
  yield an explicit hash collision. The incremental pool tree, the wallet's layered
  tree and the circuit's path fold compute one root.
- **Store** (`Store`). The stored root is always the root of exactly the accounts
  table, and every transaction is found with its own outcome.
- **Pool** (`Field`, `Circuits`, `Pool`, `PoolService`, `PoolSolvency`,
  `PoolConservation`, `PoolSpending`). The vault always covers the unspent notes of
  every asset, so that their owners can take them out in any split. Lamports and
  tokens are conserved. Nullifiers never repeat.
- **Settlement and recovery** (`Settlement`, `Recovery`). Every non-empty block is
  settled exactly once under failed, late and re-derived posts, and every record has
  the state root after its last slot. The settled chain is
  recovered from L1 data exactly when every batch has as many chunks there as its
  record announces. A sweep that failed after some chunks and was retried leaves more.
- **Bridge** (`Ledger`, `WithdrawTxs`, `Bridge`, `Backing`, `Quiet`, `Withdrawals`,
  `Chain`, `SettlementProgram`, `TwoChains`, `Exits`, `Claims`, `Limits`, `Node`,
  `Program`). A
  two-chain machine interleaves L1 deposits, donations, posts and claims with L2
  blocks, publications, crashes and restarts. L1 never releases more than L2 burned,
  and a restart rebuilds the live tree. Deposits are credited at most once while no
  block deletes the receipt of a credited one. In fair runs the vault of a mint covers
  its wrapped supply, a proved claim of it is never refused for lack of funds, and
  every burn of it can still be claimed.
  `Limits` holds the runs in which a promise ends, beside the exact conditions.

Code that works by changing state is modelled by classes, methods and loops, each
proved against a function on values. The theorems over runs are about those
functions.

## Hypotheses

- Hash functions are arbitrary. Statements about forgery either end in two explicit
  strings, each hashed by one of the two parties, on which the hash collides, or
  assume that the hash does not collide on a set of the strings in play.
- A proof that a run submits and the verifier accepts has a witness of the circuit
  whose hash inputs are in play (`PoolSolvency.Witnessed`). Nothing is assumed of
  proofs no run submits.
- Balances and totals fit in 64 bits where a contract says so. Every saturating step
  of the source is modelled as saturating.
- Derived L2 addresses (wrapped mints, associated token accounts, receipts) do not
  collide. Fee payers are wallets, because they sign. A signature belongs to one
  transaction.
- Ordinary transactions and the pool delete no wrapped mint, which holds rent, and
  keep the shapes of accounts at derived addresses. They may write to or delete
  anything else, receipts included. A deposit may name any recipient. A token credit
  that meets data it cannot set panics, and its block is not committed.
- For at-most-once crediting only (`TwoChains.RunKeeps`): no block's other transactions
  delete the receipt of a deposit already credited. A receipt holds no coins, so any
  transaction that lists it as writable deletes it (`chain/zul-executor/src/lib.rs:388-389`).
  `Limits.DeletedReceiptCreditsTwice` is a run where one does, and
  `Limits.RefetchCreditsIff` states exactly when a deposit is credited again.
- For the backing of wrapped tokens only (`Exits.RunFair`): the same, and ordinary
  transactions and the pool issue no wrapped tokens, which `Exits.PoolMoveKeeps` shows
  of the pool's moves, and the bridge reads no other account that the same block
  deleted. `Ledger.ReadIsMerged` states exactly when such a read is wrong, and
  `Limits.RevivedTokensReturn` is a run in which it breaks the books.
- Each re-derivation of the batcher reads one snapshot of L1. The code makes two reads
  (`chain/zul-node/src/l1.rs:145-155`); `Settlement.TornView` states exactly when that
  is harmless, and `Settlement.TornViewSettlesTwice` gives a run where it is not.

## Where the code and its comments differ

- `chain/zul-privacy/src/processor.rs:224` says state changes only after all checks
  pass. A spend that finds the tree full is rejected after its nullifiers are
  recorded; `chain/zul-privacy/src/service.rs:204-206` repeats the claim.
  `Pool.RejectionMarksIff` states exactly when it fails.
- `chain/zul-node/src/node.rs:228-233` says deposits are applied exactly once. A deposit
  whose receipt a transaction deleted is credited again, and one whose receipt address
  was written to first is not credited (`Limits`).
- `chain/zul-bridge/src/rpc.rs:316-317` promises every settlement batch back from L1. One
  batch number with chunks of two attempts stops the whole recovery
  (`Recovery.RetryLosesHistory`).
- `chain/zul-privacy/src/service.rs:11-14` says token instructions are rejected. The
  code applies them, and so does the model.
- `circuits/unshield.circom:20-21` says a proof cannot be used for another recipient.
  The recipient enters the proof modulo the field order, so addresses that agree
  modulo it share proofs. `Pool.ProofBindsPayment` states exactly which, and
  `Pool.RecipientHasAlias` gives one.
- `programs/programs/zul-settlement/src/smt.rs:37` puts the empty leaf at index 256.
  The code and the model use depth 32.

## Model

| member | source | states |
|---|---|---|
| Bytes.KeyIdentifiesPrefix | chain/zul-store/src/smt.rs:73-85 | two storage keys are equal exactly when the depths and that many leading path bits are equal |
| Bytes.SiblingPrefix | chain/zul-store/src/smt.rs:66-71 | flipping the last bit of a prefix names the sibling position and no other |
| Bytes.LittleEndianRoundTrip | chain/zul-node/src/bridge.rs:134-149 | decoding the little-endian bytes of a number gives it back |
| Bytes.BytesRoundTrip | chain/zul-node/src/bridge.rs:134-149 | encoding the number some bytes spell gives them back |
| Bytes.LastByteWeighsMost | chain/zul-node/src/bridge.rs:134-149 | later bytes weigh more |
| SparseTree.EmptyHashes | chain/zul-store/src/smt.rs:30-40 | the bottom-up table holds the hash of an empty subtree at every depth |
| SparseTree.Smt.TwoLeaves | chain/zul-store/src/smt.rs:117-150 | the clear bit of a path is the left child |
| SparseTree.WritePath | chain/zul-store/src/smt.rs:117-150 | one leaf write turns nodes that match the recursive tree into nodes that match it everywhere with that leaf changed |
| SparseTree.ApplyUpdates | chain/zul-store/src/smt.rs:111-153 | committed nodes plus overlay are exactly the recursive tree of the updated leaves, and the root is its root |
| SparseTree.WriteNodes | chain/zul-store/src/store.rs:376-390 | the persisted table reads like table plus dirty nodes and never stores an empty-subtree hash |
| SparseTree.Smt.OrderIndependent | chain/zul-store/src/smt.rs:270-287 | the root does not depend on the order of a batch of updates |
| SparseTree.Smt.DeletionForgets | chain/zul-store/src/smt.rs:289-306 | deleting a leaf last gives the root of a tree where it was never written |
| SparseTree.Smt.ApplyAt | chain/zul-store/src/smt.rs:111-153 | the last update at a position decides its leaf |
| SparseProof.Verify | chain/zul-store/src/smt.rs:184-218 | the loop accepts exactly when every announced sibling is present, all are used, and the walk ends at the root |
| SparseProof.Prove | chain/zul-store/src/smt.rs:164-182 | the compressed proof lists exactly the siblings that are not empty subtrees, in order |
| SparseProof.ProveThenVerify | chain/zul-store/src/smt.rs:164-218 | a proof made from a tree is accepted for the leaf the tree holds, present or absent |
| SparseProof.FullProof | chain/zul-store/src/smt.rs:184-218 | every position of every tree has a proof that the check accepts |
| SparseProof.Diverge | chain/zul-store/src/smt.rs:184-218 | two walks to one node from different leaves contain two different node inputs with one hash, one on each walk |
| Hashing.Collision | chain/zul-store/src/smt.rs:184-218 | two accepted proofs for one root and key with different contents give two different strings with one blake3 hash, each hashed while checking its proof |
| Store.Store.PrepareStateUpdate | chain/zul-store/src/store.rs:265-269 | the prepared root and nodes are those of the account table after the writes |
| Store.Store.InstallState | chain/zul-store/src/store.rs:424-439 | accounts, nodes and root move together, and agree again if the update was prepared for these writes |
| Store.Store.InitializeGenesis | chain/zul-store/src/store.rs:175-222 | first call installs genesis, repeats are no-ops, a different genesis is refused |
| Store.Store.CommitBlock | chain/zul-store/src/store.rs:395-476 | succeeds exactly when outcomes match, the root is the update's, the slot grows and every transaction is signed, and each refusal names the first of these that fails; then every transaction is found under its first signature with its own place and outcome unless a later one has that signature, no other entry moves, and the root is that of exactly the new account table if the update was prepared for these writes; otherwise nothing changes |
| Store.IndexTransactions | chain/zul-store/src/store.rs:448-457 | each signature leads to its last transaction of the block, with that one's outcome; other signatures keep their entries |
| Store.WriteAllAt | chain/zul-store/src/store.rs:424-439 | the last write of a key decides and other keys stay |
| Store.Store.SealAndCommit | chain/zul-node/src/node.rs:683-713 | prepare and commit as the node issues them keep the store valid and record the block's outcomes and nullifiers |
| Store.Store.ProveAccount | chain/zul-store/src/store.rs:271-277 | an account or its absence comes with a proof the stored root accepts |
| Store.ProvedIsStored | chain/zul-store/src/store.rs:271-277 | a proof accepted for anything but the stored account gives an explicit collision of leaves, or of a pair hashed by the check with one hashed by the tree |
| TransactionsRoot.SplitIsLargest | chain/zul-primitives/src/merkle.rs:26-43 | the recursive tree splits at the largest power of two below the leaf count |
| TransactionsRoot.SmallTrees | chain/zul-primitives/src/merkle.rs:26-43 | left goes before right and an odd last leaf is paired last |
| TransactionsRoot.RootFromLeaves | chain/zul-primitives/src/merkle.rs:26-43 | pairwise hashing with odd-node promotion equals the recursive tree |
| TransactionsRoot.Diverge | chain/zul-primitives/src/merkle.rs:26-43 | different leaf lists of one length with one root give two different pairs with one hash, each hashed in its own tree |
| TransactionsRoot.VerifyBlock | chain/zul-primitives/src/block.rs:90-99 | accepts exactly when count, transactions root and signature are right |
| TransactionsRoot.BodyCollision | chain/zul-primitives/src/block.rs:61-99 | two verified blocks with one header and different bodies give a collision between strings hashed for their roots |
| CommitmentTree.AppendStep | chain/zul-privacy/src/state.rs:84-108 | appending a leaf recomputes only the path above it, from the left siblings |
| CommitmentTree.TwoLeaves | chain/zul-privacy/src/state.rs:84-108 | the even leaf is the left child, and a missing right one is the empty leaf |
| CommitmentTree.FoldReachesNode | circuits/lib/merkle.circom:31-49 | folding a leaf with its true siblings by its index bits reaches the root |
| CommitmentTree.FoldBinds | circuits/lib/merkle.circom:31-49 | without a collision, a path that folds to the root starts at the leaf the tree holds there |
| PoolState.PoolState.constructor | chain/zul-privacy/src/state.rs:51-64 | the initial buffers are those of the empty tree |
| PoolState.PoolState.CurrentRoot | chain/zul-privacy/src/state.rs:70-72 | the newest ring entry is the root of all leaves padded with empties |
| PoolState.PoolState.IsKnownRoot | chain/zul-privacy/src/state.rs:74-82 | a candidate is known exactly when it is non-zero and the root of one of the last 64 leaf prefixes |
| PoolState.PoolState.Insert | chain/zul-privacy/src/state.rs:84-108 | one insert in place keeps filled subtrees, root ring and counters those of the full tree with the leaf appended; a full tree is untouched |
| WalletTree.MerkleTree.Append | sdk/src/merkle.ts:29-48 | every layer holds the full tree's nodes for the leaves so far |
| WalletTree.MerkleTree.GetRoot | sdk/src/merkle.ts:50-54 | the top node is the root of the full tree, also when empty |
| WalletTree.MerkleTree.Path | sdk/src/merkle.ts:57-70 | the path is the true siblings and folds any appended leaf to the root |
| WalletTree.ReferenceRoot | chain/zul-privacy/src/state.rs:134-156 | the level-by-level reference equals the recursive root |
| TreeAgreement.AppendOnBothSides | sdk/src/merkle.ts:29-70 | after one commitment on both sides the wallet root is the node root, the node knows it, and the wallet's path for any leaf satisfies the circuit |
| Circuits.TransferConserves | circuits/transfer.circom:59-106 | inputs equal outputs plus fee as integers: 64-bit ranges leave no room to wrap in the field |
| Circuits.TransferCircuitIff | circuits/transfer.circom:29-117 | the circuit accepts exactly two proper spends and outputs of one asset with different nullifiers, equal integer sums, and a fee in the native asset only |
| Circuits.UnshieldConserves | circuits/unshield.circom:43-82 | the spent note equals the released amount plus change as integers |
| Circuits.UnshieldCircuitIff | circuits/unshield.circom:23-88 | the circuit accepts exactly a proper spend with its change and the released difference |
| Circuits.SpendIsMember | circuits/lib/merkle.circom:31-49 | a satisfied spend opens the leaf the tree holds at its index |
| Pool.ShieldVerdict | chain/zul-privacy/src/processor.rs:160-188 | accepted exactly for a positive amount, a canonical secret and room; what is appended and taken in, and which error otherwise |
| Pool.TransferVerdict | chain/zul-privacy/src/processor.rs:190-248 | accepted exactly for a known root, two different fresh nullifiers, canonical fields, an accepted proof and room for two leaves; what is recorded, and which error otherwise |
| Pool.UnshieldVerdict | chain/zul-privacy/src/processor.rs:250-300 | the same for an unshield, whose proof covers asset, amount and recipient |
| Pool.ProofBindsPayment | chain/zul-privacy/src/processor.rs:272-285 | a proof of one statement pays its amount, and is good for another recipient exactly when the addresses agree modulo the field order |
| Pool.RecipientHasAlias | circuits/unshield.circom:20-21 | and there always is such another address |
| Pool.RejectionMarksIff | chain/zul-privacy/src/processor.rs:190-300 | a rejection changes the pool exactly when every check passed and the tree had too little room |
| PoolService.BlockNullifiers.Insert | chain/zul-privacy/src/service.rs:84-87 | the log of committed and in-block nullifiers grows by this one |
| PoolService.BlockNullifiers.Contains | chain/zul-privacy/src/service.rs:80-83 | true exactly for nullifiers committed or recorded in this block |
| PoolService.RunShield | chain/zul-privacy/src/processor.rs:160-188 | the tree object and the verdict follow the shield rules, with every error in its order |
| PoolService.RunTransfer | chain/zul-privacy/src/processor.rs:190-248 | the same for a transfer, including nullifiers recorded before a full tree is found |
| PoolService.RunUnshield | chain/zul-privacy/src/processor.rs:250-300 | the same for an unshield |
| PoolService.RunProcess | chain/zul-privacy/src/processor.rs:106-158 | dispatch to the three |
| PoolService.MoveNative | chain/zul-privacy/src/service.rs:335-347 | overlay balances move as one lamport transfer that reads both ends first |
| PoolService.MoveToken | chain/zul-privacy/src/service.rs:395-418 | overlay token balances move with the destination read after the source is written |
| PoolService.CanPayIsFundsAvailable | chain/zul-privacy/src/service.rs:219-262 | the pre-check on overlay balances is the one on the balances they stand for |
| PoolService.RunTx | chain/zul-privacy/src/service.rs:208-318 | one transaction changes tree, nullifiers and balances as the value-level rule says |
| PoolService.ProcessBlock | chain/zul-privacy/src/service.rs:137-201 | a block commits exactly the fold of its transactions; the tree state only if one succeeded |
| PoolSolvency.SpendOpensNote | circuits/lib/note.circom:16-60 | a spend against a known root opens the one note at its index, with that owner, asset and amount |
| PoolSolvency.FreshNullifierUnspent | chain/zul-privacy/src/processor.rs:201-227 | an unrecorded nullifier belongs to a note not yet spent |
| PoolSolvency.TransferBounded | chain/zul-privacy/src/processor.rs:190-248 | an accepted transfer lowers the outstanding value by at least what it creates plus the fee |
| PoolSolvency.UnshieldBounded | chain/zul-privacy/src/processor.rs:250-300 | an accepted unshield lowers the outstanding value by at least change plus release |
| PoolSolvency.TxKeepsSolvency | chain/zul-privacy/src/service.rs:208-318 | any transaction, accepted or rejected, keeps vault at least outstanding per asset |
| PoolSolvency.BlockKeepsSolvency | chain/zul-privacy/src/service.rs:137-201 | so does a block, also when its tree state is not persisted |
| PoolSolvency.AlwaysSolvent | chain/zul-privacy/src/service.rs:137-318 | over every run the leaves have an opening, and the vault covers all unspent notes of every asset in any opening |
| PoolSolvency.ValidSpendCovered | chain/zul-privacy/src/service.rs:239-262 | the vault holds what a spend that passes the processor's checks must be paid |
| PoolSpending.ShieldAcceptedIff | chain/zul-privacy/src/service.rs:223-238 | a shield goes through exactly for a payer with fee and amount, a positive amount, a canonical secret and room |
| PoolSpending.SpendStatus | chain/zul-privacy/src/service.rs:239-268 | a spend is refused for funds exactly when the payer lacks the fee or the vault what it must pay; otherwise the processor decides |
| PoolSpending.SpendPayableIff | chain/zul-privacy/src/service.rs:239-262 | in a solvent pool the pre-check asks of a valid spend only that the payer holds the flat fee |
| PoolSpending.SpendAcceptedIff | chain/zul-privacy/src/service.rs:208-318 | so a valid spend goes through exactly when the payer holds the fee and the tree has room |
| PoolSpending.UnshieldCompletes | circuits/unshield.circom:23-88 | the owner of a note can satisfy the circuit for any amount up to its value |
| PoolSpending.TransferCompletes | circuits/transfer.circom:29-117 | two inputs of one asset, dummies included, can become any two outputs of the same total less the fee |
| PoolSpending.NoteCanLeave | chain/zul-privacy/src/processor.rs:250-300 | in a solvent pool the owner of a note with an unrecorded nullifier can take any part of it out to any address, given a proof and the flat fee |
| PoolSolvency.ConfusableMints | chain/zul-privacy/src/processor.rs:99-104 | shields of two assets append one leaf exactly when their ids agree modulo the field order |
| PoolSolvency.DistinctIdsNeeded | chain/zul-privacy/src/processor.rs:160-188 | when two assets in use share an id, one shield of the one leaves the other uncovered |
| Pool.RejectionMovesNothing | chain/zul-privacy/src/service.rs:204-275 | a rejected transaction moves no balance |
| Pool.BlockTreeIff | chain/zul-privacy/src/service.rs:137-201 | the tree state is persisted exactly when some transaction of the block succeeded |
| PoolConservation.MoveConservesIff | chain/zul-privacy/src/service.rs:335-347 | a funded move conserves lamports exactly when its ends differ, the amount is zero, or the balance is the 64-bit maximum |
| PoolConservation.TxExact | chain/zul-privacy/src/service.rs:208-347 | whoever pays and collects, an accepted transaction moves every balance by exactly its fee and effect and the total by exactly the amounts it moves onto their own source; a rejected one moves none |
| PoolConservation.BlockExact | chain/zul-privacy/src/service.rs:137-201 | so does a block, over its accepted transactions |
| PoolConservation.DistinctRolesFlow | chain/zul-privacy/src/service.rs:137-201 | with distinct roles a block makes no lamports |
| PoolConservation.BlockConserves | chain/zul-privacy/src/service.rs:137-201 | with distinct roles lamports are conserved and the vault moves by shields less unshields less fees |
| PoolConservation.TokensConserved | chain/zul-privacy/src/service.rs:395-418 | wrapped tokens are conserved whoever receives them |
| PoolConservation.TokensExact | chain/zul-privacy/src/service.rs:395-418 | an accepted transaction moves every token balance by exactly its effect |
| PoolConservation.NullifiersNeverRepeat | chain/zul-privacy/src/service.rs:73-88 | over every run the nullifier log only grows and never repeats |
| Settlement.Batcher.RunOnce | chain/zul-bridge/src/batch.rs:91-147 | posts exactly the window's non-empty blocks with the state root of the last slot read, and moves cursor and number only past an empty window or a confirmed post |
| Settlement.SweepReadsAll | chain/zul-bridge/src/batch.rs:99-110 | a sweep reads its whole window on every chain exactly when the interval is at most 10,000 |
| Settlement.SweepLatest | chain/zul-node/src/l1.rs:68-140 | one iteration of the loop is one sweep of the protocol, and unless it failed the cursor is past the tip or the interval |
| Settlement.ChunksFirst | chain/zul-bridge/src/batch.rs:125-142 | over every run no record is sent before all chunks of its payload are on L1 |
| Settlement.NextKeeps | chain/zul-node/src/l1.rs:68-155 | every protocol step, including late landings and re-derivations, keeps the settlement invariant |
| Settlement.SettledExactlyOnce | chain/zul-bridge/src/batch.rs:69-147 | over every run ranges increase without overlap, every record has the state root after its last slot, and the payloads are exactly the non-empty blocks up to the last settled slot |
| Settlement.BlockInOnePayload | chain/zul-bridge/src/batch.rs:91-147 | every settled non-empty block is in one payload and no other |
| Settlement.TornView | chain/zul-bridge/src/rpc.rs:296-312 | a batcher whose cursor and number came from two L1 states is in step exactly when the states have the same records |
| Settlement.TornViewSettlesTwice | chain/zul-node/src/l1.rs:145-155 | a run in which a post lands between the two reads of a re-derivation, after which the next sweep settles its block twice |
| Recovery.ChunksRoundTrip | chain/zul-bridge/src/batch.rs:53-55 | chunks of 800 bytes, the last one of at most that, concatenate to the payload |
| Recovery.ReassembleOnce | chain/zul-bridge/src/rpc.rs:318-340 | chunks posted once and fetched in any order give the payload back |
| Recovery.ReassembleIff | chain/zul-bridge/src/rpc.rs:318-340 | once every chunk was posted, reassembly gives the payload exactly when nothing more was posted under that number |
| Recovery.FetchBatches | chain/zul-bridge/src/rpc.rs:318-340 | all batches reassemble and match their data hash, or none is returned |
| Recovery.VerifyHistory | chain/zul-bridge/src/recover.rs:56-127 | accepts exactly the histories numbered from 0 with ranges that increase without overlap and blocks, all in range, with the right totals, first and last slot and final state root; otherwise names the first batch and the first test it fails |
| Recovery.RecoversSettledChain | chain/zul-bridge/src/recover.rs:56-127 | whatever history settlement produced, if the chunks of each batch are on L1 once it is recovered, accepted, and equal to the settled non-empty blocks in slot order, with the state root after the last settled slot |
| Recovery.SettledReassembles | chain/zul-bridge/src/rpc.rs:318-340 | over every run, with the chunks of every attempt on L1, a settled batch reassembles exactly when it has as many chunks as its record announces |
| Recovery.RecoversIff | chain/zul-bridge/src/rpc.rs:318-340 | over every run the whole history is recovered exactly when every batch has as many chunks as its record announces |
| Recovery.RetryLosesHistory | chain/zul-bridge/src/batch.rs:125-142 | a run in which a sweep fails after some chunks and is retried; the block is settled and its history cannot be recovered |
| Ledger.ReadIsMerged | chain/zul-node/src/node.rs:437-441 | a read through the block's writes shows what will be committed exactly when the account was not deleted by the same block |
| Ledger.MergeIsView | chain/zul-node/src/node.rs:683-684 | what is committed is what could be read, without what is still deleted |
| Ledger.MoveKeepsTotals | chain/zul-privacy/src/service.rs:395-418 | the pool's token move keeps every mint's supply and total holdings |
| WithdrawTxs.ParseToken | chain/zul-node/src/bridge.rs:122-151 | the 80-byte layout of a withdrawal parses back to it |
| WithdrawTxs.ParseNative | chain/zul-node/src/bridge.rs:122-151 | so does the 48-byte layout of a native one |
| WithdrawTxs.ParseIff | chain/zul-node/src/bridge.rs:122-151 | and nothing else parses: one instruction to the reserved program in one of the layouts, paid by the first key |
| WithdrawTxs.PartitionWithdraws | chain/zul-node/src/bridge.rs:101-120 | splits a list into its withdrawals and the rest, in order, losing none |
| WithdrawTxs.OthersSplit | chain/zul-node/src/bridge.rs:101-120 | the rest of two lists is the rest of each, in order |
| Bridge.CreditWrapped | chain/zul-node/src/node.rs:304-362 | in everything the node can read, supply and the recipient's token account grow by the amount, created on first use; both are no longer deleted |
| Bridge.ApplyDeposits | chain/zul-node/src/node.rs:234-297 | what the node can read becomes the accounts with every deposit credited whose receipt address has no account and no write, not even a deletion, each with its receipt; deletions are undone exactly where it wrote |
| Bridge.BurnWrapped | chain/zul-node/src/node.rs:367-406 | burns from token account and supply if covered, otherwise changes nothing |
| Bridge.WithdrawOne | chain/zul-node/src/node.rs:419-482 | one withdrawal takes effect in full or not at all |
| Bridge.ApplyWithdraws | chain/zul-node/src/node.rs:412-524 | every withdrawal in turn with its outcome; the leaves are exactly the successful ones |
| Backing.CoinCreditFlows | chain/zul-node/src/node.rs:256-264 | a coin deposit to any address pays it in full and touches no other balance; only coins sent to the deposit's own receipt are lost |
| Backing.TokenCreditFlows | chain/zul-node/src/node.rs:304-362 | a token deposit pays its recipient in full, touches no other balance, and adds only rent in coins |
| Backing.CreditWrites | chain/zul-node/src/node.rs:278-362 | a credit leaves a receipt with amount and recipient, a new mint with the deposit's decimals that later credits keep, the recipient's token account, and nothing else |
| Backing.WithdrawFlows | chain/zul-node/src/node.rs:419-482 | the payer loses amount and fee, the collector gains the fee, and the amount leaves the chain |
| Backing.WithdrawAcceptedIff | chain/zul-node/src/node.rs:419-470 | a withdrawal goes through exactly for a positive amount from a payer with the fee and the amount |
| Backing.CreditTotals | chain/zul-node/src/node.rs:304-362 | a first credit raises supply and total holdings of its own token alike, and of no other |
| Backing.WithdrawBalanced | chain/zul-node/src/node.rs:367-406 | a burn lowers supply and total holdings alike, never by saturation |
| Backing.CreditAllReceipts | chain/zul-node/src/node.rs:241-246 | after a list every listed signature has a receipt or a deleted one, the new receipts are those of the credited deposits and those their coins were sent to, and nothing seen before is credited |
| Backing.CreditAllLog | chain/zul-node/src/node.rs:234-297 | through repeats, old deposits and any recipients, a log of L1 deposits each credited once with its receipt stays one |
| Withdrawals.CommitmentInputInjective | chain/zul-node/src/bridge.rs:68-83 | the commitment string fixes recipient, asset, amount and nonce |
| Withdrawals.AddressInputInjective | chain/zul-node/src/bridge.rs:52-57 | the address string fixes recipient and nonce |
| Withdrawals.SamePlaceIff | programs/programs/zul-settlement/src/smt.rs:142-144 | without a collision two withdrawals share a leaf exactly when recipient and nonce agree or their 32-bit paths collide |
| Withdrawals.Insert | chain/zul-node/src/withdraw_smt.rs:46-64 | one insert turns the tree of a log into the tree of the longer log |
| Withdrawals.CurrentRoot | chain/zul-node/src/withdraw_smt.rs:66-70 | the stored root node is the root of the log's tree, also when empty |
| Withdrawals.ProofFor | chain/zul-node/src/node.rs:528-548 | a proof handed out is accepted, and without a collision there is one exactly when no later withdrawal has the same recipient and nonce or a colliding 32-bit path |
| Withdrawals.ProofExists | programs/programs/zul-settlement/src/smt.rs:91-145 | such a withdrawal has a proof that L1 accepts against the root of its log |
| Withdrawals.WalkFollowsTree | programs/programs/zul-settlement/src/smt.rs:91-117 | without a collision, an accepted walk passes through the tree's own nodes at every level |
| Withdrawals.ClaimWasBurned | programs/programs/zul-settlement/src/smt.rs:91-145 | a claim accepted against the root of a burned log is one of its withdrawals in every field and the last at its place, even if addresses repeat or 32-bit paths collide |
| Quiet.CreditAllLocal | chain/zul-node/src/node.rs:234-297 | deposits that read no deleted account besides receipts come to the same with and without it |
| Quiet.WithdrawAllLocal | chain/zul-node/src/node.rs:412-524 | so do withdrawals |
| Chain.BuiltOnMerged | chain/zul-node/src/node.rs:673-687 | then a block is built on exactly what the other transactions leave behind |
| Chain.CommitReceipts | chain/zul-node/src/node.rs:673-687 | after a block a receipt is there exactly when it was there, its deposit was credited, or somebody else wrote to it, and the block did not delete it |
| Chain.ReadsBackIff | chain/zul-store/src/store.rs:448-457 | every entry reads back its own outcome exactly when no signature has two different outcomes |
| Chain.RebuiltIsBurned | chain/zul-node/src/node.rs:191-216 | with consistent outcomes the log rebuilt from blocks is the burned log |
| Chain.RebuiltWasBurned | chain/zul-node/src/node.rs:191-216 | whatever the outcomes, nothing is rebuilt that was not burned |
| Limits.ReplayBreaksRestart | chain/zul-store/src/store.rs:448-457 | a run that includes a withdrawal twice, with success first and failure second, after which a restart loses it |
| Program.Program.Post | programs/programs/zul-settlement/src/lib.rs:88-130 | succeeds exactly for the authority with the next number and a proper range; the record is then the last, at its own number, all earlier ones stand, and the call is a step of the two-chain protocol |
| Program.Program.AcceptSol | programs/programs/zul-settlement/src/lib.rs:133-162 | vault, running total and announced SOL deposits grow by the same amount, or nothing changes; success is a step of the protocol |
| Program.Program.AcceptSpl | programs/programs/zul-settlement/src/lib.rs:170-211 | the mint's vault and announced deposits grow by what was received, no other mint's do, or nothing changes; success is a step of the protocol |
| Program.Program.ClaimWithdrawal | programs/programs/zul-settlement/src/lib.rs:280-339 | pays exactly when it comes first for its recipient and nonce, its proof is accepted against a posted root, and the SOL vault covers it |
| Program.Program.ClaimWithdrawalSpl | programs/programs/zul-settlement/src/lib.rs:216-276 | the same from the mint's vault, with the same claim records |
| TwoChains.CreditedExactlyOnce | chain/zul-node/src/node.rs:234-297 | over every run in which no block deletes the receipt of a credited deposit, whoever writes to receipts, each L1 deposit is credited at most once, only L1 deposits are, and every credit has its receipt |
| TwoChains.ReceiptsIff | chain/zul-node/src/node.rs:241-246 | over every run receipts are exactly the credited signatures if and only if no credited one lost its receipt to a deletion and every other receipt address somebody wrote to was deleted |
| Limits.SuppressedDeposit | chain/zul-node/src/node.rs:241-246 | a run in which a deposit whose receipt address received deposited coins is not credited |
| Limits.TransferSuppresses | chain/zul-node/src/node.rs:241-246 | from any reachable state, an ordinary transfer to the receipt address of an uncredited deposit does the same |
| Limits.NeverCredited | chain/zul-node/src/node.rs:241-246 | such a deposit is not credited, however the run goes on, until a block deletes what is at its receipt address |
| Limits.RefetchCreditsIff | chain/zul-node/src/bridge.rs:178-186 | from any reachable state, fetching a deposit and committing a block credits it, for the first time or once more, exactly when its receipt is absent |
| Limits.DeletedReceiptCreditsTwice | chain/zul-executor/src/lib.rs:345-393 | a run in which a block deletes a receipt and the deposit is credited twice, so that the vault no longer covers the supply |
| TwoChains.QueuedIsCredited | chain/zul-node/src/node.rs:241-246 | a block credits everything queued, except where a receipt was there, another transaction of the block wrote to or deleted it, or credited coins went to it; in the first two cases never |
| TwoChains.RunsKeepTree | chain/zul-node/src/node.rs:720-732 | over every run each root stored, sent or posted is of a tree the node stored, every such tree holds burned withdrawals only, and with consistent outcomes the live tree is the burned log |
| TwoChains.RestartEquivalence | chain/zul-node/src/node.rs:191-220 | at any point of a run in which no signature got two different outcomes, a restart rebuilds the live tree and root, also between a commit and its publication |
| TwoChains.OutcomesReadBackIff | chain/zul-node/src/node.rs:191-220 | in any run, committed outcomes are read back exactly when no signature got two different ones |
| Exits.ExitSafety | programs/programs/zul-settlement/src/lib.rs:216-339 | over every run, with replays, donations, restarts and foreign posts, L1 has released of an asset at most what L2 burned of it |
| Exits.RunsKeepExits | programs/programs/zul-settlement/src/lib.rs:451-458 | over every run each payout was burned and no claim key was paid twice |
| Exits.ProgramConsistent | programs/programs/zul-settlement/src/lib.rs:88-211 | over every run batches are numbered in order, the running total is that of the SOL deposits, and the SOL vault holds at least those less native payouts |
| Exits.PoolMoveKeeps | chain/zul-privacy/src/service.rs:395-418 | the pool's token move issues nothing |
| Exits.AlwaysBacked | chain/zul-node/src/node.rs:234-406 | over every fair run wrapped supply equals the sum of token accounts, and the L1 vault covers it plus uncredited deposits plus unclaimed burns |
| Exits.ClaimIsPayable | programs/programs/zul-settlement/src/lib.rs:216-276 | so a claim of such a mint that passes the other checks is never refused for lack of funds |
| Claims.RunsBurnPositive | chain/zul-node/src/node.rs:419-482 | over every run each burned amount is positive |
| Claims.BurnCanBeClaimed | programs/programs/zul-settlement/src/lib.rs:216-276 | from any state of a fair run with consistent outcomes, a burned withdrawal of a backed mint, not claimed and not overtaken, can still be paid in full on L1 |
| Limits.RevivedTokensReturn | chain/zul-node/src/node.rs:437-441 | a run in which a token deposit to an account that its holder burned and closed in the same block brings the burned token back: holdings exceed the supply |
| Limits.SameBlockExit | chain/zul-node/src/node.rs:673-687 | coins can leave in the block that credits them |
| Limits.BackedIsPayable | programs/programs/zul-settlement/src/lib.rs:216-276 | over every fair run the vault of a backed mint can pay any burned withdrawal not yet claimed |
| Limits.UnbackedIsUnpaid | chain/zul-node/src/node.rs:425-437 | a fair run that burns coins for SOL or for the gas mint, or wrapped SOL beside a gas mint, which the vault cannot pay |
| Limits.PayableIff | programs/programs/zul-settlement/src/lib.rs:216-339 | burned withdrawals of an asset can be paid in every fair run exactly when it is not native, not the gas mint, and not wrapped SOL beside a gas mint |
| Exits.WrappedSolIsUnbacked | chain/zul-node/src/node.rs:247-276 | with a gas mint set, one SOL deposit issues wrapped SOL that its token vault does not hold |
| Exits.BackedIff | chain/zul-node/src/node.rs:247-276 | a mint is covered in every run exactly when it is not wrapped SOL on a chain with a gas mint |
| Node.Node.constructor | chain/zul-node/src/node.rs:113-186 | booting from disk is the restart step of the protocol |
| Node.Node.RebuildWithdrawals | chain/zul-node/src/node.rs:191-220 | the walk over committed blocks rebuilds tree and root of the burned log |
| Node.Node.EnqueueDeposits | chain/zul-node/src/node.rs:224-226 | queuing is the fetch step of the protocol |
| Node.BuildBlock | chain/zul-node/src/node.rs:673-687 | deposits then withdrawals over the other writes give the accounts, entries and leaves of the value-level block, also when they write over deletions; withdrawals come last |
| Node.Node.ProduceBlock | chain/zul-node/src/node.rs:579-713 | one block is the commit step of the protocol |
| Node.Node.PublishWithdrawals | chain/zul-node/src/node.rs:720-732 | publishing is the next step: tree updated, root stored or not |
| Node.Node.ComputeWithdrawalProof | chain/zul-node/src/node.rs:528-548 | a served proof is accepted against the served root, and is served exactly when no later withdrawal has the same recipient and nonce or a colliding 32-bit path |
| Node.StoredIsRecorded | chain/zul-store/src/store.rs:448-457 | what the store keeps of a block's outcomes is what a restart of the protocol reads back |

## Left out

- SVM execution: an arbitrary account-write step with the stated restrictions.
- Groth16, curve parsing, Poseidon, blake3, zstd and bincode internals: arbitrary functions with stated hypotheses.
- Merging SVM and pool writes of one block for the same account: pool theorems are over the committed store.
- Byte layouts of mint and token accounts: fields are modelled as data; a setter on data without the field panics, and no block with such a credit is committed.
- Bridge.ApplyDeposits: does not cover credits that panic (`chain/zul-primitives/src/wrapped_spl.rs:92-94`).
- PoolConservation.BlockConserves: does not cover a payer who is the collector or an unshield to the vault, where lamports are made; `PoolConservation.BlockExact` gives the exact change.
- Chunks that somebody else posts under a batch number: the model has those of the batcher's own attempts.
- Rent, account creation and compute limits on L1: an L1 transfer fails only when the vault is short or would overflow.
- Reorganisations of L1: a landed record stays.
- Several deposits in one L1 transaction: the client reads one per signature.
- The 100-signature window of the deposit watcher: a deposit may be fetched at any time or never.
- Mempool, blockhash queue, JSON-RPC, WebSockets, metrics, configuration, faucet: plumbing or bounded queues that would add only easy members.
- `chain/zul-bridge/src/deposit.rs`: a deposit path the node does not use.
- Note ciphertexts and events, the address-to-signature index, and zero-balance account removal in `lamport_write`.
- Wallet encryption and proving, explorer, indexer, deployment.
- Privacy and zero-knowledge: not functional properties of this code.
