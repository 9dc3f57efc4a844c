# Ledger engine: a verified model

This project models the ledger engine of a small proof-of-work blockchain node written in Go,
and proves what it keeps over every run. The engine stores a tree of blocks, selects a main
chain in it and keeps four caches that must agree with the tree: a linked index of the main
chain, the unspent outputs, an index of which block holds and which block spends each
transaction, and a pool of transactions waiting for a block.

The project has a plain meaning for each of these (a path in a tree, a fold over the
transactions of that path, a relation between blocks and transactions) and the node's own
incremental form of it, written as classes whose methods update maps and byte records in place
with the loops, branches and error cases of the source. Every method is proved against the
plain meaning; the theorems about runs are proved about the plain meaning.

| files | what they model |
|---|---|
| `Structures`, `BlockTree` | transactions, blocks, the tree of stored blocks, paths and where two paths meet |
| `ChainDB`, `Blockchain`, `ForkChoice` | the chain bucket, the block tree manager, fork choice over runs |
| `Ledger`, `Soundness`, `Cancellation`, `Reorganisation`, `Drift` | the meaning of a chain, and what cancelling and replacing blocks does to the unspent outputs |
| `OutputRecords`, `UnspentOutputs`, `TransactionIndex` | the cache of unspent outputs and the transaction index |
| `Pool`, `PoolReorganisation`, `PreparedBy`, `Preparation`, `Dropping` | the pool, the pool across reorganisations, the transactions drawn for a block and those dropped |
| `TransactionRules`, `Acceptance`, `Validity`, `QuickCheck`, `Reception`, `Ownership`, `TransactionsManager`, `Consensus` | verification of transactions and blocks, what a node lets in, and mining |
| `CoinSelection`, `Payment`, `Balance`, `Transfers`, `Money` | payments, balances, who gains and who loses, and conservation of money |
| `Progress`, `Readiness` | what gets through: a prepared payment into the pool, and a pool in order into a block |
| `NodeRuns`, `RunDrift`, `Agreement`, `Node` | the node as a state machine, what its runs keep, when nodes agree, and the methods that run it |
| `Merkle` | the Merkle tree |
| `Scenes`, `Forks`, `ForkRuns` | a small world of numbered blocks, and runs of a node on them |
| `Losses`, `OddBlocks`, `Counterexamples` | runs from the first block, and inputs, on which the code does not do what one would expect |

`dafny verify dfyconfig.toml` checks the whole project.

The main results, in one sentence each:

- Every run keeps the linked index equal to the path of the top block and the top a highest block, and nodes that store the same blocks in any order agree when one block is highest.
- No stored path of any run spends an output twice or spends one that does not exist.
- After any run at all the cache of unspent outputs holds real unspent outputs only, so it never totals more than the chain has made (up to the same rounding as below); which outputs it lacks is given output by output, a branch replacement keeps it exact if and only if the cancelled blocks give every output back, and two competing branches with inputs in order always do.
- Cancelling a block just added restores the unspent outputs if and only if its input loops reach what they must and no stray spend is counted.
- Unspent outputs total ten coins for every block, to within one smallest unit for each ordinary transaction, and exactly when all amounts are whole units.
- An ordinary transaction once known stays in the pool or on the main chain, unless a user cancels it, a rival was in the pool, or the node drops it when it prepares a block; it drops a drawn one exactly when an input is not spendable, it is not fair, a stray block spends an input of it, or it names an output twice. Nothing on the main chain is in the pool.
- A block is accepted, with inputs named once each, if and only if its proof of work holds, it continues its path properly and no stray block spends one of its inputs; so nodes that are sent the same valid blocks, parents first, all store the whole tree if and only if no stray block is in the way of any.
- After any run every spent output on a stored path was spent by its owner, with a valid signature; every reward is ten coins and no other output is below one smallest unit.
- A node takes an arriving transaction into its pool if and only if it conflicts with none there, its inputs are unspent outputs of the cache and the pool, those of the pool named once, and it is fair by their values and owners.
- A prepared payment gives the receiver exactly the amount and costs the payer that and at most one smallest unit; once signed, the node's own pool takes it in unless the amount is below one smallest unit or the excess exactly one. The reward of a prepared block gives its minter exactly ten coins.
- A pool in which transactions are fair, and younger than those they build on, goes into the next block as a whole and in order of time, and nothing of it is dropped.
- A block prepared from the pool passes the node's own checks if and only if enough transactions are left and screening left none without its parent; a pool of input-disjoint transactions never loses a parent.

Where the code and its comments or obvious intent differ, the model follows the code:

- `CheckBlockIsInRange` compares heights alone in its last test (node/blockchain/manager.go:967-969), so it also says yes for some blocks on other branches. The model calls these stray blocks and carries them through every result that depends on the query.
- `UpdateOnBlockCancel` leaves its input loop at the first input whose transaction is not found under the tip (node/transactions/unspent.go:585).
- `BlockRemoved` of the transaction index drops recorded spends by output index, whatever block made them (node/transactions/index.go:210).
- `VerifyBlock` compares neither the block's height with its parent's nor inputs of different transactions of one block (node/consensus/manager.go:252-313). `OddBlocks` has a block of each kind that a node takes in; `Validity.AcceptedProperIff` and `Blockchain.AddValidIff` say exactly what is then lost.
- `NewMerkleTree` makes len/2 rounds whatever the depth of the tree, so the root of a longer list is hashed with itself in every round too many (lib/utils/merkle_tree.go:34, `Merkle.RootIsTreeRoot`).
- A block's hash is not compared with the hash of its data, though a comment says so (node/consensus/proofofwork.go:103-119).
- The transactions that a reorganisation returns to the pool are dropped by the next preparation of a block that draws them when an input of theirs was made below the fork: the abandoned block stays stored and counts as spending it (`Dropping.AbandonedDropped`).
- The quick check lets a transaction in that names one confirmed output twice, and so does the full one; screening then drops it when a block is prepared (node/transactions/pending.go:487-531, `Counterexamples.DoubledIsDropped`).
- Whether a valid block is stored can depend on the order of arrival, because of stray blocks (`OddBlocks.OrderDecides`).

The statements about runs take for granted: an incoming block's height is its parent's height
plus one; hashes have 32 bytes, are never all zero and identify blocks; transaction IDs identify
transactions and a reward's ID is new; ordinary transactions have inputs; and the inputs inside
one block are pairwise distinct. The code relies on all of them and checks neither the first nor
the last. They are `Chain.Acceptable`, `BlockAssumptions`, `Incoming` and `IncomingTx`.

## Model

| member | source | states |
|---|---|---|
| `Structures.ReverseSlice` | node/structures/block.go:39-49 | the slice is reversed in place |
| `BlockTree.MergeHighest` | node/blockchain/manager.go:585-686 | where the walk from one block first meets the path of another is their highest common ancestor, and is the same from both sides |
| `BlockTree.RemoveValid` | node/blockchain/manager.go:256-296 | the store stays parent-closed after a block above genesis is deleted if and only if nothing is built on that block |
| `ChainDB.IndexUnique` | node/database/blockchain.go:208-260 | the chain bucket is determined by the path it indexes |
| `ChainDB.AppendedIndex` | node/database/blockchain.go:208-260 | putting a hash on top of an indexed path patches one record and gives the index of the longer path |
| `ChainDB.TruncatedIndex` | node/database/blockchain.go:263-320 | taking the end off an indexed path patches one record and gives the index of the shorter path |
| `ChainDB.BlockchainDB.AddToChain` | node/database/blockchain.go:208-260 | the exact error for every bucket, and otherwise the bucket with the hash appended |
| `ChainDB.BlockchainDB.RemoveFromChain` | node/database/blockchain.go:263-320 | the exact error for every bucket, and otherwise the bucket with the hash cut off |
| `ChainDB.BlockchainDB.BlockInChain` | node/database/blockchain.go:322-350 | for a valid database, whether the hash lies on the path from the top to genesis |
| `ChainDB.BlockchainDB.GetLocationInChain` | node/database/blockchain.go:352-400 | for a valid database, the neighbours of the hash on the path, so prev and next are inverse |
| `Blockchain.BlockchainIterator.Next` | node/blockchain/iterator.go:41-66 | returns the block at the cursor and moves to its parent; a missing block is an error and the cursor stays |
| `Blockchain.BlockchainManager.AddBlock` | node/blockchain/manager.go:54-156 | the stored tree and top after any block, whatever its height; which of the five outcomes is reported; the chain bucket indexes the new main path, so the ignored chain errors never arise; and the database stays valid if and only if the height fits |
| `Blockchain.AddValidIff` | node/blockchain/manager.go:54-156 | a stored block keeps the tree a tree of levels if and only if its height is one more than its parent's |
| `ForkChoice.AddStateMeans` | node/blockchain/manager.go:54-156 | what each of the five outcomes says: known, without parent, and in both cases nothing changes; stored with the same main path; stored on top of it; stored as the end of a branch after which the old top is off the main path |
| `Blockchain.BlockchainManager.UpdateChainOnNewBranch` | node/blockchain/manager.go:162-245 | turns the index of the old top's path into the index of the new top's path, without error |
| `Blockchain.BlockchainManager.LoadNewBranch` | node/blockchain/manager.go:163-205 | the blocks of the new branch above the old chain, top first, and the block they meet at |
| `Blockchain.BlockchainManager.RemoveOldBranch` | node/blockchain/manager.go:206-228 | takes the old branch off the chain down to the merge point, without error |
| `Blockchain.BlockchainManager.AppendNewBranch` | node/blockchain/manager.go:229-244 | puts the new branch on the chain lowest block first, without error |
| `Blockchain.BlockchainManager.DeleteBlock` | node/blockchain/manager.go:256-296 | returns the top block and deletes it; above genesis the bucket indexes the parent's path, and the database is valid if and only if the top had no stored child |
| `Blockchain.BlockchainManager.GetTransactionFromBlock` | node/blockchain/manager.go:300-315 | the first transaction with that ID in that block, or which of the two errors |
| `Blockchain.BlockchainManager.GetState` | node/blockchain/manager.go:373-394 | the top and its height, and which error when there is no top or it is not stored |
| `Blockchain.BlockchainManager.WalkForward` | node/blockchain/manager.go:491-515 | walking by next links gives the reversed backward walk from the top, cut at the maximum count, and ends |
| `Blockchain.ForwardWalks` | node/blockchain/manager.go:491-515 | what the forward walk goes through, by the stored blocks alone: it starts at the given block, each block's stored parent is the one before, and it ends at the top or at the maximum count |
| `Blockchain.BlockchainManager.GetNextBlocks` | node/blockchain/manager.go:476-522 | at most a thousand short blocks: the first is the given block, each next one is built on the one before, one level higher, and the last is the top unless a thousand are reached; each names its block's hash, stored parent and height; a block off the main chain gives itself alone; which error otherwise |
| `Blockchain.BlockchainManager.GetFirstBlocks` | node/blockchain/manager.go:525-576 | the first blocks of the main chain, from genesis up and each built on the one before, at most so many, and the height of the top |
| `Blockchain.BlockchainManager.GetSideBranch` | node/blockchain/manager.go:585-686 | for two blocks above genesis: side blocks top-down, main blocks bottom-up, and the block where they meet; otherwise the error |
| `Blockchain.BlockchainManager.LevelOut` | node/blockchain/manager.go:611-648 | brings both walks to one height without passing the meeting point |
| `Blockchain.BlockchainManager.WalkTogether` | node/blockchain/manager.go:650-683 | both walks go down together and end at the highest common ancestor |
| `Blockchain.BranchesSwap` | node/blockchain/manager.go:585-686 | each path is its own branch on top of the path of the common block: taking one list off and putting the other on turns one path into the other |
| `Blockchain.BlockchainManager.GetBranchesReplacement` | node/blockchain/manager.go:696-721 | nothing when the side block is on the tip's own path, and otherwise exactly the two branches |
| `Blockchain.BlockchainManager.ChooseHashUnderTip` | node/blockchain/manager.go:744-873 | a listed hash that is the tip or its ancestor exactly when the list holds one, for tips on and off the main chain and for the empty tip; what happens for a tip that is not stored |
| `Blockchain.BlockchainManager.SearchSide` | node/blockchain/manager.go:793-845 | the walk on the side branch finds a listed hash there or ends where the branch leaves the main chain |
| `Blockchain.BlockchainManager.CheckBlockIsInRange` | node/blockchain/manager.go:876-972 | for a bottom on the path of the tip, yes exactly for the blocks from the tip down to it and for the stray ones; the exact answer and the errors for any other bottom |
| `Blockchain.RangeByHeight` | node/blockchain/manager.go:945-971 | the final comparison of heights accepts the real segment and the stray blocks and nothing else |
| `Blockchain.RangeOnSide` | node/blockchain/manager.go:893-936 | a walk that meets one of the two hashes on the side branch never counts a stray block |
| `ForkChoice.RunKeepsTopHighest` | node/blockchain/manager.go:54-156 | in every run the top is a highest stored block, no block is changed and the height never falls |
| `ForkChoice.FirstSeenWins` | node/blockchain/manager.go:119-155 | a new top was, when it arrived, strictly higher than everything stored |
| `ForkChoice.Convergence` | node/blockchain/manager.go:119-155 | two nodes that store the same blocks in any order and have a unique highest block end with the same tree, top and chain bucket |
| `ForkChoice.TiesDependOnOrder` | node/blockchain/manager.go:119-155 | without a unique highest block the order decides: an input for which the tops differ |
| `ForkChoice.DeletedTop` | node/blockchain/manager.go:256-296 | deleting a highest top leaves its parent's path, and the new top is highest if and only if the deleted one was the unique highest |
| `Agreement.RunHasHistory` | node/nodemanager/node.go:374-428 | every run of arriving blocks from a state that keeps the invariant has a history of node states, each one step from the one before, that ends where the run ends |
| `Agreement.DeliveredIff` | node/nodemanager/blockchain.go:95-127 | a node that is sent valid blocks, parents first, stores them all if and only if no stray block counts as spending an input of one when it arrives |
| `Agreement.NodesAgree` | node/nodemanager/blockchain.go:95-127 | two nodes sent the same valid blocks in two orders both end with the whole tree if and only if neither is ever so impeded; then one highest block gives one top and one chain bucket |
| `Ledger.UnspentMeaning` | node/transactions/unspent.go:370-452 | an output is unspent after a chain if and only if a transaction of it created the output and none after that spends it, and its coin is the one created |
| `Soundness.SpendableIsUnspent` | node/transactions/manager.go:538-619 | on a sound chain created and never spent is the same as unspent |
| `Soundness.SoundExtend` | node/transactions/manager.go:538-619 | a transaction with a new ID whose inputs are distinct and spendable keeps the chain sound |
| `TransactionIndex.TransactionsIndex.BlockAdded` | node/transactions/index.go:47-125 | the index gains exactly the block's transactions and the spends they make |
| `TransactionIndex.TransactionsIndex.BlockRemoved` | node/transactions/index.go:138-231 | the index loses the block's own links, and every recorded spend of an output the block spends |
| `TransactionIndex.AddKeepsExact` | node/transactions/index.go:47-125 | then it lists exactly the stored blocks that hold each transaction and the spends made in them |
| `TransactionIndex.RemoveKeepsExact` | node/transactions/index.go:138-231 | taking a block out keeps it exact if and only if no other stored block spends an output this one spends |
| `TransactionIndex.TransactionsIndex.GetTranactionBlocks` | node/transactions/index.go:334-360 | the blocks listed for a transaction, none when there is no record |
| `TransactionIndex.TransactionsIndex.FilterTranactionOutputsSpent` | node/transactions/index.go:398-422 | keeps exactly the spends of blocks counted between the block and the tip |
| `TransactionIndex.TransactionsIndex.GetTranactionOutputsSpent` | node/transactions/index.go:366-396 | which outputs of a transaction count as spent under a tip, in terms of the stored blocks |
| `TransactionIndex.TransactionsIndex.GetTransactionAllInfo` | node/transactions/index.go:425-466 | finds a transaction exactly when a block under the tip holds it, with that block and its spent outputs |
| `Cancellation.SpentUnderMeans` | node/transactions/index.go:398-422 | on a sound path the counted spends are the real ones and the stray ones |
| `Cancellation.CancelUndoesAdd` | node/transactions/unspent.go:461-634 | cancelling a block just added gives back the earlier unspent outputs if and only if its input loops reach every transaction below that it names and no stray block spends an unspent output of those |
| `Cancellation.CancelledRebuilt` | node/transactions/unspent.go:592-628 | a rebuilt record holds exactly the outputs unspent below that no stray block spends |
| `Cancellation.CancelledUntouched` | node/transactions/unspent.go:549-634 | a record that is not rebuilt keeps what adding the block left of it |
| `Reorganisation.CancelDown` | node/nodemanager/node.go:406-414 | cancelling a branch from its end down brings back the unspent outputs of the block below it, when each block cancels exactly |
| `Reorganisation.AddUp` | node/nodemanager/node.go:415-423 | adding a branch from its start up gives the unspent outputs of its end |
| `Reorganisation.TwoBranchesClean` | node/transactions/unspent.go:570-630 | with two competing branches and inputs of earlier blocks named first, every block of the old branch cancels exactly |
| `Drift.CancelledFrom` | node/transactions/unspent.go:549-634 | what cancelling leaves of each output when the cache before held real outputs, but perhaps not all |
| `Drift.CancelDownAt` | node/nodemanager/node.go:406-414 | cancelling a whole branch leaves real outputs of the block below, and exactly those given back |
| `Drift.ReorganisedAt` | node/nodemanager/node.go:397-425 | output by output, what a branch replacement keeps: the unspent outputs of the new chain without the lost ones |
| `Drift.ReorganisedIff` | node/nodemanager/node.go:397-425 | a branch replacement invents no output, and is exact if and only if every output is given back |
| `TransactionRules.Verify` | node/structures/transaction.go:256-328 | accepts if and only if it is a reward of the fixed value, or all inputs are found, owned and signed, no output is too small and inputs and outputs differ by less than one smallest unit |
| `OutputRecords.FindDrop` | node/transactions/unspent.go:495-501 | dropping an output index from a record removes that output and no other |
| `UnspentOutputs.UnspentTransactions.UpdateOnBlockAdd` | node/transactions/unspent.go:461-544 | the cache after the update shows the old unspent outputs with the block's transactions applied in order, and keeps one record for each output under its own ID |
| `UnspentOutputs.UnspentTransactions.UpdateOnBlockCancel` | node/transactions/unspent.go:549-634 | the cache after the update shows the specified result of cancelling, `break` and stray spends included |
| `UnspentOutputs.UnspentTransactions.RestoreInput` | node/transactions/unspent.go:570-630 | one input: found exactly when its transaction is under the parent block, and then its record is rebuilt |
| `UnspentOutputs.UnspentTransactions.FindunspentTransactions` | node/transactions/unspent.go:372-452 | the backward scan from the top finds exactly the unspent outputs of the main chain, one record for each |
| `UnspentOutputs.UnspentTransactions.Reindex` | node/transactions/unspent.go:318-366 | the cache is replaced by the unspent outputs of the main chain, one record for each |
| `UnspentOutputs.UnspentTransactions.GetInputValue` | node/transactions/unspent.go:85-117 | the value of an unspent output, an error for any other |
| `UnspentOutputs.UnspentTransactions.GetunspentTransactionsOutputs` | node/transactions/unspent.go:232-274 | lists the owner's records of the cache |
| `UnspentOutputs.UnspentTransactions.ChooseSpendableOutputs` | node/transactions/unspent.go:120-184 | chooses from the owner's outputs not named by a pending input: all of them when funds are short; otherwise enough, not enough without the last one, and the cheapest for their number |
| `CoinSelection.PrefixIsCheapest` | node/transactions/unspent.go:163-181 | a prefix of the outputs sorted by value is the cheapest choice of that many |
| `CoinSelection.ChoiceIsLongest` | node/transactions/unspent.go:163-181 | no choice of more outputs is a minimal one: any longer choice of positive outputs still covers the amount without its last output |
| `CoinSelection.ChosenDistinct` | node/transactions/unspent.go:120-184 | the chosen outputs are distinct |
| `UnspentOutputs.UnspentTransactions.GetNewTransactionInputs` | node/transactions/unspent.go:640-680 | inputs for exactly the chosen outputs, the transactions that hold them and their total; an error if one is in no stored block |
| `UnspentOutputs.UnspentTransactions.ExtendNewTransactionInputs` | node/transactions/unspent.go:683-708 | takes pool outputs in order until the amount is reached and no further |
| `UnspentOutputs.UnspentTransactions.VerifyTransactionsOutputsAreNotSpent` | node/transactions/unspent.go:712-779 | splits the inputs into unspent ones with their transactions and the rest, which are left to the pool |
| `Pool.NoteInputsMeans` | node/transactions/pending.go:487-531 | the scan of one transaction finds a conflict if and only if it names an output twice or one already noted |
| `Pool.ScreenDisjoint` | node/transactions/pending.go:487-531 | the transactions kept by screening spend pairwise and internally distinct outputs |
| `Pool.ScreenKeepsAll` | node/transactions/pending.go:487-531 | screening drops nothing if and only if the list is input-disjoint |
| `Pool.ScreenApart` | node/transactions/pending.go:487-531 | of transactions that share no input screening drops exactly those that name an output twice |
| `Pool.ScreenEarlier` | node/transactions/pending.go:487-531 | earlier transactions come first: one that names each output once, and none that a transaction before it names, is kept |
| `Pool.ScreenSplits` | node/transactions/pending.go:487-531 | kept and dropped transactions together are the list |
| `Pool.AddedKeepsOk` | node/transactions/pending.go:304-336 | adding keeps the pool conflict free, and the transaction is in the pool or shares an input with one that is |
| `Pool.ReturnedKeeps` | node/transactions/pending.go:534-549 | the same for all transactions of a cancelled block |
| `Pool.UnApprovedTransactions.DetectConflictsForNew` | node/transactions/pending.go:434-479 | finds a conflicting transaction if and only if the pool holds one |
| `Pool.UnApprovedTransactions.DetectConflicts` | node/transactions/pending.go:487-531 | returns the screened lists |
| `Pool.UnApprovedTransactions.GetTransactions` | node/transactions/pending.go:252-287 | as many distinct pool transactions as asked for, sorted by time |
| `Pool.UnApprovedTransactions.Add` | node/transactions/pending.go:304-336 | stores the transaction, or reports the conflict and leaves the pool |
| `Pool.UnApprovedTransactions.Delete` | node/transactions/pending.go:341-365 | removes the transaction and says whether it was there |
| `Pool.UnApprovedTransactions.DeleteFromBlock` | node/transactions/pending.go:387-398 | removes exactly the ordinary transactions of the block |
| `Pool.UnApprovedTransactions.AddFromCanceled` | node/transactions/pending.go:534-549 | adds the ordinary transactions one by one, skipping those in conflict |
| `Pool.UnApprovedTransactions.CheckInputsWereBefore` | node/transactions/pending.go:62-101 | succeeds if and only if each missing input names an earlier transaction and no two name one output, and fills those in |
| `Pool.UnApprovedTransactions.CheckInputsArePrepared` | node/transactions/pending.go:22-54 | the same against the pool |
| `Pool.UnApprovedTransactions.GetPreparedBy` | node/transactions/pending.go:110-204 | the owner's inputs in the pool, its pool outputs no own input uses, and its inputs that use no pool output |
| `PoolReorganisation.NothingLost` | node/transactions/pending.go:304-549 | each ordinary transaction of the abandoned branch ends in the pool or in the new branch, or shares an input with one already in the pool |
| `PoolReorganisation.PoolStaysReady` | node/transactions/pending.go:304-549 | after a replacement the pool is conflict free and holds nothing that is on the new main chain |
| `Acceptance.AcceptedInput` | node/transactions/manager.go:538-619 | an input of an accepted transaction names a real output of the transaction found for it, and is spendable where it stands, with its real value and owner, if and only if no earlier transaction of its block spends the same output |
| `Validity.InputFreeIff` | node/transactions/manager.go:538-619 | an input made on the path passes the lookup if and only if it is spendable there and no stray block spends it |
| `Validity.AcceptsIff` | node/transactions/manager.go:186-209 | on a sound path a transaction that names no output which an earlier one of its block spends is accepted if and only if its inputs are spendable, it is fair, no stray block spends an input of it made on the path, and it names no output made off the path twice |
| `Validity.AcceptedProperIff` | node/consensus/manager.go:252-313 | an accepted block continues a proper path properly (no double spend, inputs exist and are signed by their owners, amounts balance) if and only if it names no output twice |
| `Validity.BlockAcceptedIff` | node/consensus/manager.go:252-313 | a block is accepted and names no output twice if and only if its proof of work holds, it is proper on its path and no stray block spends an input of it |
| `TransactionsManager.TXManager.GetInputTransactionsState` | node/transactions/manager.go:538-619 | succeeds if and only if no input counts as spent under the tip; the transactions found there and the inputs not found |
| `TransactionsManager.TXManager.VerifyTransaction` | node/transactions/manager.go:186-209 | accepts if and only if the transaction passes on the branch of the tip with the earlier transactions of its block |
| `TransactionsManager.TXManager.VerifyTransactionQuick` | node/transactions/manager.go:505-531 | accepts if and only if the inputs are found unspent or in the pool and the rules hold |
| `TransactionsManager.TXManager.ReceivedNewTransaction` | node/transactions/manager.go:322-334 | the pool afterwards, and success if and only if the quick check passes and nothing conflicts |
| `Reception.QuickOnChain` | node/transactions/manager.go:505-531 | a transaction whose inputs the cache holds passes the quick check if and only if owners, signatures and amounts are right by the unspent outputs of the main chain |
| `Reception.ReceivedIff` | node/transactions/manager.go:505-531 | with inputs from the pool too: it passes if and only if every input is an unspent output after the pool, none from the pool is named twice, and it is fair by those outputs |
| `Ownership.NodeReceives` | node/transactions/manager.go:322-334 | exactly what an arriving ordinary transaction does to a node: it joins the pool when it conflicts with nothing, finds its inputs and is fair, and otherwise nothing changes |
| `QuickCheck.QuickRefusesOnMain` | node/transactions/manager.go:505-531 | a transaction already on the main chain is refused, even when the cache has lost some outputs |
| `TransactionsManager.TXManager.PrepareNewTransaction` | node/transactions/manager.go:339-382 | with a cache of real outputs, perhaps not all of them: succeeds if and only if confirmed and pool outputs suffice, and the new transaction, unsigned and without ID, spends exactly the distinct selected outputs, all of the sender, and carries the payment and the change |
| `Transfers.PaymentMoves` | node/transactions/manager.go:385-421 | applied to unspent outputs that hold the used ones the payment gives the receiver exactly the amount, takes from the payer that and at most one smallest unit, and touches nobody else |
| `Transfers.CollectedHeld` | node/transactions/manager.go:339-382 | all outputs a payment uses are unspent ones of the cache or the pool, with their values, of the payer |
| `Progress.PaymentReceived` | node/transactions/manager.go:322-421 | once signed, the prepared payment conflicts with nothing in the pool and passes the quick check if and only if the amount is at least one smallest unit and the excess not exactly one, when what the pool spends it spends by the owners |
| `Payment.LastUsedNeeded` | node/transactions/manager.go:339-382 | when it succeeds no output is used without need: without the last one they would not cover the amount |
| `Payment.FundsExhausted` | node/transactions/manager.go:339-382 | when it fails, everything available was taken and is less than the amount |
| `Node.Node.ValidIsSynced` | node/transactions/manager.go:339-382 | what preparing a payment asks of cache and pool holds after every run, for it follows from the node's invariant |
| `CoinSelection.PaymentBalances` | node/transactions/manager.go:385-421 | the outputs are big enough if and only if the amount is, and balance for every excess except exactly one smallest unit |
| `CoinSelection.SignedVerifies` | node/transactions/manager.go:385-421 | once signed, the prepared transaction passes verification if and only if the amount is at least one smallest unit and the excess is not exactly one |
| `TransactionsManager.TXManager.GetAddressPendingBalance` | node/transactions/manager.go:450-498 | the free pool outputs of the owner less the confirmed outputs its pool inputs spend; an error if and only if one of those is not in the cache, and none for a settled pool |
| `TransactionsManager.TXManager.GetAddressBalance` | node/transactions/manager.go:63-89 | for a settled pool the total is what the owner has after the pool is applied to the unspent outputs |
| `Balance.BalanceMeans` | node/transactions/manager.go:450-498 | approved and pending parts add up to the owner's outputs after the pool |
| `Balance.AppliedIsAfterPool` | node/transactions/manager.go:450-498 | applying the pool's transactions one by one, parents first, gives those outputs |
| `TransactionsManager.TXManager.CancelTransaction` | node/transactions/manager.go:171-180 | removes one pool transaction, an error if it is not there |
| `TransactionsManager.TXManager.GetUnapprovedTransactionsForNewBlock` | node/transactions/manager.go:103-164 | the transactions kept after verification in time order and screening, an error when none passes verification, and which ones it cancels |
| `TransactionsManager.TXManager.BlockAdded` | node/transactions/manager.go:227-237 | what a stored block does to the index, and on top of the chain to the pool and the unspent outputs |
| `TransactionsManager.TXManager.BlockAddedToPrimaryChain` | node/transactions/manager.go:248-252 | what it does when its branch becomes the main one |
| `TransactionsManager.TXManager.BlockRemovedFromPrimaryChain` | node/transactions/manager.go:255-259 | its transactions go back to the pool and its effect on the unspent outputs is cancelled |
| `Preparation.PreparedPassesIff` | node/consensus/manager.go:114-313 | a prepared block passes the count, reward and transaction checks if and only if enough are left and every one still finds its inputs after screening |
| `Preparation.PreparedPasses` | node/consensus/manager.go:114-313 | from a pool of pairwise and internally input-disjoint transactions screening drops nothing and the block passes |
| `Dropping.RejectedIff` | node/transactions/manager.go:103-164 | a drawn transaction is cancelled if and only if it is not accepted after those kept before it |
| `Dropping.ChosenIff` | node/transactions/manager.go:103-164 | a drawn transaction goes into the block if and only if it is not dropped, and those that do keep their order |
| `Dropping.DroppedMeans` | node/transactions/manager.go:103-164 | whatever the chain and the conflict-free pool, preparing a block drops a drawn transaction if and only if it is not accepted after those kept before it, or names an output twice |
| `Dropping.DroppedIff` | node/transactions/manager.go:103-164 | with any conflict-free pool that holds nothing of a sound main chain, preparing a block drops a drawn transaction if and only if, after those kept before it, an input is not spendable, it is not fair, or a stray block spends an input of it, or if it names an output twice |
| `Readiness.AllGoIn` | node/transactions/manager.go:103-164 | when the drawn transactions spend unspent outputs or outputs of one another fairly, no stray block spends those, and each is younger than those it builds on, all go into the block in order of time and none is dropped |
| `Readiness.PoolIsMined` | node/consensus/manager.go:114-160 | so a whole pool in order, of an allowed size, makes a block that holds all of it and passes every check but the proof of work |
| `Dropping.AbandonedRefused` | node/transactions/manager.go:186-209 | a transaction of an abandoned branch with an input made below the fork is refused on the new main chain, whatever comes before it |
| `Dropping.AbandonedDropped` | node/transactions/manager.go:103-164 | so a preparation that draws it drops it from the pool to which the reorganisation returned it |
| `Consensus.NodeBlockMaker.GetTransactionNumbersLimits` | node/consensus/manager.go:316-339 | the limits allow a number of transactions if and only if it is at least one, at most ten thousand, and at least the height or a thousand; for no given block the height is one above the top |
| `Acceptance.CountMeans` | node/consensus/manager.go:316-339 | the least and the most number of a height enclose exactly those counts |
| `Consensus.NodeBlockMaker.VerifyBlock` | node/consensus/manager.go:252-313 | accepts if and only if proof of work, numbers, one reward and every transaction on the block's own branch pass; a failed proof of work and a wrong number of transactions each give their error |
| `Consensus.NodeBlockMaker.MakeNewBlockFromTransactions` | node/consensus/manager.go:205-239 | the transactions followed by a reward of the minter, on the top block and one higher |
| `Transfers.RewardPays` | node/structures/transaction.go:333-357 | besides what the other transactions of a prepared block pay and take, adding the block gives its minter exactly ten coins and nobody else anything |
| `Transfers.PreparedGoesOnTop` | node/consensus/manager.go:205-239 | a prepared block with a new hash is stored on top of the chain it was prepared on |
| `Consensus.NodeBlockMaker.DoPrepareNewBlock` | node/consensus/manager.go:114-160 | a block is prepared if and only if the pool holds enough and an allowed number is chosen from it; which block, with a reward of the minter; nothing but the dropped transactions leaves the pool |
| `Consensus.NodeBlockMaker.CompleteBlock` | node/consensus/manager.go:164-201 | the prepared block with the least nonce that hits the target and its hash, or the last one tried; an error if none is prepared |
| `Consensus.Run` | node/consensus/proofofwork.go:72-101 | the search ends with the least nonce whose hash is below the target, or with the maximum when there is none; a found nonce comes with its hash, below the target |
| `Consensus.CompletedAcceptedIff` | node/consensus/manager.go:164-201 | the completed block is accepted if and only if some nonce hits the target and the prepared block passes the other checks |
| `Consensus.HashIsNotCompared` | node/consensus/proofofwork.go:103-119 | a block is accepted with any hash in its hash field if it is accepted with one |
| `NodeRuns.StepKeepsInv` | node/nodemanager/node.go:374-428 | one block keeps the tree, fork choice, verified paths, identifying IDs, the pool invariant and that the unspent outputs kept are real |
| `NodeRuns.StepKeepsReal` | node/nodemanager/node.go:374-428 | one block, whatever it replaces, never makes the node keep an output that is not unspent on its main chain |
| `NodeRuns.StepKeepsUtxo` | node/nodemanager/node.go:374-428 | from exact unspent outputs one block leads to exact ones if and only if the blocks it replaces give everything back |
| `NodeRuns.StepLosesNothing` | node/nodemanager/node.go:374-428 | one block leaves every known ordinary transaction in the pool or on the main chain, or it has a rival in the pool |
| `NodeRuns.StepTxKeepsInv` | node/transactions/manager.go:322-334 | a received transaction keeps the node's invariant: in particular none that is on the main chain gets into the pool |
| `NodeRuns.RunKeepsInv` | node/nodemanager/node.go:374-428 | every run of blocks, transactions, cancellations and preparations of blocks keeps the invariant |
| `NodeRuns.RunInventsNothing` | node/nodemanager/node.go:374-428 | after any run every output the node keeps is unspent on its main chain, with that value, owner and block |
| `NodeRuns.RunInflatesNothing` | node/structures/transaction.go:256-328 | after any run the outputs kept total no more than the main chain has made |
| `NodeRuns.RunKeepsUtxo` | node/nodemanager/node.go:374-428 | after any run whose replacements lose nothing the incremental unspent outputs equal those of the full scan |
| `RunDrift.RunKeepsAt` | node/nodemanager/node.go:374-428 | after any run an output is kept if and only if it is unspent on the main chain and not missing; one is missing when the last replacement lost it and nothing has spent it since |
| `RunDrift.RunExactIff` | node/nodemanager/node.go:374-428 | so the outputs kept after a run are exact if and only if none is missing |
| `NodeRuns.RunOrderedIsClean` | node/nodemanager/node.go:374-428 | two competing branches and inputs in order at every replacement are enough for that |
| `NodeRuns.OnlyTwoIsTwoBranches` | node/nodemanager/node.go:374-428 | when every stored block is on the old or the new main path the two branches are the only ones |
| `NodeRuns.OrderedRunsAreExact` | node/nodemanager/blockchain_create.go:174-223 | so such runs from a genesis block keep the unspent outputs exact |
| `NodeRuns.NoDoubleSpend` | node/transactions/manager.go:538-619 | after any run no path to a stored block spends an output twice or spends one not created before |
| `Ownership.RunSpentByOwner` | node/structures/transaction.go:256-328 | after any run an input on a stored path names an earlier output, shows the key that hashes to its owner, and is signed by that |
| `Ownership.RunPaysEnough` | node/structures/transaction.go:256-328 | after any run a reward on a stored path is ten coins in one output, and no other output is below one smallest unit |
| `NodeRuns.RunConservesMoney` | node/structures/transaction.go:256-328 | after such runs the unspent outputs total ten coins for each block of the main chain, to within one smallest unit for each ordinary transaction |
| `NodeRuns.RunLosesNothing` | node/transactions/pending.go:534-549 | after any run a known ordinary transaction is still known, or a user cancelled it, or a rival was in the pool, or a preparation of a block dropped it |
| `NodeRuns.GenesisInv` | node/nodemanager/blockchain_create.go:174-223 | a node with its genesis block starts with all of this |
| `Node.Node.AddFirstBlock` | node/nodemanager/blockchain_create.go:174-223 | storing the first block in an empty database gives that state: that block alone, as the top |
| `Money.Conservation` | node/structures/transaction.go:256-328 | the unspent outputs of a chain of accepted transactions total its rewards, to within one smallest unit for each ordinary transaction |
| `Money.ExactConservation` | node/structures/transaction.go:256-328 | and exactly, when all amounts are whole smallest units |
| `Money.RewardsOfPath` | node/consensus/manager.go:284-311 | a path of blocks with one reward each has as many rewards as blocks |
| `Node.NodeBlockchain.CheckBlockState` | node/nodemanager/blockchain.go:148-169 | whether a block can be added, exists, or lacks its parent |
| `Node.NodeBlockchain.AddBlock` | node/nodemanager/blockchain.go:95-127 | a block of any height is stored if and only if it is new, has its parent and verifies, otherwise nothing changes; a known block, one without parent and one that does not verify each get their own answer, the last an error; the database stays valid if and only if the height of a stored one fits |
| `Node.NodeBlockchain.GetBranchesReplacement` | node/nodemanager/blockchain.go:131-138 | the two branches, for the empty tip too |
| `Node.Node.AddBlock` | node/nodemanager/node.go:374-428 | chain, index, pool and unspent outputs change together as one step of the state machine; which answer a refused block gets and why; the node stays valid when IDs identify transactions and the block names no output twice |
| `Node.Node.FollowStored` | node/nodemanager/node.go:388-425 | what the caches do for each outcome of storing a block |
| `Node.Node.RemoveBranch` | node/nodemanager/node.go:406-414 | the loop over the old branch cancels its blocks from the top down |
| `Node.Node.AddBranch` | node/nodemanager/node.go:415-423 | the loop over the new branch adds its blocks from the bottom up |
| `Merkle.NewMerkleTree` | lib/utils/merkle_tree.go:20-51 | the root of the loop with its padding and rounds is the recursive root, and it never reads past a level; no data gives a panic |
| `Merkle.RootIsTreeRoot` | lib/utils/merkle_tree.go:20-51 | the root is that of the tree whose neighbours are hashed in pairs, an odd one with itself, hashed with itself once for each round too many |
| `Merkle.RootOfTwo` | lib/utils/merkle_tree.go:20-51 | the root of two items is the pair hash of their hashes, and that of one item the pair hash of its hash with itself |
| `Merkle.NextLevel` | lib/utils/merkle_tree.go:35-45 | one round hashes the nodes of a level in pairs and pads the result |
| `Merkle.RoundsSuffice` | lib/utils/merkle_tree.go:34-48 | len/2 rounds are enough to come down to two nodes |
| `Merkle.RootBinds` | lib/utils/merkle_tree.go:20-70 | two lists of the same nonzero length with equal roots are equal or exhibit a hash collision |
| `Merkle.PaddingIsHidden` | lib/utils/merkle_tree.go:23-27 | a list of odd length and that list with its last item repeated have the same root |
| `Losses.StrayIsCounted` | node/blockchain/manager.go:945-971 | a run from the first block after which a block off the path counts as being under the tip |
| `Losses.StraySpendIsLost` | node/transactions/unspent.go:549-634 | a run to exact unspent outputs that the next block makes inexact, because a stray block spends what cancelling should give back |
| `Losses.LateInputIsLost` | node/transactions/unspent.go:585 | the same because an input that comes after one of the same block is not given back |
| `Losses.SharedSpendIsDropped` | node/transactions/index.go:210 | a run after which two stored blocks spend one output, so that removing the top drops the other's record |
| `OddBlocks.DoubleSpendAccepted` | node/consensus/manager.go:252-313 | a node that admits a block in which two transactions spend one output, after which its chain is not proper |
| `OddBlocks.WrongHeightAccepted` | node/consensus/manager.go:252-313 | a node that admits a block two levels above its parent and makes it the top, after which its tree is not one of levels |
| `OddBlocks.OrderDecides` | node/nodemanager/blockchain.go:95-127 | two runs on the same three valid blocks: one node stores all, the other refuses one |
| `Counterexamples.PreparedBlockCanFail` | node/consensus/manager.go:114-313 | a run from the first block to a pool from which the node prepares a block that fails its own checks |
| `Counterexamples.DoubledIsDropped` | node/transactions/pending.go:487-531 | the same run leads to a transaction that continues the main chain fairly, clear of stray blocks, and is dropped by preparing a block, for it names an output twice |

## Left out

- The unspent outputs after `DropBlock`: the block is gone before its spends are looked up and the error is ignored (node/transactions/manager.go:240-245). The index and tree sides of deleting a block are modelled.
- The Bolt database, lock files, connections and gob encoding: buckets are maps and serialisation is the identity. The order in which a bucket or a Go map is walked is left open or passed as a list.
- SHA-256, RIPEMD-160, ECDSA, Base58, wallets and the bytes that are signed: abstract functions and predicates of the `Crypto` parameter. Addresses are public key hashes.
- Timing of the proof of work, and its data and hash: an abstract function of a block's parent, transactions, timestamp and nonce. Clock readings, reward data and new transaction IDs are parameters.
- Network, daemon, command line, configuration and node lists.
- Float rounding and `%.8f` formatting: amounts are exact reals, so comparisons with the smallest unit are exact.
- A Go panic (index out of range, missing data for the Merkle tree) is a refusal or `None`; the one in `GetBranchesReplacement` when a block is missing or is genesis (node/blockchain/manager.go:702 reads a nil block) is a precondition, which its only caller meets.
- Address history, printing, `ReindexData` of the transaction index and `InitBlockchainFromOther`: display, or loops over operations that are modelled.
- `HashTransactions`: the Merkle tree it builds is modelled over lists of byte strings, not over serialised transactions.
- `CreateTransaction` and signing: `SignedVerifies` states what a signature must give.
- UnspentOutputs.UnspentTransactions.UpdateOnBlockCancel: the view has value, owner and block of an output; the sender and the reward flag, which cancelling rebuilds differently (node/transactions/unspent.go:607), are kept in the records but not compared.
- Node.Node.AddBlock: asks that the height of the block fits its parent's, for the walks of `GetSideBranch` level out by height; `Node.NodeBlockchain.AddBlock` covers the other blocks up to the point where they are stored.
- Pool.UnApprovedTransactions.CheckInputsWereBefore and CheckInputsArePrepared: the inputs come as a list, the source walks a map, so which of several errors comes first is open.
