# A verified model of the soterd full node

soterd keeps a tree of blocks, follows the branch with the most work, and mirrors that branch in a
database. This project models that engine in Dafny, together with the persistence formats, the
difficulty rules and three message-driven components around it, and proves what they promise.

* **Best chain** (`BlockTree`, `Selection`, `Utxo`, `Ledger`, `ChainCore`, `Replay`, `BlockIndex`,
  `ChainView`, `BlockChain`). A block node is an inductive value whose parent is a value too, so a branch
  is a path. Everything the node keeps about its main chain (utxo set, both indexes, spend journal,
  snapshot) is shown to be a function of the tip, `LedgerAt`. The class `BlockChain` performs the
  original's steps on its fields, and each method is proved against the pure step functions
  `Accept`, `ConnectBest`, `Reorganize` and against `LedgerAt`. On the step functions: safety over every
  sequence of offered blocks, the meaning of every status flag, and agreement between nodes.
  `Answers` says what every answer, flag and change of the tip means in terms of blocks and checks alone,
  `Work` what work is, and `Origins` where every utxo entry and journal record comes from.
* **Utxo views and storage** (`UtxoCache`, `UtxoView`, `UtxoBucket`, `Storage`). The cached view with its spent
  and modified flags, its loading from the database and its write-back refine the plain utxo set the engine
  works with. With such views, and with the utxo bucket and the journal as bytes, extending the chain and
  reorganizing it keep what `LedgerAt` says, over every sequence of offered blocks.
* **Why nothing is overwritten or cut off** (`Duplicates`, `Lawful`). From the rules the original checks: no
  transaction is connected twice, so none overwrites an unspent output, and every stored amount survives
  compression.
* **A misreport** (`Misreport`). A run after which the node takes a block for a new tip that is none.
* **Restart** (`Rows`, `Restart`). The bytes of the block index rows, read in key order, rebuild the index; the best
  chain state comes back from its bytes.
* **The whole node** (`FullNode`). The engine and the database side by side: all buckets hold the bytes of the best
  chain after every block and after every restart.
* **Locators and inventory** (`Log2`, `Locator`, `ChainView`, `Inventory`, `TwoNodes`), also between two nodes that
  have indexed different blocks.
* **Witnesses** (`Witnesses`). Rules and runs that meet what is asked of two nodes and of stored chains.
* **Codecs** (`Compact`, `Amount`, `TxOutCodec`, `SpendJournal`), their bytes one by one (`Layout`), what
  becomes of outputs that are cut short (`Truncation`), and **difficulty** (`Retarget`).
* **Address manager** (`AddrBook`, `AddrManager`), **notification manager** (`Watch`, `Notification`),
  **websocket queues** (`WsQueues`) and **peer bookkeeping** (`PeerState`).

`checkBlockContext` and the script and amount rules of `checkConnectBlock` are arbitrary fixed functions
(`Params.context`, `Params.connect`). Nothing depends on what they are, except that the results of `Storage`
and `FullNode` ask for the two rules against repeated transactions (`Lawful.Guarded`): checkBIP0030 below
BIP0034Height and the height in the coinbase from there on. Hashes are values; the header
hash is an arbitrary function (`Params.hashOf`), and a block offered under a hash that is already
indexed is turned away, as in the original. Time, dice, the hash behind the address buckets, the memory
pool and the elliptic curve are parameters. `dafny verify dfyconfig.toml` checks the whole project.

## Model

| member | source | states |
|---|---|---|
| `BlockTree.OnPathTransitive` | blockchain/blockindex.go:109-124 | ancestry along parent pointers is transitive |
| `BlockTree.WorkGrows` | blockchain/blockindex.go:109-124 | an ancestor never has more accumulated work than its descendant |
| `BlockTree.NodeFields` | blockchain/blockindex.go:109-133 | a node takes over every field of its header, is one higher than its parent and adds its own work to the parent's |
| `Work.TargetIs` | blockchain/difficulty.go:62-88 | the target is the mantissa shifted by the exponent less three bytes, with the sign, for every exponent, sign and mantissa |
| `Work.WorkIs` | blockchain/difficulty.go:142-156 | the work of a block is 2^256 divided by its target plus one, rounded down, and zero if the target is not positive |
| `Work.HarderCounts` | blockchain/difficulty.go:142-156 | of two positive targets the smaller one never counts less |
| `Work.WorkExamples` | blockchain/difficulty.go:142-156 | the work of two known targets |
| `Work.WorkSumIs` | blockchain/blockindex.go:109-124 | the work sum of a node is the sum of the work of all blocks on its path |
| `Work.MostWorkAlways` | blockchain/chain.go:1093-1224 | after every sequence of offered blocks no branch whose blocks all pass has a larger sum than the best chain |
| `BlockTree.Ancestor` | blockchain/blockindex.go:160-171 | the walk returns the ancestor-or-self at the height, nil outside 0..height |
| `BlockTree.ForkIsHighestCommon` | blockchain/chainview.go:289-319 | the fork is on both branches and every other common node is below it |
| `Selection.LastInvalid` | blockchain/chain.go:526-534 | the highest node of the branch known to be invalid, -1 if there is none |
| `Selection.FirstFailing` | blockchain/chain.go:944-999 | the lowest node of the branch that is neither marked valid nor passes |
| `Selection.DetachedIsReversedBranch` | blockchain/chain.go:548-553 | the detach list is the old branch above the fork, tip first |
| `Selection.ConnectBestSafe` | blockchain/chain.go:1093-1224 | connecting a stored block keeps the tree, the soundness of all flags and the maximality of the tip, and never costs the tip work |
| `Selection.NeverBoth` | blockchain/chain.go:963-996 | no node is known to be both valid and invalid |
| `Selection.InvalidAncestorWitness` | blockchain/chain.go:517-546 | a node marked for an invalid ancestor has a proper ancestor that failed validation |
| `Selection.SoundFlagsMean` | blockchain/chain.go:963-996 | validity is closed under parents, flags never clash, invalid-ancestor marks are owed to a failed ancestor |
| `Selection.BestChainIsHeaviestValid` | blockchain/chain.go:1093-1224 | every block of the best chain passes, and no indexed branch whose blocks all pass has more work |
| `Selection.ReportedMain` | blockchain/chain.go:1209-1223 | the answer "on the main chain" is right if and only if no block the new one stands on is known to be invalid |
| `Selection.TaintedIsReported` | blockchain/chain.go:1209-1223 | a block with enough work on a branch known to be invalid is always reported to be on the main chain while the tip stays |
| `Utxo.DisconnectTxsUndoes` | blockchain/utxoviewpoint.go:312-440 | undoing a block with its own journal records restores the utxo set, also when later transactions spend earlier ones |
| `Utxo.ConnectTxsAboveGenesis` | blockchain/utxoviewpoint.go:378-415 | no output or journal record above genesis carries height zero, which marks legacy records |
| `Ledgers.DisconnectUndoesConnect` | blockchain/chain.go:694-807 | disconnecting a block with the journal entry read back restores utxo set, both indexes, journal and snapshot |
| `Ledgers.LedgerDependsOnPath` | blockchain/chain.go:569-688 | what is kept about the main chain depends on the blocks of the branch alone |
| `Ledgers.LedgerMirrors` | blockchain/chainio.go:834-867 | both indexes are inverse and equal to the path, the journal covers exactly the blocks above genesis, TotalTxns is the sum over the branch |
| `Ledgers.JournalPersists` | blockchain/chainio.go:485-489 | a journal entry stays as written while later blocks are connected |
| `Ledgers.UndoTip` | blockchain/chain.go:694-807 | disconnecting the last block of a branch yields the ledger of the branch without it |
| `Origins.ConnectTxIs` | blockchain/utxoviewpoint.go:220-261 | after a transaction an output is there if and only if the transaction makes it or it was there and is not taken; it has the amount, script, height and coinbase flag of its transaction |
| `Origins.EntryOrigin` | blockchain/utxoviewpoint.go:268-280 | every utxo entry of a branch describes an output of a transaction of a block of the branch: amount, script, height of that block, and coinbase flag if and only if the transaction is the first of its block |
| `Origins.RecordOrigin` | blockchain/chainio.go:485-489 | so does every journal record, for the input it was written for, and there is one for every input |
| `Origins.UnspentExactly` | blockchain/utxoviewpoint.go:268-280 | the utxo set of a branch has exactly the outputs some transaction made and no later one took |
| `Origins.OriginsAlways` | blockchain/chain.go:1093-1224 | after every sequence of offered blocks this holds of the utxo set and the journal of the best chain |
| `ChainCore.OfferSafe` | blockchain/accept.go:25-93 | one offered block keeps every invariant and never costs the best chain work |
| `ChainCore.RunSafe` | blockchain/accept.go:25-93 | the invariants hold after every sequence of offered blocks |
| `ChainCore.BestChainAlways` | blockchain/chain.go:1093-1224 | after every sequence of offered blocks the best chain is a valid chain of the most work among all indexed valid chains |
| `ChainCore.FlagsAlways` | blockchain/chain.go:1093-1224 | after every sequence of offered blocks no indexed branch free of known-invalid blocks has more work than the best one, and all flags mean what they say |
| `ChainCore.ReportedAlways` | blockchain/chain.go:1209-1223 | after every sequence of offered blocks, for every new block: it is wrongly reported to be on the main chain if and only if its parent is indexed and not known to be invalid, the context checks pass, it brings more work than the tip, and a block below its parent is known to be invalid |
| `Answers.OnTip` | blockchain/chain.go:1109-1178 | a block on the tip becomes the tip or is marked failed; no other flag changes |
| `Answers.Switched` | blockchain/chain.go:1180-1223 | with more work and every block on its path passing, a block becomes the tip and exactly the blocks on its path gain the valid flag |
| `Answers.Refused` | blockchain/chain.go:944-999 | with more work over a block that fails: the lowest failing block is marked failed, those below it on the path valid, those above it invalid-ancestor, all others keep their flags, and the tip stays |
| `Answers.Overlooked` | blockchain/chain.go:510-546 | with more work over a marked block: exactly the blocks above the highest marked one gain the invalid-ancestor flag, the tip stays, and the answer is still "on the main chain" |
| `Answers.NotAdmitted` | blockchain/accept.go:25-55 | which error belongs to which reason, both directions, and that such a block leaves no trace |
| `Answers.AdmittedStored` | blockchain/accept.go:57-75 | every other block is stored and indexed, whatever becomes of it |
| `Answers.AnswerMeans` | blockchain/accept.go:25-93 | each answer if and only if a condition on the parent, the work and the checks along the path; the tip moves exactly to a block whose whole path passes and that extends the tip or has strictly more work |
| `Answers.AnswersAlways` | blockchain/accept.go:25-93 | the same after every sequence of offered blocks, for every further block |
| `Misreport.FailsAtFirst` | blockchain/chain.go:976-990 | a reorganize that fails at the first block marks that block and leaves the flags of all nodes outside its own branch alone |
| `Misreport.TakenForTip` | blockchain/chain.go:517-546 | a block on an unmarked branch over a failed block is accepted as part of the main chain while the tip stays |
| `Misreport.Misreported` | blockchain/chain.go:517-546 | for all rules and blocks of the described shape, a run of six blocks after which the seventh is reported to be on the main chain although the tip is another block |
| `Misreport.StoryExists` | blockchain/chain.go:517-546 | rules and blocks of that shape exist |
| `ChainCore.WorkNeverDecreases` | blockchain/chain.go:1180-1223 | the tip's work never decreases along a run |
| `ChainCore.Convergence` | blockchain/chain.go:1180-1223 | two nodes that know each other's tips agree on the work of the best chain, whatever the order of arrival |
| `Replay.CheckStep` | blockchain/chain.go:944-999 | checking the next block of the branch against the running view decides as the step functions do |
| `Replay.JournalReady` | blockchain/chain.go:878-923 | for every block of the best chain the journal entry is there, has the right length, no legacy record, and undoes the block |
| `BlockIndexes.BlockIndex.Genesis` | blockchain/chainio.go:1006-1100 | the index starts with genesis and the bytes of its row |
| `BlockIndexes.BlockIndex.AddNode` | blockchain/blockindex.go:275-280 | the node is indexed with its status and dirty; the bucket still mirrors all other nodes |
| `BlockIndexes.BlockIndex.SetStatusFlags` | blockchain/blockindex.go:305-310 | one node gains the flag and is dirty |
| `BlockIndexes.BlockIndex.FlushToDB` | blockchain/blockindex.go:325-349 | afterwards nothing is dirty and the bucket holds the bytes of an up-to-date row for every node |
| `ChainViews.ChainView.constructor` | blockchain/chainview.go:53-58 | the view shows the branch of its tip |
| `ChainViews.ChainView.Resize` | blockchain/chainview.go:130-141 | the slice has the needed length; kept cells keep their nodes, new ones are nil |
| `ChainViews.ChainView.Walk` | blockchain/chainview.go:143-146 | cells above the stopping point are rewritten, the rest is untouched and the stopping cell holds its node |
| `ChainViews.ChainView.SetTip` | blockchain/chainview.go:115-147 | the early-stopping walk leaves exactly the branch from genesis to the node, for every sequence of tips |
| `ChainViews.ChainView.Tip` | blockchain/chainview.go:88-94 | the last cell is the node the view was set to |
| `ChainViews.ChainView.Contains` | blockchain/chainview.go:226-228 | one array read decides whether a node is the tip or an ancestor of it |
| `ChainViews.ChainView.Next` | blockchain/chainview.go:249-255 | the child of the node on the branch; nil for the tip and for nodes elsewhere |
| `ChainViews.ChainView.FindFork` | blockchain/chainview.go:289-319 | the result is the highest common ancestor |
| `ChainViews.ChainView.BlockLocator` | blockchain/chainview.go:352-409 | the locator has one hash per entry height and exactly the precomputed number of entries |
| `ChainViews.LocatorCapacity` | blockchain/chainview.go:361-372 | height+1 entries up to height 12, otherwise 12+floor(log2(height-10)) |
| `Log2.FastLog2Floor` | blockchain/chainview.go:22-33 | 2^r <= n < 2^(r+1) for every nonzero 32-bit n |
| `Locator.LengthExact` | blockchain/chainview.go:352-409 | the first entry at genesis is the last of exactly the precomputed number |
| `Locator.LocatorDescends` | blockchain/chainview.go:352-409 | entries are strictly descending ancestors from the node to genesis |
| `Locator.FirstEntryBelow` | blockchain/chainview.go:375-406 | for every fork distance D the first entry at or below the fork lies less than 2D below the node |
| `Locator.LocatorOf17` | blockchain/chain.go:29-43 | the documented example: 17 down to 6, then 4, then genesis |
| `Inventory.FirstKnown` | blockchain/chain.go:1520-1530 | the start of an answer is always a main-chain block |
| `Inventory.ServedFrom` | blockchain/chain.go:1520-1530 | for the locator of any block x the start is a main-chain ancestor of x less than 2D below it, or x itself when x is on the main chain |
| `Inventory.FindKnown` | blockchain/chain.go:1520-1530 | the loop finds the first locator entry on the main chain, genesis if none is |
| `Inventory.LocateInventory` | blockchain/chain.go:1507-1552 | the node after the start and the count up to the stop block, the tip or the limit; the special cases without a locator |
| `Inventory.LocateBlocks` | blockchain/chain.go:1561-1577 | the hashes are the main-chain run after the start, of exactly that length |
| `Inventory.AnswerToLocator` | blockchain/chain.go:1507-1577 | the answer to the locator of x is a contiguous run of at most maxHashes blocks after a main-chain ancestor of x fewer than 2D blocks below x, and empty only if the asker has the tip or asks for nothing |
| `Inventory.ServedExactly` | blockchain/chain.go:1507-1577 | the answer to any locator goes up to the stop block if that is on the main chain above the start, else to the tip, unless it is cut off at maxHashes |
| `TwoNodes.ChainIndexed` | blockchain/blockindex.go:275-280 | every block of a reachable node's best chain is found in its index |
| `TwoNodes.SameNode` | blockchain/blockindex.go:109-124 | if no hash stands for two headers among the blocks the two nodes have indexed, a block indexed by both under one hash is the same block with the same ancestors |
| `TwoNodes.IndexRecognises` | blockchain/chain.go:1520-1530 | then one node recognises every locator entry of the other that it has indexed |
| `TwoNodes.RecognisedExactly` | blockchain/chain.go:1520-1530 | a node recognises all another has indexed if and only if no hash stands for two headers among their blocks |
| `TwoNodes.RunsApart` | blockchain/accept.go:25-93 | after any two runs that is so if it is so of the offered blocks |
| `TwoNodes.AnswerBetweenNodes` | blockchain/chain.go:1507-1577 | for two nodes in any reachable states without two headers under one hash, and any block x the one has indexed: the answer of the other to the locator of x is a run of at most maxHashes blocks after a main-chain ancestor of x fewer than 2D blocks below x, and empty only if that is the tip or nothing is asked for |
| `TwoNodes.AnswerAfterRuns` | blockchain/chain.go:1507-1577 | the same after any two sequences of offered blocks without two headers under one hash |
| `Witnesses.ApartExists` | blockchain/accept.go:25-93 | two runs that meet this, after which each node has indexed a block the other has not |
| `BlockChains.CountsAgree` | blockchain/chain.go:810-817 | counting the inputs after the coinbase counts the journal records |
| `BlockChains.BlockChain.ViewMirrored` | blockchain/chainio.go:834-867 | between calls both indexes equal the view, the journal covers the blocks above genesis, the snapshot counts all transactions |
| `BlockChains.BlockChain.StateOfTip` | blockchain/chainio.go:990-1002 | between calls the stored chain state has the hash, height, number of transactions and work of the best chain |
| `BlockChains.BlockChain.constructor` | blockchain/chainio.go:1006-1100 | the chain starts consistent at genesis |
| `BlockChains.BlockChain.PutBestState` | blockchain/chainio.go:990-1002 | the stored bytes are those of the new state row |
| `BlockChains.BlockChain.ConnectBlock` | blockchain/chain.go:569-688 | succeeds exactly when the block extends the tip and the record count fits, and then performs all writes |
| `BlockChains.BlockChain.DisconnectBlock` | blockchain/chain.go:694-807 | succeeds exactly for the tip and then performs all writes; the row keeps the work of the removed node |
| `BlockChains.BlockChain.GetReorganizeNodes` | blockchain/chain.go:510-556 | the branch above the fork, lowest first, and the old branch, tip first; or two empty lists after marking what stands on an invalid block |
| `BlockChains.CollectAttach` | blockchain/chain.go:526-534 | the walk stops at the fork or at the highest invalid node and has what lies above it |
| `BlockChains.CollectDetach` | blockchain/chain.go:548-553 | the nodes of the best chain above the fork, tip first |
| `BlockChains.CheckDetach` | blockchain/chain.go:878-923 | never fails on a consistent chain, loads what belongs to the nodes, and ends with the utxo set at the fork |
| `BlockChains.BlockChain.CheckNode` | blockchain/chain.go:960-997 | a block passes if it is marked valid or the checks say so, and is marked when it passes |
| `BlockChains.BlockChain.CheckNext` | blockchain/chain.go:944-999 | one round of the check phase: on to the next state, or the marks of a failure |
| `BlockChains.BlockChain.CheckAttach` | blockchain/chain.go:944-999 | all blocks pass and are marked valid, or exactly the marks of the first failure are left |
| `BlockChains.BlockChain.CheckBranch` | blockchain/chain.go:862-999 | the whole first phase: only flags change, they are those of the step function, and everything for the blocks to detach is loaded |
| `BlockChains.BlockChain.DetachAll` | blockchain/chain.go:1009-1034 | the chain ends at the fork with the ledger of the fork |
| `BlockChains.BlockChain.AttachAll` | blockchain/chain.go:1036-1063 | the chain ends at the new tip with its ledger |
| `BlockChains.SameForkPoint` | blockchain/chain.go:836-857 | neither assertion about the two lists can fail |
| `BlockChains.BlockChain.ReorganizeChain` | blockchain/chain.go:830-1063 | all or nothing: on success view and ledger are those of the new branch, on a rule error view, ledger and state row are untouched and only flags differ |
| `BlockChains.BlockChain.ExtendChain` | blockchain/chain.go:1109-1178 | the block passes and becomes the tip, or is marked failed |
| `BlockChains.BlockChain.ReorganizeTo` | blockchain/chain.go:1200-1212 | the two lists are computed and applied; flags, tip and answer are those of the step function and the ledger is that of the tip |
| `BlockChains.BlockChain.ConnectBestChain` | blockchain/chain.go:1093-1224 | flags, tip and answer are those of the step function, the ledger is that of the tip, nothing is dirty |
| `BlockChains.BlockChain.StoreBlock` | blockchain/accept.go:57-75 | the block is stored, its node indexed and its row written; main chain, ledger and state row are untouched |
| `BlockChains.BlockChain.MaybeAcceptBlock` | blockchain/accept.go:25-93 | state and answer are those of the step function, no assertion error ever occurs, and the object is consistent again |
| `BlockChains.BlockChain.MarkAncestors` | blockchain/chainio.go:1225-1242 | exactly the tip and its ancestors are marked valid |
| `BlockChains.BlockChain.AdoptTip` | blockchain/chainio.go:1206-1261 | the view shows the branch of the tip, its nodes are marked valid and written, and the snapshot is that of the tip |
| `BlockChains.BlockChain.InitChainState` | blockchain/chainio.go:1105-1261 | from the bytes of a bucket that mirrors any well-formed index and of a state row: the same index and flags, the tip's ancestors marked valid, the snapshot rebuilt, no error |
| `BlockChains.BlockChain.Restart` | blockchain/chainio.go:1105-1261 | stopping a node between two blocks and starting it from the stored bytes changes nothing |
| `Restart.KeyOrder` | blockchain/chainio.go:1368-1373 | byte order of keys is height order, then hash order |
| `Restart.LoadIndex` | blockchain/chainio.go:1164-1204 | the loop over the rows computes the fold over their bytes, decoding and assertion errors included |
| `Restart.LoadsExactly` | blockchain/chainio.go:1164-1204 | rows can be loaded if and only if the first is genesis and every other comes after that of its parent; then exactly their hashes are indexed |
| `Restart.ShortRowFails` | blockchain/chainio.go:1265-1280 | a row without the 80 bytes of a header and one of flags makes loading fail |
| `Restart.ReloadRebuilds` | blockchain/chainio.go:1164-1204 | genesis comes first, every parent before its children, and the same nodes come back under the same hashes with the same flags |
| `Restart.CursorRows` | blockchain/chainio.go:1157-1165 | a cursor over the bytes of the keys visits the rows by height, then hash |
| `Restart.BucketRebuilds` | blockchain/chainio.go:1164-1204 | so the bytes of the bucket rebuild the index with all flags |
| `Rows.HeaderRoundTrip` | wire/blockheader.go:122-134 | a header is read back from its 80 bytes, whatever follows |
| `Rows.RowRoundTrip` | blockchain/chainio.go:1265-1350 | a row is read back with its header and its status bits |
| `Rows.KeyRowBack` | blockchain/chainio.go:1368-1373 | height and hash are read off the key of a row |
| `Rows.HeldNext` | blockchain/chainio.go:1332-1350 | writing a row changes no other row, as long as heights fit 32 bits |
| `Rows.StateRoundTrip` | blockchain/chainio.go:930-986 | the best chain state is read back, and it is the same state if and only if height and transaction count fit their fields |
| `Rows.WorkShort` | blockchain/chainio.go:930-948 | the work of a branch takes at most 36 bytes |
| `Restart.AlreadyMarked` | blockchain/chainio.go:1225-1242 | marking the best chain valid after loading changes nothing in a reachable state |
| `UtxoCache.CommitSafe` | blockchain/utxoviewpoint.go:456-465 | after commit, which flips the modified flag, the view still stands for the database just written and may be written again |
| `UtxoCache.DisconnectIgnores` | blockchain/utxoviewpoint.go:312-440 | disconnecting a block does not depend on what the view thinks of the block's own outputs |
| `UtxoViews.UtxoViewpoint.AddTxOuts` | blockchain/utxoviewpoint.go:199-213 | the view gains exactly the spendable outputs |
| `UtxoViews.UtxoViewpoint.ConnectTransaction` | blockchain/utxoviewpoint.go:220-261 | fails exactly if an input has no entry; else inputs are spent, outputs added, records taken |
| `UtxoViews.UtxoViewpoint.FetchInputUtxos` | blockchain/utxoviewpoint.go:530-578 | the view changes at most in outputs of the block itself, and every other input has an entry |
| `UtxoViews.UtxoViewpoint.ConnectTransactions` | blockchain/utxoviewpoint.go:268-280 | after the inputs of a connectable block were fetched, no input is missing, the view stands for the utxo set after the block and the records are those of the block; for any block the unmodified entries stay those of the database |
| `UtxoViews.UtxoViewpoint.DisconnectTransactions` | blockchain/utxoviewpoint.go:312-440 | the view stands for the utxo set before the block |
| `UtxoViews.UtxoViewpoint.Commit` | blockchain/utxoviewpoint.go:456-465 | spent and nil entries go, all other modified flags flip |
| `UtxoViews.UtxoViewpoint.ConnectInView` | blockchain/chain.go:960-975 | fetching and connecting a connectable block moves the view by one block, wherever it stands relative to the database; for any block the unmodified entries stay those of the database |
| `UtxoViews.UtxoViewpoint.DisconnectInView` | blockchain/chain.go:895-920 | fetching and disconnecting moves the view back by one block |
| `UtxoBucket.KeyBack` | blockchain/chainio.go:595-605 | the key of an output determines it |
| `UtxoBucket.KeyInjective` | blockchain/chainio.go:595-605 | different outputs have different keys |
| `UtxoBucket.SerializeUtxoEntry` | blockchain/chainio.go:615-657 | header code and compressed output fill a buffer of the precomputed size |
| `UtxoBucket.UtxoRoundTrip` | blockchain/chainio.go:633-694 | an entry is always read back, and it is the same entry if and only if its amount survives compression |
| `UtxoBucket.FetchIs` | blockchain/chainio.go:733-768 | from a bucket that holds a utxo set exactly its outputs are read, each unchanged |
| `UtxoBucket.ContentsIs` | blockchain/chainio.go:733-768 | so the rows of the bucket are the utxo set, read as a whole |
| `UtxoBucket.PutUtxoEntry` | blockchain/chainio.go:776-808 | a modified entry is written or deleted and no other row changes what it stands for |
| `UtxoBucket.PutUtxoView` | blockchain/chainio.go:774-811 | writing only the modified entries makes the rows of the bucket hold what the view stands for |
| `Duplicates.NeverTwice` | blockchain/validate.go:1024-1030 | when hashes identify transactions, all inputs were there and no two coinbases are equal, no transaction is connected a second time |
| `Duplicates.RepeatsNeedCoinbases` | blockchain/validate.go:1024-1030 | a transaction is repeated if and only if a coinbase is |
| `Duplicates.NothingOverwritten` | blockchain/validate.go:1024-1030 | then no transaction overwrites an unspent output |
| `Duplicates.RepeatOverwrites` | blockchain/validate.go:836-865 | without that: a repeated coinbase that checkBIP0030 lets through, after which a repeated transaction overwrites an unspent output |
| `Duplicates.BranchLeaves` | blockchain/utxoviewpoint.go:268-280 | the utxo set of a branch has exactly the outputs its transactions leave |
| `Duplicates.HeightsSeparate` | blockchain/validate.go:622-635 | if from some height on every coinbase announces its height, and below it coinbases differ and announce no such height, no two coinbases of a branch are equal |
| `Duplicates.CheckUnneeded` | blockchain/validate.go:1024-1036 | then a block connects if and only if its inputs are there, so leaving out the check for overwritten outputs changes nothing |
| `Duplicates.NoClashByRule` | blockchain/validate.go:836-865 | a block that passes checkBIP0030 uses no hash of a transaction with unspent outputs |
| `Duplicates.NoClashByHeights` | blockchain/validate.go:775-783 | nor does any block on such a branch |
| `Lawful.StillLawful` | blockchain/accept.go:25-93 | storing a block that passed the sanity and context checks keeps what the rules say of every indexed block |
| `Lawful.NoClashWhenChecked` | blockchain/validate.go:1031-1036 | under the rules below and from BIP0034Height, a block that passes uses no hash of a transaction with unspent outputs |
| `Lawful.EarlyAlong` | blockchain/accept.go:25-93 | what is asked of the coinbases below BIP0034Height at the end of a run was so all along |
| `Witnesses.SwitchingExists` | blockchain/validate.go:1024-1036 | rules that switch at a height and a run that passes it and meets all that is asked |
| `Lawful.MoneyBranch` | blockchain/validate.go:206-270 | every amount in the utxo set and in the journal records of a branch is between zero and MaxNanoSoter |
| `Lawful.BranchSurvives` | blockchain/compress.go:464-529 | so all that is stored for a branch survives compression |
| `Storage.Store.constructor` | blockchain/chainio.go:1006-1100 | the rows of the utxo set and of the journal are those of genesis |
| `Storage.Store.FetchSpendJournalEntry` | blockchain/chainio.go:457-476 | the stored bytes are decoded for the inputs after the coinbase |
| `Storage.Store.Fetch` | blockchain/chainio.go:733-768 | what is read from the rows is the utxo set they stand for |
| `Storage.EntryBack` | blockchain/chainio.go:457-476 | for a block of the best chain that yields its journal entry |
| `Storage.Store.UndoInView` | blockchain/chain.go:878-923 | the entry is read from its bytes and the cached view moves below the block |
| `Storage.Store.CheckDetach` | blockchain/chain.go:878-923 | the cached view ends at the fork, nothing fails and nothing is written |
| `Storage.Store.CheckRound` | blockchain/chain.go:944-999 | one round of the check phase judged by the cached view: on to the next state, or the marks of a failure |
| `Storage.Store.CheckAttach` | blockchain/chain.go:944-999 | the cached view decides as the step functions do and leaves the same flags |
| `Storage.Store.DisconnectBlock` | blockchain/chain.go:694-807 | the rows of both buckets are written and the view is in step with them |
| `Storage.Store.ConnectBlock` | blockchain/chain.go:607-660 | the same, with the journal entry as bytes |
| `Storage.Store.DetachOne` | blockchain/chain.go:1009-1034 | the buckets hold utxo set and journal of the branch without its last block |
| `Storage.Store.AttachOne` | blockchain/chain.go:1036-1063 | the buckets hold utxo set and journal of the branch with the next block |
| `Storage.Store.DetachAll` | blockchain/chain.go:1009-1034 | the buckets hold utxo set and journal of the fork |
| `Storage.Store.AttachAll` | blockchain/chain.go:1036-1063 | the buckets hold utxo set and journal of the new tip |
| `Storage.Store.SwitchChain` | blockchain/chain.go:862-1063 | with cached views, utxo rows and journal bytes a reorganize ends with utxo set and journal of the new branch, or leaves both buckets untouched, exactly as the step functions say |
| `Storage.Store.Reorganize` | blockchain/chain.go:1200-1223 | flags, tip and answer are those of the step function and the buckets are those of the tip |
| `Storage.Store.Extend` | blockchain/chain.go:1109-1178 | the same for a block on top of the best chain |
| `Storage.Store.ConnectBest` | blockchain/chain.go:1093-1224 | the same for both and for a side chain |
| `Storage.Store.Accept` | blockchain/accept.go:25-93 | the same for an offered block, and the invariants hold again |
| `Storage.Store.Run` | blockchain/accept.go:25-93 | from genesis over every sequence of offered blocks the rows of the utxo bucket and the bytes of the journal are exactly those of the best chain |
| `FullNodes.FullNode.constructor` | blockchain/chainio.go:1006-1100 | engine and database start in agreement at genesis |
| `FullNodes.FullNode.AllBytes` | blockchain/chainio.go:1105-1261 | between any two calls the block index bucket has the bytes of the rows of all indexed blocks, the chain state those of the tip's row, and utxo bucket and journal those of the best chain |
| `FullNodes.FullNode.Process` | blockchain/accept.go:25-93 | an offered block: state and answer are those of the step function, and index rows, chain state, utxo rows and journal all hold the bytes of the best chain |
| `FullNodes.FullNode.Reboot` | blockchain/chainio.go:1105-1261 | stopping and starting the node from the bytes keeps all of that and changes nothing |
| `Compact.CanonicalRoundTrip` | blockchain/difficulty.go:62-130 | every canonical encoding decodes and encodes back to itself |
| `Compact.EncodingRoundsDown` | blockchain/difficulty.go:94-130 | decoding an encoded target gives the largest representable value not above it, with the same encoding |
| `TxOutCodec.VlqRoundTrip` | blockchain/compress.go:53-107 | a number is read back with its size, whatever follows |
| `Amounts.AmountRoundTrip` | blockchain/compress.go:464-529 | in 64-bit arithmetic a compressed amount is read back if and only if it ends in zero or is at most 2049638230412172402 |
| `Amounts.PackedRoundTrip` | blockchain/compress.go:464-529 | in unbounded arithmetic every compressed amount is read back |
| `Amounts.PackedFits` | blockchain/compress.go:464-489 | exactly those amounts have a compressed form below 2^64 |
| `Amounts.AmountLost` | blockchain/compress.go:478-489 | an amount above the bound and what it is read back as |
| `TxOutCodec.SizeDecodes` | blockchain/compress.go:272-293 | the size of a compressed script is read off its first bytes, whatever follows |
| `TxOutCodec.ScriptRoundTrip` | blockchain/compress.go:300-422 | decompressing a compressed script gives the script, special forms included |
| `TxOutCodec.TxOutRoundTrip` | blockchain/compress.go:547-587 | an output is read back whatever follows, takes the precomputed size, and has the same amount if and only if that fits |
| `Truncation.CutShort` | blockchain/compress.go:566-587 | a compressed output that is cut short is turned down if and only if it is not cut right behind a first byte 85 of its script |
| `Truncation.CutUnnoticed` | blockchain/compress.go:272-293 | cut there, an output with a script of 762 to 889 bytes is read as one with an empty script |
| `SpendJournal.MoneyIsStorable` | soterutil/const.go:15-16 | the record of every amount from zero to MaxNanoSoter is read back unchanged |
| `SpendJournal.RecordRoundTrip` | blockchain/chainio.go:283-370 | a record is read back whatever follows it, and is the same record if and only if its amount fits |
| `SpendJournal.JournalFits` | blockchain/chainio.go:429-449 | as many bytes are written as were counted beforehand |
| `SpendJournal.EntryRoundTrip` | blockchain/chainio.go:378-449 | for transactions with that many inputs an entry is read back unchanged if and only if all its amounts fit; a missing entry is noticed |
| `SpendJournal.PutVlq` | blockchain/compress.go:67-89 | writing groups backwards and reversing them in place puts the encoding into the buffer and nothing else |
| `SpendJournal.PutPlainScript` | blockchain/compress.go:333-339 | a script without a special form is put behind its size |
| `SpendJournal.PutCompressedScript` | blockchain/compress.go:300-339 | the buffer holds the compressed script at the position and is otherwise unchanged |
| `SpendJournal.PutCompressedTxOut` | blockchain/compress.go:557-561 | the same for an output, whose compressed amount is cut down to 64 bits |
| `SpendJournal.PutSpentTxOut` | blockchain/chainio.go:312-323 | the same for a journal record |
| `SpendJournal.SerializeSpendJournalEntry` | blockchain/chainio.go:429-449 | the buffer holds all records, last one first, and is exactly filled |
| `SpendJournal.DeserializeSpendJournalEntry` | blockchain/chainio.go:378-425 | the backwards loops decode the entry, with both error cases |
| `Layouts.VlqLayout` | blockchain/compress.go:15-47 | a number below 128 is one byte; a larger one is that of its upper digits less one, with the continuation bit, and a last byte |
| `Layouts.VlqExamples` | blockchain/compress.go:38-47 | the documented examples and their neighbours |
| `Layouts.AmountLayout` | blockchain/compress.go:426-459 | digits and number of zeroes in one number, for every amount |
| `Layouts.PubKeyHashLayout` | blockchain/compress.go:300-371 | 76 a9 14 hash 88 ac is stored as 00 hash, and read back from it |
| `Layouts.ScriptHashLayout` | blockchain/compress.go:300-381 | a9 14 hash 87 is stored as 01 hash, and read back from it |
| `Layouts.CompressedKeyLayout` | blockchain/compress.go:300-391 | 21 key ac is stored as the key, which starts with 02 or 03, and read back from it |
| `Layouts.UncompressedKeyLayout` | blockchain/compress.go:300-330 | 41 04 x y ac is stored as 04 x or 05 x by the parity of y |
| `Layouts.UncompressedKeyBack` | blockchain/compress.go:393-412 | from 04 x or 05 x the key with that parity is read back, if there is one |
| `Layouts.OtherLayout` | blockchain/compress.go:333-339 | every other script is stored behind its length plus six |
| `Layouts.EntryLayout` | blockchain/chainio.go:615-657 | a utxo entry: twice the height plus the coinbase flag, then the output |
| `Layouts.RecordLayout` | blockchain/chainio.go:283-323 | a journal record: the same with a zero byte between, unless the height is zero |
| `Layouts.JournalLayout` | blockchain/chainio.go:429-449 | a journal entry has its last record first |
| `Layouts.OutputExample` | blockchain/compress.go:557-561 | the bytes of an output that pays whole coins to the hash of a key |
| `Layouts.OutpointLayout` | blockchain/chainio.go:595-605 | the key of an output is its hash, then its index |
| `Layouts.HeaderLayout` | wire/blockheader.go:130-134 | the six fields of a header, where they are, and the low byte first in every number |
| `Layouts.RowLayout` | blockchain/chainio.go:1332-1350 | a row is the header and one byte with one bit for each flag |
| `Layouts.RowKeyLayout` | blockchain/chainio.go:1368-1373 | its key is the height, high byte first, and the hash |
| `Layouts.StateLayout` | blockchain/chainio.go:904-948 | the best chain state is hash, height, number of transactions, size of the work and work, each in its place |
| `Layouts.BigLayout` | blockchain/chainio.go:930-948 | the work has its high byte first and none that is zero |
| `Retarget.NewRules` | blockchain/chain.go:1772-1788 | the derived limits are valid if and only if the largest timespan fits 64 bits and the 32-bit number of blocks per retarget is positive; within those widths they are floors and products of the parameters |
| `Retarget.LastRegularIs` | blockchain/difficulty.go:198-215 | the search ends at the highest block without the special minimum difficulty, genesis at the latest |
| `Retarget.FindPrevTestNetDifficulty` | blockchain/difficulty.go:198-215 | the bits of that block |
| `Retarget.CalcRetarget` | blockchain/difficulty.go:255-301 | at a retarget, the bits of the last target scaled by the clamped timespan and capped by the limit; `RetargetExactly` says which target that is |
| `Retarget.CalcNextRequiredDifficulty` | blockchain/difficulty.go:222-301 | computes the required bits branch by branch |
| `Retarget.Clamp` | blockchain/difficulty.go:265-270 | a timespan within the limits stays, one below becomes the smallest, one above the largest |
| `Retarget.ScaledIs` | blockchain/difficulty.go:278-286 | the scaled target is the largest number within the limit that is no more than the last target times the timespan over the ideal one |
| `Retarget.RetargetExactly` | blockchain/difficulty.go:255-301 | the target at a retarget is the largest one with a compact form that is within the limit and no more than the last target times the clamped timespan over the ideal one |
| `Retarget.ShorterIsHarder` | blockchain/difficulty.go:255-301 | of two periods that end with the same target the shorter one never gets the larger new target |
| `Retarget.RetargetFloor` | blockchain/difficulty.go:262-301 | the target falls by no more than the smallest timespan allows |
| `Retarget.NextMeans` | blockchain/difficulty.go:222-253 | which answer belongs to which height and time: the limit at genesis and after a long gap on networks with the exception, the retarget at period ends, else the bits of the last block or of the highest regular one |
| `Retarget.AlwaysAnswers` | blockchain/difficulty.go:257-260 | the error about a missing retarget block is unreachable |
| `Retarget.RetargetBounds` | blockchain/difficulty.go:262-301 | the target at a retarget is not negative, not above the limit and at most adjustmentFactor times the last one |
| `Retarget.WithinLimit` | blockchain/difficulty.go:222-301 | along a chain that follows the rule no target is negative or above the limit |
| `Retarget.BoundedEasing` | blockchain/difficulty.go:262-290 | without the minimum-difficulty exception a block never makes the target more than adjustmentFactor times the last one and changes it only at retargets |
| `AddrBook.DropSafe` | addrmgr/addrmanager.go:246-273 | taking an address out of a bucket keeps all tables in agreement |
| `AddrBook.WithoutSafe` | addrmgr/addrmanager.go:239-275 | so does taking out any set of them |
| `AddrBook.InsertSafe` | addrmgr/addrmanager.go:229-231 | so does putting an address into a bucket with room |
| `AddrBook.EnterSafe` | addrmgr/addrmanager.go:205-214 | so does indexing a new address |
| `AddrBook.WithdrawSafe` | addrmgr/addrmanager.go:896-910 | so does taking an address out of all new buckets |
| `AddrBook.PromoteSafe` | addrmgr/addrmanager.go:919-925 | so does appending it to a tried list |
| `AddrBook.ReplaceSafe` | addrmgr/addrmanager.go:927-956 | so does exchanging it for a tried address |
| `AddrBook.CountersSum` | addrmgr/addrmanager.go:759-767 | the two counters add up to the index |
| `AddrBook.TablesNonempty` | addrmgr/addrmanager.go:769-822 | a table whose counter is positive has a non-empty bucket |
| `AddrManagers.AddrManager.constructor` | addrmgr/addrmanager.go:689-701 | the manager starts empty |
| `AddrManagers.AddrManager.ExpireNew` | addrmgr/addrmanager.go:239-275 | no address stays that was left alone for a minute and is more than ten minutes in the future, unseen for thirty days, unreached in three attempts, or failing ten times without success for seven days; at most one other goes, and none of the rest is older |
| `AddrManagers.Limits` | addrmgr/addrmanager.go:103-130 | 1024 buckets of at most 65, 64 lists of at most 256; a new address is in one to eight buckets and no list, a tried one in a list and no bucket; the counters add up |
| `AddrManagers.AddrManager.UpdateAddress` | addrmgr/addrmanager.go:163-235 | the exact new tables in every case: a new address is in its bucket, never attempted; of a known one the services grow, a later time counts, nothing else is touched, and it gets a further bucket exactly when it is new, in fewer than eight and the dice say zero; a bucket never exceeds its size plus one, an address never nine buckets, and the dice are never asked about an empty range |
| `AddrManagers.AddrManager.PickTried` | addrmgr/addrmanager.go:280-292 | the first of the oldest addresses of the list |
| `AddrManagers.AddrManager.LeaveNew` | addrmgr/addrmanager.go:896-915 | the address leaves all new buckets, its count reaches zero, and there always was a first bucket |
| `AddrManagers.AddrManager.MoveToTried` | addrmgr/addrmanager.go:891-957 | a new address leaves all new buckets and is appended to its tried list, or takes the place of the eldest there, which goes back to a new bucket |
| `AddrManagers.AddrManager.Good` | addrmgr/addrmanager.go:873-957 | the address is tried, its attempts are reset and both times are now; the exact new tables: promoted to the end of its list, or exchanged for the eldest, which goes to its own bucket or to the freed one |
| `AddrManagers.AddrManager.Attempt` | addrmgr/addrmanager.go:832-845 | only the attempt fields of a known address change |
| `AddrManagers.AddrManager.ChooseTable` | addrmgr/addrmanager.go:759-771 | nothing for an empty index, otherwise a table with a non-empty bucket |
| `Watches.AddAgrees` | rpcwebsocket.go:887-903 | adding a request adds one pair and keeps both sides in agreement, without empty inner maps |
| `Watches.RemoveAgrees` | rpcwebsocket.go:936-956 | removing a request removes one pair and keeps both sides in agreement |
| `Watches.Forget` | rpcwebsocket.go:556-569 | all requests of the client go, those of others stay |
| `Notifications.NotificationManager.NotifyForTxIns` | rpcwebsocket.go:1081-1114 | every client watching an input is told once and nobody else; inputs of a confirmed transaction are not watched any more |
| `Notifications.NotificationManager.AddSpentRequests` | rpcwebsocket.go:887-920 | exactly the requests are added, and spends in the memory pool are announced to the client right away |
| `Notifications.NotificationManager.NotifyForTxOuts` | rpcwebsocket.go:992-1038 | every client watching a paid address is told once and from then on watches the outputs that pay to it |
| `Notifications.PaidMeans` | rpcwebsocket.go:992-1038 | which outpoints those are |
| `Notifications.NotificationManager.NotifyForTx` | rpcwebsocket.go:1066-1075 | every client watching an input or a paid address is told, and exactly which outpoints are watched afterwards |
| `Notifications.NotificationManager.ConnectBlock` | rpcwebsocket.go:508-518 | for every transaction of the block, whoever then watches an input or a paid address is told; exactly the outpoints that the transactions, one after the other, leave watched are watched afterwards |
| `Notifications.OlderAfter` | rpcwebsocket.go:508-518 | an outpoint from before the block is still watched after it if and only if it was and the block does not spend it |
| `Notifications.NotificationManager.Unregister` | rpcwebsocket.go:556-569 | the client is in no map any more, nobody else is affected |
| `Notifications.NotificationManager.Request` | rpcwebsocket.go:571-581 | exactly the requests are added or removed, and the notices about spends in the memory pool are queued |
| `Notifications.NotificationManager.Handle` | rpcwebsocket.go:483-607 | every message keeps outpoints and addresses two-sided and says exactly what is watched and by whom afterwards, who is told about a block, a memory pool transaction or a new request, and that no other message tells anybody anything |
| `WsQueues.QueueHandler` | rpcwebsocket.go:153-195 | in every interleaving sent followed by queued items are the received ones in order, and only an empty queue may be skipped |
| `WsQueues.NextKeeps` | rpcwebsocket.go:1515-1564 | every step keeps at most one notification in flight, pending ones imply waiting, order is kept |
| `WsQueues.NeverBlocks` | rpcwebsocket.go:1515-1640 | in every interleaving, also with a disconnect between the two halves of SendMessage, whoever completes a notification finds the completion channel empty |
| `WsQueues.DeliveredInOrder` | rpcwebsocket.go:1515-1640 | in every interleaving the notifications that come out of the send channel are the first ones received, in that order; as long as the client is connected no other is lost, and none is pending unless one is in flight |
| `PeerStates.AddSafe` | server.go:1742-1753 | adding a peer keeps maps, counts and the limit right |
| `PeerStates.DoneSafe` | server.go:1760-1780 | so does a done message, with the uncounted peers accounted for |
| `PeerStates.AddMeans` | server.go:1742-1753 | a peer joins the one table it belongs to, and an outbound one counts for its group |
| `PeerStates.DoneMeans` | server.go:1760-1780 | a peer leaves its table, and an outbound one that was listed stops counting if its version is known |
| `PeerStates.DoneExact` | server.go:1770-1772 | counts stay exact if and only if the peer is not listed, is inbound, or its version is known, which it always is for a listed peer |
| `PeerStates.RunSafe` | server.go:1699-1793 | after every run each peer is in one map, at most maxPeers in all, and counts are exact if all versions were known |
| `PeerStates.PeerState.constructor` | server.go:158-164 | there are no peers at first |
| `PeerStates.PeerState.HandleAddPeer` | server.go:1699-1756 | exactly when a peer is added, where to, and which ban expires |
| `PeerStates.PeerState.HandleDonePeer` | server.go:1760-1793 | the tables are those of the step function |
| `PeerStates.FindPeer` | server.go:2097-2112 | some matching peer, or none matches |
| `PeerStates.PeerState.RemoveNode` | server.go:2031-2042 | one matching persistent peer goes with its count, or none matches |
| `PeerStates.PeerState.DisconnectNode` | server.go:2058-2087 | one matching inbound peer goes or, if there is none, all matching outbound peers |

## Left out

- Database faults, locks, logging, chain notifications, the index manager and clocks; database transactions succeed.
- 32-bit overflow of heights: heights are unbounded, and locators, rows and restarts ask for heights below 2^31 or 2^32.
- BFFastAdd; a block that is already marked valid is skipped as in the original.
- Block size, weight and median time in the snapshot, and the byte form of blocks and of the two main-chain indexes.
- The attach-block cache of reorganizeChain: the second phase reads the stored blocks again.
- The search for the height of legacy journal records, those of height zero: such records are shown never to be written, and the engine turns them down.
- `UtxoViews.UtxoViewpoint.DisconnectTransactions`: restores a record of height zero as it stands, without that search.
- `UtxoViews.UtxoViewpoint.ConnectInView`: says what becomes of the view only for blocks that spend no unspent output of a transaction whose hash they use again (`ClearInputs`), because fetchInputUtxos may take such an input for one of the block's own outputs; `Lawful.NoClashWhenChecked` derives that from the rules.
- `Storage.Store.Run`: asks that hashes identify the transactions of the offered blocks, that fewer than 2^31 blocks are offered and, of branches that reach BIP0034Height, that the coinbases below it differ and announce no later height. The original takes that for granted; `Duplicates.RepeatOverwrites` is what can happen otherwise, and nothing is asked where BIP0034Height is 0, as on simnet (chaincfg/params.go:523), or not reached. The two blocks the original exempts from checkBIP0030 (blockchain/validate.go:173-183) are not exempt here. The best hash of a view and the assertion on it are not modelled.
- `FullNodes.FullNode.Process`: the engine with its plain utxo set and the database with its cached views both go through the steps; that the engine reads its utxo set from the database is not modelled. The same is asked of blocks as in `Storage.Store.Run`.
- `BlockChains.BlockChain.Restart`: asks for heights below 2^31 and for a transaction count below 2^64, which is the width of the stored field.
- `CanConnectTx` asks that no output replaces an unspent one. The original checks this below BIP0034Height only (blockchain/validate.go:1031), which is nowhere on simnet; from there on `Duplicates.CheckUnneeded` shows that the check makes no difference.
- `Sane` has of CheckTransactionSanity what concerns the presence of inputs and outputs, repeated inputs and single amounts; sizes, totals, script lengths and null inputs are not checked, so the runs of the model include those of the original.
- The orphan pool, ProcessBlock's other entry checks, IntervalBlockHashes, LocateHeaders, checkpoints and calcEasiestDifficulty.
- `BlockChains.BlockChain.DisconnectBlock`: the work sum in the state row is that of the removed block, as in the original; it is right again after the next connect, and no claim is made about it in between.
- `Compact.EncodingRoundsDown`: negative targets are not modelled, because the arithmetic shift of the original rounds them differently; Retarget shows that they never arise.
- `TxOutCodec.ScriptRoundTrip`: assumes of the elliptic curve that x-coordinate and parity determine a valid key; reading byte strings that encode more than 64 bits does not wrap around.
- `AddrManagers.AddrManager.ChooseTable`: the random search inside the table and its odds are not modelled; nor are the peers file, local addresses and Connected.
- The address manager's records are values under their key, so the sharing of one record between index and buckets is built in.
- `Notifications.NotificationManager.Handle`: block, filtered-block and new-transaction notices and the per-client filters are not modelled; only the watch maps and their notices are.
- `WsQueues.NextKeeps`: blocking on a full send channel is a step that is not possible yet; that it becomes possible is not claimed.
- `PeerStates.PeerState.HandleAddPeer`: asks that peer ids are not reused, and that only outbound peers are persistent.
- RPC handlers, mempool, netsync, blockdag and the command line.
