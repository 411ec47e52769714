# Paqus node and wallet: a verified model

This project models the node and wallet that surround the Paqus consensus crate, and proves what
their state machines promise: how blocks are taken in and branches switched, how the pool of
pending transactions stays consistent, how peers synchronise, how blocks and snapshots travel in
compressed form, how the storage indexes answer queries, and how the wallet splits an amount into
cash files.

The consensus crate itself (hashing, signatures, ledger rules, proof of work) appears as a record
of deterministic functions, `Paqus.Rules`, with the few laws the node relies on (`Paqus.Lawful`).
Fixed-width hashes and addresses are natural numbers in big-endian reading; a transaction or header
carries its own hash, and a result that needs hashes or short ids to be collision free says so.
Time is an argument, one reading per call. Peers are arbitrary functions or sequences of answers.

Where the source updates an object in place, the model has a class (`Node`, `Mempool`, `Storage`,
`PeerConnection`) whose methods are proved against functions on values; the theorems are about those
functions, for every input and every run.

| file | contents |
|---|---|
| Paqus, Ordering | values, the consensus crate as the node sees it, sorting by key |
| ForkTree | fork choice: tree, best tip, branches, common ancestor, pruning |
| CoreCache, ChainEngine, ChainSafety | the block step; soundness and finality over all runs |
| StateRoots | what a step accepts and why it refuses; state roots over all runs |
| Startup, Restart | fork choice rebuilt from a stored ledger and the stored blocks |
| RollbackAccounting | what happens to the transactions of disconnected blocks |
| Samples, ForkExample | a lawful set of rules and concrete reorganizations that break the natural statements |
| OrphanPool, OrphanBookkeeping | waiting blocks and parent requests; their invariants over all runs |
| ParentRequests, Reconnection | which parents are asked for; what is left waiting |
| OrderIndependence, OrderExample | delivery order does not matter; an instance with two rival branches |
| NodeRuns | whole runs of a node: chain, pool, buffers and storage tables together |
| NodeObject | the node as an object |
| Mempool, MempoolObject, PoolExample, BlockSelection, FeeMarket | the pool, a refusal that empties it, block assembly, fee statistics |
| BlockLocator, ParallelSync, PeerRequests | ancestor search, header-first download, reply matching |
| CompactRelay, Snapshot | two-round block relay, run-length coded snapshot transfer |
| ByteTable, StorageIndex, StorageHistory, StorageEvents, StorageObject | byte-ordered tables and the rebuilt indexes |
| CashPlanner | greedy denominations |

Findings where a natural statement about the code fails, each with its exact boundary:

- Greedy planning is not optimal for every selection of denominations the wallet offers
  (`SixFails`, `SixtyFails`); `BestIffCompatible` gives the exact condition on the selection.
- The finalized prefix can shrink when a reorganization moves to a shorter branch of more work
  (`ShorterBranchLowersBoundary`), and a later block can then rewrite what was final
  (`FinalizedBlockRewritten`); `FinalizedGrowsIff` gives the exact condition on the incoming block,
  and `NodeRunIsSafe` what holds along a run while the boundary does not fall.
- Fork choice is not always on disk: a best tip the node declines to move to stays in memory only and
  is gone after a restart (`RestartForgetsDeclined`, `DeclinedTipForgotten`); `ShelvedIff` gives the
  exact condition on the incoming block.
- A block can be left waiting for a parent that is there: below a block that enters fork choice in a
  step that fails (`HeirLeftWaiting`); `NothingLeftWaiting` excludes it from all other runs and
  `StalledLeavesWaiting` gives the exact condition for the delivered block.
- Events of a transaction that takes effect at the same position of two blocks overwrite each other
  in the transaction index (`RepeatedTransactionLosesEvent`); `EventLookup` gives the exact condition.
- A reorganization can leave older rollback issues untrue of the new chain: one reconfirmed in a block
  that is now disconnected (`ReconfirmationGoesStale`), and one requeued or in conflict whose
  transaction the new branch holds (`RequeuedGoesStale`); `OtherIssueLastsIff` gives the exact condition.
- A refused pool insert may already have evicted cheaper entries (`RefusalEmptiesPool`);
  `RefusalChangesNothingIff` gives the exact condition.
- A relayed compact block comes back without its proof nonce (`CompleteMatchesEveryId`,
  `TwoRoundRelay`).

## Model

| member | source | states |
|---|---|---|
| `ForkTree.BestTip` | node/src/p2p/mod.rs:1137-1144 | The chosen tip has the greatest work, the lower hash winning ties; there is one unless the tree is empty. |
| `ForkTree.BestTipIs` | node/src/p2p/mod.rs:1137-1144 | No block of the tree has more work than the best tip, and none with as much a lower hash. |
| `ForkTree.BestAfterInsert` | node/src/runtime/node/node.rs:307-324 | A newly inserted block either becomes the best tip or leaves the previous best tip in place. |
| `ForkTree.InsertGrows` | node/src/runtime/node/node.rs:307-317 | Inserting keeps the tree parent-closed with summed work, changes no existing branch, and the new block's branch is its parent's plus itself. |
| `ForkTree.ChainShape` | node/src/runtime/node/node.rs:743-755 | The branch to a block lists one block per height from the root, and every prefix of it is itself the branch to its last block. |
| `ForkTree.ChainLinks` | node/src/runtime/node/node.rs:794-820 | On a branch each block names the hash of the one before it. |
| `ForkTree.CommonAncestorIsHighest` | node/src/runtime/node/node.rs:863-875 | Searching one branch downward for hashes of the other finds the last block of their longest common prefix, and finds one always. |
| `ForkTree.SharedIffOnChain` | node/src/runtime/node/node.rs:863-875 | A block of one branch lies on the other exactly when it is within the common prefix. |
| `ForkTree.PruneKeeps` | node/src/runtime/node/node.rs:852-861 | Pruning keeps the tree well formed, keeps every branch through the finalized block, and changes no surviving branch. |
| `CoreCache.InsertMatches` | node/src/runtime/cache.rs:46-55 | Inserting the next block keeps height map, hash map and tip equal to the chain extended by it. |
| `CoreCache.FromChainMatches` | node/src/runtime/cache.rs:22-36 | A cache built from a chain holds exactly that chain under both keys and points at its end. |
| `ChainSafety.ExtendKeepsSound` | node/src/runtime/node/node.rs:325-354 | Extending the tip leaves ledger state equal to replaying the chain from genesis, cache and stored ledger matching it, and the node in sync. |
| `ChainSafety.ReorgKeepsSound` | node/src/runtime/node/node.rs:544-616 | A reorganization either leaves ledger, cache and stored ledger alone or moves all three to the best branch without dropping a block below the finality boundary; refused for finality it changes nothing. |
| `ChainSafety.StepIsSound` | node/src/runtime/node/node.rs:307-355 | Every step on a block with known parent, successful or not, leaves ledger, cache and storage equal to a replay from genesis; success leaves the node at the best tip exactly when it was there or the block took over; a missing staged ledger never occurs; a finality refusal changes the tree alone. |
| `StateRoots.AcceptedIff` | node/src/runtime/node/node.rs:307-355 | A new block gets into fork choice if and only if the rules accept its header, its parent's branch replays, it carries the state root that branch leads to, nonzero above genesis, and it executes where it extends the chain; a step succeeds only then and otherwise changes nothing. |
| `StateRoots.RefusedIff` | node/src/runtime/node/node.rs:512-542 | A step is refused for a missing parent exactly when fork choice lacks it, by the rules exactly when they reject the header, for a wrong state root exactly when the parent's branch leads to another root or the root is zero above genesis, and as a duplicate exactly when all is in order but the block is there already. |
| `StateRoots.FinalityRefusedIff` | node/src/runtime/node/node.rs:544-572 | A step is refused for finality exactly when its block would become the best tip but moving to it would disconnect a finalized block. |
| `StateRoots.RunCommits` | node/src/runtime/node/node.rs:512-542 | Over any run of block steps, every block of the active chain that was not there at the start carries the state root of the chain below it. |
| `ChainSafety.FinalityHolds` | node/src/runtime/node/node.rs:544-572 | No step changes a block at or below the finality boundary it started with. |
| `ChainSafety.StepChain` | node/src/runtime/node/node.rs:307-355 | After a step the active chain is the branch to the new block if the node switches to it, and otherwise the old chain or the old chain plus the block. |
| `ChainSafety.FinalizedGrowsIff` | node/src/runtime/node/node.rs:544-572 | The finalized prefix carries over a step unless the incoming block makes the node switch branches and the block's own boundary lies below the present one; exactly then it shrinks. |
| `ForkExample.ShorterBranchLowersBoundary` | node/src/runtime/node/node.rs:544-616 | A sound node whose finalized prefix loses a block when a shorter branch of more work takes over. |
| `ForkExample.FinalizedBlockRewritten` | node/src/runtime/node/node.rs:544-616 | Two blocks after the boundary dropped, a sound node's chain no longer holds a block that was finalized at the start. |
| `ChainSafety.RunKeepsFinalized` | node/src/runtime/node/node.rs:318-324 | Over any run of block steps the node stays sound; while the boundary does not fall below where it started no block finalized then is rewritten; and while the tip never drops the finalized prefix only grows. |
| `ChainSafety.PrefixSurvives` | node/src/runtime/node/node.rs:544-572 | Blocks once at or below the boundary stay on the active chain for as long as the boundary does not fall below them. |
| `ChainSafety.PruneExact` | node/src/runtime/node/node.rs:852-861 | Pruning keeps exactly the finalized part of the active chain and the blocks whose branch runs through the finalized block. |
| `RollbackAccounting.DisconnectedAboveAncestor` | node/src/runtime/node/node.rs:573-608 | The blocks a reorganization disconnects are exactly those of the old chain above the highest common ancestor. |
| `RollbackAccounting.RetryResolves` | node/src/runtime/node/node.rs:702-741 | A retry reconfirms a transaction the chain holds at its place and leaves the pool alone; any other is requeued exactly when the pool then answers for it, which for one it did not know before means that it was added, and is in conflict otherwise; attempts count up and no other issue changes. |
| `RollbackAccounting.RequeuedIffTaken` | node/src/runtime/node/node.rs:729-737 | On a consistent pool that holds nothing else under its hash, a transaction the chain does not hold is requeued if and only if its size and outputs are admissible and its signer state is taken in the pool afterwards, and in conflict otherwise; if the signer state was free, the pool holds the transaction. |
| `RollbackAccounting.RecoverTxsTraced` | node/src/runtime/node/node.rs:573-608 | Recovering a block resolves its transactions one by one, each on what the ones before it left and under an issue that names its place, up to the end or the first whose position or proof fails. |
| `RollbackAccounting.OwnStepStands` | node/src/runtime/node/node.rs:573-608 | What a transaction's own step decided is what its issue says at the end, unless the block repeats the transaction. |
| `RollbackAccounting.RecoverBlocksSettles` | node/src/runtime/node/node.rs:573-608 | Recovering the losing blocks settles an issue for every transaction of every dropped block and writes no others. |
| `RollbackAccounting.ReorgAccountsForAll` | node/src/runtime/node/node.rs:552-608 | After a completed reorganization every transaction of every disconnected block has an issue, keyed by block and transaction, that is reconfirmed at its real place in the new chain, requeued or in conflict, never merely detected; issues of other blocks are untouched. |
| `RollbackAccounting.ReorgTraced` | node/src/runtime/node/node.rs:573-616 | A completed reorganization takes pool and issues through exactly such a recovery of every disconnected block in order, passing over the blocks that stay. |
| `RollbackAccounting.ReorgNoted` | node/src/runtime/node/node.rs:552-616 | A completed reorganization files the headers of the branch it left and of the one it took with the block they parted at, and counts itself. |
| `RollbackAccounting.StepConfirms` | node/src/runtime/node/node.rs:325-354 | A step that extends the chain leaves exactly the pool entries the block does not carry and marks exactly the open issues of its transactions; a step that leaves the chain in place changes neither. |
| `RollbackAccounting.OtherIssueLastsIff` | node/src/runtime/node/node.rs:573-608 | After a completed reorganization an issue of a block that was not disconnected is still true of the chain if and only if it was reconfirmed at or below the common ancestor, or was requeued or in conflict and the connected blocks do not hold its transaction. |
| `ForkExample.ReconfirmationGoesStale` | node/src/runtime/node/node.rs:544-616 | A sound node whose completed reorganization disconnects the block an issue was reconfirmed in, so the issue is no longer true. |
| `ForkExample.RequeuedGoesStale` | node/src/runtime/node/node.rs:544-616 | A sound node whose completed reorganization connects the transaction of a requeued issue, so the issue is no longer true. |
| `OrphanPool.Reconnect` | node/src/runtime/node/node.rs:485-510 | Twice the waiting blocks plus the parents still to visit never grows while children are reconnected, even when a child is cached again. |
| `OrphanPool.CacheAddsOne` | node/src/runtime/node/node.rs:357-392 | Caching a block, with the pruning and eviction it triggers, adds at most one waiting block. |
| `OrphanBookkeeping.UnlistExact` | node/src/runtime/node/node.rs:456-468 | Unlisting a hash removes it from every parent's list, touches no other entry and leaves no empty list. |
| `OrphanBookkeeping.PruneExact` | node/src/runtime/node/node.rs:470-483 | Expiry leaves waiting exactly the blocks that are neither too old nor too far ahead. |
| `OrphanBookkeeping.CacheKeepsTidy` | node/src/runtime/node/node.rs:357-392 | Caching keeps every waiting block listed once under its own parent, within the limit, and the request structures aligned. |
| `OrphanBookkeeping.DrainKeepsAligned` | node/src/runtime/node/node.rs:414-437 | A drain hands out exactly the due hashes, keeps exactly the others, and leaves deque, set and retry map naming the same hashes without repeats. |
| `OrphanBookkeeping.DrainInOrder` | node/src/runtime/node/node.rs:418-437 | A drain keeps the order of the queue in what it hands out and in what it leaves. |
| `OrphanBookkeeping.ReconnectAllKeepsKept` | node/src/runtime/node/node.rs:485-510 | The reconnect worklist keeps all bookkeeping invariants. |
| `OrphanBookkeeping.BookkeepingHolds` | node/src/runtime/node/node.rs:357-510 | Over every run of block arrivals, drains, retries and expiries: each orphan is listed exactly once under its own parent, no list is empty or dangling, at most 1024 orphans wait, and the three request structures agree. |
| `ParentRequests.CacheAsks` | node/src/runtime/node/node.rs:357-399 | A block that starts waiting has exactly its parent asked for, due at once, if fork choice lacks it, and goes into the buffer of blocks still fresh and in reach, from which the lowest hash made way if it was full; a block that does not wait changes no request. |
| `ParentRequests.RetryAsks` | node/src/runtime/node/node.rs:439-444 | A retry asks for the hash again, due in five seconds unless it was due before, and not once fork choice has it. |
| `ParentRequests.WaitingAreAskedFor` | node/src/runtime/node/node.rs:357-444 | Over every run from an empty buffer, the parent of every waiting block is queued, or was handed out by a drain and has not been queued again since. |
| `ParentRequests.DeliveryExpires` | node/src/runtime/node/node.rs:282-305 | After every delivery no block has been waiting for more than ten minutes. |
| `Reconnection.DeliveryConnects` | node/src/runtime/node/node.rs:282-305 | A delivery none of whose steps fails after its block entered fork choice leaves no block waiting for a parent that fork choice has. |
| `Reconnection.NothingLeftWaiting` | node/src/runtime/node/node.rs:485-510 | Over every run in which no step fails after its block entered fork choice, no block waits for a parent that fork choice has. |
| `Reconnection.StalledLeavesWaiting` | node/src/runtime/node/node.rs:282-305 | If the delivered block's own step fails that way, this survives if and only if no fresh block was waiting for it. |
| `ForkExample.HeirLeftWaiting` | node/src/runtime/node/node.rs:282-305 | A node with a block that is left waiting although its parent arrives and enters fork choice. |
| `OrderIndependence.ValidBlockJoins` | node/src/runtime/node/node.rs:307-355 | A valid block whose parent is known is always accepted, whatever branch it is on, and adds exactly itself to fork choice. |
| `OrderIndependence.LoopAbsorbs` | node/src/runtime/node/node.rs:485-510 | The reconnect loop leaves no waiting block whose parent is in the tree, and loses none. |
| `OrderIndependence.DeliveryAbsorbs` | node/src/runtime/node/node.rs:282-305 | Delivering a block of a valid tree that hits no orphan limit, new or repeated, adds it to the known blocks and leaves nothing connectable waiting. |
| `OrderIndependence.DeliveryCompletes` | node/src/runtime/node/node.rs:282-392 | When all blocks of a valid tree of any size were delivered, in any order, over any time and with repetitions, and no orphan limit was hit along the run, fork choice is exactly the tree, no orphan is left, and the active ledger is the replay of the best branch. |
| `OrderIndependence.OrderDoesNotMatter` | node/src/runtime/node/node.rs:282-510 | Any two such deliveries end with the same fork choice, ledger and cache. |
| `OrderIndependence.SmallTreeKeepsLimits` | node/src/runtime/node/node.rs:357-392 | A tree that fits the orphan buffer and height window, delivered within the age limit in whatever order, hits no orphan limit. |
| `OrderIndependence.SmallTreeOrderDoesNotMatter` | node/src/runtime/node/node.rs:282-510 | For such a tree any two complete timely deliveries end with fork choice equal to the tree and the same ledger and cache. |
| `OrderIndependence.ParentsFirstKeepsLimits` | node/src/runtime/node/node.rs:282-392 | Delivery with every parent before its children hits no orphan limit, however large the tree and however long it takes. |
| `OrderExample.BothOrdersReachTop` | node/src/runtime/node/node.rs:282-510 | The premises can be met: for two rival branches, an order that switches branches and an order with a repeated block waiting for its parent both end at the same tip. |
| `NodeRuns.HandleIsFeed` | node/src/runtime/node/node.rs:282-510 | Whatever an event sets off, reconnecting orphans included, it moves the chain engine exactly as the sequence of block steps it consists of, up to the pool. |
| `NodeRuns.IntakeAnswers` | node/src/runtime/node/node.rs:282-305 | Block intake reports success for a block applied, kept waiting or known already, and otherwise the step's reason; exactly the reported failures are counted. |
| `NodeRuns.NodeRunIsSafe` | node/src/runtime/node/node.rs:265-510 | After every run of deliveries, drains, retries, submissions and expiries: the ledger, cache and stored ledger are the replay of the active chain, all pool indexes agree, all orphan and request bookkeeping holds, and while the boundary does not fall below where it started no block finalized then is rewritten. |
| `NodeRuns.NodeRunCommits` | node/src/runtime/node/node.rs:282-542 | After every run of events, every block of the active chain that was not in fork choice at the start carries the state root of the chain below it. |
| `NodeRuns.LookupsFollowActiveChain` | node/src/runtime/storage/storage.rs:761-838 | After every run whose ledgers the store accepts, lookups by transaction, address and miner equal a search of the node's active chain, with nothing left of abandoned branches. |
| `NodeRuns.EventLookupsFollowActiveChain` | node/src/runtime/storage/storage.rs:313-409 | After every such run, event lookups by block and address return the active ledger's events in chain order, and by transaction exactly when none clash. |
| `Startup.UprightGrows` | node/src/runtime/node/node.rs:135-168 | Inserting the blocks of a chain with linked, distinct hashes one by one succeeds and builds a tree of exactly those blocks whose branch to the tip is the chain. |
| `Startup.StartIsSound` | node/src/runtime/node/node.rs:135-168 | A core built from a ledger that replays from its genesis accounts is sound and at its best tip. |
| `Restart.IndexIsClosure` | node/src/runtime/node/node.rs:822-846 | The retry loop over stored blocks ends with the parent-connected closure: everything that connects is in fork choice, and every closed set that holds the starting tree holds the result. |
| `Restart.IndexRestoresShelf` | node/src/runtime/node/node.rs:822-846 | If stored blocks come with their parents, indexing them on top of any part of them ends with a well-formed tree of exactly the stored blocks. |
| `Restart.RestartRestores` | node/src/runtime/node/node.rs:227-262 | A node whose fork choice is on disk comes up again sound, on the same ledger, with every block of its fork choice that pruning would keep, and otherwise exactly the stored blocks on or through the finalized chain. |
| `Restart.ShelvedIff` | node/src/runtime/node/node.rs:307-355 | A step keeps all of fork choice on disk if and only if it does not decline to move to a best tip that is not stored yet. |
| `Restart.RestartAfterRun` | node/src/runtime/node/node.rs:227-262 | After every run that declines no best tip and meets no hash collision, a restart brings back the ledger and all of fork choice that pruning would keep. |
| `Restart.RestartForgetsDeclined` | node/src/runtime/node/node.rs:544-572 | A declined best tip that was not stored is the best tip of fork choice before a restart and absent from it afterwards. |
| `ForkExample.DeclinedTipForgotten` | node/src/runtime/node/node.rs:544-572 | The premises of forgetting can be met: a branch of more work that forks off below the boundary. |
| `NodeObject.Node.WithGenesisAccounts` | node/src/runtime/node/node.rs:135-168 | Start-up fails exactly when some block cannot be inserted into fork choice; from a ledger that replays and is the stored one it succeeds with a sound node at its best tip and consistent empty buffers. |
| `NodeObject.Node.InitOrLoad` | node/src/runtime/node/node.rs:257-262 | Loading fails exactly when a block of the stored chain cannot be inserted, and otherwise yields the modelled restarted node with consistent empty buffers. |
| `NodeObject.Node.IndexStoredBlocks` | node/src/runtime/node/node.rs:822-850 | The retry loop terminates and indexes the stored blocks as modelled, then prunes. |
| `NodeObject.Node.QueueMissingParentRequestAt` | node/src/runtime/node/node.rs:401-412 | Queues a hash once, and not at all if fork choice knows it, in all three structures together. |
| `NodeObject.Node.RetryMissingParentRequest` | node/src/runtime/node/node.rs:439-444 | Queues the hash again for later, changing nothing else. |
| `NodeObject.Node.DrainMissingParentRequests` | node/src/runtime/node/node.rs:418-437 | The loop splits the queue by due time, keeping order on both sides and the structures aligned. |
| `NodeObject.Node.RemoveOrphan` | node/src/runtime/node/node.rs:451-468 | The hash is gone from the buffer and from every parent's list, every other entry stays, no empty list remains, and the listing invariant is kept. |
| `NodeObject.Node.PruneExpiredOrphans` | node/src/runtime/node/node.rs:470-483 | The waiting blocks left are exactly those neither too old nor too far ahead, and the listing invariant is kept. |
| `NodeObject.Node.CacheOrphanBlock` | node/src/runtime/node/node.rs:357-392 | Keeps a block waiting after pruning, evicting the lowest hash when full, and asks for exactly its parent; ignores known, genesis and far-ahead blocks without a request. |
| `NodeObject.Node.LedgerForBranchTip` | node/src/runtime/node/node.rs:794-820 | The block-by-block loop yields the replay of the branch from the genesis accounts, or its first error. |
| `NodeObject.Node.FindCommonAncestor` | node/src/runtime/node/node.rs:863-875 | The set-and-scan loop returns the first hash of the new branch, from its tip down, that is on the old one. |
| `NodeObject.Node.CacheFromLedger` | node/src/runtime/cache.rs:22-36 | The loop builds the cache of the chain. |
| `NodeObject.Node.CanonicalTransactionLocation` | node/src/runtime/node/node.rs:757-769 | Returns the height of the block of the active chain that holds the transaction, if any. |
| `NodeObject.Node.RetryRollbackIssueRecord` | node/src/runtime/node/node.rs:702-741 | Settles one issue against the active chain and the pool in the sense of `RetryResolves`, changing nothing else in storage. |
| `NodeObject.Node.RecoverLosingBlocks` | node/src/runtime/node/node.rs:573-608 | The nested loops file and settle issues for the dropped blocks in order, stopping at the first failure. |
| `NodeObject.Node.PruneFinalizedForks` | node/src/runtime/node/node.rs:852-861 | Fork choice keeps exactly the finalized part of the active chain and the blocks whose branch runs through the finalized block; the active chain stays a branch of the tree and a node at its best tip stays there. |
| `NodeObject.Node.ReorgToBestTip` | node/src/runtime/node/node.rs:544-616 | The method performs the modelled reorganization, every exit included. |
| `NodeObject.Node.ValidateBlockState` | node/src/runtime/node/node.rs:512-542 | On a sound node that knows the parent, the check passes if and only if the parent's ledger exists, its root after the block is the block's nonzero root and an extension executes; a wrong root is reported exactly when the roots differ or the root is zero. |
| `NodeObject.Node.MarkRollbackIssuesReconfirmed` | node/src/runtime/node/node.rs:771-792 | The loop over a block's transactions marks exactly the stored issues of those transactions as reconfirmed there. |
| `NodeObject.Node.ApplyKnownParentBlock` | node/src/runtime/node/node.rs:307-355 | The method performs the modelled step, keeps its guarantee for every outcome, and accepts exactly the acceptable blocks. |
| `NodeObject.Node.ExtendActiveChain` | node/src/runtime/node/node.rs:325-354 | Ledger, genesis accounts, pool, storage, cache and fork choice move together to the extended chain; no transaction of the block stays in the pool and its open issues are reconfirmed there. |
| `NodeObject.Node.ReconnectChildren` | node/src/runtime/node/node.rs:494-507 | The loop over children applies each, collects those that connected, and keeps the node sound. |
| `NodeObject.Node.ProcessOrphansForParent` | node/src/runtime/node/node.rs:485-510 | The worklist loop terminates and performs the modelled reconnection, keeping the node sound. |
| `NodeObject.Node.ApplyBlock` | node/src/runtime/node/node.rs:282-305 | Block intake keeps the node sound and all orphan and request indexes in agreement, whatever arrives. |
| `Mempool.RemoveKeepsConsistent` | node/src/runtime/mempool/extension.rs:207-229 | Removing an entry keeps signer-state map, coin reservations, timestamps and byte total in exact agreement with the pool. |
| `Mempool.RateIsFloor` | node/src/runtime/mempool/extension.rs:455-461 | The rate is the whole number of units per virtual byte that the capped bounty covers; a transaction of no size outbids all. |
| `Mempool.CandidateIsLeast` | node/src/runtime/mempool/extension.rs:153-167 | The eviction candidate is least by rate, then insertion time, then hash. |
| `Mempool.EvictionOrderIs` | node/src/runtime/mempool/extension.rs:153-167 | The eviction order lists every entry once: lower rate first, then earlier insertion, then lower hash. |
| `Mempool.EvictionIsCheapestPrefix` | node/src/runtime/mempool/extension.rs:133-151 | Making room removes the shortest sufficient prefix of that order, each entry paying strictly less than the newcomer, and fails exactly when the prefix meets an entry paying as much or runs out. |
| `Mempool.InsertDropsThenAdds` | node/src/runtime/mempool/extension.rs:80-131 | An insert refused early drops nothing; any other first drops the shortest sufficient run of cheapest entries paying less; a refusal changes nothing else, and an acceptance adds exactly the newcomer, with room, a free signer state and free coins. |
| `Mempool.InsertAnswers` | node/src/runtime/mempool/extension.rs:80-131 | What an insert answers, case by case after the evictions: each refusal exactly when, and acceptance exactly when there is room, no coin is taken and the pool with the newcomer replays at the next height. |
| `Mempool.HeldIff` | node/src/runtime/mempool/extension.rs:80-131 | After inserting a transaction of admissible size and outputs, its hash or signer state is in the pool exactly if it was accepted or answered as a duplicate; a duplicate is one known before and changes nothing. |
| `Mempool.PendingIsLined` | node/src/runtime/mempool/extension.rs:111-121 | Admission replays every pending transaction once, by signer and then hash. |
| `Mempool.RoomIff` | node/src/runtime/mempool/extension.rs:133-151 | There is room exactly when the pool with the newcomer is within both limits. |
| `Mempool.RefusalChangesNothingIff` | node/src/runtime/mempool/extension.rs:80-131 | A refused insert leaves the pool unchanged if and only if an early check failed, there was room, the pool was empty, or the newcomer pays no more than the cheapest entry. |
| `PoolExample.RefusalEmptiesPool` | node/src/runtime/mempool/extension.rs:102-121 | A consistent full pool that a newcomer, then refused by the ledger, empties. |
| `Mempool.InsertKeepsConsistent` | node/src/runtime/mempool/extension.rs:80-131 | An insert keeps all five indexes in agreement and both limits, whether it succeeds or fails. |
| `Mempool.ExpireExact` | node/src/runtime/mempool/extension.rs:231-248 | Expiry keeps exactly the entries that are not expired, and all of them when no lifetime is set. |
| `Mempool.LivesItsTime` | node/src/runtime/mempool/extension.rs:231-248 | A transaction accepted at some time is removed by a later expiry exactly when a lifetime is set and has passed since. |
| `Mempool.ConfirmExact` | node/src/runtime/mempool/extension.rs:386-397 | Confirming a block keeps exactly the entries whose hash the block does not carry. |
| `Mempool.PoolAlwaysConsistent` | node/src/runtime/mempool/extension.rs:80-248 | From an empty pool, after every sequence of insert, remove, confirm and expire: signer states one to one, reservations exactly the redeemed coins with one owner each, timestamps exactly the pool, byte total exact, limits kept. |
| `MempoolObject.Mempool.constructor` | node/src/runtime/mempool/extension.rs:65-74 | A new pool is empty and consistent. |
| `MempoolObject.Mempool.Remove` | node/src/runtime/mempool/extension.rs:207-229 | Removes one entry from all indexes together and returns it. |
| `MempoolObject.Mempool.ReleaseCoins` | node/src/runtime/mempool/extension.rs:207-229 | The loop frees exactly the listed coins still reserved for that transaction. |
| `MempoolObject.Mempool.EvictForCapacity` | node/src/runtime/mempool/extension.rs:133-151 | The loop terminates and evicts as modelled, keeping the indexes in agreement. |
| `MempoolObject.Mempool.InsertValidated` | node/src/runtime/mempool/extension.rs:80-131 | Admission on the object: on success the transaction is in the pool, on failure nothing was added, and the indexes agree either way. |
| `MempoolObject.Mempool.PendingReplays` | node/src/runtime/mempool/extension.rs:111-121 | Decides whether the pool with the newcomer, ordered by signer and hash, replays from the ledger. |
| `MempoolObject.Mempool.EvictByPolicy` | node/src/runtime/mempool/extension.rs:231-248 | The surviving transactions are exactly those not expired, and all indexes stay in agreement. |
| `MempoolObject.Mempool.RemoveConfirmed` | node/src/runtime/mempool/extension.rs:386-397 | The surviving transactions are exactly those the block does not carry, and all indexes stay in agreement. |
| `MempoolObject.Mempool.AppendSelectedToBlock` | node/src/runtime/mempool/extension.rs:359-384 | What is offered is exactly the selection by payment within the room left; of it a subsequence is appended, a block within size and weight limits stays within them, and the header commits to the final body. |
| `BlockSelection.SelectForBlock` | node/src/runtime/mempool/extension.rs:311-357 | The nested deferral loop equals one greedy pass, so its result is chosen in the sense of `GreedyChooses`. |
| `BlockSelection.SelectionIsLined` | node/src/runtime/mempool/extension.rs:319-327 | The order holds every pool transaction once, higher rate first, then lower signer, then lower hash. |
| `BlockSelection.GreedyChooses` | node/src/runtime/mempool/extension.rs:311-357 | The greedy pass takes a pool transaction exactly when fewer than the limit better ones were taken and it is eligible and applies to the state those lead to. |
| `BlockSelection.GreedyReplays` | node/src/runtime/mempool/extension.rs:311-357 | The selection has at most `limit` entries, all of the pool and at or above the minimum rate, and replays from the ledger in order. |
| `BlockSelection.GreedySkipsForCause` | node/src/runtime/mempool/extension.rs:330-352 | Below the limit the next transaction joins exactly when it is eligible and applies to the state the selection reached. |
| `BlockSelection.AppendSelected` | node/src/runtime/mempool/extension.rs:359-384 | Assembly appends the packed transactions, keeps the nonce, commits to the new body in the header, and keeps a block within limits within them. |
| `BlockSelection.PackedIsSubsequence` | node/src/runtime/mempool/extension.rs:367-382 | Packing keeps the selection's order. |
| `BlockSelection.PackedForCause` | node/src/runtime/mempool/extension.rs:367-382 | The next selected transaction is appended exactly when the block with all that was packed before and it is within the size and weight limits. |
| `FeeMarket.WeightedPercentileRate` | node/src/runtime/mempool/extension.rs:430-453 | The percentile is the greatest rate such that entries at or above it hold at least the ceiling of that share of the bytes, the total capped at the machine word; the highest rate if all sizes are zero; absent only for an empty pool. |
| `FeeMarket.TargetIsCeiling` | node/src/runtime/mempool/extension.rs:441-445 | The percentile target is the share of the total rounded up, and at least one. |
| `FeeMarket.WeightedClearingRate` | node/src/runtime/mempool/extension.rs:414-428 | The same threshold for a full block, or the lowest rate if the pool fits into one; saturating sums do not disturb it. |
| `FeeMarket.ThresholdFalls` | node/src/runtime/mempool/extension.rs:430-453 | The threshold falls as the target rises and is unique for a target. |
| `FeeMarket.ThresholdIgnoresOrder` | node/src/runtime/mempool/extension.rs:414-453 | Reordering the entries, ties included, does not change a threshold. |
| `FeeMarket.OccupancyRises` | node/src/runtime/mempool/extension.rs:407-412 | Occupancy in basis points rises with use and stays within 10000. |
| `FeeMarket.OccupancyIs` | node/src/runtime/mempool/extension.rs:407-412 | Occupancy is the share used in basis points rounded down, and 10000 from capacity on. |
| `FeeMarket.PressureBounded` | node/src/runtime/mempool/extension.rs:261-309 | The pressure rate rises with occupancy and lies between the base rate and nine times it. |
| `FeeMarket.PressureIs` | node/src/runtime/mempool/extension.rs:261-268 | The premium over the base rate is the occupancy's share of eight times the base, rounded down and capped. |
| `FeeMarket.FeeMarketSnapshot` | node/src/runtime/mempool/extension.rs:261-309 | The recommendation is the greatest of base, pressure, clearing and 75th percentile rates; clearing is the threshold for a full block, or the lowest rate if the pool fits into one; percentiles are the thresholds for their shares and fall with rank; an empty pool reports the base rate throughout. |
| `FeeMarket.PoolEntriesExact` | node/src/runtime/mempool/extension.rs:269-278 | The statistics are over the pool's own transactions, each once, with its rate and virtual size. |
| `BlockLocator.BlockLocator` | node/src/p2p/mod.rs:1437-1472 | The entries are hashes of present headers at strictly falling heights, at most 33, from the tip to genesis whenever those are present; with all headers they are exactly the hashes at the specified heights; nothing without a tip. |
| `BlockLocator.HeightsDescend` | node/src/p2p/mod.rs:1437-1472 | The heights strictly decrease from tip to genesis in at most 33 entries. |
| `BlockLocator.LocatorCoverage` | node/src/p2p/mod.rs:1437-1472 | For a highest shared block at depth d the first known entry is at depth exactly d up to 10, at most 2d - 10 up to 8 + 2^22, and genesis beyond. |
| `BlockLocator.PeerFindsAncestor` | node/src/runtime/network/handler.rs:67-77 | A peer that indexes exactly the blocks up to depth d answers the locator with a shared block within those bounds. |
| `ParallelSync.RequestHeaders` | node/src/p2p/mod.rs:1370-1421 | Headers are accepted exactly when a run of answers, nonempty and linked hash by hash from the ancestor, reaches the target; they are then what the peer sent. No answers reach the greatest height of all. |
| `ParallelSync.CheckBatch` | node/src/p2p/mod.rs:1400-1417 | A batch passes exactly when it continues the headers so far by height and hash. |
| `ParallelSync.Available` | node/src/p2p/mod.rs:1337-1346 | Returns every candidate that reaches the target and no other, best first. |
| `ParallelSync.PlanRanges` | node/src/p2p/mod.rs:1331-1368 | The ranges tile start to target without gap or overlap in full batches, each with its slice of headers, dealt in turn to the reaching candidates best first; there are none exactly when no candidate reaches the target. |
| `ParallelSync.FetchBlocks` | node/src/p2p/mod.rs:1195-1259 | Whatever the peer sends, accepted blocks carry exactly the expected headers, and its blocks are accepted exactly when its answers add up to them. |
| `ParallelSync.CheckBlocks` | node/src/p2p/mod.rs:1234-1256 | A batch of blocks passes exactly when it continues the expected headers at the expected heights. |
| `ParallelSync.FetchRangeWithRetries` | node/src/p2p/mod.rs:1269-1329 | A range is fetched exactly when some asked peer provides its blocks, and then they match the range's headers. |
| `ParallelSync.FetchAll` | node/src/p2p/mod.rs:763-785 | All ranges are fetched exactly when each can be obtained from a peer asked for it. |
| `ParallelSync.Collect` | node/src/p2p/mod.rs:774-785 | Keying results by start height loses and invents none. |
| `ParallelSync.Assemble` | node/src/p2p/mod.rs:792-815 | Taking the downloads in key order yields the header chain once each and in height order, and the height check passes. |
| `ParallelSync.PickLeader` | node/src/p2p/mod.rs:719-731 | No candidate has more work than the leader or as much and a lower hash, and none after it as good a tip. |
| `ParallelSync.SyncFromPeers` | node/src/p2p/mod.rs:682-833 | Whatever heights the candidates announce, the target is that of a leader no other candidate beats, cut to the window. Whichever peers serve the ranges and in whatever order workers finish, success hands over exactly the blocks of the leader's hash-linked headers from ancestor to target; headers fail exactly when the answers do not link up; any other failure is a download failure and means no candidate was honest; the height-mismatch error is unreachable. |
| `PeerRequests.PeerConnection.constructor` | node/src/p2p/mod.rs:179-194 | A connection starts with id one and no kept replies. |
| `PeerRequests.PeerConnection.Request` | node/src/p2p/mod.rs:215-263 | For every interleaving of envelopes: success returns and forgets the newest reply carrying the request's own id; failing in a nested exchange keeps such a reply; every other failure means none came; budget and send failures occur exactly when their cause does and read nothing; a stop, timeout or hang-up has its visible cause; every reply to another request outside the nested ones is kept for it. |
| `PeerRequests.PeerConnection.AwaitReply` | node/src/p2p/mod.rs:230-262 | The wait loop delivers, keeps or lacks the reply to its own id as above, for every interleaving. |
| `PeerRequests.PeerConnection.HandleUnsolicited` | node/src/p2p/mod.rs:302-348 | Handling an unsolicited message, with any nested requests, keeps the newest reply for every request that was already waiting. |
| `PeerRequests.NewestCarriesId` | node/src/p2p/mod.rs:248-256 | What is delivered was kept or read under that very id. |
| `PeerRequests.NoneNewest` | node/src/p2p/mod.rs:230-256 | Nothing to deliver means no reply with that id was kept or read. |
| `PeerRequests.NewestIsLast` | node/src/p2p/mod.rs:248-256 | The newest reply is the last one received under the id, or else the one kept before. |
| `PeerRequests.RepliesAre` | node/src/p2p/mod.rs:245-256 | The replies heard are exactly the envelopes read that answer a request, each under the id it names. |
| `CompactRelay.Reconstruct` | node/src/runtime/network/compact.rs:93-178 | The loops compute the modelled reconstruction, every error included. |
| `CompactRelay.ReconstructAnswers` | node/src/runtime/network/compact.rs:93-178 | The answer to a compact block, case by case: too many items, a repeated short id, the first supplied item out of order with its fault, or two pool transactions with one id are refused; otherwise exactly the open positions are reported ascending, or each position is filled by its supplied transaction or else the pool's. |
| `CompactRelay.AnswerMissing` | node/src/runtime/network/handler.rs:285-328 | The loop answers with the cached block's transactions at the asked positions, or refuses. |
| `CompactRelay.ServesExactly` | node/src/runtime/network/handler.rs:285-328 | A request for missing transactions is answered in full, position by position, exactly when it is within the limit, repeats nothing, names positions of the block, and the block is there. |
| `CompactRelay.CompleteMatchesEveryId` | node/src/runtime/network/compact.rs:93-178 | With no assumption on short ids, a completed block keeps header, allocations and coinbase, matches every short id position by position, and has nonce zero. |
| `CompactRelay.AbsentMeans` | node/src/runtime/network/compact.rs:155-165 | The reported positions are exactly those whose transaction the pool lacks, ascending. |
| `CompactRelay.TwoRoundRelay` | node/src/runtime/network/compact.rs:61-178 | If short ids do not collide on pool and block, round one completes or reports exactly the absent positions, the answer passes every check, and round two on the same pool returns the original header and body. |
| `Snapshot.CompressChunk` | node/src/snapshot.rs:17-38 | The nested loops compute the run-length pairs, kept only if shorter; the result never exceeds the input. |
| `Snapshot.DecompressChunk` | node/src/snapshot.rs:40-73 | A chunk is accepted exactly when it is well formed and expands to the stated length, and then yields its payload. |
| `Snapshot.CompressionRoundTrips` | node/src/snapshot.rs:17-73 | Decompression undoes compression for every chunk up to 4 MiB, and compression never expands. |
| `Snapshot.EncodeIsShortest` | node/src/snapshot.rs:17-38 | No count-value pairs that expand to a chunk are fewer than the encoder's. |
| `Snapshot.CompressedIff` | node/src/snapshot.rs:17-38 | A chunk goes out compressed if and only if some run-length encoding of it is shorter than the chunk. |
| `Snapshot.ServedChunkAccepted` | node/src/runtime/network/handler.rs:118-153 | Every chunk the server produces passes all client checks and carries the bytes at its offset. |
| `Snapshot.ServesExactly` | node/src/runtime/network/handler.rs:118-153 | A chunk request is answered exactly when it asks for the current tip, a length within bounds and an offset inside the snapshot, with the bytes from there. |
| `Snapshot.DownloadSnapshot` | node/src/p2p/mod.rs:1052-1091 | The loop terminates; a bad manifest is refused exactly when; a refused chunk means some answer was bad; an accepted snapshot has the promised size and content hash, and against a server with an unchanged tip it is exactly the served bytes. |
| `ByteTable.BigEndianOrdered` | node/src/runtime/storage/storage.rs:1138-1140 | Byte order of big-endian keys is numeric order. |
| `ByteTable.PrefixRangeEnds` | node/src/runtime/storage/storage.rs:574-582 | Keys with a prefix are contiguous: after the first key past the range none has it. |
| `ByteTable.FillWithin` | node/src/runtime/storage/storage.rs:567-589 | A prefix scan sees the rows written under its prefix as if nothing else had been written. |
| `ByteTable.Scan` | node/src/runtime/storage/storage.rs:574-582 | Skipping lower keys and stopping at the first key past the prefix returns exactly the rows with it, in key order. |
| `StorageIndex.TxLookup` | node/src/runtime/storage/storage.rs:272-311 | The transaction index answers as a backward search of the saved chain. |
| `StorageIndex.LastInChainFinds` | node/src/runtime/storage/storage.rs:505-534 | That search finds a hash exactly when some block carries it, and then a transaction with that hash at the reported place. |
| `StorageIndex.LoadTransactionFinds` | node/src/runtime/storage/storage.rs:505-534 | After a save, loading by hash never reports corruption and returns the transaction and place found by searching the chain. |
| `StorageHistory.AddressHistory` | node/src/runtime/storage/storage.rs:567-589 | Scanning under an address returns its history (`HistoryMeans`) in chain order, with nothing of other addresses. |
| `StorageHistory.HistoryMeans` | node/src/runtime/storage/storage.rs:272-311 | Every entry of an address's history names one of its transactions at its real place, sent exactly if the address signed and otherwise a recipient; every transaction it signed or was paid by has an entry. |
| `StorageHistory.MinerHistory` | node/src/runtime/storage/storage.rs:591-611 | Scanning under a miner returns exactly the chain's coinbase blocks of that miner, by rising height. |
| `StorageHistory.MinedMeans` | node/src/runtime/storage/storage.rs:251-270 | A miner's entries are exactly the chain's coinbase blocks that name the miner, by their own height and hash. |
| `StorageEvents.SortRestores` | node/src/runtime/storage/storage.rs:407-408 | Sorting any arrangement of events by height and position restores chain order. |
| `StorageEvents.FiledUnder` | node/src/runtime/storage/storage.rs:313-348 | An event is filed under its block, its transaction if it has one, and every address it concerns, each once. |
| `StorageEvents.SelectedMeans` | node/src/runtime/storage/storage.rs:383-409 | The events selected by a target are exactly those filed under it, in chain order. |
| `StorageEvents.FillKeeps` | node/src/runtime/storage/storage.rs:313-348 | A table keeps all rows written to it if and only if no two share a key. |
| `StorageEvents.EventLookup` | node/src/runtime/storage/storage.rs:383-409 | A lookup never fails, and returns exactly the events filed under its target in chain order if and only if no two of them share a key. |
| `StorageEvents.AddressLookup` | node/src/runtime/storage/storage.rs:376-381 | Lookups by address return every event of the address, in chain order. |
| `StorageEvents.BlockLookup` | node/src/runtime/storage/storage.rs:362-367 | Lookups by block return every event of the block, in order. |
| `StorageEvents.RepeatedTransactionLosesEvent` | node/src/runtime/storage/storage.rs:328-335 | Two events of one transaction at the same position of two blocks cannot both be loaded. |
| `StorageObject.LookupsFollowLastSave` | node/src/runtime/storage/storage.rs:761-838 | After any sequence of saves, failed ones included, lookups by transaction, address and miner equal a search of the last saved chain. |
| `StorageObject.SaveGoesThroughIff` | node/src/runtime/storage/storage.rs:761-838 | A save goes through exactly when every block passes its check, has positions that fit 32 bits and only valid events, and otherwise changes nothing. |
| `StorageObject.SavedByHash` | node/src/runtime/storage/storage.rs:793-812 | After a save every block of the chain is found under its hash, and what was there under other hashes stays. |
| `StorageObject.EventLookupsFollowLastSave` | node/src/runtime/storage/storage.rs:313-409 | After any sequence of saves, event lookups by block and address return the last saved ledger's events in order, and by transaction exactly when none clash. |
| `StorageObject.SavedIntactIffLinked` | node/src/runtime/storage/storage.rs:965-1011 | After saving a chain the integrity check's condition holds if and only if the chain runs from genesis without gaps, each block naming the previous one. |
| `StorageObject.Storage.constructor` | node/src/runtime/storage/storage.rs:110-121 | A new store has empty, ordered tables. |
| `StorageObject.Storage.SaveLedger` | node/src/runtime/storage/storage.rs:761-838 | A save replaces every canonical table with those of the ledger and adds to blocks by hash, or changes nothing if some check fails; tables stay ordered. |
| `StorageObject.Storage.WriteBlock` | node/src/runtime/storage/storage.rs:793-812 | Writing a block adds its rows to all tables, and fails exactly when the block cannot be stored. |
| `StorageObject.Storage.IndexBlockTransactions` | node/src/runtime/storage/storage.rs:272-311 | The loop adds one transaction row and the address rows of each transaction, and fails exactly when positions exceed 32 bits. |
| `StorageObject.Storage.IndexAddresses` | node/src/runtime/storage/storage.rs:1163-1186 | Adds the signer's row and one per recipient other than the signer. |
| `StorageObject.Storage.IndexMinerBlock` | node/src/runtime/storage/storage.rs:251-270 | Adds the miner's row only for a block with a coinbase. |
| `StorageObject.Storage.IndexProtocolEvents` | node/src/runtime/storage/storage.rs:313-348 | Adds every event to all four event tables, and fails exactly when one is invalid. |
| `StorageObject.Storage.LoadAddressTransactionLocations` | node/src/runtime/storage/storage.rs:567-589 | Scan and sort return the address's rows by height, position and direction. |
| `StorageObject.Storage.LoadMinerBlockLocations` | node/src/runtime/storage/storage.rs:591-611 | Scan and sort return the miner's rows by height. |
| `StorageObject.Storage.LoadIndexedEvents` | node/src/runtime/storage/storage.rs:383-409 | The cursor loop fetches and checks each event and returns them sorted, or the first corruption. |
| `StorageObject.Storage.ValidateChainIntegrity` | node/src/runtime/storage/storage.rs:965-1011 | The downward walk accepts if and only if every stored block down to genesis loads at its height and names the one below, and the tip matches. |
| `CashPlanner.PlanBalances` | wallet-cli/src/commands.rs:1450-1475 | Outputs plus remainder equal the request, and the remainder is below every allowed unit. |
| `CashPlanner.OutputsDescend` | wallet-cli/src/commands.rs:1450-1475 | The files come largest first, each of a selected unit. |
| `CashPlanner.CountsMatchOutputs` | wallet-cli/src/commands.rs:1450-1475 | The planned counts have the worth and the number of files of the outputs. |
| `CashPlanner.PlanSelected` | wallet-cli/src/commands.rs:1450-1475 | Success balances as above; too many outputs and no representable output are reported exactly when they occur. |
| `CashPlanner.CanonicalIsBest` | wallet-cli/src/commands.rs:1450-1475 | If every unit divides the next larger one, or stands in the five-two-one pattern, no choice of files fits more value, and none of equal value uses fewer files. |
| `CashPlanner.CompatibleIsBest` | wallet-cli/src/commands.rs:1399-1475 | A compatible selection of the offered denominations makes greedy planning best for every amount. |
| `CashPlanner.SixFails` | wallet-cli/src/commands.rs:1450-1475 | With fives and twos but no ones, six is planned worse than three twos. |
| `CashPlanner.SixtyFails` | wallet-cli/src/commands.rs:1450-1475 | With fifties and twenties but no tens or fives, sixty is planned worse than three twenties. |
| `CashPlanner.BestIffCompatible` | wallet-cli/src/commands.rs:1367-1475 | For every offered selection, greedy planning is best for all amounts if and only if the selection is compatible. |
| `CashPlanner.ParseDenominations` | wallet-cli/src/commands.rs:1367-1402 | An unsupported item, an empty list and too many items are each reported exactly when they occur; otherwise the result is exactly the named denominations, strictly descending. |
| `CashPlanner.ReadsNumerals` | wallet-cli/src/commands.rs:1367-1398 | An item names a denomination exactly when it is the decimal numeral of one on offer. |
| `CashPlanner.SortDescending` | wallet-cli/src/commands.rs:1399-1399 | The result is a descending permutation of the list. |
| `CashPlanner.Dedup` | wallet-cli/src/commands.rs:1400-1400 | On a descending list the result is strictly descending with the same members. |

## Left out

- Sockets, threads, timeouts and shutdown handling: time, shutdown and arrival order are inputs; a call reads the clock once where the source may read it several times.
- Hashing, signatures, proof of work, Merkle and state proofs, difficulty, rewards and ledger execution rules: functions of the consensus crate, kept abstract.
- Fork choice itself lives in the consensus crate: the tree with its insert, best tip, branch and prune functions states the contract the node relies on.
- Header-only and checkpointed chains: the node is modelled without a checkpoint, as is the integrity check.
- Cached accounts in the core cache: the source refreshes them for transfers and the miner only.
- Database failures, encodings and directory handling: a write transaction is an atomic update and decoding undoes encoding.
- Account, header, genesis-account, checkpoint and protocol-state tables, so a save that fails while re-deriving the genesis accounts does not appear; the authorization hash index receives the same rows as the transaction index.
- Reading the ledger and the genesis accounts back from storage, and creating the genesis ledger on first start: both are inputs of loading.
- A peer that never stops answering: its answers to one request are a finite sequence, so a request for headers up to the greatest height, which the source would repeat for ever, ends when they do.
- Wrap-around of request ids after 2^64 requests, and the connection mode without a response router, which reads its own stream directly.
- What a node does with an unsolicited message is any sequence of further questions to the peer, so the exact message types and the compact block fallback sizes do not appear.
- `request_missing_parent_blocks`: hashes of a drained batch are not conserved by the source when it stops early.
- Transactions of an assembled block need not replay when packing leaves out one that a later one depends on; no such claim is made.
- Splitting the denomination text at commas and trimming: the parser model starts from the list of items.
- Limits defined in the consensus crate (outputs per withdrawal, items per decoded block, address and hash widths) are parameters or unspecified constants.
- RPC, gateway, metrics, NAT mapping, peer scoring, backoff, rate limits, gossip deduplication, menus and display.
- BlockLocator.BlockLocator: with headers missing does not say which heights are named, only that they are present and fall from tip to genesis; the distance bound is promised for a chain with all headers.
- FeeMarket.WeightedPercentileRate: does not characterise percentiles above 100, which no caller asks for.
- OrphanBookkeeping.BookkeepingHolds: runs start from a node whose buffers are empty or already consistent, as a new node's are.
