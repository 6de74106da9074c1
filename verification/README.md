# Platarium Gateway in Dafny

The Platarium Gateway keeps a transactional front end to the Core ledger. This project models its
hardest parts and proves what they promise over every input, every run and every failure.

- **Confirm boundary** (`Ledger`, `Confirm`, `Boundary`, `Overtaken`, `Undo`, `GatewayObject`). Transactions go from
  mempool to pending to a confirmed block. A confirm changes Core's state under a backup, the explorer
  in memory, the chain file and Rocks, in that order; each failure has a compensating undo. Core, Rocks,
  the chain file and the other goroutines appear as inputs: each step succeeds or fails as the input
  says, and while the lock is free the pools become whatever the input says.
- **Pools** (`Pool`, `Prune`, `NonceDesk`). Where every admitted hash is over every run, what pruning
  keeps, and which nonces are handed out.
- **Peers and recovery** (`Peers`, `Recovery`, `Lifetime`, `DagOrder`). Peer blocks in any order, restart
  from a chain file and a durable pool, whole lives of a node made of all of these, and the apply order
  taken from DAG digests.
- **Disputes** (`PanelPick`, `DealBook`, `VolunteerBook`). A panel of five drawn by digests, commit and
  reveal, freeze by height, a quorum counted in map order, and the book's file.
- **Consensus and money** (`VoteRound`, `Rewards`, `Rating`, `Selection`). Vote rounds, fee splitting,
  reputation and slashing, weighted choice.
- **Links** (`RpcClient`, `ContactStore`). At-most-once calls to Core, first-contact requests.

Each component has a value-level specification (functions on a state record), theorems about whole runs
of it, and, where the source updates fields or loops, methods or a class proved equal to the
specification. `Blockchain` keeps the struct's fields in one record field `now`, which its methods
reassign field by field.

Map iteration is modelled as picking keys in an arbitrary order, so every result that is a function of
the specification alone is independent of that order.

## Where the code does less than one might expect

Each of these is stated as an exact condition or with a concrete case:

- Undo drops the index rows of transactions that were indexed on admission (`Undo.UndoInvertsConfirm`).
- A faucet credit in a block switches DAG ordering off, so nodes may apply it in different orders
  (`Confirm.NodesAgree`).
- A restore does not take the dropped blocks' fees off the running total (`Recovery.RestoreAndTheFees`),
  a second restore can let a stale row back in (`Recovery.SecondRestore`), and a failed rewrite after a
  restore leaves a head in the file that the next confirm lowers when it was more than one above the Rocks
  head (`Recovery.ConfirmAfterFailedRewrite`); a failed load forgets the head altogether (`Lifetime.OneEvent`).
- An admission between a confirm and its later undo can take a slot the undo brings back, so two
  transactions in flight share a sender and nonce (`Pool.SlotsInEveryRun`, `Pool.UndoMeetsATakenSlot`).
- An undone confirm takes hashes off the confirmed set that were in it before
  (`Boundary.AbortKeepsConfirmed`).
- Every apply keeps its backup of Core's state at one path. A peer block applied while a confirm is open
  takes the confirm's backup away, so a later undo leaves the confirm's batch in Core and pending as well
  (`Overtaken.ConfirmAmongPeers`, `Overtaken.LandedPeerKeepsTheBatch`); a peer block still open at the undo
  loses its own batch (`Overtaken.OpenPeerLosesItsBatch`).
- A peer block that does not list its own transactions, or records other fees than theirs, breaks the
  agreement of Core, history and fee total (`Lifetime.AgreementInEveryRun`).
- A confirm that ends between an allocation's two reads can have a confirmed nonce handed out again
  (`NonceDesk.NeverHandedOutTwice`, `NonceDesk.StaleNonceHandedOutTwice`).
- A withdrawn peer block may leave counter, fees and the confirmed set changed (`Peers.WithdrawnCounter`,
  `Peers.WithdrawnFees`, `Peers.WithdrawnConfirmed`).
- While the chain file is ahead of history, as an undo leaves it, the order of peer blocks decides which
  of them are kept when some lie below the file's head and some do not (`Peers.ConvergesExactly`,
  `Peers.UndoLeavesFileAhead`), and refused blocks still leave the counter to their order
  (`Peers.RefusedInTwoOrders`).
- A hash shared with an unpackable entry takes the next nonce's representative down with it
  (`Prune.NextNonceSurvives`); no pool that admission built shares hashes (`Pool.PruneKeepsNextNonce`).
- A suspended node is still chosen when it is the only candidate (`Selection.SuspendedOnlyIfAlone`), and the
  next count of votes forgets a slash's reputation penalty (`Rating.PenaltyIsForgotten`).
- Rebuilding the fee totals keeps stale totals when history carries no fees (`Rewards.RebuildIsExact`), and a
  pool above 9,223,372,036,854 can overflow (`Rewards.ProductsFit`).
- The contact key joins addresses with a bar, so two addresses can be contacts that never accepted each
  other (`ContactStore.ContactExactly`, `ContactStore.FalseContact`), and wrapping points can leave a
  sender above its limit (`ContactStore.LimitsInEveryRun`, `ContactStore.WrapExceedsLimit`).
- An identifier collision would replace a dispute case (`DealBook.ReplacingNeedsACollision`, `DealBook.StepLinks`).

## Model

| member | source | states |
|---|---|---|
| `Boundary.ConfirmIsAllOrNothing` | internal/handlers/apply_confirmed_block.go:113-147 | whichever step fails (Core apply, ordering, fence, chain file, header, Rocks) and whatever other goroutines do to the pools meanwhile, Core state, history, counter, fee total and Rocks all advance by one block listing exactly the applied hashes, or all stay as they were; an undone confirm takes the pending hashes off the confirmed set, any other abort leaves it |
| `Boundary.AbortKeepsConfirmed` | internal/blockchain/blockchain.go:1112-1117 | an aborted confirm keeps the confirmed set exactly when nothing was undone or nothing pending was in it |
| `Overtaken.ConfirmAmongPeers` | internal/blockchain/blockchain.go:918-1165 | whatever fails and whatever peer blocks are received in the three gaps of a confirm (after Core's apply, after the explorer, after the header): it ends durable among them, with the blocks that landed on top of it ahead of it in Rocks, or it is stopped or undone; then Core is back where it was when no peer block was applied meanwhile, and otherwise, since all applies share one backup path, keeps the batch, which an undo makes pending again; the block leaves history exactly when nothing landed on top of it |
| `Overtaken.AbortedExactly` | internal/blockchain/blockchain.go:1141-1165 | Core and history are both as they were after such an end exactly when nothing landed and no peer block was applied, or nothing landed and nothing was pending |
| `Overtaken.ArrivalsPass` | internal/blockchain/blockchain.go:738-743 | what any peer blocks, landing or failing anywhere, leave of Core, history, Rocks and the backup |
| `Overtaken.OpenPeerLosesItsBatch` | internal/handlers/apply_confirmed_block.go:53-109 | a peer block still open when the confirm is undone loses its batch in Core to that undo, stays in history, and is committed to Rocks all the same |
| `Overtaken.LandedPeerKeepsTheBatch` | internal/handlers/apply_confirmed_block.go:113-131 | a peer block lands after the explorer took the block, then the header fails: Core holds both batches, history both blocks, and the confirm's transactions are pending again |
| `Boundary.L2Effect` | internal/blockchain/blockchain.go:918-1020 | an L2 confirm either records one block of the pending transactions under a backup or leaves Core, history, counter and fees alone |
| `Boundary.CommitEffect` | internal/blockchain/blockchain.go:969-1020 | the explorer commit and its rollback on a failed chain-file write |
| `Boundary.FinalizeEffect` | internal/handlers/apply_confirmed_block.go:113-147 | finalize after a confirm ends durable everywhere, or takes the confirm back from every store |
| `Boundary.EveryRunOfConfirms` | internal/blockchain/blockchain.go:727-1020 | over any sequence of confirm attempts Core holds exactly what history lists, Rocks equals history, the running fee total is the sum of the recorded fees (so the clamp at zero never fires), history and Core only grow and the head in the chain file never goes down |
| `Boundary.TurnKeeps` | internal/blockchain/blockchain.go:918-1165 | one confirm attempt keeps the stores in agreement |
| `Lifetime.AgreementInEveryRun` | internal/handlers/apply_confirmed_block.go:113-166 | over every run of confirms and peer blocks, whatever fails, Core, history, Rocks, fee total and counter agree throughout exactly when every landed block lists its own transactions, records their fees and is numbered below the next, and every withdrawn one takes off the fees it put on |
| `Lifetime.DeliveryKeeps` | internal/handlers/apply_confirmed_block.go:154-166 | one peer block keeps that agreement exactly then |
| `Boundary.PersistGrows` | internal/blockchain/chain_store.go:106-136 | writing the chain file never lowers the head it holds while that head is known |
| `Confirm.ApplyOrderPermutes` | internal/blockchain/blockchain.go:816-866 | the apply order never loses, adds or repeats a transaction |
| `Confirm.NodesAgree` | internal/blockchain/blockchain.go:816-866 | two nodes with the same commit digests and the same fully listed transactions apply them in one order exactly when they already held them so, or ordering is on and no faucet credit is among them |
| `Undo.UndoInvertsConfirm` | internal/blockchain/blockchain.go:1085-1135 | confirm then undo restores history, counter, fee total, transaction map, confirmed set, per-address lists and pending order exactly when the fee total was not negative and every pending transaction was new to the index and carried a hash and both addresses |
| `Undo.ConfirmThenUndoEffect` | internal/blockchain/blockchain.go:969-1006 | what confirm then undo leaves of any state, field by field; an already indexed transaction loses its row |
| `Pool.EveryRun` | internal/blockchain/blockchain.go:452-486 | over every run of admit, remove, prune, collect, abandon, confirm, durable end, undo in a later lock-held section, undo for a failed chain file and failed fence, each admitted hash is in exactly one of mempool, pending, history and dropped, once, confirmed hashes are those history lists, and history but for an open block only grows |
| `Pool.StepKeeps` | internal/blockchain/blockchain.go:887-916 | every single operation keeps that |
| `Pool.StepSlots` | internal/blockchain/blockchain.go:452-486 | and every one keeps senders and nonces unique, an undo exactly when its slots are free |
| `Pool.SlotsInEveryRun` | internal/blockchain/blockchain.go:452-486 | throughout a run nothing in flight shares a sender and nonce, exactly when no undo met a slot taken since its confirm |
| `Pool.UndoSlots` | internal/blockchain/blockchain.go:1158-1165 | after an undo senders and nonces in flight are unique exactly when nothing in flight holds a slot of the undone block |
| `Pool.UndoMeetsATakenSlot` | internal/handlers/handlers.go:342-361 | a run in which an admission between confirm and undo takes such a slot |
| `Pool.PruneKeepsNextNonce` | internal/blockchain/mempool_prune.go:110-156 | in no run does a prune leave the next nonce of a sender without the representative it had |
| `Pool.FreshStart` | internal/blockchain/blockchain.go:147-157 | a new gateway starts in that invariant with unique slots |
| `Pool.CollectSplits` | internal/blockchain/mempool_snapshot.go:103-130 | collecting splits the mempool into pending and the rest without losing or doubling anything |
| `Prune.PrunedIsFilter` | internal/blockchain/mempool_prune.go:22-175 | the two prune passes equal a declarative filter: an entry stays exactly when it is eligible and wins its sender and nonce, and no surviving holder of its hash is out of the nonce window; kept slots are unique |
| `Prune.FirstPassKeepsWinners` | internal/blockchain/mempool_prune.go:72-108 | the in-place replacement pass keeps exactly the earliest positive timestamp of each slot, the first arrival breaking ties |
| `Prune.PrunedInWindow` | internal/blockchain/mempool_prune.go:110-156 | once the ledger answered, surviving nonces lie within 64 of the account nonce and gaps are not older than six hours |
| `Prune.NextNonceSurvives` | internal/blockchain/mempool_prune.go:110-156 | the next nonce keeps a representative exactly when no other survivor with the hash of its winner is out of the window |
| `Prune.SlotSurvives` | internal/blockchain/mempool_prune.go:110-156 | any slot with an eligible entry keeps a holder exactly when the hash of its winner is not dropped |
| `Prune.NextNonceAlwaysSurvives` | internal/blockchain/mempool_prune.go:110-156 | with distinct hashes the next nonce always keeps one |
| `Prune.SharedHashLosesNextNonce` | internal/blockchain/mempool_prune.go:130-153 | without distinct hashes that fails: an unpackable entry takes down the holder of its hash |
| `Prune.PruneTwice` | internal/blockchain/mempool_prune.go:22-175 | pruning twice at one clock and ledger is pruning once, though the second prune sees fewer senders |
| `Prune.PruneStateTwice` | internal/blockchain/mempool_prune.go:178-200 | the same for the object's own pool, with the nonces looked up from the pool itself |
| `Prune.KeepFirst` | internal/blockchain/mempool_prune.go:72-108 | the sweep with its index map computes the first pass, and counts exactly what it removed |
| `Prune.DropUnpackable` | internal/blockchain/mempool_prune.go:110-156 | the second pass |
| `DagOrder.PermutedIsPermutation` | internal/core/dag.go:425-452 | reordering by digests is a permutation for all inputs |
| `DagOrder.OrderIsRankSort` | internal/core/dag.go:425-452 | listed items come first in digest order and unlisted ones keep their order: the result is the sort by rank |
| `DagOrder.RankSortUnique` | internal/core/dag.go:425-452 | that sort is unique |
| `DagOrder.PermutedTwice` | internal/core/dag.go:425-452 | applying it twice equals once |
| `DagOrder.PermutedIsCanonical` | internal/core/dag.go:425-452 | any two arrangements of the same distinct fully listed items come out identical |
| `DagOrder.FirstPositions` | internal/core/dag.go:429-437 | the index of first positions of every non-empty hash |
| `DagOrder.PermuteByDigests` | internal/core/dag.go:425-452 | the loop form with index map and used array computes that order |
| `DagOrder.AppendUnused` | internal/core/dag.go:446-450 | the last loop appends the unlisted items in their own order |
| `Peers.PreferenceIsStrictTotalOrder` | internal/blockchain/fork_choice.go:29-47 | block preference is irreflexive, asymmetric, transitive and total on distinct hashes |
| `Peers.PeerIsAllOrNothing` | internal/handlers/apply_confirmed_block.go:154-166 | a peer block lands in Core, history and Rocks together or in none of them; one that the file or Rocks refused was taken in and taken back, any other refusal leaves counter, fees and confirmed set alone; a backup found at the shared path is gone once the block was applied, however it ends |
| `Peers.WithdrawnCounter` | internal/blockchain/blockchain.go:1101-1135 | a withdrawn peer block restores the counter exactly when its number was not the last one used and not past the next |
| `Peers.WithdrawnFees` | internal/blockchain/blockchain.go:1101-1135 | and a non-negative fee total exactly when its recorded fees are its transactions' fees, or both totals were zero |
| `Peers.WithdrawnConfirmed` | internal/blockchain/blockchain.go:1285-1289 | and the confirmed set exactly when nothing it carried was confirmed before and it listed nothing else that was not |
| `Peers.ListedOnlyStaysConfirmed` | internal/blockchain/blockchain.go:1285-1289 | a hash listed but not carried stays confirmed after the withdrawal |
| `Peers.PeerFileGrows` | internal/blockchain/chain_store.go:106-136 | no peer block, wherever it fails, lowers the head in the chain file |
| `Peers.TakeInWrites` | internal/blockchain/chain_store.go:106-136 | a peer block can be written exactly when the file's head is not above both history and the block, and then the file is no longer ahead |
| `Peers.PeersConverge` | internal/blockchain/blockchain.go:1234-1327 | the same peer blocks, one per height, in any order with any repetition and under any pool interference give the same history set, Rocks set, Core batches, confirmed set, fee total and counter, when the chain file takes every new height; undisturbed they give the same pools |
| `Peers.ConvergesExactly` | internal/blockchain/chain_store.go:121-124 | the order cannot matter for history exactly when the file is not ahead of it, or no new height is below its head, or none is at or above it |
| `Peers.Diverges` | internal/blockchain/chain_store.go:121-124 | otherwise two orders of the same blocks end in different histories |
| `Peers.RefusedInTwoOrders` | internal/blockchain/blockchain.go:1257-1326 | blocks that are all refused still leave the counter to the order they came in |
| `Peers.UndoLeavesFileAhead` | internal/blockchain/blockchain.go:1158-1165 | an undo after a written block leaves the file ahead of history |
| `Peers.DeliveriesAddUp` | internal/blockchain/blockchain.go:1234-1327 | what any sequence of deliveries through the whole peer path adds up to, in terms of the blocks taken in |
| `Peers.HeightsStay` | internal/blockchain/blockchain.go:1234-1327 | a filled height keeps its record whatever peers send and whatever fails |
| `Peers.AddConfirmedEffect` | internal/blockchain/blockchain.go:1234-1327 | outcome by outcome, what adding one peer block changes, with the pools changing while Core applies it |
| `Recovery.RecoveryFromDisk` | internal/blockchain/txpool_restore.go:58-210 | from any chain file and pool, load then restore leaves no block above the Rocks head; a signed non-credit transaction outside the kept blocks, and not older than the newest of them, is in the mempool exactly once and unconfirmed, and nothing else enters |
| `Recovery.CanonicalAfterLoad` | internal/blockchain/chain_store.go:38-79 | after a load a hash counts as committed exactly when a kept block of the file lists it or its row is stamped into one |
| `Recovery.RestoreReturnsTheUncommitted` | internal/blockchain/txpool_restore.go:58-210 | the same from any in-memory state, for every hash |
| `Recovery.SecondRestore` | internal/blockchain/txpool_restore.go:58-210 | a second restore leaves history, counter and durable head unchanged, and the mempool unchanged exactly when no row resurfaces |
| `Recovery.SecondReturns` | internal/blockchain/txpool_restore.go:58-210 | what a second restore lets in is exactly the rows whose forgotten pooled copy left an undated indexed copy behind |
| `Recovery.AgreeingCopiesDoNotResurface` | internal/blockchain/txpool_restore.go:58-210 | none does when pooled and indexed copies agree on their timestamp |
| `Recovery.RestoreAndTheFile` | internal/blockchain/txpool_restore.go:204-208 | after a restore the file's head is still known exactly when nothing was dropped, the rewrite succeeded, or the file was not ahead |
| `Recovery.ConfirmAfterFailedRewrite` | internal/blockchain/txpool_restore.go:106-115 | after a restore to Rocks head r whose rewrite failed, the next written confirm has number r + 1 and lowers the head in the file exactly when that was above r + 1 |
| `Recovery.LoadKnowsTheFile` | internal/blockchain/chain_store.go:38-79 | a load never leaves a durable head below the head in the file |
| `Lifetime.HeadInEveryLife` | internal/blockchain/chain_store.go:106-136 | over every life of confirms, peer blocks, confirms with peer blocks in them, restarts and restores, the head in the chain file goes down only when a restore drops blocks and rewrites it, or between a failed rewrite or load and the next load; outside such a stretch exactly then |
| `Lifetime.OneEvent` | internal/blockchain/chain_store.go:106-136 | a known head is lowered by exactly the lowering restores and forgotten by exactly the failed loads and the failed rewrites of a shorter chain |
| `Recovery.RestoreFilesRows` | internal/blockchain/txpool_restore.go:170-178 | a restore only adds to the address lists: under each address, once each, the returning pooled rows that were not indexed and name it |
| `Recovery.RestoreAndTheFees` | internal/blockchain/txpool_restore.go:58-210 | the fee total still matches history after a restore exactly when the dropped blocks carried no fees |
| `Recovery.AttachConfirmedTxs` | internal/blockchain/chain_store.go:188-253 | every stamped row ends up under a block of its number, whatever the row order |
| `Recovery.RestoreValues` | internal/blockchain/txpool_restore.go:58-210 | the loops of the restore compute the declarative result, with the exact number restored |
| `BlockchainObject.Blockchain.constructor` | internal/blockchain/blockchain.go:147-157 | an empty chain |
| `BlockchainObject.Blockchain.AddToMempool` | internal/blockchain/blockchain.go:452-486 | admission with its four answers |
| `BlockchainObject.Blockchain.HasInFlightNonce` | internal/blockchain/blockchain.go:514-528 | true exactly when mempool or pending holds the sender nonce |
| `BlockchainObject.Blockchain.RemoveFromMempool` | internal/blockchain/blockchain.go:559-580 | the pool and index after a removal |
| `BlockchainObject.Blockchain.AbandonPendingBlock` | internal/blockchain/blockchain.go:887-916 | the pools after an abandon, and both counts |
| `BlockchainObject.Blockchain.L1CollectSelected` | internal/blockchain/mempool_snapshot.go:103-130 | the pools after a collect |
| `BlockchainObject.Blockchain.PruneMempool` | internal/blockchain/mempool_prune.go:22-175 | the pruned pool, the exact count removed, and the durable pool rows forgotten |
| `BlockchainObject.Blockchain.PersistChain` | internal/blockchain/chain_store.go:106-136 | the chain file and durable head after a write attempt |
| `BlockchainObject.Blockchain.ApplyConfirmedTransactions` | internal/blockchain/blockchain.go:727-812 | Core state and backup after an apply, successful or not |
| `BlockchainObject.Blockchain.MaybeDagReorder` | internal/blockchain/blockchain.go:816-866 | the apply order and the spent digest cache |
| `BlockchainObject.Blockchain.L2ConfirmBlock` | internal/blockchain/blockchain.go:918-1020 | the whole confirm, with the fence against a changed pending set |
| `BlockchainObject.Blockchain.UndoExplorerConfirm` | internal/blockchain/blockchain.go:1101-1135 | the compensating undo |
| `BlockchainObject.Blockchain.UndoLastConfirmedBlock` | internal/blockchain/blockchain.go:1141-1165 | undo with the state backup restored |
| `BlockchainObject.Blockchain.ApplyBlockHeader` | internal/blockchain/blockchain.go:1563-1582 | the header hash recorded and the file rewritten |
| `BlockchainObject.Blockchain.AddConfirmedBlock` | internal/blockchain/blockchain.go:1234-1327 | adding a peer block, the pools changing while Core applies it |
| `BlockchainObject.Blockchain.LoadChainFile` | internal/blockchain/chain_store.go:38-79 | loading, with rows met in any order |
| `BlockchainObject.Blockchain.RestoreDurableTxs` | internal/blockchain/txpool_restore.go:58-210 | the restore and the rewrite after it |
| `BlockchainObject.CheckClash` | internal/blockchain/blockchain.go:462-483 | the duplicate scan: pending first, then mempool |
| `BlockchainObject.OverlapCount` | internal/core/dag.go:407-422 | the number of cached digests that name the batch; positive exactly when one does |
| `BlockchainObject.SameHashesInOrder` | internal/blockchain/blockchain.go:945-967 | the fence compares length and hashes place by place |
| `BlockchainObject.FindHeight` | internal/blockchain/blockchain.go:1236-1257 | the first record at a height |
| `BlockchainObject.RemoveFromAddressIndex` | internal/blockchain/blockchain.go:1085-1097 | the list without the hash |
| `BlockchainObject.SplitCollected` | internal/blockchain/mempool_snapshot.go:108-128 | each picked hash moves once; the rest stay in order |
| `BlockchainObject.SplitDropped` | internal/blockchain/blockchain.go:887-916 | what stays, how many went, whose rows go |
| `BlockchainObject.Summarize` | internal/blockchain/blockchain.go:969-990 | fee sum, hashes and time of the new block |
| `GatewayObject.Gateway.ConfirmPending` | internal/handlers/apply_confirmed_block.go:113-147 | an L2 confirm followed by finalize is all-or-nothing on the objects themselves |
| `GatewayObject.Gateway.RunConfirm` | internal/handlers/apply_confirmed_block.go:113-147 | the objects follow the specified round step by step |
| `GatewayObject.Gateway.DurableCommitAfterExplorer` | internal/handlers/apply_confirmed_block.go:53-109 | Rocks, then the marker and the backup's removal, or the undo |
| `GatewayObject.Gateway.FinalizeConfirmedBlock` | internal/handlers/apply_confirmed_block.go:113-147 | header, then durable commit |
| `GatewayObject.Gateway.ApplyPeerConfirmedBlock` | internal/handlers/apply_confirmed_block.go:154-166 | a peer block on the objects, outcome by outcome all or nothing |
| `PanelPick.PickFive` | internal/deals/book.go:404-441 | fails exactly when fewer than five may sit; otherwise the one panel of the set of those who may |
| `PanelPick.PanelOfASet` | internal/deals/book.go:404-441 | a set and a seed have one panel, of five distinct members: order and repetition of the input lists cannot matter |
| `PanelPick.AscendingUnique` | internal/deals/book.go:426-427 | a set has one ascending listing |
| `PanelPick.DrawnAreDistinct` | internal/deals/book.go:430-440 | drawing by remainders without replacement gives distinct members of the list |
| `PanelPick.Eligible` | internal/deals/book.go:405-425 | the filter loop keeps exactly the non-empty, non-excluded addresses, once each |
| `PanelPick.DrawFive` | internal/deals/book.go:430-440 | the seat loop |
| `DealBook.QuorumOf` | internal/deals/book.go:379-388 | unordered counting finds a verdict with three backers exactly when there is one, and the only one when it is unambiguous |
| `DealBook.FiveAreUnambiguous` | internal/deals/book.go:379-388 | at most five reveals cannot give two verdicts three backers |
| `DealBook.MajorityStays` | internal/deals/book.go:273-278 | a later reveal cannot take a majority away |
| `DealBook.Run` | internal/deals/book.go:111-325 | in every reachable book each case has five distinct seats, only they commit, only committers reveal and each reveal opens its commit, and the quorum is exactly the majority of the reveals once the case is frozen and empty before |
| `DealBook.StepKeeps` | internal/deals/book.go:111-325 | every operation keeps that |
| `DealBook.RevealKeeps` | internal/deals/book.go:254-282 | a reveal keeps a case in order and changes nothing already decided |
| `DealBook.RunLater` | internal/deals/book.go:111-325 | over any run a case keeps its panel, commits, reveals, freeze and quorum once it has them, unless its identifier is reused |
| `DealBook.ReplacingNeedsACollision` | internal/deals/book.go:164-187 | reusing an identifier takes two different strings with one hash |
| `DealBook.CommitBinds` | internal/deals/book.go:358-366 | one commit opening to both verdicts takes two different strings with one hash |
| `DealBook.AnswerIsTheMajority` | internal/deals/book.go:301-325 | Quorum answers a verdict exactly when the case is frozen or past its deadline and three revealed it |
| `DealBook.ReopenIsExact` | internal/deals/book.go:62-84 | writing and reopening the book is the identity exactly when every escrow still leads to its own case |
| `DealBook.StepLinks` | internal/deals/book.go:139-189 | the only step that unlinks an escrow is an opening that reuses an identifier |
| `DealBook.RestartKeepsAnswers` | internal/deals/book.go:526-558 | a restart after any number of unwritten steps answers every case the same |
| `VolunteerBook.MajorityOf` | internal/deals/book.go:379-388 | the counting loop computes the majority of a panel's reveals |
| `VolunteerBook.AgeEach` | internal/deals/book.go:115-124 | the height loop ages every case, whatever the map order |
| `VolunteerBook.UniqueKeys` | internal/deals/book.go:89-101 | the roster without empty and repeated keys |
| `VolunteerBook.ReadRows` | internal/deals/book.go:78-82 | the rows read back into both maps |
| `VolunteerBook.Volunteers.Load` | internal/deals/book.go:62-84 | reopening |
| `VolunteerBook.Volunteers.SetRoster` | internal/deals/book.go:86-103 | the new book, invariant kept |
| `VolunteerBook.Volunteers.SetHeight` | internal/deals/book.go:111-126 | the new book, invariant kept |
| `VolunteerBook.Volunteers.OpenAppeal` | internal/deals/book.go:139-189 | the new book and the answer, invariant kept |
| `VolunteerBook.Volunteers.Commit` | internal/deals/book.go:229-248 | the new book and the answer, invariant kept |
| `VolunteerBook.Volunteers.RevealNonce` | internal/deals/book.go:254-282 | the new book and the answer, invariant kept |
| `VolunteerBook.Volunteers.Quorum` | internal/deals/book.go:301-325 | the new book and the answer, invariant kept |
| `VoteRound.VerdictOfTheVotes` | internal/handlers/handlers.go:542-585 | however votes arrive, the verdict is that of the first votes before the timeout: true exactly when they reach the percentage, false exactly when they do not and the timeout came |
| `VoteRound.EveryRound` | internal/handlers/handlers.go:989-1032 | voters stay inside the committee, a closed round has one verdict, true exactly when the final votes reach the threshold, and an open round has not reached it |
| `VoteRound.RoundsOnlyGrow` | internal/handlers/handlers.go:557-568 | first votes are sticky and nothing moves after closing |
| `VoteRound.NeedIsThePercentage` | internal/handlers/handlers.go:576-577 | the rounded-up count means the percentage of the committee |
| `VoteRound.UnanimousPasses` | internal/handlers/handlers.go:2798-2850 | a unanimous committee closes the round as true unless it timed out first |
| `VoteRound.NoFalseSlash` | internal/handlers/handlers.go:560-567 | a node that never contradicts itself is never reported for equivocation |
| `VoteRound.CountYes` | internal/blockchain/fork_choice.go:17-25 | the recount loop, in any map order |
| `VoteRound.RoundObject.constructor` | internal/handlers/handlers.go:2798-2835 | the proposer's own vote, and a committee of one closing at once |
| `VoteRound.RoundObject.OnVote` | internal/handlers/handlers.go:542-585 | one vote |
| `Rewards.Distributor.PayBlock` | internal/handlers/handlers.go:3304-3318 | burn, treasury and all shares add up to the block's fees exactly when each layer has a YES voter or an empty pool |
| `Rewards.SplitConserves` | internal/rewards/rewards.go:26-40 | the split loses nothing and no part is negative |
| `Rewards.SplitIsProportional` | internal/rewards/rewards.go:26-40 | burn and both pools are their exact percentages rounded down, and the treasury exceeds its own by fewer than four units |
| `Rewards.DistributePool` | internal/handlers/handlers.go:647-701 | the whole pool is paid, to the YES voters only, each with its unit, its rounded share and one with the leftover |
| `Rewards.PaidInFull` | internal/handlers/handlers.go:647-701 | the shares of a payment add up to the pool |
| `Rewards.LeftoverIsSmall` | internal/handlers/handlers.go:690-699 | what rounding leaves is non-negative and below the number of voters |
| `Rewards.FairShares` | internal/handlers/handlers.go:647-701 | no share is negative, each is at least 1 when the pool covers the voters, and a heavier voter is not behind a lighter one by as much as one unit per voter |
| `Rewards.ProductsFit` | internal/handlers/handlers.go:692-694 | no product with a weight overflows 64 bits exactly up to 9,223,372,036,854 |
| `Rewards.FirstOverflow` | internal/handlers/handlers.go:692-694 | the next value does overflow, to a negative number |
| `Rewards.PoolFits` | internal/handlers/handlers.go:647-701 | up to that bound no product, no running sum of weights and no running sum of shares leaves 64 bits |
| `Rewards.SplitFits` | internal/rewards/rewards.go:34-37 | no product of the split overflows exactly when the fees times the largest percentage do not |
| `Rewards.AppliedInAnyOrder` | internal/rewards/rewards.go:80-87 | the cumulative totals do not depend on block order |
| `Rewards.RebuildKeepsTotals` | internal/handlers/handlers_sync.go:216-231 | replaying history rebuilds the totals a live distributor holds |
| `Rewards.RebuildIsExact` | internal/handlers/handlers_sync.go:216-231 | from other totals the rebuild gives history's exactly when those are not both zero, or zero was held |
| `Rewards.SumHistory` | internal/handlers/handlers_sync.go:219-226 | the replay loop |
| `Rewards.Distributor.ApplyBlock` | internal/rewards/rewards.go:80-87 | totals and pools after a block |
| `Rewards.Distributor.SetTotals` | internal/rewards/rewards.go:67-78 | negative totals are clamped |
| `Rewards.Distributor.RebuildFromChain` | internal/handlers/handlers_sync.go:216-231 | the rebuild on the object |
| `Rating.EveryRun` | internal/handlers/handlers.go:602-643 | over every run of rounds, loads and slashes a node's total counts the rounds it sat on and missed those where it was silent or disagreed, so missed never exceeds total, and reputation, load and uptime stay on the scale |
| `Rating.SuspensionIsFinal` | internal/rating/slashing.go:73-91 | a suspended node never becomes active again |
| `Rating.WeightsInEveryRun` | internal/rating/registry.go:245-257 | selection weights lie between 1 and the scale in every run |
| `Rating.ReputationInRange` | internal/rating/registry.go:41-65 | the weighted score stays on the scale for any stake and any largest stake |
| `Rating.AccuracyFalls` | internal/rating/registry.go:41-50 | more missed votes never mean a better accuracy |
| `Rating.ReputationMonotone` | internal/rating/registry.go:53-65 | a score none of whose factors is worse is no worse |
| `Rating.LoadLightens` | internal/rating/registry.go:68-74 | an idle node weighs its reputation, a full one nothing, and more load never weighs more |
| `Rating.SlashesAddUp` | internal/rating/slashing.go:73-91 | any number of equal slashes in closed form: reputation, stake and suspension |
| `Rating.SlashesToSuspension` | internal/rating/slashing.go:20-48 | a node of full reputation is suspended by exactly 46, 31, 7 or 10 slashes of a kind in a row |
| `Rating.PenaltyIsForgotten` | internal/rating/registry.go:130-147 | the next count of votes computes the reputation as if the slash had only taken stake |
| `Rating.FindMaxStake` | internal/rating/registry.go:213-221 | the largest stake, in any map order |
| `Rating.UpdateVoteStats` | internal/handlers/handlers.go:602-643 | the two loops give every seat one more vote due, missed exactly for silence or disagreement, in any map order |
| `Rating.SlashEach` | internal/rating/slashing.go:95-115 | a batch, creating unknown nodes and skipping the empty name |
| `Rating.Registry.EnsureNode` | internal/rating/registry.go:98-120 | the registry after the call |
| `Rating.Registry.SetNodeLoad` | internal/rating/registry.go:189-211 | the registry after the call |
| `Rating.Registry.ApplySlash` | internal/rating/slashing.go:67-91 | the registry after the call, and whether the node was known |
| `Rating.Registry.ApplySlashBatch` | internal/rating/slashing.go:95-115 | the registry after the call |
| `Rating.Registry.CountRound` | internal/handlers/handlers.go:602-643 | the registry after a round |
| `Selection.ExactlyProportional` | internal/rating/registry.go:356-364 | over all rolls below the total each candidate is hit by exactly its weight's number of rolls |
| `Selection.PickedByItsWeight` | internal/rating/registry.go:323-365 | the same for the whole selection, with suspended candidates filtered out |
| `Selection.Choose` | internal/rating/registry.go:357-364 | the running-sum loop finds the stretch the roll falls in; its fallback return is unreachable |
| `Selection.SelectByWeight` | internal/rating/registry.go:323-365 | the choice, with its special cases |
| `Selection.SuspendedOnlyIfAlone` | internal/rating/registry.go:323-329 | a suspended node is chosen exactly when it is the only candidate offered |
| `Selection.SelectsOne` | internal/rating/registry.go:356-364 | a roll determines the choice |
| `Selection.FilterEligible` | internal/rating/registry.go:311-320 | the filter loop |
| `Selection.DrawCommittee` | internal/rating/registry.go:290-308 | repeated drawing terminates with distinct eligible members, as many as asked for when names are distinct and non-empty |
| `Selection.SelectCommittee` | internal/rating/registry.go:282-309 | only non-suspended candidates; for distinct non-empty names min(count, eligible) distinct members |
| `RpcClient.AtMostOnce` | internal/core/rpc_client.go:184-223 | over every run and for any behaviour of the link a mutating request is delivered at most once, exactly once on success, and any other at most twice |
| `RpcClient.DeliveredByItsCall` | internal/core/rpc_client.go:184-282 | no call delivers another call's request |
| `RpcClient.OnlyItsOwnResponse` | internal/core/rpc_client.go:262-269 | a result comes only from a line carrying the call's own id |
| `RpcClient.ResultIsTheAnswer` | internal/core/rpc_client.go:225-282 | if Core answers each id with one answer, a successful call returns that answer |
| `RpcClient.RetriedOnlyIfUnwritten` | internal/core/rpc_client.go:205-221 | a mutating call with a working second trip ends delivered exactly once |
| `RpcClient.Sent` | internal/core/rpc_client.go:184-223 | how many deliveries one call makes |
| `RpcClient.RPCClient.RoundTripLocked` | internal/core/rpc_client.go:225-282 | one round trip |
| `RpcClient.RPCClient.Invoke` | internal/core/rpc_client.go:184-223 | one call |
| `NonceDesk.OfferIsLeast` | internal/handlers/handlers.go:1322-1350 | the least free nonce at or above the account nonce; none exactly when all 257 are held |
| `NonceDesk.NeverHandedOutTwice` | internal/handlers/handlers.go:1322-1380 | over every run, with confirms that may still be undone and with allocations that read the account nonce first and the pools later, a nonce handed out is neither outstanding, in flight, in an open block nor behind the account nonce exactly when the account nonce has not risen past it since it was read |
| `NonceDesk.StaleNonceHandedOutTwice` | internal/handlers/handlers.go:1328-1347 | a run in which a confirm ends in between and a confirmed nonce is handed out again |
| `NonceDesk.UndisturbedAllocation` | internal/handlers/handlers.go:1322-1350 | left alone, an allocation reserves the least free nonce |
| `NonceDesk.OutstandingIsHeld` | internal/handlers/handlers.go:1352-1380 | what was handed out and not given back stays reserved, in flight, in an open block or behind the account nonce for good |
| `NonceDesk.EveryDeskIsSound` | internal/blockchain/blockchain.go:1141-1165 | in every run the nonces of an open block are behind the account nonce, its backup is not ahead of it, and an allocation only looks upwards |
| `NonceDesk.ConfirmedIsFinal` | internal/handlers/handlers.go:342-361 | a nonce confirmed in a block that became durable is handed out again only by an allocation that read an account nonce risen since |
| `NonceDesk.UndoneIsInFlight` | internal/blockchain/blockchain.go:1141-1153 | a nonce whose block is undone is in flight again and not handed out |
| `NonceDesk.FindFree` | internal/handlers/handlers.go:1338-1349 | the search loop |
| `NonceDesk.ReservationTable.AllocateNonce` | internal/handlers/handlers.go:1322-1350 | the table after an allocation |
| `NonceDesk.ReservationTable.AdmitToMempool` | internal/handlers/handlers.go:342-361 | admission consumes the reservation |
| `NonceDesk.ReservationTable.ReleaseNonce` | internal/handlers/handlers.go:1361-1380 | a release succeeds exactly for a reserved nonce not in flight |
| `ContactStore.EveryRun` | internal/contacteconomy/store.go:327-536 | in every run a lock hash backs one request, an ordered pair has at most one pending request, and the contact keys are exactly those of accepted requests |
| `ContactStore.DecidedStays` | internal/contacteconomy/store.go:444-536 | a request leaves pending at most once: status and outcome never change after |
| `ContactStore.DecidedBy` | internal/contacteconomy/store.go:444-536 | a pending request is decided only by its receiver, in time and with proof, or by its time running out |
| `ContactStore.OutcomesInEveryRun` | internal/contacteconomy/store.go:444-536 | in every run a decided request records the outcome of its decision |
| `ContactStore.LimitsInEveryRun` | internal/contacteconomy/store.go:303-325 | throughout a run a sender never exceeds its limit, exactly when no addition of points wrapped under its pending requests |
| `ContactStore.StepWithin` | internal/contacteconomy/store.go:303-325 | every step keeps a sender within its limit, an addition of points exactly when it does no harm |
| `ContactStore.XPStepExactly` | internal/contacteconomy/store.go:313-325 | a sender within its limit stays there when points are added exactly when the counter does not wrap, nothing is pending or the wrapped limit still covers it |
| `ContactStore.WrapExceedsLimit` | internal/contacteconomy/store.go:313-325 | a run from an empty store that wraps a sender above its limit |
| `ContactStore.KeysTellPairsApart` | internal/contacteconomy/store.go:177-183 | for all addresses, two pairs share a key exactly when they are the same two or one is the other read across a bar |
| `ContactStore.JoinedExactly` | internal/contacteconomy/store.go:177-183 | two joined pairs are one string exactly when they are equal or one is the other shifted across a bar |
| `ContactStore.ContactIffAccepted` | internal/contacteconomy/store.go:274-279 | two addresses without a bar, whatever the others are, are contacts exactly when a request between them was accepted |
| `ContactStore.ContactExactly` | internal/contacteconomy/store.go:274-279 | for all addresses, two are contacts exactly when a request was accepted between them or between a pair that collides with them |
| `ContactStore.FalseContact` | internal/contacteconomy/store.go:477-486 | a run from an empty store that makes contacts of a colliding pair |
| `ContactStore.CountPending` | internal/contacteconomy/store.go:281-292 | the counting loop |
| `ContactStore.FindLock` | internal/contacteconomy/store.go:378-383 | the lock search |
| `ContactStore.FindPendingPair` | internal/contacteconomy/store.go:384-392 | the pair search |
| `ContactStore.ExpireEach` | internal/contacteconomy/store.go:516-536 | the expiry loop and what it returns |
| `ContactStore.Contacts.CheckStore` | internal/contacteconomy/store.go:354-392 | the checks against the store, in order |
| `ContactStore.Contacts.CreateRequest` | internal/contacteconomy/store.go:327-398 | the store and the answer |
| `ContactStore.Contacts.RespondTo` | internal/contacteconomy/store.go:444-501 | the store and the answer |
| `ContactStore.Contacts.ExpireDue` | internal/contacteconomy/store.go:516-536 | the store and the requests returned |
| `ContactStore.Contacts.MarkSettled` | internal/contacteconomy/store.go:503-513 | the store and the answer |
| `ContactStore.Contacts.AddPoints` | internal/contacteconomy/store.go:313-325 | the points, wrapping at 64 bits |

## Left out

- Core execution, RocksDB, SHA-256, Ed25519 and JSON: Core and Rocks are steps that succeed or fail without
  effect; hashes are arbitrary functions, and a collision is named where a result needs its absence.
- HTTP, WebSocket, gossip, peer dialing, metrics, the daemon, the AI proxy and the web UI.
- Wall clocks and scheduling: times and random numbers are parameters, each lock-held section is one step.
- A failed copy of the Core state backup: a backup that is there copies back exactly.
- Injected fail points of the confirm path, which repeat the failure branches that are modelled, and the
  simulated crash, which restart covers.
- Nil entries in transaction slices, fees of 2^63 and above, and overflow of the fee totals.
- The legacy confirm of the whole mempool, SetPendingBlock, SyncPendingBlock and RequeueUnconfirmedEscrows.
- Merkle and state roots, producer and vote-count fields of a block header; only its hash is kept.
- The order of rows inside the chain file and the refusal of unsafe hashes by the durable pool. Rows of the
  index, the chain file and the durable pool carry the hash they are filed under, as every writer files them; a
  file edited by hand is not modelled.
- PruneMempool's grouping by sender and its insertion sort, which do not affect which hashes are dropped.
- Concurrent calls of AddConfirmedBlock between its height check and its insertion.
- Deliveries that overlap each other: in the gaps of a confirm peer blocks are received whole, one after the
  other, but for one that may be open at the undo. Runs of confirms and peer blocks take a confirm as one turn.
- Rebuilding the explorer index from Rocks in the background after a restart.
- FreezeBlockHistory, CanonicalHeadNumber and TipLeadsRocks: filters of what is served, easy next to the restore.
- Acceptance after Core's vote aggregation and degraded acceptance on a testnet; the round verdict before it is modelled.
- Vote signatures: only accepted votes reach the round.
- SetUptime, ApplyUptimePenalty and RecomputeAll, which nothing in the gateway calls.
- Overflow of a stake times the score scale.
- Boundary.ConfirmIsAllOrNothing: asks for a counter above every recorded block, a fee total that is not negative and no half-done confirm, all of which Boundary.EveryRunOfConfirms keeps.
- DealBook.RunLater: asks that no later opening reuses the case's identifier, because an opening that does replaces the case; DealBook.ReplacingNeedsACollision says what that takes.
- Rewards.DistributePool: computes over unbounded integers, because 64-bit arithmetic agrees up to the bound of Rewards.ProductsFit; the branch for a total weight that is not positive cannot be reached, each weight being at least 1.
- Pool.EveryRun: leaves out peer blocks and takes one confirm open at a time; Peers.PeersConverge has the peer blocks.
- Peers.ConvergesExactly: speaks of history; what refused blocks leave of counter, fees and confirmed set is stated for one block (Peers.WithdrawnCounter, Peers.WithdrawnFees, Peers.WithdrawnConfirmed) and shown to depend on the order (Peers.RefusedInTwoOrders).
- Overtaken.ConfirmAmongPeers: asks, where the block is numbered, for a counter above every record and a fee total that is not negative.
- Peers.PeersConverge: takes the successful path of Core, disk and Rocks, because a failed delivery is not delivered; Peers.HeightsStay and Peers.PeerIsAllOrNothing have the failures.
- ContactStore.ContactIffAccepted: asks for two addresses without a bar; ContactStore.ContactExactly has all addresses.
- Prune.NextNonceAlwaysSurvives: asks for distinct hashes; Prune.NextNonceSurvives has the exact condition.
- NonceDesk.OfferIsLeast: does not model account nonces within 256 of 2^64, where the search limit wraps.
- VoteRound.EveryRound: asks for a percentage above 50 and at most 100, which 67 and 70 are; at 50 a committee of two would start at its threshold without closing.
- RpcClient.AtMostOnce: does not model a wrap of the call counter after 2^63 calls, and takes a failed write to have delivered no whole line.
- The dispute book's trimming of terms and parsing of the deadline; both arrive as values. Failed file writes, after which the file is an older book.
- Trimming of addresses and Unicode case folding in the contact store: one folding function stands for both ToLower and EqualFold. Its file, the pricing amounts, and the signature rules of a response, which arrive as one yes or no.
- The check-then-insert window of CreateRequest between two locks: a creation is one step.
