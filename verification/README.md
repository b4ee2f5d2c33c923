# Kaia node core, modelled and proved in Dafny

A model of the parts of the node whose correctness rests on invariants that no single
function establishes: the transaction pool with its lists, lookup and price heap; the header
chain and the block chain with fork choice, reorganisation, rewind and the transaction index;
what a change of head does to the pool; the event feed; the chain indexer; the state
transition's fee accounting; and two helpers of block execution.

Mutable objects of the node are classes here, loops are loops, and each method is proved
against functions on plain maps, sequences and sets. What other goroutines do while an
operation is under way is a schedule given to the chain indexer, and in the feed a method
`Interfere` that does any number of the steps they may take. Channel readiness and random
choices are nondeterministic; failing back ends are inputs. Hashes are free constructors over
what is hashed, so collision freedom is built in. The database is maps, "has state" is a set of
roots, and the code that runs a transaction is a parameter.

`dafny verify dfyconfig.toml` checks everything.

## Main results

* **Pool, every run** (`PoolReset.Run`). After every event of every run, reorganisations
  included, the lookup is the disjoint union of the pending and the queued transactions, no
  account has a nonce in both lists, the slot counter is the true sum, the count never exceeds
  the capacity and the price heap covers every live transaction. That is why queueing again on
  demotion cannot fail and why removing by nonce removes the right transaction.
* **Nonce order, account by account** (`PoolReset.Run`, `PoolReset.Reset`,
  `HeadChanges.ChangeHead`). An account's pending nonces are exactly the run from its state nonce
  to its pending nonce and everything queued lies above. Every run keeps this for every account,
  unless a new head both lowers its state nonce and brings back one of its transactions. In that
  case a reset keeps it exactly if demotion meets no hole, or truncation cuts the list at the first
  gap or below. No hole means: the state nonce is not pending, or no nonce is missing below one that
  passes the checks together with all below it (`PoolReset.ResetExactly`, `Demotion.StandingExactly`).
* **Adding to a full pool** (`PoolAdd.Add`). What is given up, what is discarded and how much, and
  where every pending list is cut.
* **Truncation** (`Truncation.TruncatePending`, `Truncation.TruncateQueue`). Pending truncation
  is water filling with one level; queue truncation stops exactly at the limit.
* **Chain, every run** (`Resumes.Run`, `BlockChains.BlockChain.WriteBlocks`,
  `HeaderChains.HeaderChain.WriteAll`). After every run of block writes, rewinds and repairs in any
  order, both heads are on the canonical chain, all of that is stored, scores are the sums along the
  ancestry, and every transaction of the head's chain is found where it is. After writes alone the
  index holds nothing else, no canonical entry is heavier than the head, the head header is the head
  block unless it has score 0, and no reorganisation fails. The head's score never falls in a write.
* **Rewind** (`Rewinds.SetHead`, `Rewinds.Repair`, `Resumes.Rewind`). From any point of any run.
  Where a rewind succeeds, head header and head block are one stored block with state, and with the
  root asked for if any; it succeeds exactly when there is such a block, and takes the highest. It
  leaves a chain that is like one built by writes alone exactly if it was clean, which can be read
  off beforehand.
* **Feed, indexer, fees, estimate**. Exactly-once delivery under every interleaving; section
  heads that always build on one another; conservation of value and the fee split under two
  roundings; least gas from a wrapping binary search.

## Where a claim has to stop

Each of these is a run or an input on which the plain claim fails, with the exact condition
under which it holds.

* A full pool that gives up a large transaction for a small one asks for a negative number of
  slots, and allocating the result with that capacity panics (`blockchain/tx_list.go:629`). Two
  calls on an empty pool get there (`PoolAdd.AddPanics`); `PoolAdd.Add` states exactly when.
* A pool that made room can still refuse the newcomer; what was given up is then lost. For a local
  sender, or if nothing more has to be freed, that is exactly if its nonce is pending with a
  transaction it may not replace; in general that one must not be discarded as well
  (`PoolAdd.RefusedAfterRoom`, `PoolAdd.RefusedUnlessGone`, `PoolAdd.RefusedForNothing`).
* Discarding counts heap entries, and a transaction that left and came back has two. Without ties
  the slots counted are the slots freed exactly if no such transaction lies strictly within the
  request (`Discards.FreedUnlessTwice`, `Discards.DiscardsTwice`, `PoolAdd.RoomIsEnough`).
* A reset can leave a gap in an account's pending nonces (`ResetGaps.ResetLeavesGap`,
  `PoolReset.ResetExactly`).
* A reorganisation onto a lower block leaves canonical numbers above it: they end at the new head
  exactly if that is not lower (`BlockChains.ExactUnlessShorter`, `ForkRuns.ShorterFork`).
* Head header and head block part exactly where a write gives its state to a lower ancestor of the
  head that is as heavy as the head (`BlockChains.BlockChain.WriteBlock`, `ForkRuns.HeadsCanPart`); the
  head header then has score 0 (`BlockChains.BlockChain.HeadsPart`).
* A rewind leaves a side branch without its parent exactly if a header that stays had a deleted
  one (`Rewinds.RootedUnlessOrphaned`, `ForkRuns.OrphanedBranch`), and transactions of deleted blocks in
  the index exactly if those had any (`Resumes.IndexBelow`, `ForkRuns.StaleIndex`).
* A reorganisation fails exactly if a block of the new chain is missing, which takes a rewind
  (`BlockChains.BlockChain.Reorg`, `ForkRuns.FailedReorg`).
* A section of the chain index that is reorganised while in flight is still added. Its head is
  canonical exactly if nothing rewrites the chain after its last block was read, or the last to do
  so has that block in place (`Indexers.ChainIndexer.Update`, `Indexers.StaleSection`).
* Buying gas overdraws an account exactly if it shares the fee with itself and cannot pay it whole
  (`StateTransitions.NegativeExactly`, `StateTransitions.OverdraftExample`). The pool's check does
  not let such a transaction in (`StateTransitions.AcceptedCanPay`).
* The gas search adds its bounds in 64 bits. It ends exactly if the cap is at most 2^63 or one of
  the amounts it would try does not fail (`Evm.EndsExactly`, `Evm.FailingSearchDiverges`).
* The ancestor lookup asked for number 2^64 - 1 answers with the parent hash of block 0 exactly
  if the stored chain reaches a block 0 that names a parent (`Evm.TopNumberMatches`,
  `Evm.TopNumberExample`), and other numbers from the reference block on with something only if that
  parent is stored under 2^64 - 1 and names one itself (`Evm.AboveIsEmpty`, `Evm.AboveExample`).

Queue truncation sorts by ascending heartbeat and takes accounts from the end, so the most
recently active lose first (`blockchain/tx_pool.go:1533-1572`); the model follows the code.

## Model

| member | source | states |
|---|---|---|
| Types.NumSlots | blockchain/tx_pool.go:1826-1828 | at least one slot, and the smallest number of 32 KiB units that holds the transaction |
| Heaps.RootIsLeast | blockchain/tx_list.go:37-53 | the root of a heap is below every element |
| Heaps.SiftUp | blockchain/tx_list.go:43-53 | repairs a heap broken only above one leaf, as a permutation |
| Heaps.SiftDown | blockchain/tx_list.go:43-53 | repairs a heap broken only below one element, as a permutation, or reports that nothing had to move |
| Heaps.Push | blockchain/tx_list.go:82 | heap with exactly one element more |
| Heaps.Pop | blockchain/tx_list.go:94 | takes out a least element and leaves a heap of the rest |
| Heaps.RemoveAt | blockchain/tx_list.go:157-174 | takes out the element at an index and leaves a heap of the rest |
| Heaps.Heapify | blockchain/tx_list.go:120-126 | a heap that is a permutation of its input |
| Heaps.Sort | blockchain/tx_list.go:132-153 | sorted permutation |
| TxLists.FlattenContents | blockchain/tx_list.go:239-260 | flattening lists every transaction once, by strictly rising nonce |
| TxLists.SortedUnique | blockchain/tx_list.go:243-260 | a strictly sorted list is determined by its contents, so patching the cache and rebuilding it agree |
| TxLists.FlattenMax | blockchain/tx_list.go:132-153 | flattening ends with the highest nonce |
| TxLists.CapKeepsLowest | blockchain/tx_list.go:132-153 | exactly min(k, size) stay and each kept nonce is below each dropped one |
| TxLists.CapUnique | blockchain/tx_list.go:132-153 | any k transactions below all others are what Cap keeps |
| TxLists.CapCap | blockchain/tx_list.go:132-153 | capping twice is capping once at the lower limit |
| TxLists.FlattenCap | blockchain/tx_list.go:145-152 | Cap shortens the flattened list from the back, so slicing the cache is right |
| TxLists.RunIsMaximal | blockchain/tx_list.go:183-229 | the ready run is consecutive and payable and cannot be extended |
| SortedMap.IndexHead | blockchain/tx_list.go:57-62 | the head of the nonce heap is the lowest nonce in the map |
| SortedMap.PopIndex | blockchain/tx_list.go:94-95 | pops the lowest nonce and leaves a heap of the other keys, each once |
| SortedMap.RemoveFromIndex | blockchain/tx_list.go:163-168 | finds the nonce in the heap and leaves a heap of the other keys |
| SortedMap.DropHighest | blockchain/tx_list.go:139-144 | deletes from the back of the sorted nonces, highest first, down to the limit |
| SortedMap.PrefixIsCap | blockchain/tx_list.go:139-144 | what the deletion leaves is the map's Cap |
| SortedMap.CapParts | blockchain/tx_list.go:132-153 | sort, delete and rebuild give the Cap, a heap of its keys, and exactly the dropped transactions |
| SortedMap.TxSortedMap.constructor | blockchain/tx_list.go:64-69 | empty and valid |
| SortedMap.TxSortedMap.Put | blockchain/tx_list.go:78-84 | refines map update |
| SortedMap.TxSortedMap.PopLowest | blockchain/tx_list.go:93-97 | takes the lowest nonce off heap and map together |
| SortedMap.TxSortedMap.Forward | blockchain/tx_list.go:89-103 | refines the cut at a threshold; removed plus rest is the old flattening; the shifted cache stays exact |
| SortedMap.TxSortedMap.Filter | blockchain/tx_list.go:107-128 | refines filtering; returns exactly what the predicate holds of |
| SortedMap.TxSortedMap.Cap | blockchain/tx_list.go:132-153 | refines Cap; returns exactly the dropped transactions, highest first; the sliced cache stays exact |
| SortedMap.TxSortedMap.Remove | blockchain/tx_list.go:157-174 | refines deletion of a key and reports whether it was there |
| SortedMap.TxSortedMap.TakeRun | blockchain/tx_list.go:183-229 | takes the maximal run from heap and map together |
| SortedMap.TxSortedMap.Ready | blockchain/tx_list.go:183-198 | takes exactly the maximal consecutive run starting at or below the given nonce, in order |
| SortedMap.TxSortedMap.ReadyWithGasPrice | blockchain/tx_list.go:208-229 | the same run cut at the first price below the base fee; the shifted cache stays exact |
| SortedMap.TxSortedMap.FillCache | blockchain/tx_list.go:248-254 | the cache is the contents in nonce order |
| SortedMap.TxSortedMap.FlattenByCount | blockchain/tx_list.go:243-260 | the lowest transactions up to a count, all for 0; a negative count panics |
| SortedMap.TxSortedMap.CachedTxsFlattenByCount | blockchain/tx_list.go:265-282 | at most the given number of the lowest transactions |
| SortedMap.TxList.constructor | blockchain/tx_list.go:295-300 | an empty list of the chosen strictness |
| SortedMap.TxList.Add | blockchain/tx_list.go:313-336 | inserts exactly unless the nonce holds a transaction the new one may not replace; returns the replaced one |
| SortedMap.TxList.Filter | blockchain/tx_list.go:354-426 | refines the loose or strict filter; returns exactly the dropped and the invalidated transactions |
| SortedMap.TxList.Remove | blockchain/tx_list.go:436-447 | removes one nonce, in a strict list also all above, and returns exactly those |
| SortedMap.LowestNonce | blockchain/tx_list.go:391-396 | the least nonce of a list that is not empty |
| SortedMap.StrictCut | blockchain/tx_list.go:387-399 | filtering and then cutting above the lowest removed nonce is the strict filter |
| SortedMap.SortedContents | blockchain/tx_list.go:248-254 | sorting the contents by nonce gives the flattened list |
| Priced.SlotSumWithout | blockchain/tx_pool.go:1815-1823 | the slot sum does not depend on the order of summation |
| Priced.SlotSumWith | blockchain/tx_pool.go:1804-1812 | adding a new transaction adds its slots |
| Priced.CountAtMostSlots | blockchain/tx_pool.go:894 | there are never more transactions than slots |
| Priced.TxLookup.constructor | blockchain/tx_pool.go:1760-1764 | empty and valid |
| Priced.TxLookup.Add | blockchain/tx_pool.go:1804-1812 | adds one entry and keeps the counter the true slot sum |
| Priced.TxLookup.Remove | blockchain/tx_pool.go:1815-1823 | removes one entry and keeps the counter the true slot sum |
| Priced.TxPricedList.constructor | blockchain/tx_list.go:537-542 | an empty heap over the lookup |
| Priced.TxPricedList.Put | blockchain/tx_list.go:545-547 | heap with the entry added |
| Priced.TxPricedList.PopCheapest | blockchain/tx_list.go:516-526 | takes out a cheapest entry |
| Priced.TxPricedList.Removed | blockchain/tx_list.go:552-567 | counts a stale entry, or rebuilds the heap as exactly the live transactions past a quarter; covering is kept |
| Priced.TxPricedList.Underpriced | blockchain/tx_list.go:602-624 | true exactly for a remote sender, a pool that is not empty and a price no live transaction undercuts |
| Priced.TxPricedList.Discard | blockchain/tx_list.go:628-651 | panics exactly for a negative request; otherwise returns only live remote transactions, cheapest first, none dearer than a live remote one left behind; enough slots counted per entry or all remote ones; no more than needed; every live remote entry is returned or stays |
| Priced.TxPricedList.PutBack | blockchain/tx_list.go:647-649 | pushes saved entries back |
| Discards.FreedExactly | blockchain/tx_list.go:628-651 | the slots counted per entry are those that leave the lookup exactly if no transaction was returned twice |
| Discards.OnceIsDistinct | blockchain/tx_list.go:628-651 | nothing is returned twice that does not stand in the heap twice |
| Discards.TwiceExactly | blockchain/tx_list.go:628-651 | without ties, something is returned twice exactly if the heap holds it twice and the request goes beyond its slots and those of all that is cheaper |
| Discards.FreedUnlessTwice | blockchain/tx_list.go:628-651 | so the slots counted are those freed exactly if there is no such transaction |
| Discards.BelowByCount | blockchain/tx_list.go:628-651 | the slots below a price depend only on how often each cheaper entry stands in the heap |
| Discards.BothCopies | blockchain/tx_list.go:628-651 | a cheapest transaction that stands in the heap twice is returned twice for two slots |
| Discards.DiscardsTwice | blockchain/tx_list.go:545-651 | a run: of four, the cheapest leaves and comes back; two slots are asked for and one is freed |
| Partition.TakePending | blockchain/tx_pool.go:1585-1619 | what leaves a pending list waits outside the lists, everything else stays split |
| Partition.TakeQueued | blockchain/tx_pool.go:1413-1443 | the same for a queued list |
| Partition.Drop | blockchain/tx_pool.go:1590-1595 | a transaction outside the lists can be dropped from the lookup |
| Partition.FilePending | blockchain/tx_pool.go:1017-1050 | a transaction outside the lists can be filed as pending |
| Partition.FileQueued | blockchain/tx_pool.go:974-999 | a transaction outside the lists can be filed as queued |
| Partition.Enter | blockchain/tx_pool.go:988-992 | a new transaction for a vacant nonce is not in the lookup and may enter |
| Partition.ReplacePending | blockchain/tx_pool.go:930-955 | replacing a pending transaction keeps the split |
| Partition.ReplaceQueued | blockchain/tx_pool.go:974-999 | replacing a queued transaction keeps the split |
| Partition.RemovePending | blockchain/tx_pool.go:1353-1388 | cutting a pending list at a removed transaction leaves exactly those above it to be filed again |
| Partition.RemoveQueued | blockchain/tx_pool.go:1378-1387 | deleting one queued transaction keeps the split |
| Partition.LimboIsVacant | blockchain/tx_pool.go:1374-1376 | a transaction taken out finds its nonce free in both lists, so queueing it again cannot fail |
| Partition.ByNonceIsByHash | blockchain/tx_pool.go:1366-1387 | for a live transaction, the list holding its nonce holds that transaction, and only one list does |
| Fees.ShareBounds | blockchain/types/tx_internal_data.go:638-645 | the payer's share is the percentage rounded down and at most the fee |
| Fees.SharesMonotone | blockchain/types/tx_internal_data.go:638-645 | both shares grow with the fee |
| Fees.NetShare | blockchain/state_transition.go:461-484 | rounding at purchase and at refund costs the payer the share of the difference or one unit more |
| Fees.FilterAgreesWithCheck | blockchain/tx_list.go:356-385 | the filter's balance test drops exactly what the arrival check would refuse |
| Nonces.ReadyIsRun | blockchain/tx_list.go:183-229 | what is taken as ready is an interval from the lowest queued nonce |
| Accounts.CutKeepsRun | blockchain/tx_pool.go:1366-1380 | an account whose pending list is cut, with the next nonce lowered to the cut but not below the state nonce, stays a run |
| Accounts.AllCutKeeps | blockchain/tx_pool.go:1366-1380 | cuts keep every account in order where no queue has gained anything |
| Accounts.CutToQueue | blockchain/tx_pool.go:1366-1380 | cutting at a pending nonce and queueing what was above keeps the order |
| Accounts.ScreenedAbove | blockchain/tx_pool.go:1413-1428 | what is queued and neither outdated nor pending lies at or above the next nonce of a run |
| Accounts.ReadyFrom | blockchain/tx_pool.go:1430-1443 | what is taken as ready is a run from the next nonce, payable, that cannot be extended |
| Accounts.PromotedInOrder | blockchain/tx_pool.go:1408-1459 | promotion puts an account that was in a run in order and leaves it nothing more to promote |
| Accounts.PromotedAdds | blockchain/tx_pool.go:1430-1443 | promotion only adds what was queued and clears the base fee |
| Accounts.PromotedRests | blockchain/tx_pool.go:1430-1443 | promotion from the state nonce: what it takes starts there; it joins the pending list, or leaves a gap at its end that the queue cannot fill |
| Accounts.CutResting | blockchain/tx_pool.go:1464-1531 | a cut keeps that |
| Accounts.RunMeets | blockchain/tx_pool.go:1437-1443 | a run put below a gapless list joins it or leaves a gap right at its end |
| Accounts.PromotedGap | blockchain/tx_pool.go:1430-1443 | promotion leaves a gap that the queue cannot fill, a next nonce above it and nothing queued below it |
| Accounts.CutAtGap | blockchain/tx_pool.go:1464-1531 | a list with a gap that is cut is a run exactly if it is cut at the gap or below, and then in order |
| Accounts.CutOutAgain | blockchain/tx_pool.go:1366-1380 | taking transactions out one by one, in any order, cuts a pending list at the lowest of them |
| TxPools.TxPool.constructor | blockchain/tx_pool.go:229-246 | empty, consistent, every account in order |
| TxPools.TxPool.GetPendingNonce | blockchain/tx_pool.go:1675-1682 | the remembered nonce unless the state has passed it, and remembers that |
| TxPools.TxPool.UpdatePendingNonce | blockchain/tx_pool.go:1690-1694 | lowers one account's pending nonce, never below the state nonce, and no other's |
| TxPools.TxPool.DropAll | blockchain/tx_pool.go:1415-1428 | drops transactions outside the lists from the lookup; consistent, still covered |
| TxPools.TxPool.RemoveFromLookup | blockchain/tx_pool.go:1361-1363 | takes one transaction outside the lists from the lookup |
| TxPools.TxPool.EnqueueTx | blockchain/tx_pool.go:974-999 | queues exactly unless the nonce holds a transaction that may not be replaced; a transaction taken out of a list is always accepted and changes neither lookup nor heap |
| TxPools.TxPool.AddToLookup | blockchain/tx_pool.go:948-950 | lookup and heap gain the transaction, covering is kept |
| TxPools.TxPool.Requeue | blockchain/tx_pool.go:1374-1376 | everything moved back is in the queue; lookup and heap are unchanged |
| TxPools.TxPool.PromoteTx | blockchain/tx_pool.go:1017-1050 | files one transaction as pending, never discarding or replacing, and moves the pending nonce past it |
| TxPools.TxPool.RemoveTx | blockchain/tx_pool.go:1353-1388 | exact new lists for a pending, a queued and an unknown hash; a pending list is cut at the removed nonce and the next nonce lowered to it; every account in a run or in order stays so |
| TxPools.TxPool.CutPending | blockchain/tx_pool.go:1366-1380 | cuts a pending list at a removed nonce, moves those above back to the queue; every account in a run or in order stays so |
| TxPools.TxPool.PruneQueue | blockchain/tx_pool.go:1413-1428 | shortens a queued list and drops what leaves it |
| TxPools.TxPool.PromoteRun | blockchain/tx_pool.go:1437-1443 | moves a run from queue to pending in nonce order; the pending nonce ends one past it |
| TxPools.TxPool.PromoteReady | blockchain/tx_pool.go:1430-1443 | promotes exactly the maximal ready run; the pending nonce ends one past it |
| TxPools.TxPool.Screen | blockchain/tx_pool.go:1413-1428 | keeps exactly the queued transactions that are neither outdated nor dropped by the filter |
| TxPools.TxPool.TrimQueue | blockchain/tx_pool.go:1445-1458 | caps a remote account's queue, leaves a local one, forgets an empty one |
| TxPools.TxPool.PromoteAccount | blockchain/tx_pool.go:1408-1459 | exact new pending list, queue and next nonce of one account, others untouched |
| TxPools.PromotedShare | blockchain/tx_pool.go:1408-1459 | the exact new lists are the account's promoted share, and no other share has changed |
| Truncation.CountAll | blockchain/tx_pool.go:1464-1468 | the counter is the true total |
| Truncation.DropHighest | blockchain/tx_pool.go:1496-1505 | one account loses its highest pending transaction; a cut |
| Truncation.Round | blockchain/tx_pool.go:1494-1507 | every offender goes down by one and the counter by their number |
| Truncation.LowerTo | blockchain/tx_pool.go:1493-1528 | offenders go down together until the limit or the floor, overshooting by less than a round |
| Truncation.PopGreatest | blockchain/tx_pool.go:1473-1485 | an entry of greatest priority |
| Truncation.Absorb | blockchain/tx_pool.go:1482-1510 | the next offender joins; the earlier ones are lowered towards its length |
| Truncation.LowerAll | blockchain/tx_pool.go:1513-1528 | all at one level are lowered to the limit or the guarantee |
| Truncation.TruncatePending | blockchain/tx_pool.go:1464-1531 | one level, at least the guarantee, to which every remote account above the guarantee is cut and nobody else; total within the limit or level at the guarantee; less than one round of overshoot; untouched below the limit |
| Truncation.TruncationIsFair | blockchain/tx_pool.go:1464-1531 | an account that was cut keeps at least the guarantee and ends no shorter than any other that may be cut |
| Truncation.RemoveQueuedTx | blockchain/tx_pool.go:1555-1570 | one removal lowers the true queued total by one and touches nothing pending |
| Truncation.RemoveWholeQueue | blockchain/tx_pool.go:1555-1563 | one account's queue is emptied, the total falls by its length |
| Truncation.RemoveFromBack | blockchain/tx_pool.go:1564-1570 | one account keeps exactly its lowest nonces |
| Truncation.SortByHeartbeat | blockchain/tx_pool.go:1696-1706 | each remote account once, by ascending heartbeat |
| Truncation.CutQueue | blockchain/tx_pool.go:1549-1571 | one turn drops the whole queue or just enough |
| Truncation.TruncateQueue | blockchain/tx_pool.go:1532-1572 | ends exactly at the limit or with every remote queue empty; local ones lose nothing; only the last one touched is cut in part, and loses its highest nonces |
| PoolAdd.AcceptedIsPayable | blockchain/tx_pool.go:672-847 | what validation accepts has a ratio in range, is not dropped by the filter in the same state and takes at most four slots |
| PoolAdd.FullOfOne | blockchain/tx_pool.go:894-929 | a pool that holds only a largest transaction gives it up for a smallest and asks for minus three slots |
| PoolAdd.AddPanics | blockchain/tx_pool.go:875-929 | a run: an empty pool of four slots, 128 KiB at nonce 5, then one byte at nonce 3 of the same sender, ends in the panic |
| PoolAdd.RemoveDropped | blockchain/tx_pool.go:924-928 | exactly the discarded transactions leave the lookup; each pending list is cut at the lowest discarded nonce and its next nonce lowered to that |
| PoolAdd.DiscardCheapest | blockchain/tx_pool.go:922-928 | panics exactly for a negative request; otherwise the cheapest remote ones leave, as many entries as it takes and no more |
| PoolAdd.MaxQueuedIsLive | blockchain/tx_pool.go:851-865 | the transaction given up is live and its slots are counted |
| PoolAdd.GiveUp | blockchain/tx_pool.go:894-906 | exactly the sender's highest queued transaction leaves the lookup, with its slots |
| PoolAdd.MakeRoom | blockchain/tx_pool.go:894-929 | exactly when it refuses, panics or succeeds; besides the transaction given up exactly the discarded ones leave, remote, cheapest first, as many entries as it takes and no more; each pending list cut at the lowest of them; the count falls |
| PoolAdd.ReplacePendingTx | blockchain/tx_pool.go:930-955 | pending list and lookup with the one transaction exchanged |
| PoolAdd.QueueNew | blockchain/tx_pool.go:956-961 | queues a new nonce, or replaces or is refused at a queued one |
| PoolAdd.Place | blockchain/tx_pool.go:930-969 | where the transaction ends up, what it replaces, and which sender becomes local |
| PoolAdd.PlacedKeeps | blockchain/tx_pool.go:930-969 | placing a validated transaction cuts nothing and keeps the order of every account |
| PoolAdd.Add | blockchain/tx_pool.go:875-969 | every refusal in order with lookup, lists, nonces and locals unchanged; otherwise the exact placing, after making room if the pool is full; exactly when making room fails, and that then only what was given up is gone |
| PoolAdd.AddingKeeps | blockchain/tx_pool.go:875-969 | adding only ever cuts pending lists and keeps the order of every account |
| PoolAdd.RefusedUnlessGone | blockchain/tx_pool.go:894-961 | once room is made the nonce is refused exactly if it was pending with a transaction the newcomer may not replace and that was not discarded |
| PoolAdd.RefusedAfterRoom | blockchain/tx_pool.go:894-961 | for a local sender, or if nothing more has to be freed, exactly if it was pending with a transaction the newcomer may not replace |
| PoolAdd.RefusedForNothing | blockchain/tx_pool.go:894-961 | an input: of four slots three are pending and one is queued; a second transaction for the pending nonce is refused and the queued one is gone |
| PoolAdd.RoomIsEnough | blockchain/tx_pool.go:894-929 | the newcomer fits after room was made, unless something was discarded twice or only local transactions are left |
| PoolRuns.PromoteAccounts | blockchain/tx_pool.go:1393-1459 | the share of every account looked at is promoted, every other share as it was |
| PoolRuns.CutNotReady | blockchain/tx_pool.go:1464-1531 | truncating a pending run makes nothing queued ready |
| PoolRuns.PromoteExecutables | blockchain/tx_pool.go:1393-1573 | promotion, then truncation: pending lists cut, queues shortened, nothing changed below the limits; both limits hold or only the exempt exceed them |
| PoolRuns.LimitsHold | blockchain/tx_pool.go:1464-1572 | a limit that is still exceeded is exceeded only by what truncation may not touch |
| PoolRuns.ExecutedAt | blockchain/tx_pool.go:1393-1573 | a run stays a run; an account looked at is in order with nothing left to promote, even after truncation |
| PoolRuns.ExecutedRests | blockchain/tx_pool.go:1393-1573 | under a new state nonce: what promotion and truncation leave of a gapless list |
| PoolRuns.ExecutedKeeps | blockchain/tx_pool.go:1393-1573 | the order of every account is kept |
| PoolRuns.AddTx | blockchain/tx_pool.go:1259-1276 | the step of adding and then the promotion of the sender; after a new nonce nothing left to promote; order of every account kept |
| PoolRuns.AddTxs | blockchain/tx_pool.go:1290-1314 | each result is that of adding in the state the transaction met, up to a panic; then one promotion for all senders that got a new nonce; order of every account kept |
| PoolRuns.AddedKeeps | blockchain/tx_pool.go:1290-1314 | a batch of any length only cuts pending lists and keeps the order of every account |
| PoolRuns.CheckAndAddTxs | blockchain/tx_pool.go:1236-1256 | the unsigned room never wraps; exactly the excess is refused; the rest is added as a batch |
| Demotion.ShrinkPending | blockchain/tx_pool.go:1585-1619 | a pending list is cut, part of it moves to the queue and the rest is dropped |
| Demotion.FirstUnderpriced | blockchain/tx_pool.go:1629-1646 | the lowest nonce priced below the base fee, if any |
| Demotion.DemoteInvalid | blockchain/tx_pool.go:1586-1619 | exactly what survives the nonce cut and the strict filter stays; exactly the invalidated rest is queued |
| Demotion.DemoteUnderpriced | blockchain/tx_pool.go:1629-1646 | the first transaction below the base fee and all above it go back to the queue |
| Demotion.DemotedInTwo | blockchain/tx_pool.go:1604-1646 | the partial moves to the queue add up to all that is demoted |
| Demotion.StandingIsExecutable | blockchain/tx_pool.go:1585-1652 | what stays starts at the state nonce, clears base fee and filter and is closed downwards |
| Demotion.PassingStands | blockchain/tx_pool.go:1585-1652 | whatever passes together with all below it stays |
| Demotion.StandingExactly | blockchain/tx_pool.go:1620-1627 | what stays has a gap exactly if the list had the state nonce and a nonce missing below one that passes together with all below it |
| Demotion.AnchoredIsWhole | blockchain/tx_pool.go:1620-1627 | a list without a gap from the state nonce on has no such hole |
| Demotion.DemoteAccount | blockchain/tx_pool.go:1585-1652 | exact new pending and queued lists of one account |
| Demotion.DemoteUnexecutables | blockchain/tx_pool.go:1578-1653 | every account is demoted by the full test, or by the light one only if 1000 or more were pending |
| Demotion.EveryoneSettled | blockchain/tx_pool.go:1578-1653 | so is every account without pending transactions, for which there is nothing to do |
| Demotion.RenewPendingNonces | blockchain/tx_pool.go:476-485 | one past the last pending transaction, other entries untouched |
| Demotion.RenewedIsRun | blockchain/tx_pool.go:476-485 | a gapless list at the state nonce with a renewed pending nonce is a run |
| PoolReset.RunForward | blockchain/tx_pool.go:457-459 | a run from one state nonce is gapless from any other, and starts there if the nonce did not fall |
| PoolReset.MetRests | blockchain/tx_pool.go:457-468 | what a run is once transactions have been brought back: any gap is at the next nonce and cannot be filled from the queue; none if the state nonce did not fall or nothing of the account came back |
| PoolReset.HoleStays | blockchain/tx_pool.go:474-488 | where demotion leaves a hole standing, the first gap is at the next nonce from before and cannot be filled from the queue |
| PoolReset.HoleAtEnd | blockchain/tx_pool.go:486-488 | the promotion after it does not fill the gap; the account ends in order exactly if truncation cuts at the gap or below |
| PoolReset.ResetExactly | blockchain/tx_pool.go:457-488 | at the end the pending nonces are the run from the new state nonce, with everything queued above, exactly if demotion met no hole or truncation cut the list at its first gap or below |
| PoolReset.ResetEach | blockchain/tx_pool.go:457-488 | for every account that was in a run: exactly that, and in order in any case if its state nonce did not fall or nothing of it came back |
| PoolReset.SwitchState | blockchain/tx_pool.go:457-459 | new state, no pending nonces remembered |
| PoolReset.SwitchRules | blockchain/tx_pool.go:490-496 | new rules and price |
| PoolReset.Reset | blockchain/tx_pool.go:448-497 | consistent under any new head; the batch brought back, demotion, renewal, promotion and truncation step by step; for every account that was in a run, exactly when it is in one again, and in order if its state nonce did not fall or nothing of it came back |
| PoolReset.LoadJournal | blockchain/tx_journal.go:64-122 | journalled transactions are added in batches as local ones; order of every account kept |
| PoolReset.Start | blockchain/tx_pool.go:225-276 | a new pool, reset to the head and filled from the journal, is consistent and every account in order |
| ResetGaps.ResetLeavesGap | blockchain/tx_pool.go:448-497 | a run: 5 and 6 pending at state nonce 5, a head with state nonce 3 brings back only 3; then 3, 5 and 6 are pending and 7 is next |
| ResetGaps.ExecutedAlone | blockchain/tx_pool.go:1393-1573 | in a pool with one account below the limits promotion leaves exactly its promoted share |
| ResetGaps.ThreeComesBack | blockchain/tx_pool.go:457-468 | the transaction brought back is promoted below the gap |
| ResetGaps.GapIsLeft | blockchain/tx_pool.go:474-488 | demotion, renewal and promotion leave the gap |
| PoolReset.Evict | blockchain/tx_pool.go:336-356 | exactly the idle remote queues are emptied, nothing pending changes, order of every account kept |
| PoolReset.Step | blockchain/tx_pool.go:281-371 | one event of any kind keeps the pool consistent, and every account in order that it does not disturb |
| PoolReset.Run | blockchain/tx_pool.go:281-371 | every run keeps the pool consistent; every account in order at the start is in order at the end unless some new head both lowered its state nonce and brought back a transaction of it |
| Blocks.AncestorOfAncestor | blockchain/headerchain.go:118-178 | an ancestor's ancestor is an ancestor |
| Blocks.AncestorParent | blockchain/headerchain.go:153-165 | the parent of an ancestor is the ancestor one below |
| Blocks.MeetAndAgree | blockchain/headerchain.go:153-165 | two chains that share a block share everything below it, so the rewrite may stop there |
| HeaderChains.AncestorStored | blockchain/headerchain.go:153-165 | every ancestor of a stored header is stored |
| HeaderChains.StoreHeader | blockchain/headerchain.go:118-141 | storing under a scored parent keeps scores the sums along the ancestry, and every header with its parent stored if that was so |
| HeaderChains.ParentKnown | blockchain/headerchain.go:122-127 | a parent has a score exactly if it is stored under the number below |
| HeaderChains.HeavierHead | blockchain/headerchain.go:142-175 | the heavier of head and newcomer is heaviest of all stored headers |
| HeaderChains.HeaderChain.constructor | blockchain/headerchain.go:68-103 | genesis alone, valid |
| HeaderChains.HeaderChain.DeleteAbove | blockchain/headerchain.go:145-152 | deletes exactly the canonical numbers from a number up |
| HeaderChains.HeaderChain.OverwriteStale | blockchain/headerchain.go:153-165 | below the new header the canonical numbers become its ancestors; the loop ends at the fork |
| HeaderChains.HeaderChain.Adopt | blockchain/headerchain.go:144-173 | the canonical numbers are exactly the new head's ancestry |
| HeaderChains.HeaderChain.WriteHeader | blockchain/headerchain.go:118-178 | refuses exactly an unknown parent; head by score and coin; valid; head score does not fall |
| HeaderChains.HeaderChain.WriteAll | blockchain/headerchain.go:118-178 | every run of writes keeps scores, canonical numbers and a heaviest head |
| Lookups.SplitIndex | blockchain/blockchain.go:2483-2500 | the index of a chain splits at every ancestor |
| Lookups.PartsDisjoint | blockchain/blockchain.go:2483-2500 | the two parts share no transaction |
| Lookups.OneLower | blockchain/blockchain.go:2429-2470 | one block further down adds that block's entries |
| Lookups.ReorgIndex | blockchain/blockchain.go:2483-2500 | writing the new branch and deleting what was dropped and not added again gives the index of the new chain |
| Lookups.ReorgFinds | blockchain/blockchain.go:2483-2500 | and whatever else the index held, every transaction of the new chain is found where it is |
| Lookups.FindsLower | blockchain/headerchain.go:392-442 | what finds the transactions of a chain finds those of every ancestor's |
| Lookups.TxDifference | blockchain/types/transaction.go:859-874 | exactly the transactions of the first list not in the second |
| BlockChains.BlockChain.constructor | blockchain/blockchain.go:788-808 | genesis alone, valid, both heads on it |
| BlockChains.BlockChain.Insert | blockchain/blockchain.go:878-895 | canonical entry and head; header head moved only if the number was not already on this block |
| BlockChains.BlockChain.NextDown | blockchain/blockchain.go:2462-2469 | what is found as the parent of an ancestor is the next ancestor, exactly if that is stored |
| BlockChains.BlockChain.ReduceOld | blockchain/blockchain.go:2429-2436 | the ancestor at a number and exactly the transactions above it; the old chain is always stored, so this never fails |
| BlockChains.BlockChain.ReduceNew | blockchain/blockchain.go:2437-2442 | the ancestor at a number and the blocks above it, from the top; fails exactly if one of them is missing |
| BlockChains.BlockChain.FindFork | blockchain/blockchain.go:2450-2470 | the highest common ancestor, with the branches above it; fails exactly if a block of the new chain is missing |
| BlockChains.BlockChain.InsertBranch | blockchain/blockchain.go:2483-2491 | canonical numbers follow the new head, those above it are as they were; the head header stays on the canonical chain, and is the new head unless that was canonical; index entries of the branch are written |
| BlockChains.BlockChain.Reorg | blockchain/blockchain.go:2402-2509 | succeeds exactly if the whole chain of the new block is stored; canonical numbers and index are then those of the new chain; numbers above the new head are as they were; where the head header is; otherwise nothing changes |
| BlockChains.ExactUnlessShorter | blockchain/blockchain.go:2483-2491 | canonical numbers that ended at the old head end at the new one exactly if that is not lower |
| ForkRuns.ShorterFork | blockchain/blockchain.go:1653-1671 | a run: a heavier block of a lower number is adopted and the number above it stays canonical |
| BlockChains.BlockChain.StoreBlock | blockchain/blockchain.go:1631-1639 | header, body and score stored; the sum along the ancestry |
| BlockChains.BlockChain.AdoptBlock | blockchain/blockchain.go:1653-1671 | the block is head exactly if its chain is stored, whether it extends the head or not; all that every run keeps is kept, and all that writes alone keep |
| BlockChains.BlockChain.MoveHeads | blockchain/blockchain.go:1653-1671 | the moves of an adoption: numbers and index to the new chain, the head header only if the block was not canonical |
| BlockChains.StillNoneHeavier | blockchain/blockchain.go:1653-1671 | no canonical entry is heavier than the head, also above it, after every adoption |
| BlockChains.BlockChain.WriteBlock | blockchain/blockchain.go:1614-1676 | exactly when each result occurs, from any point of any run; head by score, number and coin; head score does not fall; numbers above the head as they were; after writes alone no reorganisation fails, and the heads part exactly if the block is a lower ancestor of the head, as heavy as it, whose state is written only now |
| BlockChains.BlockChain.AncestorKnown | blockchain/blockchain.go:1614-1676 | an ancestor of the head is stored, its parent too, and it is no heavier |
| BlockChains.BlockChain.WriteBlocks | blockchain/blockchain.go:1614-1676 | every run of writes keeps chain and index exact and the head score from falling; head header and head block are one, or the head header has score 0 |
| BlockChains.BlockChain.HeadsPart | blockchain/blockchain.go:878-895 | after any run of writes the two heads are one, or the head header is not genesis and has score 0 |
| ForkRuns.HeadsCanPart | blockchain/blockchain.go:878-895 | a run with a block of score 0 after which they differ |
| Rewinds.SeekState | blockchain/blockchain.go:558-592 | a block of the chain with state, at or below the root asked for, or genesis; on a complete chain exactly the highest with state at or below the highest with that root |
| Rewinds.UpdateHead | blockchain/blockchain.go:549-612 | the head block moves to a block with state at or below the header and the root asked for, never to genesis, or is untouched if already lower; on a complete chain to the highest such block |
| Rewinds.Repair | blockchain/blockchain.go:634-640 | the repair mode: the header chain stays, the head block goes to the highest block with state at or below the highest with the root asked for, or nothing changes |
| Rewinds.SoughtAccepted | blockchain/blockchain.go:558-592 | what is skipped has no state, or not the root asked for |
| Rewinds.DeleteHead | blockchain/headerchain.go:422-436 | exactly one block of the old chain leaves every store, the rest stays stored and canonical |
| Rewinds.StepDown | blockchain/headerchain.go:394-402 | a parent found for the head header is the next ancestor |
| Rewinds.FollowDown | blockchain/blockchain.go:549-612 | the first half of a turn of the loop: the head block follows the header down, and no accepted block is skipped |
| Rewinds.StepBack | blockchain/headerchain.go:394-440 | one turn of the loop: the header goes down by one, or the rewind fails; a missing parent counts as genesis |
| Rewinds.SetHead | blockchain/headerchain.go:392-442 | exactly the blocks above the head header are gone from every store, on failure too; on success one stored block with state and the root asked for, at or below the target, is both heads; a missing ancestor makes it fail, as genesis; on a complete chain success exactly if such a block exists, and it is the highest; nothing happens for a target at or above the head |
| Rewinds.SoundIsRewindable | blockchain/blockchain.go:540-612 | any chain that any run of writes, rewinds and repairs can reach can be rewound, with all headers and bodies of both heads stored |
| Rewinds.RootedUnlessOrphaned | blockchain/headerchain.go:422-436 | every remaining header still has its parent exactly if none had a deleted one |
| Resumes.IndexBelow | blockchain/headerchain.go:392-442 | the index, which a rewind leaves alone, is that of the lower head exactly if the blocks given up had no transactions |
| Resumes.NoneHeavierExactly | blockchain/headerchain.go:430-436 | no canonical entry is heavier than the new head exactly if none left above the old head is |
| Resumes.ValidExactly | blockchain/blockchain.go:540-660 | after a rewind that succeeds, all that writes alone keep holds again exactly if it was clean: no remaining header lost its parent, the blocks given up had no transactions, and no number left above is heavier than the new head |
| Resumes.RootedExactly | blockchain/headerchain.go:422-436 | the first of these, read off beforehand |
| Resumes.StoredAfter | blockchain/headerchain.go:422-436 | headers, bodies and scores after a rewind are still those of the same blocks |
| Resumes.StillFinds | blockchain/headerchain.go:392-442 | every transaction of the lower head's chain is still found where it is |
| Resumes.SoundAfter | blockchain/headerchain.go:392-442 | a rewind, whether it succeeds or not, keeps all that every run keeps |
| Resumes.Rewind | blockchain/blockchain.go:518-660 | a rewind from any point of any run: kept invariants, exactly when it succeeds, and exactly when writes can go on as if nothing had been rewound |
| Resumes.Mend | blockchain/blockchain.go:634-640 | a repair from any point of any run keeps the invariants |
| Resumes.Run | blockchain/blockchain.go:1614-1676 | every run of writes, rewinds and repairs in any order: both heads on the canonical chain, all of it stored, scores the sums along the ancestry, every transaction of the head's chain found where it is |
| ForkRuns.OrphanedBranch | blockchain/headerchain.go:392-442 | a run: writing a side branch and rewinding below where it forks leaves its header without a parent |
| ForkRuns.FailedReorg | blockchain/blockchain.go:1653-1663 | a run: a heavy block on that branch is stored, the reorganisation to it fails and the head stays |
| ForkRuns.StaleIndex | blockchain/headerchain.go:392-442 | a run: a block with a transaction is written and rewound, and the index still finds it |
| Rewinds.RewindStaysExact | blockchain/headerchain.go:430-436 | canonical numbers that ended at the old head end at the new one |
| Reinjects.WalkDown | blockchain/tx_pool.go:415-428 | the ancestor at a number and exactly the transactions above it; fails exactly if a block down to there is missing |
| Reinjects.WalkBoth | blockchain/tx_pool.go:429-440 | the fork and exactly the transactions of each branch above it; fails exactly if a block of either branch down to the fork is missing |
| Reinjects.CollectDifference | blockchain/tx_pool.go:415-441 | exactly the transactions of the old branch that the new one does not include; gives up exactly if a block of either branch down to the fork is missing |
| Reinjects.ForkOf | blockchain/tx_pool.go:429-440 | two chains on one genesis fork somewhere, at genesis at the latest |
| Reinjects.NothingAbandoned | blockchain/tx_pool.go:441 | an extension abandons nothing |
| Reinjects.Reinject | blockchain/tx_pool.go:382-447 | skips extensions and deep moves; gives up exactly if the old head is missing and the new one not lower, or a block of either branch down to the fork is missing; otherwise the difference of the branches |
| HeadChanges.ChangeHead | blockchain/tx_pool.go:382-497 | exactly when the pool moves and what is brought back; an account in a run is in order afterwards if its state nonce did not fall or nothing of it came back, so every one after an extension or a deep move |
| Feeds.DeleteFromPrefix | event/feed.go:174-181 | deleting from the shared array deletes from the active prefix, or leaves it alone |
| Feeds.SubsAfterSwap | event/feed.go:231-235 | swapping with the last active case removes one case from the active prefix only |
| Feeds.Feed.constructor | event/feed.go:67-72 | no subscribers, valid |
| Feeds.Feed.Find | event/feed.go:216-223 | the first case with the channel, or none |
| Feeds.Feed.Delete | event/feed.go:226-228 | shifts in place: exactly one case leaves |
| Feeds.Feed.Deactivate | event/feed.go:231-235 | swaps in place and shortens the active prefix |
| Feeds.Feed.Subscribe | event/feed.go:79-99 | one more subscription, in the inbox |
| Feeds.Feed.Unsubscribe | event/feed.go:110-122 | leaves the inbox at once or waits for removal from the cases |
| Feeds.Feed.RemoveCase | event/feed.go:123-130 | a waiting removal always finds its case |
| Feeds.Feed.FinishUnsubscribe | event/feed.go:123-130 | exactly one case of the channel is gone |
| Feeds.Feed.MergeInbox | event/feed.go:141-144 | the inbox joins the cases |
| Feeds.Feed.Deliver | event/feed.go:163-169 | one delivery moves one subscription from active to sent |
| Feeds.Feed.TrySendAll | event/feed.go:163-169 | one pass accounts for every subscription |
| Feeds.Feed.RemoveWhileSending | event/feed.go:174-181 | an undelivered case leaves the active prefix with its removal; len(cases) shrinks |
| Feeds.Feed.Send | event/feed.go:135-193 | per channel at most as many deliveries as subscriptions at the start, at least those not removed; the count returned; ends under every interleaving |
| Indexers.OneMoreSection | blockchain/chain_indexer.go:313-315 | a section on top of the last head keeps the index linked |
| Indexers.FewerSections | blockchain/chain_indexer.go:417-421 | removing the last section keeps the index linked |
| Indexers.StillThere | blockchain/chain_indexer.go:313 | if the predecessor's head is still in place the index was not cut |
| Indexers.ChainIndexer.constructor | blockchain/chain_indexer.go:99-116 | empty and valid |
| Indexers.ChainIndexer.SetValidSections | blockchain/chain_indexer.go:411-423 | exactly the sections below stay, the persisted count agrees |
| Indexers.ChainIndexer.NewHead | blockchain/chain_indexer.go:227-266 | a reorganisation cuts stored, known and cascaded to the section boundary at or below it; otherwise known rises to the most confirmed sections |
| Indexers.ChainIndexer.ProcessSection | blockchain/chain_indexer.go:347-376 | under any schedule of what happens meanwhile: exactly the run found by reading each block at its moment, one section of blocks on top of the given head, the last canonical when read |
| Indexers.ChainIndexer.Update | blockchain/chain_indexer.go:283-338 | commits exactly if the section was found and the index never cut below it; the new head is canonical exactly if nothing rewrites the chain after its last block was read or the last to do so has it in place; otherwise waits for a notification; idle when nothing is known |
| Indexers.StaysCanonical | blockchain/chain_indexer.go:303-315 | a block canonical before some changes is so after them exactly if the last that rewrites the chain, if any, has it at its number |
| Indexers.MostConfirmed | blockchain/chain_indexer.go:253-265 | the sections known after a new head are the most it confirms, or as before if those were more |
| Indexers.ChainIndexer.Interfere | blockchain/chain_indexer.go:227-266 | notifications cut the index to the lowest section one of them names; the chain is the one last written |
| Indexers.StaleSection | blockchain/chain_indexer.go:227-338 | a run: a reorganisation inside the section in flight, after its last block was read, cuts nothing; the section is added with a head that is not canonical |
| Indexers.ChainIndexer.Run | blockchain/chain_indexer.go:181-338 | every schedule keeps heads exactly below the stored count, each one section on top of the one before |
| StateTransitions.TotalCredit | blockchain/state_transition.go:253-254 | a credit changes the sum of balances by its amount |
| StateTransitions.ChargeTotal | blockchain/state_transition.go:228-271 | splitting an amount over payer and sender loses nothing |
| StateTransitions.AcceptedCanPay | blockchain/tx_pool.go:761-826 | what the pool's check accepts can buy gas at any price up to its own, without a negative balance and still covering its value, also when sender and payer are one |
| StateTransitions.BuyFailure | blockchain/state_transition.go:236-262 | nobody is short exactly if gas can be bought |
| StateTransitions.NegativeExactly | blockchain/state_transition.go:236-254 | buying gas overdraws an account exactly if sender and fee payer are one, share the fee and cannot pay it whole |
| StateTransitions.OverdraftExample | blockchain/state_transition.go:236-254 | a balance of 50, a fee of 100 shared half and half with oneself: minus 50 |
| StateTransitions.StateTransition.constructor | blockchain/state_transition.go:191-208 | no gas bought yet |
| StateTransitions.StateTransition.BuyGas | blockchain/state_transition.go:228-271 | who is short, or the whole limit charged in shares |
| StateTransitions.StateTransition.PreCheck | blockchain/state_transition.go:273-295 | nonce first, then purchase; nothing changes on failure |
| StateTransitions.StateTransition.Execute | blockchain/state_transition.go:336-369 | the first failing check after the purchase, and the balances it leaves |
| StateTransitions.StateTransition.RefundGas | blockchain/state_transition.go:461-484 | the counter up to the quotient share of gas used, exactly; what is left is paid back in shares |
| StateTransitions.StateTransition.TransitionDb | blockchain/state_transition.go:311-394 | the first failing check or the exact new balances; a failure before the purchase changes nothing, one after it leaves the whole gas charged; value conserved, or lowered by exactly the deferred fee |
| StateTransitions.FeesAddUp | blockchain/state_transition.go:228-484 | purchase, refund and reward sum to the price of the gas used and back |
| StateTransitions.NetPayments | blockchain/state_transition.go:228-484 | payer and sender together pay exactly for the gas used; the payer its rounded share or one unit more |
| Evm.StaysOff | blockchain/evm.go:103-135 | off the stored chain the walk never returns |
| Evm.HashLookup.constructor | blockchain/evm.go:103-108 | empty cache |
| Evm.HashLookup.GetHash | blockchain/evm.go:103-135 | agrees with the plain parent walk, numbers counted in 64 bits, for every number and whatever was asked before; the empty hash off the stored chain |
| Evm.TopNumberMatches | blockchain/evm.go:103-135 | number 2^64 - 1 is answered by a hash that is not empty exactly if the walk reaches a block 0 whose parent hash is not empty |
| Evm.TopNumberExample | blockchain/evm.go:103-135 | one such chain |
| Evm.AboveIsEmpty | blockchain/evm.go:103-135 | every other number from the reference block on is answered with the empty hash, exactly unless block 0 names a parent stored under 2^64 - 1 that names one itself |
| Evm.AboveExample | blockchain/evm.go:103-135 | one such chain |
| Evm.CapIsAffordable | blockchain/evm.go:169-193 | the cap is within limit, node cap and balance |
| Evm.SearchGas | blockchain/evm.go:195-227 | for every cap and trial for which the search ends: a tried and successful amount, least for a monotone trial; each failure from the trial it names; success when the cap succeeds |
| Evm.EstimateGas | blockchain/evm.go:149-227 | the same under the computed cap, affordable, refused exactly for a nonzero price and a value not below the balance |
| Evm.GapShrinks | blockchain/evm.go:195-208 | without overflow each failing round brings the bounds closer |
| Evm.BelowHalf | blockchain/evm.go:195-208 | above 2^63 the wrapped middle never reaches the upper half |
| Evm.FailingSearchDiverges | blockchain/evm.go:195-208 | with an always failing trial the search is endless exactly above 2^63 |
| Evm.EndsExactly | blockchain/evm.go:195-208 | the search ends exactly if the cap is at most 2^63 or one of the amounts it would try does not fail |

## Left out

- Evm.EstimateGas: missing parameters count as zero; a search that does not end has no result to state anything of.
- Evm.HashLookup.GetHash: the header set is fixed during the life of the closure, and the reference number fits in 64 bits.
- Discards.TwiceExactly: is for heaps without ties in price and nonce, because among ties the heap decides.
- Rewinds.SetHead: fast block marker, receipts, snapshots and governance data are not modelled.
- BlockChains.BlockChain.Reorg: logs and side chain events are not modelled.
- PoolAdd.Add: type, chain id, signature, account key and intrinsic gas checks are one abstract set of refused transactions, reported after the other checks. How often a transaction stands in the price heap is not part of what the step reads, so `gone` may name one twice.
- BlockChains.BlockChain.WriteBlock: written blocks must not repeat a transaction of their own chain, which consensus guarantees through nonces.
- HeaderChains.HeaderChain.WriteHeader: header validation and the number and score caches are not modelled; caches are transparent.
- StateTransitions.StateTransition.TransitionDb: prefetching, access lists and tracing are not modelled; executing is a parameter that returns no more gas than it was given.
- SortedMap.TxList.Filter: the pool keeps its lists as plain map values of what these objects compute, so aliasing of list objects inside the pool is not captured.
- Feeds.Feed.Send: values, element types and the locks are not modelled; a subscription is a channel with multiplicity.
- Indexers.ChainIndexer.NewHead: child indexers, known section heads set by hand and the throttling timer are not modelled.
- Indexers.ChainIndexer.ProcessSection: the reset of the section count after a failed back end runs without the lock in the code and is one step here.
- The nonce and number counters are unbounded; wrap-around is modelled where it matters (pool room, gas search, ancestor lookup).
- Standard library heap, sort and priority queue are modelled by implementations of their own, since their source is not part of the repository.
- Out of scope: setting the gas price, the price heap's own cap, status and content getters, writing the journal, the transaction feed channel and the spam throttler.
- Parallel block writing: the same fork choice as the serial one.
- Future blocks and pruned ancestors on insertion: they depend on engine results and wall-clock time.
