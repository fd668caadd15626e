# Erbie chain core: a Dafny model

Erbie is an Ethereum client in the go-ethereum line. This project models the state machines at its
core and proves what every run of them keeps:

- the **transaction pool** (`core/tx_pool.go`, `core/tx_list.go`, `core/tx_noncer.go`): nonce-sorted lists
  over a heap and a cached view, pending and queued lists beside a hash lookup with slot accounting, two
  price heaps with stale entries, virtual nonces, fair truncation, and resets to a new chain head;
- the **canonical chain** (`core/headerchain.go`, `core/blockchain.go`): header batches, total difficulty,
  the number-to-hash markers, reorgs, the transaction lookup and rewinds;
- the **chain indexer** (`core/chain_indexer.go`): sections processed without the lock while heads and
  reorgs arrive;
- the **event feed** (`event/feed.go`): one slice permuted in place while subscribers come and go;
- **gas accounting** (`core/state_transition.go`, `core/state_processor.go`, `core/gaspool.go`);
- the **ancestor hash cache** (`core/evm.go`) and **derivation paths** (`accounts/hd.go`).

## How it is modelled

Objects that the program updates in place are classes with the same fields and with methods that state
their whole effect. Each has a specification over plain values beside it (`TxItems`, `TxListSpec`,
`PoolSpec`, `PoolRuns`, `Refills`, `ResetGaps`, `Counting`, `WaterLevel`, `BlockTree`, `HeaderSpec`,
`BlockSpec`, `SectionSpec`, `CaseSpec`, `GasSpec`, `Texts`), and the hard lemmas are about those values. A method that runs under one lock is one
step. Hashes are numbers, zero is the empty hash, and a ghost function `origin` from hashes to what they
are the hash of says that hashes do not collide. Databases are maps; a batch is a local copy that replaces
the map when it is written.

What comes from outside is a parameter or a nondeterministic choice: coin tosses, interrupts, the outcome
of `validateTx` apart from size and nonce, state roots that can be opened, receivers that take a value or not,
what other goroutines do in between, what each read of the chain database finds, and the virtual machine,
which is assumed to return no more gas than it got and to create no balance.

## Where the code falls short of what one would expect

A condition that is named here is exact: it is proved in both directions. A member named in parentheses is
a run that shows the point.

- `writeHeaders` writes markers for headers it already knew only up to the first new one. A batch that is
  chosen but brings no new header leaves the markers as they were (`KnownTie`), and a batch on top of the
  head whose first header is known leaves a gap. The markers are right exactly when no reorg was chosen or
  `Adoptable` held before; with the head the heaviest header and positive difficulties, one new header is
  enough.
- `reorg` clears markers above the current head, which is still the old one when fewer than two blocks are
  adopted. A new head lower than the old one then leaves the old markers above it: exactly the condition
  `LeavesMarkers` (`LowerTie`). The transaction lookup is right in every case.
- `SetHeadBeyondRoot` does not touch the header chain when the head block is already at the target height,
  even if headers reach higher (`RepairOnly`). It also leaves the transaction lookup as it is. A lookup that
  was right before is right afterwards exactly if the blocks of the old chain above the new head have no
  transactions (`StaleLookup`).
- A transaction that leaves the pool and returns before the price heaps are rebuilt has two live entries
  (`SentTwice`), and `Discard` counts its slots twice. Let `Booked` be the slots of all live entries, each
  entry counted. An accepted remote transaction leaves the pool above its capacity only if two entries of one
  transaction were evicted for it, `Booked` is more than the slots of the remotes, which says that there are
  such twins, and it needs no more than `Booked` slots. Conversely, if there are twins, one that is dearer
  than all entries and needs exactly `Booked` slots is accepted and ends above. Validation refuses
  transactions of more than four slots, so that one exists only if its size is within four (`Overfiller`);
  the condition is exact for such pools, and for all pools but for that limit. Within the limit there is a
  second exact case: when the floating heap is empty and the entries of a transaction cheaper than all others
  are counted for the slots needed, it alone is evicted, and the pool ends above its capacity exactly if it
  takes fewer slots than are needed (`Overfill`, with a transaction of two slots). A transaction makes a twin
  exactly if an entry of it is still in the heaps.
- Pending nonces stay in sequence through every run against one head, and through new heads that extend
  the old one without lowering a nonce. After any other reset they are in sequence exactly if no account is
  `Troubled` right before promotion. There are three kinds of trouble: a virtual nonce that an eviction took
  below the new state nonce, so that nothing is promoted; a first pending transaction that cannot be paid
  while the reset gives up and the head stays; and a lowered state nonce whose run of queued transactions
  ends before the pending ones begin, when the first of those can be paid and the account may keep more than
  that run: it is local, or the water level of truncation is higher (`LoweredNonceLeavesGap`). What the
  accounts are right before promotion is a function of what they were before the call, of what is put back,
  and of the evictions and errors on the way; when what is put back fits the capacity there are no evictions,
  and the errors follow as well. The water level is fixed by what survives promotion and demotion, which is
  a function of the same.
- An empty derivation path prints as a bare `m`, which does not parse; every other path survives.
- The comment of `GetAncestor` speaks of any block; given the empty hash and a number above the head, its
  short cut takes two missing markers for a match and answers with a marked block.

## Model

| member | source | states |
|---|---|---|
| `Heap.Push` | core/tx_list.go:73-80 | pushing keeps the heap order and adds exactly the one element |
| `Heap.Pop` | core/tx_list.go:84-102 | popping returns a least element and keeps the order and the rest |
| `Heap.Remove` | core/tx_list.go:168-185 | removing at an index keeps the order and exactly the other elements |
| `Heap.Init` | core/tx_list.go:114-121 | reordering any sequence gives a heap with the same elements |
| `TxSortedMaps.Sort` | core/tx_list.go:151 | sorting gives the same nonces in rising order, for `Cap` to take the highest |
| `TxSortedMaps.TxSortedMap.Put` | core/tx_list.go:73-80 | the item is stored, the index stays a heap over exactly the keys, and a stale cache is dropped |
| `TxSortedMaps.TxSortedMap.Forward` | core/tx_list.go:84-102 | removes exactly the items below the threshold; the shifted cache is still the sorted view |
| `TxSortedMaps.TxSortedMap.FilterItems` | core/tx_list.go:125-139 | removes and returns exactly the matching items |
| `TxSortedMaps.TxSortedMap.Filter` | core/tx_list.go:105-121 | the same, with the index rebuilt |
| `TxSortedMaps.TxSortedMap.Cap` | core/tx_list.go:143-164 | keeps the lowest nonces up to the threshold, returns the others, and shifts the cache to match |
| `TxSortedMaps.TxSortedMap.Remove` | core/tx_list.go:168-185 | removes exactly that nonce and says whether it was there |
| `TxSortedMaps.TxSortedMap.Ready` | core/tx_list.go:194-209 | takes out exactly the consecutive run that starts at the lowest nonce, if that is not above the start |
| `TxSortedMaps.TxSortedMap.Flatten` | core/tx_list.go:216-237 | returns the items in nonce order, from the cache or by sorting |
| `TxSortedMaps.TxSortedMap.LastElement` | core/tx_list.go:241-244 | returns the item with the highest nonce |
| `TxLists.TxList.Add` | core/tx_list.go:279-312 | accepts a new nonce or a sufficient price bump, and keeps both caps upper bounds of the transactions that are not of wormholes type 4 |
| `TxLists.TxList.Filter` | core/tx_list.go:330-369 | removes exactly the unpayable transactions, and in strict mode everything above the lowest of them, short circuit included |
| `TxListSpec.FilterIgnoresCaps` | core/tx_list.go:331-334 | when both caps are within the limits nothing is unpayable, so the short circuit changes nothing |
| `TxListSpec.FilterPartitions` | core/tx_list.go:330-369 | kept, removed and invalidated transactions share out the list, and what a strict filter keeps is below what it removes |
| `TxListSpec.FilterKeepsRuns` | core/tx_list.go:356-366 | a contiguous list stays contiguous under a strict filter |
| `TxLists.TxList.Remove` | core/tx_list.go:380-393 | removes one nonce and, in strict mode, returns and drops everything above it |
| `TxLists.TxList.Forward` | core/tx_list.go:317-319 | removes exactly the transactions below the threshold |
| `TxLists.TxList.Cap` | core/tx_list.go:373-375 | keeps the lowest nonces up to the threshold |
| `TxLists.TxList.Ready` | core/tx_list.go:400-402 | takes out exactly the executable run |
| `TxLookups.TxLookup.Get` | core/tx_pool.go:1763-1771 | finds a transaction exactly when its hash is known |
| `TxLookups.TxLookup.Add` | core/tx_pool.go:1822-1834 | adds one hash on one side and its slots to the total |
| `TxLookups.TxLookup.Remove` | core/tx_pool.go:1837-1853 | removes one hash and exactly its slots |
| `TxLookups.TxLookup.RemoteToLocals` | core/tx_pool.go:1858-1871 | moves exactly the remotes of local accounts and counts them; hashes and slots do not change |
| `PricedLists.PriceOrderIsOrder` | core/tx_list.go:439-463 | the comparison by effective tip, fee cap, tip and nonce is a strict order |
| `PricedLists.TxPricedList.Put` | core/tx_list.go:510-516 | tracks one more entry for a remote transaction and none for a local one |
| `PricedLists.TxPricedList.Removed` | core/tx_list.go:521-529 | the heaps stay as they are while no more than a quarter of the entries may be stale, and are rebuilt from exactly the remotes otherwise |
| `PricedLists.TxPricedList.Underpriced` | core/tx_list.go:533-563 | drops stale entries only, and compares with the cheapest live entry of each heap |
| `PricedLists.TxPricedList.TakeCheapest` | core/tx_list.go:570-590 | one round drops a stale entry, moves the cheapest urgent one, or sets aside a live entry than which none in the floating heap is cheaper; an entry that is cheapest by both orders goes before all others; twice the urgent plus the floating entries falls |
| `PricedLists.TxPricedList.Discard` | core/tx_list.go:567-603 | sets aside live remotes worth at least the slots asked for, or all of them when forced, or puts everything back; no live entry is lost; entries of the cheapest transaction alone are taken when they are enough |
| `PricedLists.TxPricedList.Reheap` | core/tx_list.go:606-628 | the entries become exactly the remotes, split over two heaps |
| `PricedLists.TxPricedList.SetBaseFee` | core/tx_list.go:632-635 | the heaps are rebuilt in the order of the new base fee |
| `Counting.Freed` | core/tx_pool.go:739-752 | evicting frees at most what was counted, and exactly that if and only if nothing was counted twice |
| `Counting.Evicting` | core/tx_pool.go:739-752 | what is picked is counted for no more than all live entries are; if those are counted for exactly the slots of the remotes, evicting frees exactly what was counted |
| `Counting.CountedTwinless` | core/tx_list.go:510-529 | the live entries are counted for exactly the slots of the remotes if and only if none has a twin |
| `Counting.JoinsTwinless` | core/tx_list.go:510-516 | a new remote transaction keeps the heaps without twins if none of its entries is left, and, when it replaces nothing, only then |
| `Twins.SentTwice` | core/tx_list.go:510-529 | a pool in which a remote transaction was removed and sent again, and has two live entries |
| `Twins.Overfill` | core/tx_pool.go:729-752 | a run that leaves a pool of four slots with five: two entries of one evicted transaction were counted |
| `TxNoncers.TxNoncer.Get` | core/tx_noncer.go:45-55 | the virtual nonce, the state's one where none was set; reading changes no nonce |
| `TxNoncers.TxNoncer.Set` | core/tx_noncer.go:59-64 | sets one account's nonce and no other |
| `TxNoncers.TxNoncer.SetIfLower` | core/tx_noncer.go:68-79 | lowers one account's nonce to the minimum and changes no other |
| `TxPools.TxPool.constructor` | core/tx_pool.go:182-218 | starts empty, with its structures in agreement and nonces in sequence, whatever the limits given |
| `TxPools.TxPool.Agreement` | core/tx_pool.go:709-885 | the invariant in plain words: the lookup holds exactly the pending and queued transactions, no nonce is in both lists, locals and remotes are disjoint, slots add up, and every remote is in a price heap |
| `TxPools.TxPool.EnqueueTx` | core/tx_pool.go:802-838 | puts a transaction in the queue or rejects it, replacing the one with its nonce; the lookup, the slots and the price heaps follow |
| `TxPools.TxPool.PromoteTx` | core/tx_pool.go:855-885 | puts a transaction in transit among the pending ones and raises the virtual nonce past it |
| `TxPools.TxPool.RemoveTx` | core/tx_pool.go:1057-1103 | removes one transaction, moves later pending ones back to the queue, lowers the virtual nonce, keeps nonces in sequence, and tells the price heaps only when asked to |
| `TxPools.TxPool.Exchange` | core/tx_pool.go:815-832 | a new transaction takes the place of an old one, if any, in the lookup and the heaps, which may be rebuilt in between |
| `TxPools.TxPool.Choose` | core/tx_pool.go:731-747 | what is picked for eviction is live and counted for the slots needed; one dearer than all entries is never underpriced, and is refused only if all live entries together do not make enough room |
| `TxPools.TxPool.MakeRoom` | core/tx_pool.go:729-753 | a remote transaction that is not underpriced is let in exactly if the slots it needs are no more than all live entries are counted for; it fits the capacity afterwards if those are counted for no more than the remotes take; a refused one changes no list, and no local transaction is ever evicted; the lists of every account change by just the evictions |
| `TxPools.TxPool.ReplacePending` | core/tx_pool.go:754-778 | replaces a pending transaction exactly when it is outbid |
| `TxPools.TxPool.Add` | core/tx_pool.go:709-797 | when each error is returned and that it changes no list, what becomes of every account, and that every outcome keeps the invariant and the sequence of nonces; the two halves of the exact condition for ending above the capacity; when the heaps stay without twins; which transaction goes when the cheapest one makes enough room, and exactly when that overfills the pool |
| `TxPools.TxPool.AddNew` | core/tx_pool.go:729-797 | the same for a transaction that has passed the checks |
| `TxPools.TxPool.MoreBooked` | core/tx_list.go:510-529 | the live entries are counted for at least the slots of the remotes, and for more exactly if there are twins |
| `TxPools.TxPool.Overfiller` | core/tx_list.go:439-463 | whatever the heaps hold, there is a price above all entries, for a transaction of exactly the size that overfills the pool; that size is within the limit of validation exactly if it is at most four slots |
| `TxPools.TxPool.Insert` | core/tx_pool.go:754-796 | replaces the pending or queued transaction with its nonce exactly when it outbids it, or joins the queue, and makes its sender local only in the latter case; the lookup and the heaps change by just that |
| `TxPools.TxPool.AddTxs` | core/tx_pool.go:985-1019 | adding any list of transactions keeps both, only senders of accepted ones are marked for promotion, and only accepted ones become known; every account is what the errors and evictions, each explained by what the account was then, make of it; with room for all there are no evictions |
| `Refills.RefillIsPut` | core/tx_pool.go:709-838 | without evictions an account ends as a function of what it was and of the transactions: each that is new, valid and not outbid by the one with its nonce takes its place among the pending or queued ones |
| `Counting.GoneIsVacant` | core/tx_pool.go:748-752 | evicting a transaction a second time finds its nonce free, and so changes no list |
| `TxPools.TxPool.PromoteAccount` | core/tx_pool.go:1371-1432 | stale and unpayable queued transactions go, exactly the executable run becomes pending, exactly the lowest of the rest up to the limit stay queued, and the virtual nonce moves past the run |
| `TxPools.TxPool.PromoteExecutables` | core/tx_pool.go:1371-1432 | does exactly so for each of any set of accounts, in any order, and nothing to the others |
| `PoolRuns.PromotedExactly` | core/tx_pool.go:1382-1428 | pruning, promoting and capping one after the other amount to that |
| `TxPools.TxPool.DemoteAccount` | core/tx_pool.go:1573-1624 | drops what the head made stale or unpayable and moves what that cut off back to the queue |
| `TxPools.TxPool.DemoteUnexecutables` | core/tx_pool.go:1573-1624 | does exactly so for all accounts with pending transactions, leaving pending runs that start at the state nonces |
| `TxPools.TxPool.TruncatePending` | core/tx_pool.go:1437-1519 | is water-filling: one level at or above the account slots caps every remote account, locals keep all, the total meets the limit or the level is the account slots, and one level more would not do; what stays is the lowest nonces |
| `WaterLevel.RoundLowersLevel` | core/tx_pool.go:1467-1489 | one round over the longest accounts lowers the level by exactly one |
| `WaterLevel.Equalized` | core/tx_pool.go:1457-1490 | after equalizing down to the next offender, the offenders are still the accounts at or above the level |
| `WaterLevel.FilledOnce` | core/tx_pool.go:1437-1519 | two water levels that fill the pool leave every account the same number of transactions |
| `TxPools.TxPool.TruncateQueue` | core/tx_pool.go:1522-1564 | ends with exactly the larger of the limit and the local count when over the limit; pending lists and local accounts are untouched |
| `PoolReset.Reinjected` | core/tx_pool.go:1279-1341 | with all blocks at hand and at most 64 apart, finds the highest common ancestor and returns exactly the abandoned transactions that were not adopted; nothing when the new head follows the old one or is too far away |
| `PoolReset.DifferenceHas` | core/tx_pool.go:1339 | the difference has exactly the transactions whose hash is not in the other list |
| `TxPools.TxPool.ResetTo` | core/tx_pool.go:1279-1366 | what is put back, that only accepted ones of these become known, and what every account becomes; a reset that gives up changes nothing; a pool in sequence keeps every account's pending nonces without gaps, and when nothing is put back and no nonce lowered every account is ready for promotion |
| `TxPools.TxPool.UpdateNonces` | core/tx_pool.go:1253-1257 | puts the virtual nonce of every account with pending transactions right past the last one, and changes no other |
| `TxPools.TxPool.Truncate` | core/tx_pool.go:1249-1257 | afterwards pending transactions are within the global limit or every remote account is within its slots, and queued ones are within the limit or all local; every list keeps its lowest nonces, and virtual nonces move only past pending ones |
| `TxPools.TxPool.RunReorg` | core/tx_pool.go:1208-1258 | keeps the invariant always and ends within both limits; without a reset it keeps nonces in sequence; with one, the accounts before promotion follow from those before the call and from what is put back, pending lists and virtual nonces in the end are functions of them and of the water level, which is fixed by what survives, and nonces are in sequence if and only if no account was in trouble |
| `TxPools.TxPool.Execute` | core/tx_pool.go:985-1258 | any run of additions, removals and reorg loops, resets included, keeps the invariant, and nonces in sequence as long as every new head extends the last one and lowers no nonce |
| `TxPools.TxPool.RemoveOne` | core/tx_pool.go:1057-1103 | a removal makes no twins, whether or not it has the heaps rebuilt |
| `PoolRuns.RemovalRuns` | core/tx_pool.go:1076-1096 | removing a pending transaction leaves pending and queued nonces on either side of the lowered virtual nonce; it leaves pending nonces without gaps if they had none |
| `PoolRuns.PromotedDemoted` | core/tx_pool.go:1573-1624 | demotion after promotion leaves one run from the state nonce, with the queue above it |
| `PoolRuns.LoweredNonceLeavesGap` | core/tx_pool.go:1573-1624 | promotion and demotion against a lowered state nonce that leave pending nonces with a gap |
| `ResetGaps.GapIsTrouble` | core/tx_pool.go:1573-1624 | that account is in trouble exactly if it may keep more than one transaction |
| `ResetGaps.ResetOutcome` | core/tx_pool.go:1371-1624 | one account from the reset to the end of the run, through promotion, demotion, truncation to a bound and the update of its virtual nonce: pending and queued nonces are in sequence if and only if it was not in trouble, which can be told from its lists before promotion and the bound |
| `ResetGaps.AllOutcomes` | core/tx_pool.go:1208-1258 | the same for all accounts together |
| `ResetGaps.AllEnd` | core/tx_pool.go:1208-1258 | what is pending of every account in the end, and its virtual nonce, in terms of its lists before promotion and the water level |
| `ResetGaps.LengthsAre` | core/tx_pool.go:1437-1445 | the lengths that truncation starts from are those of what survives promotion and demotion |
| `ResetGaps.FinishedRuns` | core/tx_pool.go:1437-1564 | truncated lists are in sequence exactly if what stays pending ends at the first gap |
| `BlockTree.AncestorOfAncestor` | core/headerchain.go:433-460 | ancestors of ancestors are ancestors |
| `HeaderSpec.MarkDown` | core/headerchain.go:248-260 | the walk back ends at the first marked ancestor and marks exactly the chain above it |
| `HeaderSpec.ClearAbove` | core/headerchain.go:240-247 | exactly the markers above the new head go |
| `HeaderSpec.RemarkedIs` | core/headerchain.go:233-280 | the markers after the writes spell the batch's chain if and only if those not written were right before |
| `HeaderChains.HeaderChain.StoreBatch` | core/headerchain.go:168-211 | stores exactly the unknown headers, which come last, each with its parent's total difficulty plus its own |
| `HeaderChains.HeaderChain.Adopt` | core/headerchain.go:229-289 | moves the head; the markers are the chain of the new head, with nothing above, if and only if `Adoptable` held |
| `HeaderChains.HeaderChain.WriteHeaders` | core/headerchain.go:149-301 | all outcomes, the choice of the head, a head difficulty that never falls, the result counts, and the exact condition for right markers; one new header suffices on the heaviest head |
| `HeaderChains.HeaderChain.Import` | core/headerchain.go:149-301 | any run of uninterrupted imports whose batches each bring a new header keeps the markers on the chain of the head, the head the heaviest header, and its difficulty from falling |
| `HeaderChains.HeaderChain.KnownTie` | core/headerchain.go:261-276 | a run that leaves the markers of another chain |
| `HeaderChains.HeaderChain.GetAncestor` | core/headerchain.go:428-460 | a non-empty answer is the ancestor the parent links give; the empty one means the budget ran out off the marked chain, and the budget pays for exactly the steps off it |
| `BlockChains.BlockChain.FindFork` | core/blockchain.go:2409-2452 | both walks end at the highest common block, with the old branch's transactions and the new branch's blocks gathered |
| `BlockChains.BlockChain.WriteHeadBlock` | core/blockchain.go:904-931 | marker, lookup entries and heads as written |
| `BlockSpec.CanonAfter` | core/blockchain.go:2470-2499 | the markers after a reorg spell the new chain if and only if `LeavesMarkers` is false |
| `BlockSpec.IndexedAfter` | core/blockchain.go:2470-2487 | the lookup then holds exactly the new chain's transactions with their heights |
| `BlockChains.BlockChain.Reorg` | core/blockchain.go:2354-2499 | both, for every pair of chains; nothing changes when a block is missing |
| `BlockChains.BlockChain.WriteKnownBlock` | core/blockchain.go:1556-1571 | after making any stored block the head, markers, header head and lookup follow it if and only if `LeavesMarkers` is false |
| `BlockChains.BlockChain.WriteBlock` | core/blockchain.go:1580-1710 | stores the block with its total difficulty, makes it the head exactly when it is preferred, and keeps the chain in sync under the same exact condition; head difficulty never falls |
| `BlockChains.BlockChain.LowerTie` | core/blockchain.go:2489-2496 | a run that leaves a marker above the head |
| `BlockSpec.FindState` | core/blockchain.go:645-676 | finds the highest ancestor with state past the requested root, unless a stateless block at or below the pivot sends it to the genesis |
| `BlockChains.BlockChain.UpdateHead` | core/blockchain.go:635-711 | moves the head block and the fast block down to an ancestor of the header |
| `BlockSpec.FirstEmpty` | core/headerchain.go:606-615 | everything stored above a height is in the consecutive levels the scan finds |
| `BlockChains.BlockChain.Rewind` | core/headerchain.go:566-643 | ends with the header head at the target, the head block on its chain with state or the genesis, and nothing above the target on any fork |
| `BlockChains.BlockChain.SetHeadBeyondRoot` | core/blockchain.go:623-756 | the same for the whole call, with the exact condition for the header head to reach the target, the highest block with state when no root or pivot is given, the fast block at the lower of its height and the target, and a reported number that has the requested root; a right transaction lookup stays right exactly if the blocks above the new head were empty |
| `BlockChains.BlockChain.RepairOnly` | core/blockchain.go:735-740 | a run where the header head stays above the target |
| `BlockSpec.IndexedBelow` | core/blockchain.go:623-756 | a lookup kept while the head moves down its chain is right if and only if the blocks left behind have no transactions |
| `BlockChains.BlockChain.StaleLookup` | core/blockchain.go:623-756 | a run after which the lookup has a transaction that the chain has not |
| `SectionSpec.VouchesBelow` | core/chain_indexer.go:419-429 | one canonical section head vouches for all below it down to the checkpoint |
| `SectionSpec.CanonicalIsConsecutive` | core/chain_indexer.go:419-429 | the markers of a canonical chain follow parent links |
| `ChainIndexers.ChainIndexer.AddCheckpoint` | core/chain_indexer.go:130-143 | the sections up to the checkpoint are taken as given |
| `ChainIndexers.ChainIndexer.SetValidSections` | core/chain_indexer.go:479-491 | exactly the heads of the sections given up are removed |
| `ChainIndexers.ChainIndexer.Reorganize` | core/chain_indexer.go:247-275 | above the checkpoint only whole sections at or below the common ancestor stay, and no more are given up than that |
| `ChainIndexers.ChainIndexer.NewHead` | core/chain_indexer.go:276-300 | sections become known only with enough confirmations and once the chain agrees with the checkpoint |
| `ChainIndexers.ChainIndexer.VerifyLastHead` | core/chain_indexer.go:422-429 | gives up exactly the sections from the last whose head is not marked, until one is or the checkpoint is reached |
| `ChainIndexers.ChainIndexer.BeginUpdate` | core/chain_indexer.go:319-337 | starts on the section after the last verified one |
| `ChainIndexers.ChainIndexer.ProcessNext` | core/chain_indexer.go:397-412 | one block more follows on from the last by a parent link, or the section fails |
| `ChainIndexers.ChainIndexer.FinishUpdate` | core/chain_indexer.go:348-368 | stores the section exactly when it was processed and its predecessor is still the same; sections stay linked |
| `ChainIndexers.ChainIndexer.Sections` | core/chain_indexer.go:434-440 | reports the number of the last block of the sections, as a 64-bit number; above the checkpoint, all section heads reported are canonical |
| `ChainIndexers.ChainIndexer.Run` | core/chain_indexer.go:243-429 | in every interleaving, consecutive stored section heads above the checkpoint are one section of parent links apart |
| `Feeds.Feed.Subscribe` | event/feed.go:72-92 | the channel waits in the inbox |
| `Feeds.Feed.Find` | event/feed.go:213-220 | the index of the first case of the channel, or none |
| `Feeds.Feed.Unsubscribe` | event/feed.go:103-124 | the subscription leaves the inbox at once, or its removal is on its way and its case is still there |
| `Feeds.Feed.Remove` | event/feed.go:116-124 | takes out the first case of the channel |
| `Feeds.Feed.Delete` | event/feed.go:223-225 | shifts the later cases down in place |
| `Feeds.Feed.Deactivate` | event/feed.go:228-232 | swaps a case behind the active ones; the cases stay a permutation of the subscriptions |
| `Feeds.Feed.TryAll` | event/feed.go:156-165 | offers the value to every active case exactly once, and it is sent to exactly those whose receiver is ready; they leave the active prefix |
| `Feeds.Feed.Interfere` | event/feed.go:72-124 | while a send waits, the live subscriptions change by exactly what others do, and only cancelled ones start leaving |
| `CaseSpec.AfterIs` | event/feed.go:72-124 | subscriptions balance: those live in the end and those cancelled are those live before and those added |
| `Feeds.Feed.Select` | event/feed.go:169-181 | exactly one delivery to an active case or exactly one removal of a leaving subscription, with cases, log and active prefix changed to match |
| `Feeds.Feed.Serve` | event/feed.go:155-182 | the rounds of a send end with no active case; who was removed was leaving before or cancelled meanwhile, and sends are the offers taken and at most one more a round |
| `Feeds.Feed.Send` | event/feed.go:128-190 | every subscription it starts with is offered the value; whoever was neither leaving before nor cancelled meanwhile is sent exactly one copy a subscription, and nobody more; the count is the number of sends; live subscriptions are those before with what others did applied |
| `GasSpec.RefundIs` | core/state_transition.go:431-437 | the refund is at most its share of the gas spent, and the whole counter when that fits (Specification section of EIP-3529) |
| `GasSpec.SettledTotal` | core/state_transition.go:382-406 | the sender's net payment is the coinbase's receipt and the total balance does not change |
| `StateTransitions.GasPool.AddGas` | core/gaspool.go:29-35 | adds gas; callers never reach the panic |
| `StateTransitions.GasPool.SubGas` | core/gaspool.go:39-45 | takes gas exactly when there is enough |
| `StateTransitions.StateTransition.BuyGas` | core/state_transition.go:216-259 | takes gas and its price, or changes nothing |
| `StateTransitions.StateTransition.RefundGas` | core/state_transition.go:431-446 | returns unused gas and the capped refund to sender and pool, without overflow |
| `StateTransitions.StateTransition.TransitionDb` | core/state_transition.go:319-429 | which error each message gets and what is then changed; on success used gas leaves the pool and moves from sender to coinbase at the gas price, and no balance is created or lost |
| `StateTransitions.StateTransition.Execute` | core/state_transition.go:386-428 | used gas is the gas spent less the capped refund, and the balances are settled for it |
| `StateTransitions.ProcessBlock` | core/state_processor.go:60-146 | pool gas plus used gas is the block's limit, cumulative gas is the running sum, each message is executed on the balances the one before left, and the total balance does not change |
| `BlockHashes.HashCache.GetHash` | core/evm.go:118-149 | for every sequence of queries below the reference block, the answer is what walking the parent links gives |
| `BlockHashes.WalkIsAncestor` | core/evm.go:131-147 | in a linked tree that is the ancestor |
| `Texts.DecimalReads` | accounts/hd.go:100-104 | a printed number reads as itself, base prefixes and signs taken into account |
| `Texts.SplitPiece` | accounts/hd.go:72 | splitting takes off a piece without separators whole |
| `DerivationPaths.ParseDerivationPath` | accounts/hd.go:68-117 | the loop computes the specified path or the first error |
| `DerivationPaths.ToString` | accounts/hd.go:122-136 | the loop computes the specified text |
| `DerivationPaths.ComponentReads` | accounts/hd.go:90-113 | every 32-bit component, hardened or not, survives printing and parsing |
| `DerivationPaths.RoundTrip` | accounts/hd.go:68-136 | a path survives printing and parsing if and only if it is not empty |
| `DerivationPaths.Canonicalizes` | accounts/hd.go:68-136 | on every accepted text, parsing the printed path gives the same path |

## Left out

- Heap.Init: container/heap itself is not part of the repository; its operations work here on a sequence that is replaced, not on a slice in place.
- TxPools.TxPool.Add: the checks of `validateTx` before and after that of the nonce, other than the one on size, are two parameters; fees, balances, pledges and signatures are part of them and not modelled.
- TxPools.TxPool.RunReorg: which transactions an overfull pool evicts for those put back is not determined; the condition reads the lists after them.
- TxPools.TxPool.PromoteTx: a nonce that is pending already is ruled out by the invariant, so the branches that drop or replace a transaction there never run and are not modelled.
- TxPools.TxPool.TruncateQueue: the order of heartbeats is any order of the accounts.
- TxPools.TxPool.ResetTo: a missing new head and the fork flags are not modelled.
- TxPools.TxPool.Execute: nonces do not wrap at 64 bits; eviction by lifetime, a change of the minimum gas price, journaling, events and metrics are not modelled.
- The pool holds its lists as values with the specification that the list class is proved to meet; sharing of list objects is not modelled.
- PricedLists.TxPricedList.Underpriced: the count of stale entries is only used to decide on rebuilding; that it is their number is not stated.
- HeaderChains.HeaderChain.WriteHeaders: the caches are not modelled, so an interrupted import leaves nothing behind here; `Import` is about uninterrupted ones.
- BlockChains.BlockChain.Reorg: logs and side events are not collected; that no transaction is in two blocks of one chain is a premise of the lookup clauses.
- BlockChains.BlockChain.WriteKnownBlock: the genesis block is never written again.
- BlockChains.BlockChain.WriteBlock: trie garbage collection and validator coefficients are not modelled, and every stored header has its block.
- BlockChains.BlockChain.SetHeadBeyondRoot: there is no freezer, so nothing is ever forced; loading the stored heads again afterwards finds the same ones and is not repeated.
- BlockChains.BlockChain.UpdateHead: the chains of the head blocks are complete, so the branches that fall back to the genesis for a missing block are not modelled.
- ChainIndexers.ChainIndexer.Run: the backend's `Reset` succeeds and the checkpoint is fixed before processing starts; children only get the heads to be passed on.
- Feeds.Feed.Send: element types are not checked, and that a blocked send ever finishes is not stated.
- StateTransitions.StateTransition.TransitionDb: intrinsic gas, nonce, sender and fee cap checks are parameters; access lists and return data are not modelled.
- BlockHashes.HashCache.GetHash: queries at or above the reference number are not modelled; the virtual machine makes none.
- DerivationPaths.ParseDerivationPath: texts are sequences of characters; malformed UTF-8 is not modelled.
- Insertion of receipts, the ancient store, prefetching, validator selection and empty-block votes, tries, networking, RPC and account backends are not modelled.
