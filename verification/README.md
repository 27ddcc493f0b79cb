# Consensus state of the hddcoin full node

A Dafny model of what a full node keeps while it follows the chain, and proofs of what that state always
satisfies. There are three parts.

**Ledger and reorganisations** (`Ledger`, `CoinTable`, `LedgerChain`, `LedgerInvariants`, `Supply`, `ForkLookup`,
`BlockTree`, `CoinStore`, `CoinChanges`, `BodyValidation`, `BlockStore`, `Blockchain`, `Node`, `Runs`,
`AncestorLookup`, `Generators`, `BlockCreation`, `LedgerExamples`).
The node stores a tree of blocks, a peak, a height index, the included sub-epoch summaries and a coin table behind a
cache. It changes them in place: new blocks are applied, a heavier branch rolls coins back to the fork and applies the
branch, and a block on any branch is checked against the coins of the peak plus what its branch created and spent.
The specification is far simpler: `Replay` applies the transaction blocks from genesis to the tip, and `BodyOk` checks a
block against the replay of its own ancestors. The classes are proved to refine that. `Blockchain.Valid` is what holds
after any run of `ReceiveBlock` and `Reload`; `Runs.Play` folds a whole run.

**Header chain** (`SignificantBits`, `PotIterations`, `HeaderChain`, `EpochRules`, `HeaderRules`, `Slots`, `TxSpacing`,
`Deficits`, `SubEpochs`, `InfusedChallenge`, `SignagePoints`, `Adjustments`, `DifficultyAdjustment`, `SignagePointCode`,
`HeaderValidation`, `EpochLookup`, `Prefixes`, `Extension`, `Growth`, `HeaderExamples`). A chain is a sequence of records
indexed by height; walking to the parent is an index step.
`HeaderRules.Accepted` lists the checks of header validation. The rules for the next parameters and for signage points
are total functions that yield `None` where the code would raise. The theorems say that on every accepted chain they do
not raise, and what they yield. The methods are the code with its loops, proved equal to those functions.
`Extension.ExtendsExact` says which accepted chains can go on. `EpochLookup` connects the two parts: when the height index
of a node serves header validation.

**Mempool** (`Mempool`). Four indexes over the same items; the specification is one queue, cheapest first.

Assumptions of the model:

- Coin names are an injective function of parent, puzzle hash and amount, and the two kinds of reward parent are disjoint
  from coin names and from each other: `Ledger.Id` has a constructor for each.
- Hashes of headers and slots, VDF outputs and proofs of space are opaque. `authentic` is the outcome of all checks on
  proofs, signatures, roots, filter, cost and the generator run.
- `spends` is what a block's generator yields with the generators of its own ancestors as arguments. The code looks these
  up anew through the current height index whenever it runs a generator: for the new block, for the blocks of its fork and
  for the blocks of a new peak's chain. `AncestorLookup.GetBlockGenerator` and `ReferencesExact` give the exact conditions
  for that look-up: it fails for a parent whose height is not indexed; it is right if the index gives that height to another
  block; and if the index names the parent, it is right for references up to the peak exactly if none is above the fork,
  which no parent up to the peak violates. `ReceiveBlock`, `ApplyNewBlocks` and `CollectFork` take the spends from the
  blocks. `Generators` says when that is what the code does: with the yield an arbitrary function of program and arguments,
  `ReceiveRun` looks the arguments up, runs the program and receives the block, `RunAgain` repeats that for a stored block,
  and `FoundExact` is the exact condition under which both agree with the block's own ancestors.
- Header validation reads the previous epoch through the index as well. `HeaderValidation.ValidateHeader` requires that the
  heights read there are those of the block's own chain; `EpochLookup.AdjustmentServed` says that they are in every
  reachable state for a grandparent up to the peak, and when they are above it.
- Constants of the header chain are a parameter restricted by `PotIterations.Sane`; `DefaultsAreSane` shows that the default
  constants qualify. The ledger part uses the default reward schedule and limits.
- A fork height handed in by the caller is the true one. The expected difficulty of a block is a parameter of
  `ReceiveBlock`, at least 1; `Adjustments.DifficultyPositive` shows that the header chain yields such values.
- Fee rates are reals attached to the items, so rounding of the quotient does not matter.

Where the code and its documentation differ, the model follows the code:

- `rollback_to_block` says it returns all modified records; the second query runs after the delete with the same filter, so
  records that were only un-spent are missing (`CoinStore.CoinStore.RollbackToBlock`). `CoinChanges.ChangesExact` states what
  that means for the records reported with a new peak. `LedgerExamples.Unreported` is the family of cases in which a branch
  without transactions outweighs a block that spends; `UnreportedChange` is one with blocks of difficulty 1 alone.
- The fast way of `_get_blocks_at_height` can return blocks that are not ancestors when the parent is above the peak
  and still in the height index, and so can the look-up of generator references. `AncestorLookup.AncestorsByIndex` and
  `ReferencesExact` give the exact conditions. Nothing fails as long as a higher block is always a heavier one
  (`AncestorLookup.GradedLookups`), and so not in the first epoch, where all blocks have the same difficulty
  (`EpochLookup.FirstEpochGraded`). When difficulty is adjusted upwards it can: `HeaderExamples.ShorterHeavier` gives, with
  the default constants, two accepted header chains that part at the end of the first epoch, one block outweighing two;
  `LedgerExamples.StaleIndex` shows for every reachable state that receiving blocks of such weights leads there, and
  `StaleRun` is the whole run, with any number of blocks before the fork.
- The search for the previous sub-epoch summary fails for a first summary included in the last
  MAX_SUB_SLOT_BLOCKS heights of its window, and only then (`SubEpochs.PreviousSummaryExact`). `HeaderExamples.DeadEnd` is an
  accepted chain of 640 blocks under the default constants that therefore no block can follow.
- Making a summary also raises if the previous one came so late in its window that its offset does not fit into a byte.
  `SubEpochs.SummaryMadeExact` states exactly when a summary can be made; the second failure cannot occur if
  2 * MAX_SUB_SLOT_BLOCKS + MIN_BLOCKS_PER_CHALLENGE_BLOCK - 1 is below 256. Under the default constants it is 271, and
  `HeaderExamples.DeadEndByte` is an accepted chain of 1152 blocks that ends so.
- The look-back for a block's challenge comes up short for a later overflow block in the slot of a first block that followed
  exactly one empty slot, and only then (`SignagePoints.ChallengeMissing`, with `HeaderExamples.ChallengeMissingExample`).

## Model

| member | source | states |
|---|---|---|
| `Ledger.AdditionHasParent` | hddcoin/consensus/block_body_validation.py:215-219 | every created coin names as its parent a coin spent in the same block |
| `Ledger.RewardSchedule` | hddcoin/consensus/block_rewards.py:8-51 | pool and farmer rewards add up to the pre-farm and then to two coins halved every three years, four times, with seven eighths for the pool |
| `CoinTable.RollbackForgets` | hddcoin/full_node/coin_store.py:369-392 | tables that differ only in rows added or spent above a height roll back to the same table |
| `LedgerInvariants.AdditionIsNew` | hddcoin/consensus/block_body_validation.py:264-391 | a coin created by spending is not in the table of the block's ancestors, by single spending of its parent |
| `LedgerInvariants.NewCoinsAreNew` | hddcoin/full_node/coin_store.py:415-418 | the primary-key insert of a valid block never meets an existing row |
| `LedgerInvariants.GenesisSpendsNothing` | hddcoin/full_node/coin_store.py:95-98 | a valid first block cannot spend anything |
| `LedgerInvariants.RemovalPresent` | hddcoin/consensus/blockchain.py:421-433 | every removal of a valid block is a row after the block, so the look-up of spent records finds it |
| `LedgerInvariants.Invariants` | hddcoin/full_node/coin_store.py:71-126 | in the replay of every valid chain: rows carry their own name, spent flags match heights, parents are spent, reward coins belong to claimed heights |
| `LedgerInvariants.RollbackIsReplay` | hddcoin/full_node/coin_store.py:338-393 | rolling the table of a valid chain back to any height, -1 included, gives exactly the replay up to that height |
| `Supply.UnspentStep` | hddcoin/consensus/block_body_validation.py:393-428 | a block changes the unspent total by its claims minus its fees, same-block spends included |
| `Supply.Conservation` | hddcoin/consensus/block_body_validation.py:104-153 | unspent total plus fees of the last transaction block equals the pool and farmer rewards of all claimed heights, for every valid chain |
| `Supply.FarmerCoinFits` | hddcoin/consensus/block_body_validation.py:422-424 | the farmer coin that later pays the fees is a 64-bit amount |
| `Supply.ClaimedOnce` | hddcoin/consensus/block_body_validation.py:104-153 | reward coins in the table are exactly one pool and one farmer coin for each height up to the last claimed one, which after a transaction block is the transaction block before |
| `ForkLookup.SinceFork` | hddcoin/consensus/block_body_validation.py:288-345 | the table at a tip is the table at the fork changed by what the branch created and spent |
| `ForkLookup.CollectsOnce` | hddcoin/consensus/block_body_validation.py:326-341 | collecting a branch never meets a created or spent coin twice, so the assertions hold |
| `ForkLookup.LookupIsReplay` | hddcoin/consensus/block_body_validation.py:361-391 | the look-up in peak table, branch additions and branch removals finds a coin unspent exactly if it is unspent in the replay of the block's own ancestors, with that chain's confirmation height and time |
| `BlockTree.FindForkPoint` | hddcoin/consensus/find_fork_point.py:8-33 | returns the last common height of two chains, -1 if there is none; above it they share no block |
| `BlockTree.ForkUnique` | hddcoin/consensus/find_fork_point.py:13-17 | the fork height of two chains is unique |
| `Lru.Cache.PutOk` | hddcoin/util/lru_cache.py:17-21 | a put adds at most its key, drops at most the oldest one, and never one when the key was present; capacity is kept |
| `CoinStore.CoinStore.GetCoinRecord` | hddcoin/full_node/coin_store.py:129-141 | the answer is the table row whatever the cache holds, and the cache stays in agreement with the table |
| `CoinStore.CoinStore.AddCoinRecords` | hddcoin/full_node/coin_store.py:396-419 | inserts the rows in table and cache, for any cache size |
| `CoinStore.CoinStore.SetSpent` | hddcoin/full_node/coin_store.py:422-436 | marks the listed rows spent in table and cache |
| `CoinStore.CoinStore.NewBlock` | hddcoin/full_node/coin_store.py:71-126 | the table becomes what the block does to it; the returned records are the new coins, rewards marked |
| `CoinStore.CoinStore.RollbackToBlock` | hddcoin/full_node/coin_store.py:338-393 | the table becomes the rolled-back one, cached records agree with it, and the returned changes are the deleted rows only |
| `CoinStore.InsertThenSpend` | hddcoin/full_node/coin_store.py:112-113 | inserting a block's records and then marking its removals equals applying the block |
| `BodyValidation.ExpectedRewardCoins` | hddcoin/consensus/block_body_validation.py:104-147 | the walk-back collects the rewards of the last transaction block and of the blocks down to the one before it |
| `BodyValidation.CheckClaims` | hddcoin/consensus/block_body_validation.py:104-153 | accepts exactly the expected claims, each once |
| `BodyValidation.CheckRefs` | hddcoin/consensus/block_body_validation.py:175-194 | accepts exactly reference lists with a generator, at most 512 long and pointing below the block; an error names the rule that is broken |
| `BodyValidation.CheckAmounts` | hddcoin/consensus/block_body_validation.py:228-237 | accepts exactly coins with 64-bit amounts; an error tells a negative amount from one that is too large |
| `BodyValidation.HasDuplicate` | hddcoin/consensus/block_body_validation.py:264-274 | reports exactly lists with a repeated entry |
| `BodyValidation.CollectFork` | hddcoin/consensus/block_body_validation.py:285-345 | collects exactly what the branch created and spent above the fork; no assertion on repeated names fails |
| `BodyValidation.LookupCoin` | hddcoin/consensus/block_body_validation.py:348-391 | on success the record shows the coin, height and time of the block's own chain; each error says why the coin is not spendable there |
| `BodyValidation.CheckFees` | hddcoin/consensus/block_body_validation.py:393-428 | accepts exactly if nothing is minted, fees match, reserves are met and the fees fit the farmer coin; an error names the rule that is broken |
| `BodyValidation.CheckSpends` | hddcoin/consensus/block_body_validation.py:430-446 | accepts exactly if all spends are allowed on the block's own chain: puzzle hashes and lock conditions; an error names a rule that some spend breaks |
| `BodyValidation.ForkWithPeak` | hddcoin/consensus/block_body_validation.py:276-283 | the fork with the peak's chain, -1 without a peak or for a first block |
| `BodyValidation.ValidateBody` | hddcoin/consensus/block_body_validation.py:42-468 | for a block on any branch, accepts exactly the bodies that are right on the replay of the block's own ancestors, although only the peak's coins are stored; every error names a rule broken on that replay |
| `BlockStore.BlockStore.AddFullBlock` | hddcoin/full_node/block_store.py:72-101 | inserts or replaces a row, with the peak flag cleared |
| `BlockStore.BlockStore.SetPeak` | hddcoin/full_node/block_store.py:330-339 | leaves exactly the given row flagged |
| `BlockStore.FollowParents` | hddcoin/full_node/block_store.py:315-328 | parents followed from the peak give the height index and the summaries of its chain |
| `BlockStore.BlockStore.GetPeakHeightDicts` | hddcoin/full_node/block_store.py:289-328 | reads back exactly height index and summaries of the flagged block's chain |
| `Blockchain.CollectNewBlocks` | hddcoin/consensus/blockchain.py:385-398 | the blocks from the new peak down to just above the fork, or to genesis |
| `Blockchain.ApplyNewBlocks` | hddcoin/consensus/blockchain.py:400-433 | applying them oldest first turns the table at the fork into the replay of the new chain, every spent record is found, and the noted records are the new table's rows for all coins created or spent above the fork |
| `Blockchain.GenesisChanges` | hddcoin/consensus/blockchain.py:336-358 | for a first block, reporting only the records it adds is reporting every change |
| `CoinChanges.NoteRemoved` | hddcoin/consensus/blockchain.py:421-433 | each removal is found again and noted as the table has it |
| `CoinChanges.NotedBlock` | hddcoin/consensus/blockchain.py:425-433 | new coins first and removals second note exactly the table's rows after the block, same-block spends included |
| `CoinChanges.NotedNext` | hddcoin/consensus/blockchain.py:425-433 | noting in height order keeps every noted row that of the current table |
| `CoinChanges.ChangesExact` | hddcoin/consensus/blockchain.py:371-452 | for any reorganisation: every reported record is the new row, or the old one with its confirmation cleared if the coin is gone; the changed rows that are not reported are exactly those un-spent by the rollback and not spent again by the branch |
| `Blockchain.CheckHeader` | hddcoin/consensus/block_header_validation.py:797-823 | accepts exactly headers with the right weight, previous transaction block and a later timestamp; an error names the rule that is broken |
| `Blockchain.HeavierWins` | hddcoin/consensus/blockchain.py:360-361 | the first received of the heaviest blocks stays so when a block is added |
| `Blockchain.TreeGrows` | hddcoin/consensus/blockchain.py:267-280 | an accepted block keeps every stored chain valid |
| `Blockchain.Blockchain.constructor` | hddcoin/consensus/blockchain.py:97-123 | an empty store is a valid state |
| `Blockchain.Blockchain.GetPeak` | hddcoin/consensus/blockchain.py:151-157 | the block named by the index at the peak height is the peak |
| `Blockchain.Blockchain.SwitchPeak` | hddcoin/consensus/blockchain.py:371-446 | rollback, summary clean-up and application leave the table of the new chain, its summaries up to the fork and the new stored peak; reports what was rolled back, created and spent |
| `Blockchain.Blockchain.ChooseFork` | hddcoin/consensus/blockchain.py:332-369 | a fork is chosen exactly for a first or heavier block, and it is the highest common ancestor, in all three ways of finding it |
| `Blockchain.Blockchain.ReconsiderPeak` | hddcoin/consensus/blockchain.py:314-455 | coins, summaries and stored peak change exactly when a fork was chosen, and then become those of the new chain |
| `Blockchain.Blockchain.AddRecords` | hddcoin/consensus/blockchain.py:281-286 | index and summaries of the whole new chain |
| `Blockchain.Blockchain.ReceiveBlock` | hddcoin/consensus/blockchain.py:170-299 | for every reachable state and block: which result, exactly when it is accepted, which broken rule an error names, new peak exactly if heavier, reported fork and coin records, the whole new height index; afterwards the coin table is the replay of the peak's chain, the index names the peak's ancestors, summaries are those of its chain and the peak is the first received of the heaviest stored blocks |
| `Blockchain.Blockchain.Reload` | hddcoin/consensus/blockchain.py:129-149 | a restart gives the same peak and summaries and exactly the index up to the peak |
| `Node.PeakHeaviest` | hddcoin/consensus/blockchain.py:360-361 | in every reachable state no stored block is heavier than the peak |
| `Node.Agreement` | hddcoin/consensus/blockchain.py:314-331 | nodes that store the same blocks, received in any order and with any reorganisations, follow equally heavy chains; if one block is the heaviest, peak, coin table, summaries and index up to the peak are the same |
| `Node.PeakSupply` | hddcoin/consensus/block_body_validation.py:104-153 | in every reachable state the unspent value of the stored coin table plus the fees of the last transaction block is the reward of the claimed heights |
| `Runs.Play` | hddcoin/consensus/blockchain.py:170-299 | after any sequence of right blocks the tree, the peak and the height index are those folded from the sequence, entries left above a lower peak included |
| `AncestorLookup.FetchByParents` | hddcoin/consensus/difficulty_adjustment.py:40-49 | the slow way returns the ancestors in the range, oldest first |
| `AncestorLookup.GetBlocksAtHeight` | hddcoin/consensus/difficulty_adjustment.py:11-49 | off the index, the ancestors of the range; on it, the blocks the index names, or a failure if it names none at some height |
| `AncestorLookup.RangeExact` | hddcoin/consensus/difficulty_adjustment.py:29-38 | for any range, the blocks read from the index are the ancestors if and only if each entry is at or below the fork, or above the peak and still the ancestor's |
| `AncestorLookup.FastWayExact` | hddcoin/consensus/difficulty_adjustment.py:29-38 | for every range that starts at or below the peak, the fast way is right if and only if the range ends at or below the fork |
| `AncestorLookup.LinkedExact` | hddcoin/consensus/difficulty_adjustment.py:29-38 | for any range, the blocks read are the ancestors if and only if the last one is and the others are its parents in turn |
| `AncestorLookup.LeavesBelowPeak` | hddcoin/consensus/blockchain.py:360-361 | in every reachable state, a stored block above the peak leaves the peak's chain below the peak |
| `AncestorLookup.AncestorsByIndex` | hddcoin/consensus/difficulty_adjustment.py:29-38 | in every reachable state the fast way never raises; it is right for every block up to the peak, for ranges from the peak down if and only if they end at or below the fork, and above the peak if and only if the index still names the ancestor at each height |
| `AncestorLookup.ResolveRefs` | hddcoin/consensus/blockchain.py:911-929 | yields height and generator of the blocks found, in order, or fails if a block or its generator is missing |
| `AncestorLookup.CollectReorg` | hddcoin/consensus/blockchain.py:895-909 | collects the parent's chain down to the fork |
| `AncestorLookup.WalkBeside` | hddcoin/consensus/blockchain.py:884-894 | collects the blocks handed in beside the store that lead up to the block, or fails where a height does not fit |
| `AncestorLookup.GetBlockGenerator` | hddcoin/consensus/blockchain.py:857-931 | for every block, every reference and all blocks handed in beside the store, which blocks the arguments are taken from, and when it fails; a parent whose height is not indexed is a failure |
| `AncestorLookup.BatchReferences` | hddcoin/consensus/blockchain.py:884-929 | in a batch whose first block connects to a stored one or is a first block: the chain put together is that of the ancestors, and every reference leads to its own ancestor whatever the index says |
| `AncestorLookup.ReferencesExact` | hddcoin/consensus/blockchain.py:870-929 | in every reachable state: all references lead to own ancestors if the index gives the parent's height to another block; if it names the parent, one does so if and only if it is at or below the fork, or above the peak with the ancestor's entry left; none fails for a parent up to the peak |
| `AncestorLookup.NothingAbovePeak` | hddcoin/consensus/blockchain.py:281-288 | in every reachable state in which a higher block is always a heavier one, no stored block and no entry of the index is above the peak |
| `AncestorLookup.GradedLookups` | hddcoin/consensus/difficulty_adjustment.py:11-49 | in such a state every range of ancestors and every reference is looked up right |
| `Generators.FoundExact` | hddcoin/consensus/blockchain.py:870-929 | in every reachable state, the arguments found for a child of an indexed block are those of its own ancestors if and only if the parent is indexed under another name, or each reference is at or below the fork or above the peak with its entry left |
| `Generators.GradedRuns` | hddcoin/consensus/blockchain.py:870-882 | in a state in which a higher block is always a heavier one, that holds for every block |
| `Generators.RunGenerator` | hddcoin/consensus/blockchain.py:208-222 | for any yield of programs: where the look-up is right, the spends found are those that the block's own ancestors give |
| `Generators.SoundNext` | hddcoin/consensus/blockchain.py:265-268 | adding a block with the spends its ancestors give keeps that true of all stored blocks |
| `Generators.ReceiveRun` | hddcoin/consensus/blockchain.py:188-268 | where the look-up is right, a received block is added if and only if the block meant by its own ancestors is acceptable, and that block is what is stored |
| `Generators.RunAgain` | hddcoin/consensus/blockchain.py:457-476 | running the generator of a stored block again yields the spends stored with it, where the look-up is right in the present state |
| `LedgerExamples.StaleIndex` | hddcoin/consensus/blockchain.py:281-288 | in every reachable state with nothing indexed at the orphan's height: after two blocks on the peak, a block of three times the difficulty beside the first and an orphan on the second, the fast way returns a block that is no ancestor, a reference leads to the wrong generator, and another one to none |
| `LedgerExamples.StaleRun` | hddcoin/consensus/blockchain.py:170-299 | a run from an empty node that ends so, for every number of blocks before the fork |
| `LedgerExamples.Unreported` | hddcoin/consensus/blockchain.py:371-374 | for every valid chain and unspent coin: moving from a block that spends it to any heavier branch beside without transactions un-spends the coin without reporting it |
| `LedgerExamples.UnreportedChange` | hddcoin/consensus/blockchain.py:371-374 | there are two such chains, of blocks of difficulty 1 |
| `BlockCreation.RewardClaims` | hddcoin/consensus/block_creation.py:147-182 | the creator's claims are exactly those the validator expects, each once |
| `SignificantBits.TruncateKeeps` | hddcoin/util/significant_bits.py:1-15 | truncation keeps the bit length, leaves at most n significant bits and loses at most one part in 2^(n-1) |
| `SignificantBits.TruncateToMultiple` | hddcoin/consensus/difficulty_adjustment.py:265-267 | truncating and rounding down to a power of two below never gives zero and keeps at most n significant bits |
| `SignificantBits.CountSignificantBits` | hddcoin/util/significant_bits.py:18-27 | the loop counts from the highest to the lowest set bit |
| `PotIterations.DefaultsAreSane` | hddcoin/consensus/default_constants.py:5-28 | the default constants satisfy all conditions of the model |
| `PotIterations.Formulas` | hddcoin/consensus/pot_iterations.py:8-43 | index-based overflow holds iff the sum wraps iff sp > ip; overflow infusion points lie below the extra intervals, others above |
| `PotIterations.InfusionBetweenSps` | hddcoin/consensus/pot_iterations.py:25-43 | an infusion point is never a multiple of the signage interval |
| `PotIterations.TotalsAgree` | hddcoin/consensus/block_creation.py:340-375 | creator, validator and record compute the same totals, and infusion minus signage total is the extra intervals plus the required iterations |
| `HeaderRules.FirstRecordAccepted` | hddcoin/consensus/block_header_validation.py:891-898 | a first block is accepted under the default constants |
| `Slots.StartIsSum` | hddcoin/consensus/block_header_validation.py:543-559 | the start of a block's slot is the sum of the VDF iterations of all slots finished since the first block |
| `Slots.ItersExact` | hddcoin/consensus/block_header_validation.py:491-568 | the checks on iterations hold if and only if the infusion point is that far past all finished slots, the signage point is the extra intervals and the required iterations before it, and it is in the slot before exactly for an overflow block |
| `Slots.SsiChange` | hddcoin/consensus/difficulty_adjustment.py:223-238 | the slot length changes only with the first slot of a new epoch |
| `Slots.SameSlot` | hddcoin/consensus/block_header_validation.py:543-559 | blocks of one slot share its start and length and come in order of iterations |
| `Slots.Ordered` | hddcoin/consensus/block_header_validation.py:906-919 | total iterations never decrease along a chain |
| `Slots.OverflowsFirst` | hddcoin/consensus/block_header_validation.py:543-559 | in a slot all overflow blocks precede all others |
| `Slots.NoOverflowInNewEpoch` | hddcoin/consensus/block_header_validation.py:537-541 | no block overflows into the first slot of a new epoch, though only the slot's first block is checked |
| `Slots.SlotBeforeOverflow` | hddcoin/consensus/block_header_validation.py:568-568 | the signage point of an overflow block lies in the slot before, which has the same length and is the previous block's slot or empty |
| `TxSpacing.SpAfterTwoSlots` | hddcoin/consensus/block_header_validation.py:693-706 | a signage point comes after every block two slots with blocks back |
| `TxSpacing.TxFarApart` | hddcoin/consensus/block_header_validation.py:693-710 | consecutive transaction blocks are more than the extra signage intervals apart |
| `TxSpacing.TxSoon` | hddcoin/consensus/block_header_validation.py:693-710 | among any 2 * MAX_SUB_SLOT_BLOCKS consecutive heights from 0 on one is a transaction block, so every walk back to one is bounded |
| `TxSpacing.TxClose` | hddcoin/consensus/block_header_validation.py:693-710 | consecutive transaction blocks are at most 2 * MAX_SUB_SLOT_BLOCKS heights apart |
| `TxSpacing.TimesIncrease` | hddcoin/consensus/block_header_validation.py:818-823 | timestamps strictly increase over all transaction blocks |
| `TxSpacing.LastNotAfterRecent` | hddcoin/consensus/difficulty_adjustment.py:245-247 | the block an adjustment measures up to exists and is less than 4 * MAX_SUB_SLOT_BLOCKS back |
| `Deficits.PayOff` | hddcoin/consensus/deficit.py:25-53 | below the maximum the deficit falls by one per block until zero |
| `Deficits.ChallengesApart` | hddcoin/consensus/deficit.py:25-53 | challenge blocks are at least MIN_BLOCKS_PER_CHALLENGE_BLOCK heights apart |
| `Deficits.OneChallengePerSlot` | hddcoin/consensus/deficit.py:25-53 | a sub-slot has at most one challenge block |
| `SubEpochs.AtMostOneSummary` | hddcoin/consensus/difficulty_adjustment.py:163-189 | no window of SUB_EPOCH_BLOCKS heights contains two summaries |
| `SubEpochs.NoneInFirstWindow` | hddcoin/consensus/difficulty_adjustment.py:163-164 | the first window contains none |
| `SubEpochs.SummaryInTime` | hddcoin/consensus/block_header_validation.py:388-453 | every later window has one within 2 * MAX_SUB_SLOT_BLOCKS + MIN_BLOCKS_PER_CHALLENGE_BLOCK - 1 blocks of its start |
| `SubEpochs.EpochEnd` | hddcoin/consensus/difficulty_adjustment.py:135-189 | an epoch can end only from one block before its boundary to that many blocks past it |
| `SubEpochs.PreviousOffset` | hddcoin/consensus/make_sub_epoch_summary.py:57-66 | the summary before a new one is that of the window before, at most 2 * MAX_SUB_SLOT_BLOCKS + MIN_BLOCKS_PER_CHALLENGE_BLOCK - 1 blocks into it |
| `SubEpochs.SummaryMadeExact` | hddcoin/consensus/make_sub_epoch_summary.py:46-69 | a summary that is due can be made if and only if it is not a first one that comes too late and the offset of the one before fits into a byte, which needs no check if the bound above is below 256 |
| `SubEpochs.PreviousSummaryExact` | hddcoin/consensus/make_sub_epoch_summary.py:46-60 | the previous summary is found, or rightly not looked for, if and only if the height is not in the last MAX_SUB_SLOT_BLOCKS heights of the second window |
| `InfusedChallenge.WalkBackStops` | hddcoin/consensus/block_header_validation.py:144-161 | the walk-back ends at a challenge block, or at a first block of the slot whose infused list is not empty and ends with the last finished slot |
| `InfusedChallenge.SlotIccNeverRaises` | hddcoin/consensus/block_header_validation.py:144-182 | no look-up for a finished slot's infused challenge fails, its VDF input included |
| `InfusedChallenge.InfusedNeverRaises` | hddcoin/consensus/block_header_validation.py:1000-1034 | no look-up for the infused challenge at the infusion point fails, its input included |
| `SignagePoints.ChallengeOfSlot` | hddcoin/consensus/get_block_challenge.py:54-102 | the challenge is that of the slot that holds the signage point |
| `SignagePoints.ChallengeMissing` | hddcoin/consensus/get_block_challenge.py:92-101 | it is undefined if and only if a later overflow block is in the slot of a first block that followed exactly one empty slot |
| `SignagePoints.SignagePointReached` | hddcoin/consensus/vdf_info_computation.py:31-142 | in all six cases the VDF has the slot's challenge, starts at the last infusion before the signage point or at the start of its slot, and ends at the signage point; no assertion fails |
| `SignagePoints.ChallengesAgree` | hddcoin/consensus/block_header_validation.py:455-599 | both computations are defined for the same blocks and give the same challenge |
| `SignagePoints.ChallengesAgreeEarly` | hddcoin/consensus/block_header_validation.py:569-586 | so they do before the last slot of an overflow block is known, and with the same result |
| `Adjustments.PreviousEpochFound` | hddcoin/consensus/difficulty_adjustment.py:73-132 | the epoch boundary is guessed right, the search stays within the fetched blocks and ends at a transaction block near the boundary |
| `Adjustments.AdjustmentDefined` | hddcoin/consensus/difficulty_adjustment.py:238-255 | the two blocks compared exist, in order of height, time, iterations and weight, so the epoch time is positive |
| `Adjustments.SsiConstant` | hddcoin/consensus/difficulty_adjustment.py:257-259 | the clamped value is measured against the current slot length |
| `Adjustments.AdjustedSsiOk` | hddcoin/consensus/difficulty_adjustment.py:250-268 | the new slot length is a positive multiple of NUM_SPS_SUB_SLOT with few significant bits, at most the factor above and, up to a stated truncation loss, at most the factor below |
| `Adjustments.AdjustedDifficultyOk` | hddcoin/consensus/difficulty_adjustment.py:331-352 | the same for the difficulty, which stays at least 1 |
| `Adjustments.DifficultyPositive` | hddcoin/consensus/block_header_validation.py:886-889 | every accepted block adds at least 1 to the weight |
| `Adjustments.FirstEpochWeight` | hddcoin/consensus/difficulty_adjustment.py:299-316 | throughout the first epoch the weight is DIFFICULTY_STARTING times the number of blocks |
| `Adjustments.WeightIncreases` | hddcoin/consensus/block_header_validation.py:886-889 | weight strictly increases along a chain |
| `Adjustments.NextParamsDefined` | hddcoin/consensus/difficulty_adjustment.py:355-410 | the next parameters are defined for every accepted chain and change only by an adjustment |
| `Adjustments.ParamsInvariant` | hddcoin/consensus/difficulty_adjustment.py:250-268 | over all epochs: slot length, difficulty and their significant bits |
| `DifficultyAdjustment.CanFinishSubAndFullEpoch` | hddcoin/consensus/difficulty_adjustment.py:139-189 | the walk-back decides exactly whether a sub-epoch or epoch can end |
| `DifficultyAdjustment.RecordsAtHeight` | hddcoin/consensus/difficulty_adjustment.py:11-49 | returns the chain's own records if and only if the index does not name the block to start from, or names the chain's own at all heights of the range |
| `DifficultyAdjustment.SecondToLastTransactionBlock` | hddcoin/consensus/difficulty_adjustment.py:52-132 | the code finds the specified block; its sanity checks hold |
| `DifficultyAdjustment.AdjustSsi` | hddcoin/consensus/difficulty_adjustment.py:236-268 | computes the specified slot length; the check on significant bits holds |
| `DifficultyAdjustment.AdjustDifficulty` | hddcoin/consensus/difficulty_adjustment.py:316-352 | computes the specified difficulty; the check on significant bits holds |
| `DifficultyAdjustment.NextParams` | hddcoin/consensus/difficulty_adjustment.py:355-410 | computes the expected slot length and difficulty of the next block |
| `SignagePointCode.GetBlockChallenge` | hddcoin/consensus/get_block_challenge.py:54-102 | the loop computes the specified challenge |
| `SignagePointCode.GetSignagePointVdfInfo` | hddcoin/consensus/vdf_info_computation.py:12-154 | the loops compute the specified VDF, case by case |
| `HeaderValidation.ExpectedSlotIcc` | hddcoin/consensus/block_header_validation.py:139-177 | the infused challenge VDF a finished slot has to carry |
| `HeaderValidation.CheckSlots` | hddcoin/consensus/block_header_validation.py:101-386 | accepts exactly right finished slots |
| `HeaderValidation.CheckSummary` | hddcoin/consensus/block_header_validation.py:388-442 | accepts a summary exactly where one is due and can be made |
| `HeaderValidation.CheckSlotSize` | hddcoin/consensus/block_header_validation.py:444-453 | the walk-back counts the blocks of the slot |
| `HeaderValidation.CheckIters` | hddcoin/consensus/block_header_validation.py:491-568 | adding up from the previous block accepts exactly the totals counted from the first slot on, with the signage point at its distance from the infusion point |
| `HeaderValidation.CheckTx` | hddcoin/consensus/block_header_validation.py:689-710 | accepts exactly if the block is a transaction block when its signage point is past the last one, and is later in time |
| `HeaderValidation.CheckSignagePoint` | hddcoin/consensus/block_header_validation.py:455-677 | accepts exactly the right challenge and signage point VDFs |
| `HeaderValidation.ValidateHeader` | hddcoin/consensus/block_header_validation.py:830-1052 | the verdict is the acceptance rule, and an accepted block extends the valid chain |
| `EpochLookup.FollowedExact` | hddcoin/consensus/difficulty_adjustment.py:29-38 | in every reachable state, a range can be read from the node's index for header validation if and only if the index does not name the parent or each entry is at or below the fork or left above the peak |
| `EpochLookup.ServedUpToPeak` | hddcoin/consensus/difficulty_adjustment.py:84-107 | for ranges from the peak down that means they end at or below the fork, which holds for every parent up to the peak |
| `EpochLookup.AdjustmentServed` | hddcoin/consensus/difficulty_adjustment.py:84-107 | in every reachable state the node's index serves the validation of each header whose grandparent is not above the peak; above it, a look-up from the peak down is served if and only if it ends at or below the fork or the index does not name the grandparent |
| `EpochLookup.FirstEpochGraded` | hddcoin/consensus/difficulty_adjustment.py:301-303 | while all stored blocks are in the first epoch, a higher block is a heavier one |
| `Prefixes.AcceptedSame` | hddcoin/consensus/block_header_validation.py:830-1052 | whether a block is accepted depends on the blocks up to it alone |
| `Extension.ExtendsExact` | hddcoin/consensus/block_header_validation.py:388-453 | an accepted chain can be extended by an accepted block if and only if its slot has room, or the next slot is long enough for required iterations and a summary due with it can be made |
| `Extension.DraftAccepted` | hddcoin/consensus/block_header_validation.py:388-453 | wherever a chain can go on, the block infused as late as possible is accepted: in the same slot or a new one, overflowing or not where that is allowed |
| `Growth.Grow` | hddcoin/consensus/block_header_validation.py:388-453 | in the first epoch every step that slot size, overflow order and summaries allow leads to an accepted chain, with the stated slot size, deficit and last summary |
| `Growth.NoWayOn` | hddcoin/consensus/make_sub_epoch_summary.py:46-69 | no block can follow a full slot after which a summary is due that cannot be made |
| `HeaderExamples.ChallengeMissingExample` | hddcoin/consensus/get_block_challenge.py:92-101 | two blocks under the default constants, for the second of which no challenge is found |
| `HeaderExamples.DeadEnd` | hddcoin/consensus/make_sub_epoch_summary.py:46-60 | under the default constants, an accepted chain that no block can follow: its slot is full, and the search for the summary before the one due with the next slot fails |
| `HeaderExamples.DeadEndByte` | hddcoin/consensus/make_sub_epoch_summary.py:66 | under the default constants, an accepted chain that no block can follow because the offset of the summary before does not fit into a byte |
| `HeaderExamples.TwoWaysOn` | hddcoin/consensus/difficulty_adjustment.py:299-352 | from every accepted chain with room for three blocks and a possible next slot: three blocks of the present difficulty are accepted, and beside them one with a new slot of whatever difficulty the adjustment gives |
| `HeaderExamples.ShorterHeavier` | hddcoin/consensus/difficulty_adjustment.py:331-352 | under the default constants, two accepted chains that part at the end of the first epoch, of which the one with one block more outweighs the other after two |
| `Mempool.EvictedLeast` | hddcoin/full_node/mempool.py:66-70 | eviction takes the smallest number of cheapest items that makes room; room can be made iff the item fits an empty pool |
| `Mempool.EvictedCheapest` | hddcoin/full_node/mempool.py:24-35 | what goes pays at most the rate of the last to go, what stays at least that |
| `Mempool.Mempool.RemoveFromPool` | hddcoin/full_node/mempool.py:40-56 | takes the item out of all four indexes; no deletion misses its key |
| `Mempool.Mempool.AddToPool` | hddcoin/full_node/mempool.py:58-84 | evicts the shortest cheapest prefix and inserts behind equal rates; indexes agree, total is the sum and within the limit; an item larger than the pool empties it and is not added |
| `Mempool.Mempool.GetMinFeeRate` | hddcoin/full_node/mempool.py:19-38 | the rate of the last item that adding the cost would evict, 0 if none, none if it can never fit |

## Left out

- Block records are never evicted from memory, and the cache of full blocks is not modelled; reloading reads all rows instead of those close to the peak.
- Runs with a failing database transaction.
- Hints, and pre-validation in other processes.
- Condition parsing, cost, Merkle roots, filter and signatures: part of `authentic`. What a program yields is an arbitrary function in `Generators`.
- AncestorLookup.GetBlockGenerator: says nothing for a batch that does not connect to a stored block or whose heights do not fit the stored one.
- Fixed widths of integers, except coin amounts and the byte in a sub-epoch summary; signs and non-negativity are checked.
- VDF and proof-of-space verification, the infusion-point VDFs of challenge and reward chain, future-time limits, pool targets and foliage hashes.
- `final_eos_is_already_included`, the creation of summaries for timelords and the content of a summary beyond the existence of its predecessor.
- BodyValidation.CheckRefs: the hash of the reference list is part of `authentic`.
- BodyValidation.CollectFork: takes what stored blocks spend from the blocks; `Generators.RunAgain` says when running their generators again yields the same.
- BodyValidation.ValidateBody: roots, filter, cost, generator run and signature are the one flag `authentic`.
- Blockchain.ApplyNewBlocks: takes what stored blocks spend from the blocks, as `CollectFork` does.
- Blockchain.Blockchain.ReceiveBlock: takes the spends from the block; `Generators.ReceiveRun` looks the arguments up and runs the generator before.
- Blockchain.Blockchain.Reload: reads back all rows, not only those close to the peak.
- BlockStore.BlockStore.AddFullBlock: the two tables of blocks and block records are one map.
- DifficultyAdjustment.SecondToLastTransactionBlock: requires that the index serves the heights read; `EpochLookup.AdjustmentServed` says when it does. So do `AdjustSsi`, `AdjustDifficulty`, `NextParams` and `ValidateHeader`.
- DifficultyAdjustment.AdjustSsi: 64-bit and 128-bit ranges of intermediate values are not modelled.
- DifficultyAdjustment.AdjustDifficulty: the same.
- HeaderValidation.CheckSlots: a missing or superfluous infused slot and a second summary are rejected; the code fails an assertion there.
- HeaderValidation.CheckSummary: the content of a summary is not compared.
- HeaderValidation.ValidateHeader: infusion-point VDFs of challenge and reward chain, future time and foliage hashes are not checked.
