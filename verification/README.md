# ZalemCoin: a verified model

This project models the in-memory state machines and arithmetic kernels of the ZalemCoin node in Dafny 4.11
and proves what they promise. `dafny verify dfyconfig.toml` checks everything.

| files | what they model |
|---|---|
| `Ledger`, `Supply`, `Connect`, `BlockConnect` | the transaction index (txid to position and spend marks), fetching and connecting inputs, the transaction loop of ConnectBlock |
| `Blocks`, `Trust`, `Freshness`, `Emission`, `Growth`, `ChainState` | the block tree, which branch is heavier, why no transaction id repeats on it, the money supply, growing block files, receiving blocks and switching tips |
| `Spending`, `Lawful`, `Unspent` | what ConnectBlock accepts, in plain conditions and totals; the index as the list of outputs made and not spent |
| `CoinbaseBlocks`, `RepeatedCoinbase`, `StrayCoinstake`, `Witnesses`, `Oversized` | inputs on which laws one might expect of the chain fail |
| `Miner`, `BlockAssembly`, `MinedBlock` | choosing transactions for a new block, and exactly when the block is then accepted |
| `AddrTable`, `AddrMan`, `AddrCheck`, `AddrStore`, `AddrRoundTrip` | the address manager, its own consistency check, its serialisation |
| `Ranking`, `InstantX` | ranking floating cities, collecting lock votes, locking inputs |
| `Digits`, `Compact`, `Retarget`, `Base58` | big numbers as bytes, compact targets, the VRX retarget, base-58 text |
| `Merkle`, `Locator`, `StakeModifier`, `Download`, `LockedPages` | Merkle branches, block locators, stake-modifier selection, block download queues, locked memory pages |
| `Sums`, `Ordered`, `Sequences`, `Sorting` | sums over finite sets, sizes, visiting a set in order, lists without repetition and their totals, sorting |

How the system is represented:

- A block index entry is an immutable value, `Genesis(block)` or `Child(pprev, block)`; what the node changes later
  (`pnext`, money supply, best block) is state of the class `ChainState.Node`, keyed by that value. The
  transaction database is a map with an open-transaction copy (`batch`) that is committed or dropped; the block
  files are a map from positions to transactions.
- Hashes, signatures, scores and bucket hashes are opaque function parameters. Clocks are parameters, and so are
  random draws where a contract says which entry they lead to; other draws are nondeterministic choices.
- Doubles are `real`, integers are unbounded, and wrap-around is written out where the code depends on it
  (the unsigned time difference of the retarget, vote hashes modulo 2^256, the 32-bit compact form,
  the page counter of locked memory).

What had to be assumed, or turned out otherwise than one would expect:

- Disconnecting a block restores the index exactly if and only if none of its txids was in the index before
  (`Ledger.UndoIsExactIffFresh`), and ConnectBlock does not check that. It follows all the same: on a branch that
  connects, whose blocks passed CheckBlock and AcceptBlock's rule that a coinbase starts with its height, no txid
  occurs twice (`Freshness.ProperIsFresh`). The one assumption is that a txid stands for one transaction (the
  function `name` of a `Node`). Without the coinbase rule a block that connects could not be undone
  (`RepeatedCoinbase.RepeatNotUndone`).
- `SetBestChain` records the new tip even when connecting a postponed block fails. The tip, the index, the links
  and the supplies agree afterwards if and only if every postponed block is accepted
  (`ChainState.Node.SetBestChain`); `Witnesses.PostponedBlockFails` is a run of six received blocks, all of
  one trust, after which they do not.
- CheckBlock limits coinstakes only in proof-of-stake blocks, and ConnectBlock checks the reward of the second
  transaction only. So a block issues at most its subsidy if and only if its coinbase and the rewards of all its
  coinstakes together are within subsidy and fees (`Emission.IssuesAtMostSubsidy`). ConnectBlock ensures this
  where no coinstake comes after the second transaction (`Emission.WellPlacedIsCovered`), and
  `StrayCoinstake.StrayCoinstakeOverIssues` is an accepted proof-of-work block with a later one that issues
  300 million coins.
- The bound of four counted InstantX signatures needs no assumption about vote hashes, although the hash is a
  plain sum and collides (`InstantX.HashesCollide`): a hash that is on record keeps every other vote with that
  hash out until the one lock that holds it is dropped.
- DecodeBase58 drops leading ones, so base-58 text loses leading zero bytes; the round trip is exact if and only
  if there are none (`Base58.RoundTripIff`, `Base58.CheckedRoundTripIff`).
- A last block of the wanted type stamped before its predecessor counts as more than four hours late in the
  retarget, because the difference is unsigned. Longer spacings never lower the target unless this happens to the
  faster chain alone and the slower one is within four hours (`Retarget.SlowerIsNoHarder`); where it does, and the
  slower one is within two hours, the factor always rises (`Retarget.WrapHardens`), and
  `Retarget.SlowerCanBeHarder` gives, for every limit from 10,000 up, two chains on which the target falls. From height 175 on
  AcceptBlock refuses blocks less than a minute apart, so there the law holds without exception
  (`Retarget.SpacedIsMonotone`).
- SelectTried means to replace the oldest of the entries it draws, but returns the place the entry was drawn from,
  after swapping it to the front. The oldest one goes if and only if it stood in its place already
  (`AddrMan.VictimIsOldestIff`, `AddrMan.OldestSurvives`).
- MAX_BLOCK_SIZE and MAX_BLOCK_SIGOPS are static variables of a header, so every source file has its own. Those of
  main.cpp follow the blocks: ConnectBlock sets them anew for each block it tries, after CheckBlock has judged that
  block by the ones set before. Those of miner.cpp stay at 20,512,000 bytes and 410,240 operations. Given the
  checks left out below, a mined block is accepted if and only if its size and legacy signature operations are within the limits in force and all its
  signature operations within its own (`MinedBlock.MinedBlockAccepted`); keeping within the miner's limits is enough
  only where these are no higher (`MinedBlock.BudgetSuffices`), and `Oversized.MinedBlockRefused` is a block mined
  with the default configuration that is refused.
- The loops over the pages of a memory range end if and only if the range stays below the last page of the address
  space (`LockedPages.EndsIffBelow`).
- Good_ keeps the address manager's own check passing if and only if it is called with a positive time
  (`AddrMan.AddrMan.Good`).

## Model

| member | source | states |
|---|---|---|
| Ledger.SpendAllMarks | src/main.cpp:1710-1764 | spending a list of inputs succeeds only on pairwise different unspent outpoints, and changes exactly their marks |
| Ledger.UnspendAllMarks | src/main.cpp:1531-1564 | freeing inputs that are in range always succeeds and clears exactly their marks |
| Ledger.ConnectTxsCanonical | src/main.cpp:1943-1987 | connecting a block adds exactly its txids to the index and leaves free outputs with the one null position |
| Ledger.DisconnectTxUndoes | src/main.cpp:1531-1564 | disconnecting a freshly connected transaction gives back the index it was connected to |
| Ledger.DisconnectTxsErases | src/main.cpp:1784-1806 | disconnecting a block removes exactly its txids from the index |
| Ledger.DisconnectTxsUndoes | src/main.cpp:1784-1806 | disconnecting in reverse order undoes a connected block of fresh txids, spends within the block included |
| Ledger.UndoIsExactIffFresh | src/main.cpp:1784-1806 | the undo is exact if and only if no txid of the block was in the index before |
| Ledger.InputStaysSpent | src/main.cpp:1755-1764 | while no id has repeated, what a connected transaction spent stays spent |
| Ledger.NoIdRepeats | src/main.cpp:1943-1987 | if ids name transactions, every transaction has an input and coinbases do not repeat, then no id repeats among transactions connected one after the other |
| Supply.MarkValue | src/main.cpp:1755-1764 | spending an output lowers the sum of unspent values by exactly that output's value |
| Supply.SpendAllValue | src/main.cpp:1651-1663 | spending all inputs lowers the unspent total by the inputs' value, and every input can be read |
| Supply.EnterValue | src/main.cpp:1986-1986 | entering a new transaction raises the unspent total by its output value |
| Supply.ConnectTxValue | src/main.cpp:1943-1987 | connecting one transaction changes the unspent total by outputs minus inputs |
| Supply.ConnectTxsStored | src/main.cpp:1943-1987 | every index entry keeps pointing at a stored transaction with as many outputs as marks |
| Supply.ConnectTxsValue | src/main.cpp:1943-1987 | connecting a block of fresh txids changes the unspent total by its outputs minus its inputs |
| Connect.FetchOne | src/main.cpp:1579-1612 | which entry and transaction a hash stands for: pending changes first for blocks and the miner, the pool only for relay or for entries that point to it |
| Connect.FetchAll | src/main.cpp:1579-1612 | succeeds exactly when every previous transaction is found, and returns exactly those |
| Connect.CheckRange | src/main.cpp:1614-1632 | succeeds exactly when every output number is within the transaction and its marks |
| Connect.FetchInputs | src/main.cpp:1567-1636 | not found, found but invalid, and fetched are told apart exactly |
| Connect.CheckInput | src/main.cpp:1676-1706 | an input passes exactly when range, maturity, time, emptiness and money range allow it |
| Connect.CheckInputs | src/main.cpp:1676-1706 | all inputs pass, and the value is their total, or the first failure stops it |
| Connect.MarkFoldSpends | src/main.cpp:1755-1764 | writing each input's entry back as it is marked leaves the pending changes with exactly the final entries |
| Connect.MarkInputs | src/main.cpp:1710-1764 | succeeds exactly when nothing is spent twice and all signatures pass; then the pending changes are the spent entries |
| Connect.ConnectInputs | src/main.cpp:1665-1782 | succeeds exactly when every check passes; only blocks and the miner write pending changes |
| BlockConnect.SpendAllFrame | src/main.cpp:1755-1764 | spending against the fetched entries is spending against the whole index |
| BlockConnect.FetchForBlock | src/main.cpp:1961-1963 | fetching over pending changes is fetching from the index with the changes laid over it |
| BlockConnect.GetValueIn | src/main.cpp:1651-1663 | the total of what the inputs are worth |
| BlockConnect.ConnectSpending | src/main.cpp:1961-1984 | a spending transaction connects exactly when it is accepted within the signature-operation limit, and the index moves by its spends |
| BlockConnect.ConnectOne | src/main.cpp:1943-1987 | one turn of the loop accepts exactly what the acceptance rule accepts, with the same index and totals |
| BlockConnect.ConnectTransactions | src/main.cpp:1943-1987 | the loop succeeds exactly when each transaction is accepted after its predecessors; index and totals are those of the whole list |
| BlockConnect.AcceptedConnects | src/main.cpp:1961-1987 | an accepted transaction always has an effect on the index |
| BlockConnect.AcceptConnects | src/main.cpp:1943-1987 | acceptance has exactly the effect of connecting the transactions |
| BlockConnect.AcceptTally | src/main.cpp:1972-1975 | the running totals are the block's input and output values read from the block files |
| BlockConnect.NetValue | src/main.cpp:1972-2013 | for every accepted block, fees cancel: outputs minus inputs is the coinbases plus the rewards of all coinstakes less the fees |
| BlockConnect.OneCoinstake | src/main.cpp:1976-1979 | without a coinstake behind the second transaction, the reward that ConnectBlock keeps is the sum over all coinstakes |
| Spending.Shapes | src/main.h:302-311 | which transactions are coinbases and coinstakes, field by field |
| Spending.ConfirmedIff | src/main.cpp:1518-1529 | a position is within n blocks exactly when a block of the branch less than n below holds it |
| Spending.MatureIff | src/mining.h:43-43 | generated outputs mature exactly when no block less than 23 below holds them |
| Spending.SpendAllIff | src/main.cpp:1710-1764 | inputs can be spent one after the other exactly when each is unspent and no two are the same |
| Spending.SpendingIff | src/main.cpp:1665-1782 | a transaction is accepted exactly when each input is there, unspent, mature, not younger than its spender, not empty, in range and signed for, none comes twice, and the totals are in range and cover the outputs |
| Lawful.TransactionIff | src/main.cpp:735-785 | CheckTransaction passes exactly when inputs, outputs, amounts, their total and the script length of a coinbase are in order |
| Lawful.ShapeIff | src/main.cpp:2468-2694 | the modelled part of CheckBlock passes exactly when the first transaction and no other is a coinbase, coinstakes stand in second place only if there is one there, nothing comes twice and every transaction passes |
| Lawful.LimitsIff | src/main.cpp:2461-2702 | a block is within the limits exactly when its count, its bytes and fifty times its operations are at most the maximum size |
| Lawful.CountBytes | src/serialize.h:226-232 | a count takes one, three, five or nine bytes |
| Lawful.Layout | src/main.cpp:1929-1954 | transactions lie back to back behind header and count |
| Lawful.SubsidyIs | src/blockparams.cpp:389-442 | 990,000 coins per block from height two until there are 99 million, then 300 or 99 by the draw |
| Lawful.ListIff | src/main.cpp:1943-1987 | a list of transactions is accepted exactly when each is good where it stands and all operations are within the limit; fees and operations are the totals over the list |
| Lawful.StakeIs | src/main.cpp:1976-1979 | the reward kept in a proof-of-stake block is what the second transaction pays out beyond what it spends |
| Lawful.BlockIff | src/main.cpp:1914-2013 | ConnectBlock accepts a block exactly when its shape, each transaction where it stands, the operations and the claim on subsidy and fees are in order, all in plain conditions |
| Blocks.ForkIsMeet | src/main.cpp:2097-2109 | the fork is the highest block on both branches |
| Blocks.ReplayWellFormed | src/main.cpp:2015-2025 | the index replayed along a stored branch is stored, canonical, never points to the pool and has exactly the branch's txids |
| Blocks.DisconnectReplay | src/main.cpp:1784-1806 | disconnecting the last block of a replayed branch gives the replay of the branch without it |
| Blocks.LongerReplayDiffers | src/main.cpp:2266-2281 | a proper ancestor never replays to the same index |
| Trust.HeightIsLength | src/main.cpp:2404-2404 | a height is the number of blocks after genesis |
| Trust.TrustIsTotal | src/main.cpp:2408-2408 | chain trust grows from an ancestor by the sum of the trusts of the blocks on the way |
| Trust.HeavierOutweighs | src/main.cpp:2440-2440 | comparing chain trusts is comparing the sums of trusts above the fork |
| Trust.PathAcceptedEach | src/main.cpp:2143-2160 | a path is accepted exactly when each of its blocks is, on top of the one before it and under the size that one set |
| Unspent.ReplayIs | src/main.cpp:1943-1987 | the index of a branch of checked blocks holds its transactions with their places in the block files, and as unspent exactly the outputs that one of them makes and none spends |
| Unspent.UnspentInRange | src/main.cpp:748-760 | every unspent output can be read and is worth between 0 and 300 million coins |
| Unspent.GeneratedWaits | src/main.cpp:1687-1692 | no transaction of an accepted block spends an output of a coinbase or coinstake from a block less than 23 below |
| Freshness.OneHeight | src/script.h:545-557 | no script starts with the serialisations of two heights |
| Freshness.HeightScriptIs | src/script.h:545-557 | a height is one opcode up to 16, else the number of its bytes and the bytes, least first, the top bit of the last one free |
| Freshness.ProperIsFresh | src/main.cpp:2797-2801 | on a stored branch of checked blocks that connects, no transaction id occurs twice |
| Emission.SupplyStep | src/main.cpp:2009-2013 | the recorded supply, parent's plus outputs minus inputs, is the value of all outputs then unspent |
| Emission.SupplyGrowth | src/main.cpp:2009-2013 | an accepted block raises the supply by exactly its coinbase and all its coinstake rewards, less the fees |
| Emission.IssuesAtMostSubsidy | src/main.cpp:1988-2013 | an accepted block raises the supply by at most its subsidy if and only if its coinbase and the rewards of all its coinstakes are within subsidy and fees |
| Emission.WellPlacedIsCovered | src/main.cpp:1988-2008 | ConnectBlock ensures that for every proof-of-stake block and every block without a coinstake behind its second transaction |
| Emission.EmissionBound | src/blockparams.cpp:389-442 | on a branch grown at the tip whose blocks are all covered in this sense at most 99,990,000 + 300 h coins exist at height h |
| Emission.WellPlacedBranch | src/main.cpp:1988-2008 | a branch grown at the tip without coinstakes behind second transactions is covered |
| StrayCoinstake.StrayCoinstakeOverIssues | src/main.cpp:2479-2491 | a branch of small checked blocks accepted at the tip whose last one, proof-of-work with a coinstake in third place, issues more than its subsidy and breaks the bound |
| Growth.AcceptStable | src/main.cpp:1943-1987 | acceptance against stored transactions does not change when the block files grow |
| Growth.GrownStays | src/main.cpp:1943-2013 | a branch grown at the tip stays one while the block files grow |
| ChainState.UnspendInputs | src/main.cpp:1531-1564 | succeeds exactly when every input is in range, and frees them all |
| ChainState.DisconnectInputs | src/main.cpp:1531-1564 | succeeds exactly when the transaction can be disconnected, and disconnects it |
| ChainState.DisconnectTransactions | src/main.cpp:1784-1790 | disconnects the transactions last to first, all or not at all |
| ChainState.FindFork | src/main.cpp:2097-2109 | the two walks meet at the fork |
| ChainState.ListDisconnect | src/main.cpp:2111-2114 | the blocks from the tip down to the fork |
| ChainState.ListConnect | src/main.cpp:2116-2120 | the blocks from the fork up to the new tip |
| ChainState.LinksKeys | src/main.h:1070-1073 | a block has a next link exactly when it is a proper ancestor of the tip, and the link points to the next block of the branch |
| ChainState.IntermediateIsFirst | src/main.cpp:2240-2253 | the block reorganised to is the first on its branch to outweigh the tip |
| ChainState.RewardPaid | src/main.cpp:1989-2007 | passes exactly when the claimed reward is within subsidy and fees |
| ChainState.CheckAndConnect | src/main.cpp:1914-2013 | a block connects exactly when it is within the limits in force and good in plain conditions, with the index and net value of its acceptance, and then spends no generated output from less than 23 blocks below; the maximum block size is set anew exactly when it passes CheckBlock |
| ChainState.Node.constructor | src/main.cpp:2226-2232 | a new node holds genesis only, is consistent, counts as grown at the tip and starts with the largest maximum block size |
| ChainState.Node.ConnectBlock | src/main.cpp:1914-2078 | exact acceptance in plain conditions under the maximum block size in force, no generated output spent within 23 blocks, and the new maximum; the open index becomes the branch's replay and the supply its unspent value; a refusal changes nothing else |
| ChainState.Node.DisconnectBlock | src/main.cpp:1784-1806 | never fails, and the open index becomes the parent's replay |
| ChainState.Node.DisconnectBranch | src/main.cpp:2125-2141 | brings the open index back to the fork |
| ChainState.Node.ConnectBranch | src/main.cpp:2143-2160 | succeeds exactly when every block up to the new tip is accepted, each under the maximum its predecessor set, and reaches the new tip's replay; the maximum is that of the last block tried |
| ChainState.Node.Relink | src/main.cpp:2168-2176 | the links become those of the new branch, whatever branch they were for |
| ChainState.Node.Reorganize | src/main.cpp:2093-2191 | succeeds exactly when the path from the fork is accepted; a failure leaves index and links as they were; the maximum block size is that of the last block tried |
| ChainState.Node.SwitchBranch | src/main.cpp:2238-2281 | reorganises to the first block whose branch weighs more above the fork than the tip's, in sums of block trusts, and connects the rest as far as it is accepted |
| ChainState.Node.SetBestChainInner | src/main.cpp:2195-2216 | attaches a block exactly when it is accepted, or leaves index and links alone |
| ChainState.Node.Postpone | src/main.cpp:2240-2253 | finds the first block whose branch weighs more above the fork than the tip's and the rest of the branch in order |
| ChainState.Node.ConnectPostponed | src/main.cpp:2266-2281 | stops at the first refusal: every block up to the one reached is accepted and the next is not; the state belongs to the block reached, which is the last exactly when all are accepted |
| ChainState.Node.SetBestChain | src/main.cpp:2219-2296 | path independence: after every switch, which is to the branch with the larger sum of block trusts above the fork, the index is the replay of the best branch, given that the postponed blocks are accepted, and not otherwise; a failed switch changes nothing |
| ChainState.Node.AddToBlockIndex | src/main.cpp:2382-2450 | a known hash is refused and changes nothing; any other block enters the tree, becomes best exactly if the trusts of its blocks above the fork add up to more than those of the tip's and its branch is accepted up to the first block that outweighs the tip, and the state is then consistent exactly when the postponed rest is accepted too |
| ChainState.Node.Enter | src/main.cpp:2389-2425 | a new block joins the tree and the block files; the state stays consistent |
| ChainState.Node.AcceptBlock | src/main.cpp:2712-2824 | a block is let in exactly when it is within the limits in force, passes CheckBlock and the remaining checks, is not known, has a known parent and starts its coinbase with its height; then as AddToBlockIndex says |
| ChainState.Node.SupplyIsUnspentValue | src/main.cpp:2009-2013 | conservation: in every consistent state the best block's money supply is the value of all outputs marked unspent |
| ChainState.Node.UnspentOutputs | src/main.cpp:1943-1987 | in every consistent state an output is marked unspent exactly when a transaction of the best branch makes it and none spends it; it is then worth an amount in the money range |
| ChainState.Node.SupplyBound | src/blockparams.cpp:389-442 | a node that only extended its tip, by covered blocks, records at most 99,990,000 + 300 h coins at height h |
| ChainState.Node.MainChainIsBestBranch | src/main.h:1070-1073 | a block is in the main chain exactly when it is the best block or an ancestor of it |
| ChainState.Node.FindBlockByHeight | src/main.cpp:1369-1384 | terminates with the unique main-chain block of the height, whatever the remembered hint |
| ChainState.Node.NotSynced | src/main.cpp:2266-2281 | an index that stands at a proper ancestor does not belong to the recorded tip |
| Witnesses.PostponedBlockFails | src/main.cpp:2266-2294 | a run of six received blocks of one trust that ends with a tip whose block was never connected, in an inconsistent state |
| RepeatedCoinbase.RepeatNotUndone | src/main.cpp:1784-1806 | a block that repeats a coinbase connects and cannot be undone; the rule on heights refuses it |
| Miner.ScanInputs | src/miner.cpp:200-241 | the parents a transaction waits for, its age-weighted and total input value, and that each such parent lists it |
| Miner.ConfiguredSizes | src/miner.cpp:154-167 | the block size is the one asked for, within 1,000 and 20,511,000 bytes, and bounds the two other sizes |
| Miner.WorthIsTotal | src/miner.cpp:202-237 | the input value is the total over the inputs |
| Miner.AgeIsTotal | src/miner.cpp:235-240 | the age-weighted value is the total of value times depth over the inputs in the chain |
| Miner.BelowIsBehind | src/miner.cpp:82-102 | the comparer puts first what pays more for its size, and at equal rates what has more age-weighted value for its size; by priority the other way round |
| Miner.GatherOne | src/miner.cpp:196-260 | an eligible transaction is queued or held back with its parents, at its rank; others are passed over |
| Miner.Gather | src/miner.cpp:187-260 | every eligible pool transaction is queued or waits, never both and never twice |
| Miner.PopBest | src/miner.cpp:82-102 | no queued item comes before the one taken: by fee none pays more for its size, and none that pays as much is older; by priority the other way round |
| Miner.Release | src/miner.cpp:345-361 | dependents stop waiting for a placed parent; each whose last parent it was is queued exactly once |
| BlockAssembly.FetchForMiner | src/miner.cpp:310-316 | fetching over the test pool is fetching from the index with the chosen transactions laid over it |
| BlockAssembly.Append | src/miner.cpp:310-337 | a transaction joins the draft exactly when it is accepted on top of it under the signature-operation limit; counters and fees stay exact |
| BlockAssembly.ParentsFetchable | src/miner.cpp:310-316 | a transaction whose pool parents are all placed never fails for want of a parent |
| BlockAssembly.Consider | src/miner.cpp:282-337 | one turn chooses the transaction or refuses it for one of the named reasons, and says exactly when the order switches to fees |
| BlockAssembly.RefusedIff | src/miner.cpp:282-327 | a transaction is refused exactly when the block would reach its size or operation limit, when it is ahead of the time, when it pays too little behind the minimum size or when it does not connect, in whole numbers |
| BlockAssembly.EndsPriorityIff | src/miner.cpp:298-308 | the order switches to fees exactly when the priority part is full or the age-weighted value per byte is below 57,600,000 |
| BlockAssembly.Collect | src/miner.cpp:262-362 | what is chosen are pool transactions, final and not ahead of the time, each at most once, accepted in order, with exact fees and within the budgets; nothing available is left; at every turn no available transaction pays more for its size than the one that comes up, or is older at the same rate, the other way round while the order is by priority, and it is chosen exactly when no named reason speaks against it |
| BlockAssembly.ParentPrecedesChild | src/miner.cpp:310-361 | each chosen transaction spends outputs unspent at its turn, of the chain or of transactions chosen before it |
| BlockAssembly.FeesExact | src/miner.cpp:318-337 | the fees are exactly input minus output values of the chosen transactions |
| MinedBlock.SpendSimilar | src/main.cpp:1710-1764 | spending depends on which outputs are free, not on where spenders lie |
| MinedBlock.AcceptedInStep | src/main.cpp:1567-1782 | what the miner accepts out of the pool the validator accepts out of the block files, at the same value |
| MinedBlock.ReplaysAsBlock | src/main.cpp:1943-1987 | behind a coinbase, the chosen transactions are accepted as a block with the same fees |
| MinedBlock.MinedBlockAccepted | src/main.cpp:2461-2702 | the assembled block is accepted on top of its chain exactly when the remaining checks pass, its size and legacy signature operations are within the limits in force and all its signature operations within its own limit |
| MinedBlock.MinedTotals | src/miner.cpp:332-337 | the block's size and operations in the miner's own counts |
| MinedBlock.BudgetSuffices | src/miner.cpp:154-157 | a block collected within the miner's budgets is always accepted when these are no higher than the validator's limits and the bytes and operations set aside were enough |
| Oversized.MinedBlockRefused | src/main.cpp:1939-1941 | a block collected within the default 5,128,000 bytes and 410,240 operations that a validator at 2,051,200 bytes refuses |
| AddrTable.CountUpdate | src/addrman.cpp:475-484 | changing one bucket changes the number of buckets holding an id by exactly the membership there |
| AddrTable.SwapKeeps | src/addrman.cpp:105-123 | swapping two places of the random order keeps every entry at its recorded place |
| AddrTable.RandomCounts | src/addrman.cpp:439-463 | the random order has as many places as there are tried and new entries |
| AddrTable.CreateKeeps | src/addrman.cpp:93-103 | a new entry keeps all indexes consistent |
| AddrTable.EraseKeeps | src/addrman.cpp:160-167 | erasing an entry no bucket holds keeps all indexes consistent |
| AddrTable.DropKeeps | src/addrman.cpp:158-169 | leaving one bucket with one reference fewer keeps the counts exact |
| AddrTable.WithoutKeeps | src/addrman.cpp:207-212 | leaving all new buckets brings the reference count to exactly zero |
| AddrTable.JoinTried | src/addrman.cpp:222-228 | joining its own tried bucket keeps the tried table exact |
| AddrTable.ReplaceTried | src/addrman.cpp:254-256 | taking an evicted entry's place keeps the tried table exact |
| AddrTable.EvictRefs | src/addrman.cpp:238-252 | the evicted entry with one reference in one bucket keeps the counts exact |
| AddrMan.AddrMan.constructor | src/addrman.h:386-395 | an empty manager is consistent |
| AddrMan.AddrMan.SwapRandom | src/addrman.cpp:105-123 | exchanges two places and the recorded positions with them |
| AddrMan.AddrMan.Delete | src/addrman.cpp:160-167 | removes an entry without references from every index |
| AddrMan.AddrMan.DropFrom | src/addrman.cpp:158-169 | takes an entry out of a bucket, and deletes it with its last reference |
| AddrMan.TerribleIff | src/addrman.cpp:40-60 | who is terrible, field by field: not tried within the last minute, and without a usable time, without success after three attempts, or with ten attempts and none in a week |
| AddrMan.AddrMan.ShrinkNew | src/addrman.cpp:149-201 | the first terrible entry leaves the bucket, which was not tried in the last minute; or else, when every entry is worth keeping, the oldest of the four drawn; the last reference takes the entry with it |
| AddrMan.AddrMan.Create | src/addrman.cpp:93-103 | a new entry under a fresh id, last in random order |
| AddrMan.AddrMan.Reference | src/addrman.cpp:358-366 | the entry gets into its bucket and survives the shrinking; at most one other entry disappears, and it was not worth keeping unless all the bucket was |
| AddrMan.AddrMan.Refresh | src/addrman.cpp:322-350 | the exact new time and services, and that another bucket may be entered exactly when there is news, a reference to spare and the draw is won |
| AddrMan.RefreshedTime | src/addrman.cpp:324-332 | the heard time, less the penalty, is taken exactly when there is none or it is ahead by more than an hour, or a day for an old one; nothing else changes but the services |
| AddrMan.SpreadOdds | src/addrman.cpp:334-352 | a second bucket is entered with one chance in two, a third in four, a fourth in eight, and no fifth |
| AddrMan.AddrMan.Add | src/addrman.cpp:310-368 | an unknown address is stored with its penalised time, services and source in its own bucket, a known one is refreshed and may enter another; who makes way in a full bucket, in plain conditions on its fields; everything stays consistent |
| AddrMan.AddrMan.Attempt | src/addrman.cpp:370-386 | counts the attempt for exactly the entry with that address |
| AddrMan.AddrMan.Connected | src/addrman.cpp:509-527 | moves the time of exactly the entry with that address, if it is twenty minutes old |
| AddrMan.AddrMan.SelectTried | src/addrman.cpp:125-147 | the bucket after its draws, and the place the oldest one was drawn from |
| AddrMan.VictimIsOldestIff | src/addrman.cpp:129-146 | the entry at the place returned is the one whose success lies furthest back among those drawn, if and only if that one was drawn from its own place |
| AddrMan.OldestSurvives | src/addrman.cpp:129-146 | a bucket of two of which the more recent entry is replaced |
| AddrMan.AddrMan.LeaveNew | src/addrman.cpp:207-214 | the loop over the new buckets ends with no reference left |
| AddrMan.AddrMan.MakeTried | src/addrman.cpp:203-259 | the entry leaves all new buckets and becomes tried; nobody is evicted while its bucket has room, else exactly the victim of the draws, which becomes new with one reference and always finds a place |
| AddrMan.AddrMan.Evict | src/addrman.cpp:230-258 | the victim of the draws gives its place to the entry and goes to its own new bucket, or to the one just vacated if that is full; neither overflows |
| AddrMan.RefugeIs | src/addrman.cpp:233-252 | an evicted entry goes to its own bucket if that holds fewer than 64, else to the one just vacated |
| AddrMan.AddrMan.BucketOf | src/addrman.cpp:289-302 | the scan from a random start finds a bucket that holds the entry |
| AddrMan.AddrMan.Good | src/addrman.cpp:261-308 | full consistency, and the repository's own check on times keeps passing if and only if the time is positive |
| AddrMan.AddrMan.GetAddr | src/addrman.cpp:492-507 | 23 percent of the entries, at most 2500, all known and all different, after a partial shuffle that keeps everything consistent |
| AddrMan.AddrMan.AtMost20480Entries | src/addrman.h:120-133 | at most 4096 tried and 16384 new entries ever exist |
| AddrMan.AddrMan.BucketSizes | src/addrman.h:123-142 | there are 64 tried and 256 new buckets of at most 64 entries, and no entry is in more than four |
| AddrCheck.CheckEntries | src/addrman.cpp:441-460 | passes exactly when every tried entry has succeeded and has no references, every new one has one to four, all are found by address and random place and no time is negative; sorts the ids |
| AddrCheck.CheckTried | src/addrman.cpp:465-473 | passes exactly when the tried buckets hold each tried entry once |
| AddrCheck.CheckNew | src/addrman.cpp:475-484 | passes exactly when memberships equal reference counts |
| AddrCheck.Check | src/addrman.cpp:434-490 | the whole check passes exactly when all tables agree |
| AddrCheck.ConsistentPasses | src/addrman.cpp:434-490 | the invariant the operations keep passes the repository's own check |
| AddrStore.WriteNew | src/addrman.h:293-305 | the entries with references are written in id order and numbered from zero, each with its address, services, time, source, last success and attempts |
| AddrStore.WriteTried | src/addrman.h:306-316 | the tried entries are written in id order, all of them, each with its address, services, time, source, last success and attempts |
| AddrStore.WriteBucket | src/addrman.h:317-327 | a bucket is written as the numbers of exactly its members |
| AddrStore.Write | src/addrman.h:289-328 | the stream holds every new and tried entry, field by field, and every membership |
| AddrStore.Read | src/addrman.h:328-382 | the rebuilt tables are those of reading entry by entry |
| AddrStore.RehashedEach | src/addrman.h:336-351 | with another number of buckets every new entry gets one reference, in its own bucket and no other |
| AddrStore.AnyStream | src/addrman.h:352-382 | whatever the stream holds, no tried bucket gets more than 64 entries and no entry more than four references |
| AddrRoundTrip.NotLost | src/addrman.h:352-368 | no tried entry finds its bucket full |
| AddrRoundTrip.ReadsTried | src/addrman.h:352-368 | after the tried entries are read the tables are consistent and hold all of them |
| AddrRoundTrip.ReadsRefs | src/addrman.h:369-382 | after the memberships are read the buckets hold exactly the stored members |
| AddrRoundTrip.RoundTrip | src/addrman.h:258-384 | writing and reading back gives consistent tables in which every entry has its address, services, time, source, last success and attempts again, with the same memberships, reference counts and counters, up to renumbering and order in tried buckets |
| Ranking.GetFloatingcityRank | src/floatingcityman.cpp:462-497 | the place in the descending order of scores among enabled cities of the protocol, or -1 |
| Ranking.GetFloatingcityByRank | src/floatingcityman.cpp:536-567 | the city at that place, or none |
| Ranking.SortedSorts | src/floatingcityman.cpp:486-486 | the order is a descending permutation of the scores |
| Ranking.RankMeans | src/floatingcityman.cpp:470-494 | every voting city has a rank, nothing before it scores less and nothing behind it more |
| Ranking.OrderComesFromCities | src/floatingcityman.cpp:470-484 | ranked are exactly the scores of the enabled cities of the protocol |
| Ranking.RankInverts | src/floatingcityman.cpp:536-567 | rank and lookup by rank invert each other exactly when a city is listed once |
| InstantX.CountSignatures | src/instantx.cpp:563-579 | the number of votes at the lock's height, or -1 while it has none |
| InstantX.CountIsPlaces | src/instantx.cpp:563-579 | the count is the number of places whose vote is at the height |
| InstantX.CompleteIff | src/instantx.cpp:364-364 | a lock is complete exactly when it has a height and two votes at that height |
| InstantX.InTopMeans | src/instantx.cpp:304-324 | a top-four city is enabled, of protocol 62005 or later, and outscored by three others at most |
| InstantX.VoteHashIs | src/instantx.cpp:472-475 | the hash is the sum of city and transaction modulo 2^256 |
| InstantX.AtMostFour | src/instantx.cpp:563-579 | at most four votes from different top-four cities can share a height |
| InstantX.KeptIsSound | src/instantx.cpp:128-142 | one home per vote hash makes the voters of a lock pairwise different top-four cities |
| InstantX.ClaimInputs | src/instantx.cpp:378-384 | exactly the free inputs get the owner; owners are never replaced |
| InstantX.CheckForConflictingLocks | src/instantx.cpp:403-425 | reports a conflict exactly when an input is held by another; then both locks expire now, and no other lock or field changes |
| InstantX.ConflictCancels | src/instantx.cpp:403-425 | after a complete lock met an input held by another, the next cleaning drops both locks and frees the contested input |
| InstantX.DropKept | src/instantx.cpp:449-466 | dropping a lock with its vote records leaves the other locks' votes on record |
| InstantX.HashesCollide | src/instantx.cpp:472-475 | votes of different cities on different transactions can share a hash |
| InstantX.LockPool.constructor | src/instantx.cpp:21-27 | empty tables are consistent |
| InstantX.LockPool.CountBound | src/instantx.cpp:563-579 | in every reachable state a lock's voters are different top-four cities and at most four signatures count |
| InstantX.LockPool.CreateNewLock | src/instantx.cpp:219-254 | an input of at most eight blocks refuses the request; else the lock's height is four above the block of the first input, a new lock expires after 1200 seconds, and an old one keeps its votes and times |
| InstantX.LockPool.DoConsensusVote | src/instantx.cpp:257-299 | records this node's own vote exactly when it ranks in the top four and signs |
| InstantX.LockPool.ReceiveVote | src/instantx.cpp:128-142 | a vote whose hash is on record is ignored; any other is recorded, and if it is good it is put on its lock, which is settled when complete |
| InstantX.LockPool.ProcessConsensusVote | src/instantx.cpp:302-399 | a good vote is put on its lock, opened if need be; a complete lock is settled; a bad vote changes nothing |
| InstantX.VoteKeepsHeights | src/instantx.cpp:333-384 | a vote moves no lock's height or timeout, opens a missing lock without height, and changes expiry only to now |
| InstantX.LockPool.Settle | src/instantx.cpp:364-384 | a complete lock claims the free inputs of its request, or, if another holds one of them, both locks expire at once; a missing request is entered as empty |
| InstantX.LockPool.RequestLock | src/instantx.cpp:41-126 | a new request opens its lock; accepted, it is recorded and this node's own vote with it; rejected, its free inputs are claimed and, if its lock is complete, contested locks expire; votes and owners are kept |
| InstantX.LockPool.RequestOwnLock | src/wallet.cpp:1178-1179 | the wallet's own request is recorded and opens its lock, leaving all votes alone |
| InstantX.LockPool.DropLock | src/instantx.cpp:449-470 | removes exactly what belongs to one lock |
| InstantX.LockPool.CleanTransactionLocksList | src/instantx.cpp:441-470 | drops exactly the locks past their expiry with their requests; the one way an outpoint loses its owner |
| Compact.MpiRoundTrip | src/bignum.h:294-319 | every integer survives the sign-and-magnitude byte format |
| Compact.MpiIffMinimal | src/bignum.h:294-319 | a byte string is what its value is written as, exactly when no byte is superfluous |
| Compact.VchRoundTrip | src/bignum.h:294-319 | reading back the little-endian form gives the number |
| Compact.CompactIs | src/bignum.h:321-331 | a compact number is three bytes shifted by its length byte less three, negative if their highest bit is set |
| Compact.CompactKeepsThree | src/bignum.h:321-344 | packing keeps length and first three bytes |
| Compact.CompactRounds | src/bignum.h:321-344 | packing and unpacking rounds a target down to a multiple of its unit |
| Compact.RoundedClose | src/bignum.h:321-344 | packing loses less than one part in 2^15 |
| Compact.RoundedMono | src/bignum.h:321-344 | packing keeps the order of targets |
| Retarget.BaseEngine | src/blockparams.cpp:168-243 | the average factor of the last five spacings and the balance of the five blocks behind the tip |
| Retarget.FactorIs | src/blockparams.cpp:207-217 | the six factors and the spacings they stand for |
| Retarget.AverageIs | src/blockparams.cpp:240-258 | the mean of five factors, a third of it when all five blocks behind the tip are of the other type, and at least a half |
| Retarget.GetLastBlockIndex | src/main.cpp:1451-1456 | the last block of the wanted type, or genesis |
| Retarget.ThreadCurve | src/blockparams.cpp:245-298 | skew, floor at one half and hourly halvings of the average |
| Retarget.SlowedIs | src/blockparams.cpp:262-295 | halved once for each full hour since the block before, up to four |
| Retarget.CurveBounds | src/blockparams.cpp:245-298 | the curve stays between 1/32 and 2 |
| Retarget.Retarget | src/blockparams.cpp:300-334 | the compact form of the capped, scaled old target |
| Retarget.TargetIs | src/blockparams.cpp:300-334 | from height 105 on the target is computed from the last block of the type |
| Retarget.NewTargetIs | src/blockparams.cpp:315-324 | the factor in ten-thousandths rounded down, and the old target divided by it, times ten thousand, capped by the limit |
| Retarget.QuotientTruncates | src/blockparams.cpp:318-318 | division of targets, negative ones included, is truncated toward zero |
| Retarget.TargetBounds | src/blockparams.cpp:300-334 | the decoded target is at most the limit and 10000/312 of the old, and unless capped above half the old less 10000 but for one part in 2^15 |
| Retarget.EarlyTarget | src/blockparams.cpp:304-306 | below height 105 the limit is returned |
| Retarget.SlowerIsNoHarder | src/blockparams.cpp:168-334 | lengthening spacings never lowers the target, unless the unsigned difference wraps for the faster chain alone |
| Retarget.SpacedIsMonotone | src/velocity.cpp:136-146 | where the last block of the type is at height 175 or above, lengthening spacings never lowers the target |
| Retarget.NegativeSpacingWraps | src/blockparams.cpp:262-295 | a last block of the type stamped before its predecessor counts as more than four hours late |
| Retarget.WrapHardens | src/blockparams.cpp:262-295 | where it wraps for the faster chain alone and the slower one is within two hours, the factor rises |
| Retarget.SlowerCanBeHarder | src/blockparams.cpp:262-295 | for every limit from 10,000 up, two chains that carry the bits the retarget asks for, the second no faster, of which the second gets at most half the target |
| Digits.Unique | src/base58.cpp:127-130 | without a leading zero a number has one digit string |
| Digits.ValueIsTotal | src/base58.cpp:113-125 | the value of a digit string is the total of its digits times the powers of the base |
| Base58.BufferFits | src/base58.cpp:113-124 | n bytes always fit into n*138/100+1 base-58 digits |
| Base58.AlphabetInOrder | src/base58.cpp:19-20 | the alphabet is ascending and without the four ambiguous characters, and reading a character inverts writing it |
| Base58.MulAdd | src/base58.cpp:116-125 | the carry loop multiplies by 256 and adds, carry included |
| Base58.EncodeBase58 | src/base58.cpp:106-138 | the carry is zero after every byte; the text is the leading ones and the number in base 58 |
| Base58.EncodedValue | src/base58.cpp:106-138 | the digits of the text have the value of the bytes |
| Base58.EncodedOnes | src/base58.cpp:106-138 | the text starts with as many ones as the bytes with zeros |
| Base58.ReadNumber | src/base58.cpp:37-53 | accepts exactly digits followed by space, with their value |
| Base58.DecodeBase58 | src/base58.cpp:22-70 | succeeds exactly on well-formed text, with the number's shortest bytes |
| Base58.CStringIs | src/base58.cpp:143-146 | what is decoded is the text up to the first terminator |
| Base58.DecodedMeans | src/base58.cpp:22-70 | characters of the alphabet between spaces decode to the bytes of the number they write |
| Base58.DecodedOnly | src/base58.cpp:22-70 | nothing else decodes |
| Base58.DecodeOfEncode | src/base58.cpp:22-138 | decoding an encoding strips the leading zero bytes and nothing else |
| Base58.RoundTripIff | src/base58.cpp:22-138 | the round trip is exact if and only if there is no leading zero byte |
| Base58.EncodeBase58Check | src/base58.cpp:148-154 | the payload with its checksum, encoded |
| Base58.DecodeBase58Check | src/base58.cpp:156-172 | succeeds exactly when the checksum matches, and returns the payload |
| Base58.CheckedRoundTripIff | src/base58.cpp:148-172 | the checked round trip is exact if and only if payload and checksum do not start with a zero byte |
| Merkle.BuildLevel | src/main.h:756-761 | pairs neighbours, a last odd node with itself |
| Merkle.BuildMerkleTree | src/main.h:748-765 | all levels leaves first, ending in the root |
| Merkle.RootOfThree | src/main.h:756-761 | the last of three leaves is paired with itself |
| Merkle.GetMerkleBranch | src/main.h:767-781 | the siblings on the way up |
| Merkle.CheckMerkleBranch | src/main.h:783-796 | hashes upwards by the bits of the index; index -1 gives zero |
| Merkle.BranchClimbsToRoot | src/main.h:748-796 | the branch of every leaf of every list leads to the root |
| Merkle.OnlyLeafClimbs | src/main.h:748-796 | with an injective pair hash only leaf i, along its own branch, reaches the root at index i |
| Merkle.SameRootSameLeaves | src/main.h:748-765 | with an injective pair hash lists of one length with one root are equal |
| Merkle.RepeatedTailSameRoot | src/main.h:756-761 | repeating the last of an odd number of hashes keeps the root, which is why repeated transactions are refused |
| Locator.Set | src/main.h:1301-1316 | the hashes at the walk's distances and genesis |
| Locator.LocatorLength | src/main.h:1301-1316 | ends in genesis; exactly 12 + log2(h - 9) entries from height 11 on |
| Locator.GetDistanceBack | src/main.h:1318-1337 | the walk's distance of the first known entry |
| Locator.DistanceIsHeightDifference | src/main.h:1318-1337 | that distance is the height difference from the sender's tip, whenever the entry is not the appended genesis |
| Locator.GenesisOvershoots | src/main.h:1315-1337 | when only the appended genesis is known the distance exceeds the tip's height |
| StakeModifier.SectionBounds | src/kernel.cpp:40-44 | sections grow from a third of the interval to the whole |
| StakeModifier.SectionIs | src/kernel.cpp:40-44 | the n-th section is 7560 seconds divided by 189 - 2n, rounded down |
| StakeModifier.StartIs | src/kernel.cpp:46-53 | the selection goes back by the total of all sections from the last multiple of two minutes |
| StakeModifier.StakeIsFavoured | src/kernel.cpp:77-84 | the selection hash of a proof-of-stake block loses its lowest 32 bits |
| StakeModifier.SelectBlockFromCandidates | src/kernel.cpp:58-97 | the smallest selection hash among open candidates in time, else the earliest open one; fails only when all are taken |
| StakeModifier.SomeOpen | src/kernel.cpp:150-162 | while fewer are taken than there are candidates, one is open |
| StakeModifier.SelectRounds | src/kernel.cpp:146-162 | no round fails; the modifier is the entropy bits of min(64, n) choices |
| StakeModifier.PicksDiffer | src/kernel.cpp:160-160 | no block is selected twice |
| StakeModifier.TakenIff | src/kernel.cpp:160-160 | taken are exactly the blocks of the rounds before |
| StakeModifier.BitIsEntropy | src/kernel.cpp:157-158 | bit r of the modifier is the entropy bit of the block that round r selected |
| StakeModifier.BitsBound | src/kernel.cpp:157-158 | the modifier fits its rounds |
| StakeModifier.SortedSorts | src/kernel.cpp:143-144 | candidates are a permutation in ascending order of time and, at equal times, of hash |
| StakeModifier.Candidates | src/kernel.cpp:130-144 | the blocks back to the first before the selection interval, in order |
| StakeModifier.GetLastStakeModifier | src/kernel.cpp:26-37 | the modifier of the last block that generated one, or failure |
| StakeModifier.ComputeNextStakeModifier | src/kernel.cpp:112-190 | fails only without any generated modifier; keeps it within the interval, else selects |
| Download.Downloads.constructor | src/main.cpp:181-210 | empty queues are consistent |
| Download.Downloads.InitializeNode | src/main.cpp:229-233 | a new peer starts with empty lists |
| Download.Downloads.FinalizeNode | src/main.cpp:235-245 | removes a peer and exactly its hashes |
| Download.Downloads.MarkBlockAsReceived | src/main.cpp:248-267 | takes a hash off its list and counter, wherever it is |
| Download.Downloads.AddBlockToQueue | src/main.cpp:270-284 | puts a hash at the end of the peer's queue exactly when it is listed nowhere and the peer is known |
| Download.Downloads.MarkBlockAsInFlight | src/main.cpp:287-300 | moves a hash to the end of a peer's in-flight list; the limit of 128 is kept if there was room |
| Download.Downloads.RequestFront | src/main.cpp:4624-4626 | requests the front of the queue |
| Download.Downloads.RequestBlocks | src/main.cpp:4621-4633 | requests from the front, in order, until the queue is empty or 128 are in flight, and ends |
| Download.OnePlace | src/main.cpp:248-300 | a hash is queued or in flight at one peer at most, never both |
| LockedPages.LockedPageManager.constructor | src/allocators.h:30-36 | nothing locked at first |
| LockedPages.LockedPageManager.LockRange | src/allocators.h:44-64 | counters stay the numbers of live ranges touching each page; pages are locked exactly when first used |
| LockedPages.LockedPageManager.UnlockRange | src/allocators.h:67-87 | every page of a live range is found; pages are unlocked exactly when last released |
| LockedPages.LockedPageManager.AllReleased | src/allocators.h:38-41 | releasing all ranges leaves no page locked |
| LockedPages.LockedPageManager.GetLockedPageCount | src/allocators.h:90-94 | the number of locked pages |
| LockedPages.UsesWithout | src/allocators.h:67-87 | releasing one range lowers the use of exactly the pages it touches |
| LockedPages.TouchesIff | src/allocators.h:46-51 | a range touches exactly the pages on which one of its addresses lies |
| LockedPages.EndsIffBelow | src/allocators.h:51-51 | the loop over the pages of a range ends if and only if the range stays below the last page |

## Left out

- Disk and database failures, sockets, logging, wallet signals, RPC, threads and the user interface: they have no state of their own here; every read of the block files and every commit succeeds.
- Block index pointers: a block is a value, so aliasing of CBlockIndex objects, nSequenceId and the on-disk hashNext are not modelled.
- Memory-pool changes during a switch of tips (resurrected and removed transactions), orphan transactions and AcceptToMemoryPool.
- Blocks whose parent is unknown: the model refuses them, the code keeps them aside until the parent arrives.
- Signature, script, proof-of-work, Merkle root, payee, transaction-lock and timestamp checks of CheckBlock and ConnectBlock: they are one opaque verdict per block or per input.
- ComputeBlockSize: an opaque function of the block; the code's keeps a running list of sizes, so its answer can also depend on which blocks were tried before.
- The address index and the fJustCheck mode of ConnectBlock.
- The genesis branch of SetBestChain beyond the constructor's initial state; initial block download and checkpoints.
- Coin age: only its failure on an input younger than its spender is kept, because the value is not used by the reward.
- A hard cap on the supply: the branch that looks like one applies only up to height 1.
- Emission during reorganisation: the reward functions read the best block of the moment, so the bound is about branches grown at the tip.
- Overflow of 64-bit amounts: it is assumed not to happen. The money-range checks bound each transaction, not the totals of a block, nor the supply after stray coinstakes.
- Miner.PopBest: the heap's internal order among equal items is not modelled, any best item may be taken.
- Pool transactions with an input that is neither in the chain nor in the pool: the code calls this impossible, and its handling leaves a dangling pointer behind.
- Select_ and the bucket hash functions of the address manager; streams with more than 256 new buckets.
- Ranking.GetFloatingcityRank: the registry, scores and known heights are fixed while locks are collected; ties keep registration order, which the library sort does not promise.
- IsIXTXValid, the spam limit on unknown votes (mapUnknownVotes only decides about relaying), and the block disconnects that run on uninitialised pointers when a rejected lock completes.
- Rounding of doubles in the retarget: factors and averages are exact reals.
- Retarget.Retarget: a chain of at least 105 blocks without a block of the wanted type above genesis makes the code follow a null pointer, so such chains are excluded.
- Misbehaviour scores and the stall detection of the block download.
- LockedPages.LockedPageManager.LockRange: ranges that reach into the last page of the address space are excluded, because the code's loop does not end on them.
- ComputeStakeModifierV2, kernel checks and the visualisation of selected blocks.
- MNengine mixing, sporks, floating-city payments and everything in the wallet.
