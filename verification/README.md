# A verified model of a proof-of-stake node

The node keeps a tree of blocks, a best chain through that tree and an index of the transactions on it; it
remembers peer addresses in bucketed tables; it obeys checkpoints signed by a master key; it derives the
modifiers that proof-of-stake kernels are hashed with; and it hashes, encodes and retargets with code that
was tuned by hand. This project models those parts and proves what they are meant to keep. Each core file is
modelled in its own form: what updates fields in place is a class with those fields, loops are loops with
invariants, and what a method computes is tied to a function about which the laws are proved.

Cryptographic hashes, signatures, scripts and compression rounds are functions that may be anything. The block
files are a map from disk positions to transactions, the index database is a map with a snapshot that a
transaction commits or aborts. The clock is a parameter and every random draw is an arbitrary value in range.

## The chain (Ledger, BlockTree, BlockContext, TxConnect, ChainReplay, ChainState, Issuance)

`Ledger` defines connecting and disconnecting transactions on the index as functions and proves their laws:
spending succeeds exactly when every input is unspent and none is repeated, disconnecting is the exact inverse
of connecting, and connecting changes the value of all unspent outputs by outputs less inputs. `TxConnect` has
the fetch and connect loops with their branches, `ChainReplay` the index of a whole path from the genesis block.
`ChainState.Chain` is the state machine. Its invariant `Valid` says that the index is the replay of the path to
the best block, that the successor links describe that path and nothing else, and that the recorded money supply
of every block on the path is the value of the outputs unspent after it. Every operation is proved against it, so
the four theorems `MainChainExact`, `MoneyConserved`, `SpentFlagsExact` and `BranchSplits` speak about every
reachable state.

`BlockContext` applies the rules for difficulty, time, trust and stake modifiers to the path of a block in the tree. A block
enters the tree only with the bits its history requires, a time later than the median time past and its height in the
coinbase, and with a trust and a modifier that follow from its parent. So on every branch the trust is the sum over
the blocks and rises with each one, the median time past never decreases, and coinbases at different heights differ.

`Issuance` says what acceptance means in values: an accepted payment covers its outputs and its fee, a coinstake creates no more
than its reward allows, an accepted block no more than the reward for its fees and height, and both conditions are exact. Every
operation keeps the best chain earned, that is accepted block by block, as long as the state is consistent, so in every such state
the money supply is at most what the rules let its blocks create (`SupplyEarned`).

A postponed connect that fails is the one way to leave `Valid`: the code breaks out of the loop and still moves
the best-block pointer to the final tip (src/main.cpp:1928-1943 and 1955-1959). `SetBestChain` states, over the state
before the call, exactly when it fails and exactly when the state is consistent afterwards: `Switches` says that every
block from the fork up to the first one with more trust than the best chain is accepted in its place, `BranchOk` that
every block up to the new tip is, and `Intact` that the first implies the second. The same conditions are carried through
`AddToBlockIndex` and the four checkpoint operations, so each entry point of the node has its inductive step, and
`PostponedConnect.Fails` is a run from the genesis block in which the condition fails and the state is inconsistent. The run
goes through the entry points of the model with blocks that pass every check made before they enter the tree; what
ConnectBlock refuses is a coinbase that pays one unit more than the reward.

## Checkpoints and mining (Checkpoints, PostponedConnect, Miner, MinedBlock, StakeConflict)

`Checkpoints.SyncCheckpoints` proves that stored checkpoints form a chain of strict descendants and that the
current one is always the best block or one of its ancestors. `Miner` proves that the selection loop yields
transactions that connect one after the other, for any priorities whatever, and that no candidate is left out without a
ground: it was passed over when its pool parents had been chosen, or one of them is not chosen. `MinedBlock` proves that the block made of them
is accepted by `ConnectBlock`: the two loops look at different positions, views and heights and still agree. Two things they
do not agree on. The miner takes the reward for the parent's proof-of-work height plus one, and `MinedReward`
says exactly when that is too much. And it chooses without a look at the coinstake: `StakedIsAccepted` says that a
proof-of-stake block is accepted exactly when in addition no chosen transaction spends what the coinstake spends, and
`StakeConflict` gives a block in which one does.

## Addresses (AddrTables, AddrMan, AddrEvict, AddrStore, AddrLoad, AddrCheck)

`AddrMan.AddrManager` has the maps, vectors and counters of the address manager. `Valid` is what the repository's
own checker looks for, with bucket sizes and placement added, and `AddrCheck` proves that relation in both
directions. The operations break the invariant on the way and restore it. Two results are about conditions the
code does not check: an answer keeps the invariant exactly when its time is positive, an attempt when its time is
not negative. Eviction from a tried bucket is meant to replace the least recently good of the entries inspected, but the
position remembered is that of the draw, from which the entry has been swapped away. `AddrEvict` works out what stands
there in the end and proves exactly when it is one of the least recently good entries inspected; with draws that differ
and lie behind the first four positions it is simply the entry from the front whose place was taken, and
`EvictionCanMiss` gives a full bucket in which the oldest entry stays. `AddrStore` proves that loading what was saved
gives the same tables up to a renumbering. `AddrLoad` says what loading any sound file gives, files with another number of
new buckets included, and exactly when the result is consistent and when the check passes; these differ, as the
check does not look at the sizes of buckets.

## Stake modifiers (StakeModifier)

Selection never comes away empty (a pigeonhole argument over the candidates), picks no block twice, and each round
picks the least selection hash among those eligible; each bit of a modifier is the last bit of the hash of the block picked in
its round (`BlockContext.ModifierBits`). The kernel's modifier does not change when the chain grows.

## Hashing (Words, Fips202, Keccak, KeccakSponge, Blake)

`Fips202` writes out sections 3.2 to 3.4, 4 and 5.1 of FIPS 202 on bits. `Keccak` has the macros of the 64-bit code with
six complemented lanes and the renamed lanes, and proves that eight rounds at a time they compute
Keccak-f[1600]; `KeccakSponge` proves that feeding bytes in any pieces and closing gives the sponge of the whole
message. `Blake` proves that the wrap-around counter makes every block get the count the hash wants.

## Codecs and arithmetic (Numerals, Bignum, Base58, Retarget, Merkle, MedianTime, LockedPages)

Round trips of the number formats, bounds of the retargeting rule for every history, branches of the hash tree for
every number of transactions, the median time that never decreases, and page-lock counts that are the numbers of
live ranges.

## Model

| member | source | states |
|---|---|---|
| Ledger.SpendShape | src/main.cpp:1461-1499 | after spending the first i inputs the index differs only in those outputs' flags, which name the spender; each was unspent before and no two inputs are the same output |
| Ledger.SpendSucceeds | src/main.cpp:1461-1499 | spending a transaction's inputs succeeds if and only if every output named exists and is unspent and no two inputs name the same one |
| Ledger.UndoTx | src/main.cpp:1263-1296 | disconnecting a transaction that was just connected gives back the very same index |
| Ledger.UndoBlock | src/main.cpp:1581-1586 | disconnecting a connected block, last transaction first, restores the index exactly, spends inside the block included, if and only if none of its ids was indexed before |
| Ledger.ConnectTxValue | src/main.cpp:1643-1699 | connecting one transaction changes the value of all unspent outputs by its outputs less its inputs, and every index entry still points at its transaction on disk |
| Ledger.ConnectValue | src/main.cpp:1643-1703 | conservation over any number of transactions: the value of all unspent outputs changes by exactly what the money-supply line adds |
| Ledger.SpentExactly | src/main.cpp:1461-1499 | for every output that no connected transaction puts in the place of an indexed one, what the index records as its spender is what it recorded before followed by the inputs that spend it now, and that is at most one |
| Ledger.InputsComeFromEarlier | src/main.cpp:1299-1372 | no connected transaction spends an output that was not there before it |
| BlockTree.FindFork | src/main.cpp:1757-1769 | the two-pointer loop never runs past the genesis block and ends at the lowest common ancestor |
| BlockTree.CollectDown | src/main.cpp:1771-1780 | the pointer walk lists exactly the blocks above the fork, highest first |
| BlockTree.AncestorsLinear | src/main.cpp:1757-1769 | two ancestors of one block lie on one path, so the fork is unique |
| BlockTree.ForkIsShared | src/main.cpp:1757-1769 | two paths go together exactly up to the fork, so the fork can be told from the paths before anything is switched |
| BlockTree.IntermediateIs | src/main.cpp:1902-1914 | the block that the walk down ends at: the new tip or a block with more trust than the best chain, whose parent has no more |
| TxConnect.FetchInputs | src/main.cpp:1299-1372 | every previous transaction is found in the pending changes, the index or the memory pool as the mode allows; success and the invalid flag exactly when all are found and in range, or found and out of range |
| TxConnect.LookupMeans | src/main.cpp:1299-1372 | which entry and which transaction are found: pending before indexed for blocks and the miner, indexed alone otherwise; from disk or from the pool as the entry says; unknown ones from the pool outside blocks only, all unspent |
| TxConnect.IsImmature | src/main.cpp:1442-1446 | the walk over the last blocks decides exactly whether a coinbase or coinstake output was created too recently |
| TxConnect.CheckInputs | src/main.cpp:1430-1457 | the first loop passes exactly when every input is in range, mature, not later than its spender and in money range, and it yields the total input value |
| TxConnect.MarkInputs | src/main.cpp:1461-1499 | the second loop succeeds exactly when no output is spent or repeated and every signature holds, and writes back just the marked entries |
| TxConnect.ConnectInputs | src/main.cpp:1420-1531 | the exact condition for success, from all checks together, and the pending changes it leaves in each mode |
| TxConnect.SpendLocal | src/main.cpp:1461-1499 | marking the fetched copies and laying them over the index is spending in the whole index |
| Issuance.PaymentAccepted | src/main.cpp:1420-1531 | a payment is accepted in a block if and only if it overwrites nothing unspent, each input names an unspent output on disk that is mature, not later, in money range and signed for, no two are the same, and inputs less outputs are not negative, not below the fee and in money range |
| Issuance.CoinstakeAccepted | src/main.cpp:1501-1511 | a coinstake is accepted if and only if the same holds of its inputs, its reward is known, and it pays out no more than its inputs, its reward less its fee, and the least fee |
| Issuance.CoinbaseAccepted | src/main.cpp:1643-1656 | a coinbase is accepted if and only if it overwrites nothing unspent |
| Issuance.BlockIssues | src/main.cpp:1701-1733 | an accepted block creates no more than the reward for its height and fees, less the fees, plus what its coinstakes may; without a coinstake it creates its coinbase value less the fees, which are not negative |
| Issuance.BranchIssues | src/main.cpp:1801-1818 | an accepted branch adds no more to the value of all unspent outputs than its blocks may create |
| Issuance.BlockStaysAccepted | src/main.cpp:1605-1751 | a block that was accepted would be accepted again with more on disk and signatures skipped |
| Issuance.EarnedAfter | src/main.cpp:1902-1943 | if every block of the best chain was accepted in its place, the same holds after a switch on the way of which no block is refused |
| Issuance.SupplyEarned | src/main.cpp:1701-1703 | in every consistent state whose best chain was earned block by block the money supply is at most what its blocks may create |
| ChainReplay.PositionsDistinct | src/main.cpp:1636-1664 | two transactions have the same disk position only if they are the same one of the same block |
| ChainReplay.PlacesFollow | src/main.cpp:1636-1664 | the first transaction of a block lies right behind its header and count, each other one right behind the one before it |
| ChainReplay.CountLength | src/serialize.h:173-179 | the count takes one byte below 253, else a marker and just as many of two, four or eight bytes as it needs |
| Ledger.TxKinds | src/main.h:557-566 | the one input of a coinbase names the null output, a coinstake spends something and has an empty output in front, and no transaction is both |
| ChainReplay.SoundTransaction | src/main.cpp:479-536 | a transaction passes its checks if and only if it has inputs and outputs, no output is negative and all together are within the money there can be, empty ones only in a coinbase or coinstake, no input twice, and null inputs only in a coinbase with a script of 2 to 100 bytes |
| ChainReplay.SoundBlock | src/main.cpp:2167-2239 | a block passes if and only if its first transaction and no other is a coinbase, that is empty in a proof-of-stake block, all pass their checks and are no later than the block, and ids differ |
| ChainReplay.SigOpsStep | src/main.cpp:1657-1684 | each transaction counts with the signature operations of its own scripts and, unless it is a coinbase, of those it spends |
| ChainReplay.ReplayIsConnect | src/main.cpp:1643-1720 | connecting a path block by block is connecting all its transactions in order |
| ChainReplay.UndoLast | src/main.cpp:1581-1586 | disconnecting the last block of a path gives the index of the rest, whatever the block spends |
| ChainReplay.UndoAt | src/main.cpp:1785-1799 | the same for any block of a path, as the disconnect loop of a reorganisation needs it |
| ChainReplay.ReplayMoney | src/main.cpp:1701-1703 | the unspent total of a path grows with its last block by what that block creates net |
| ChainReplay.SpentOnPath | src/main.cpp:1461-1499 | on a replayed path the index names for every output exactly the inputs of the path that spend it, at most one |
| ChainReplay.MoneyAlongLargerDisk | src/main.cpp:2330-2336 | writing another block to the block files leaves the unspent totals all along a path alone |
| ChainState.TxDB.TxnBegin | src/db.h:271-280 | opening a transaction remembers the database as it is, and fails exactly when one is open |
| ChainState.TxDB.TxnCommit | src/db.h:282-289 | commit keeps all changes |
| ChainState.TxDB.TxnAbort | src/db.h:291-298 | abort brings back the database as it was when the transaction was opened |
| ChainState.Chain.constructor | src/main.cpp:1888-1894 | the chain that holds the genesis block only is consistent; the genesis block has trust of its own, proof-of-work height zero and a modifier |
| ChainState.Chain.ConnectTransaction | src/main.cpp:1643-1699 | one pass of the loop accepts exactly when nothing unspent is overwritten, the inputs connect and the signature operations fit, and it queues exactly that connection |
| ChainState.Chain.ConnectTransactions | src/main.cpp:1638-1699 | the whole loop accepts exactly the acceptable blocks; the queue is the connection of all transactions, the tallies are the fees and the net value |
| ChainState.Chain.WriteQueue | src/main.cpp:1715-1720 | writing the queue record by record lays it over the index |
| ChainState.Chain.ConnectBlock | src/main.cpp:1605-1751 | succeeds if and only if the block is acceptable on the index; then the index is the connection of its transactions, and supply and mint are the parent's supply and the block's net value and fees |
| ChainState.Chain.DisconnectInputs | src/main.cpp:1263-1296 | relinquishes what the transaction spends and erases it, failing exactly when an entry or output is missing |
| ChainState.Chain.DisconnectBlock | src/main.cpp:1581-1586 | takes the transactions out, last first, on the database itself |
| ChainState.Chain.DisconnectBranch | src/main.cpp:1785-1799 | on a consistent state it cannot fail and leaves the index of the fork |
| ChainState.Chain.ConnectBranch | src/main.cpp:1801-1818 | succeeds exactly when every block of the new branch is accepted in its place; then index and money supplies are those of the new path |
| ChainState.Chain.UnlinkBranch | src/main.cpp:1826-1829 | after clearing the links of the old branch the successors describe exactly the path to the fork |
| ChainState.Chain.LinkBranch | src/main.cpp:1831-1834 | after setting the links of the new branch the successors describe exactly the path to the new tip |
| ChainState.Chain.Reorganize | src/main.cpp:1753-1834 | succeeds if and only if every block above the lowest common ancestor is accepted in its place; then everything describes the new path, otherwise links and money are untouched and the transaction can be aborted |
| ChainState.Chain.SetBestChainInner | src/main.cpp:1851-1878 | extends the chain by one block exactly when the block is accepted, else aborts back to the parent |
| ChainState.Chain.FindIntermediate | src/main.cpp:1902-1914 | the walk ends at the block that the specification names, whose parent has no more trust than the best block; the blocks above it are the postponed list |
| ChainState.Chain.ForkOfIntermediate | src/main.cpp:1902-1914 | the fork with that intermediate block is the fork with the final tip |
| ChainState.Chain.ConnectPostponed | src/main.cpp:1927-1943 | connects the postponed blocks in order, stops below the first that is refused, and reaches the final tip exactly when all of them are accepted in their places |
| ChainState.Chain.BranchSplits | src/main.cpp:1902-1943 | switching to the intermediate block and then connecting the rest accepts exactly what one full switch accepts |
| ChainState.Chain.SetBestChain | src/main.cpp:1881-1995 | fails, changing nothing, if and only if a block from the fork up to the first one with more trust than the best chain is refused; otherwise the best block is the new one, and the state is consistent if and only if in addition every postponed block is accepted; else the index ends below the first that is refused |
| ChainState.Chain.Enter | src/main.cpp:2137-2150 | enters a block with its derived values and changes nothing else in tree and disk; a tip of no more trust is only entered; one of more trust becomes the best block, and leaves a consistent state, under exactly the conditions of SetBestChain on the state before |
| ChainState.Chain.AddToBlockIndex | src/main.cpp:2077-2164 | enters a block once, with the trust, proof-of-work height, entropy bit and stake modifier that follow from the blocks before it; refuses exactly a known block, a proof-of-stake block without proof hash and a modifier that is not the recorded one, and then changes nothing; otherwise the conditions of SetBestChain on the state before; every block of the tree keeps values that follow from its parent |
| ChainState.Chain.TrustInTree | src/main.cpp:2105-2106 | on every branch of the tree the trust of a block is the sum over the blocks up to it, and each of its ancestors has less |
| ChainState.Chain.MedianInTree | src/main.cpp:2273-2275 | on every branch of the tree the median time past never decreases |
| ChainState.Chain.CoinbasesDiffer | src/main.cpp:2324-2327 | any two blocks of the tree at different heights have different coinbases |
| ChainState.Chain.TipByHash | src/main.cpp:1955-1956 | the database describes one tip only, so moving the pointer elsewhere is inconsistent |
| ChainState.Chain.MainChainExact | src/main.h:1268-1271 | in every consistent state the main-chain test holds of the best block and its ancestors and of no other block |
| ChainState.Chain.MoneyConserved | src/main.cpp:1701-1703 | in every consistent state the money supply of the best block is the value of all outputs the index holds as unspent |
| ChainState.Chain.SpentFlagsExact | src/main.cpp:1461-1499 | in every consistent state an output is flagged spent exactly when one main-chain input spends it, the flag being that spender's position; no output has two spenders |
| Checkpoints.SyncCheckpoints.constructor | src/checkpoints.cpp:133-148 | the genesis block becomes the first checkpoint |
| Checkpoints.SyncCheckpoints.TraceBack | src/checkpoints.cpp:118-124 | the pointer walk meets the ancestor at the wanted height and no null pointer |
| Checkpoints.SyncCheckpoints.ValidateSyncCheckpoint | src/checkpoints.cpp:91-131 | passes exactly the strict descendants of the current checkpoint; remembers as invalid exactly the blocks on neither side of it |
| Checkpoints.SyncCheckpoints.WriteSyncCheckpoint | src/checkpoints.cpp:133-148 | stores the checkpoint in a transaction of its own and leaves the chain alone |
| Checkpoints.SyncCheckpoints.MoveCheckpoint | src/checkpoints.cpp:162-179 | succeeds if and only if the block is on the best chain or the chain switches to it, and says exactly when the state is consistent afterwards; on success it is stored and on the best chain, on failure it is remembered as invalid and nothing has moved; a best chain earned block by block stays earned as long as the state is consistent |
| Checkpoints.SyncCheckpoints.ProcessSyncCheckpoint | src/checkpoints.cpp:392-441 | stores the checkpoint if and only if it is signed, a strict descendant of the current one in the tree, and on or switched to by the best chain; an unknown one becomes pending; exact conditions for the invalid mark and for a consistent state; the checkpoint stays on the best chain in every case; a best chain earned block by block stays earned as long as the state is consistent |
| Checkpoints.SyncCheckpoints.AcceptPendingSyncCheckpoint | src/checkpoints.cpp:150-192 | stores the pending checkpoint if and only if the same conditions hold of it, forgets it when it is no descendant, and keeps it when the switch fails; a best chain earned block by block stays earned as long as the state is consistent |
| Checkpoints.SyncCheckpoints.CheckSync | src/checkpoints.cpp:209-234 | the exact answer for every height: descendants of the checkpoint above it, itself at its height, known blocks below |
| Checkpoints.SyncCheckpoints.AcceptBlock | src/main.cpp:2246-2340 | accepts a block if and only if it is new, on a known parent, has the required bits, a time later than the median time past, its height in the coinbase and derivable values, is let through by CheckSync and the remaining checks and, when it has more trust, switched to; a refused one changes nothing; the best chain never leaves the checkpoint, every block of the tree fits its parent, and the state is consistent afterwards under exactly the condition of SetBestChain; a best chain earned block by block stays earned as long as the state is consistent |
| PostponedConnect.Fails | src/main.cpp:1927-1959 | a run from the genesis block that leaves the state inconsistent: two branches of equal trust, a checkpoint on the lower part of the one with a bad block, and then a block on top of that branch; the postponed bad block is refused, the index ends below it, and the best-block pointer moves to the top all the same; every block of the run passes CheckBlock and the checks of AcceptBlock |
| PostponedConnect.PlainAccepted | src/main.cpp:1605-1751 | ConnectBlock accepts every block of that run but the one whose coinbase pays one unit more than the reward |
| PostponedConnect.PlainSound | src/main.cpp:2167-2239 | every block of that run passes CheckBlock, the bad one included |
| PostponedConnect.PlainFits | src/main.cpp:2269-2327 | every block of that run has the bits that its history requires, a time later than the median time past and its height in the coinbase |
| PostponedConnect.Refused | src/main.cpp:1902-1943 | the way to the last block switches as far as the first block with more trust, and stops there |
| BlockContext.CheckParent | src/main.cpp:2269-2327 | passes exactly the blocks whose bits, time and coinbase height agree with the path of their parent |
| BlockContext.Derive | src/main.cpp:2090-2128 | fails exactly for a proof-of-stake block without proof hash, because the genesis block has generated a modifier; otherwise all values follow from the path of the parent |
| BlockContext.HeightsDiffer | src/script.h:238-250 | a script that starts with one pushed height starts with no other |
| BlockContext.PushReadsBack | src/script.h:238-250 | what is pushed reads back: an opcode for 1 to 16, else the little-endian number behind its length |
| BlockContext.FittingAddsTrust | src/main.cpp:2356-2374 | a block with the required bits has a target above zero and within the limit, so it adds trust to its chain |
| BlockContext.TrustIsSum | src/main.cpp:2105-2106 | if the values of all blocks of a path follow from their parents, the trust of the last is the sum over the path |
| BlockContext.NamesMeans | src/main.cpp:2324-2327 | a coinbase names the height exactly when its script is the pushed height with anything behind it |
| BlockContext.EntropyIsParity | src/main.h:956-963 | the entropy bit of every block is the last bit of its hash, and the genesis block starts with the modifier zero |
| BlockContext.ModifierBits | src/kernel.cpp:158-178 | bit r of a generated modifier is the last bit of the hash of a block below, the one picked in round r |
| BlockContext.WorkHeightCounts | src/main.cpp:2094-2102 | the proof-of-work height of a block is the number of proof-of-work blocks below it |
| BlockContext.TrustRises | src/main.cpp:2356-2374 | along a path of blocks that fit their parents every block has more trust than each block below it |
| BlockContext.MedianAlong | src/main.cpp:2273-2275 | along a path of blocks that fit their parents the median time past never decreases |
| Miner.TxQueue.Classify | src/main.cpp:4194-4260 | a transaction is queued exactly when it waits for no parent, and waits for exactly its parents in the pool |
| Miner.TxQueue.AwaitParents | src/main.cpp:4204-4241 | the input loop notes exactly the parents that are not on the chain and stops at one that is nowhere |
| Miner.TxQueue.Take | src/main.cpp:4274-4280 | whichever entry the heap yields leaves the queue, which never holds a transaction twice |
| Miner.TxQueue.Release | src/main.cpp:4347-4363 | a chosen parent is struck from every waiting list; who waits for nothing more is queued once, however many inputs it has from that parent |
| Miner.FillQueue | src/main.cpp:4187-4260 | queue and waiting list together offer exactly the final pool transactions with all parents on the chain or in the pool |
| Miner.CandidateMeans | src/main.cpp:4190-4241 | the candidates are the final pool transactions, no coinbase and no coinstake, each of whose inputs can be read from the chain or is in the pool |
| Miner.TryConnect | src/main.cpp:4313-4332 | takes a transaction exactly when its inputs connect on the chain and the transactions chosen before, the fee is paid and the signature operations fit; then the pending changes are that connection |
| Miner.Examine | src/main.cpp:4282-4334 | the checks on one transaction at the head of the queue: it is taken exactly when none of the grounds named speaks against it |
| Miner.CollectTransactions | src/main.cpp:4262-4364 | terminates with a selection of distinct pool transactions that connect in order within the size and signature-operation limits, fees added up; and the selection is complete: every candidate that is not chosen was passed over on a ground of its own when some prefix of the selection, its pool parents included, had been chosen, or has a pool parent that is not chosen; and no chosen one should have been passed over on any of the grounds |
| Miner.SingleIsChosen | src/main.cpp:4262-4364 | a pool whose one candidate has no pool parents and is within all limits yields exactly that transaction |
| Miner.ReleaseTracks | src/main.cpp:4347-4363 | releasing the children of a chosen transaction keeps the account: whoever waits does so for just its parents that are not chosen, whoever is queued has none |
| Miner.NoDoubleSpend | src/main.cpp:4329-4332 | no output is spent by two chosen transactions, nor by a chosen one and the chain, unless a chosen transaction takes the place of an indexed one with its id |
| Miner.ParentsFirst | src/main.cpp:4347-4363 | every input of a chosen transaction comes from the chain or from a transaction chosen before it |
| MinedBlock.TakenIsAccepted | src/main.cpp:4313-4332 | the conditions under which the miner takes a transaction are those under which ConnectBlock accepts it at its place in the block, maturity included, unless it spends what the coinstake spends; and both count the same signature operations and fee |
| MinedBlock.MinedConnects | src/main.cpp:4262-4364 | behind a coinbase, or a coinbase and a coinstake, the block is connected to the end if and only if these are accepted and no chosen transaction spends an output that the coinstake spends; ConnectBlock then counts the fees that the miner counted |
| MinedBlock.MinedIsAccepted | src/main.cpp:4262-4364 | a proof-of-work block passes the whole transaction loop of ConnectBlock, and is accepted if and only if CheckBlock holds and the coinbase is within the reward for the block's own height |
| MinedBlock.StakedIsAccepted | src/main.cpp:4152-4180 | a proof-of-stake block is accepted if and only if CheckBlock holds, the coinstake is accepted behind the empty coinbase, and no chosen transaction spends an output that the coinstake spends |
| StakeConflict.MinedIsRefused | src/main.cpp:4262-4364 | such a block: a sound coinstake, a correct choice of the miner that spends the staked output, and ConnectBlock refuses the block |
| MinedBlock.MinedReward | src/main.cpp:4374 | the miner takes the reward for the parent's height plus one; the block is accepted if and only if the parent is a proof-of-work block or that reward is not higher than the one for the height that the index keeps |
| AddrMan.AddrManager.Find | src/addrman.cpp:80-91 | finds the one id of an address, and none exactly when no entry has it |
| AddrMan.AddrManager.Create | src/addrman.cpp:93-103 | a fresh id joins mapInfo, mapAddr and the end of vRandom, in no bucket yet; the links between the three stay mutual inverses |
| AddrMan.AddrManager.SwapRandom | src/addrman.cpp:105-123 | two positions of vRandom change places and every entry still knows its own |
| AddrMan.AddrManager.Delete | src/addrman.cpp:163-167 | an entry that is in no bucket leaves all three structures and the count |
| AddrMan.AddrManager.Dereference | src/addrman.cpp:161-169 | an id leaves one bucket and loses one reference, and the tables when that was the last; all counts stay exact |
| AddrMan.AddrManager.ShrinkNew | src/addrman.cpp:149-201 | exactly one entry leaves the bucket: the first terrible one, else the oldest of four drawn, the first of these when several are as old |
| AddrMan.AddrManager.SelectTried | src/addrman.cpp:125-147 | the bucket is shuffled in its first positions by draws in range, and the position returned is that of the inspection the eviction results are about |
| AddrMan.AddrManager.LeaveNewBuckets | src/addrman.cpp:207-215 | the entry leaves every new bucket and has no references left |
| AddrMan.AddrManager.MakeTried | src/addrman.cpp:203-259 | the entry moves to its tried bucket; when that is full it takes the position that inspecting the bucket returns, and the entry there moves to a new bucket; no bucket grows beyond its size and all counts stay exact |
| AddrMan.AddrManager.FindBucket | src/addrman.cpp:288-300 | finds a new bucket that holds the entry, from wherever the search starts, if there is one |
| AddrMan.AddrManager.Good | src/addrman.cpp:261-310 | what an answer changes, the entry displaced included, and that the invariant holds afterwards if and only if the time is positive or the service unknown |
| AddrMan.AddrManager.EnterNewBucket | src/addrman.cpp:358-366 | the entry is in the bucket afterwards, with one reference more if it was not before, and one other entry has left if the bucket was full |
| AddrMan.AddrManager.Refresh | src/addrman.cpp:321-330 | time and services are updated just as the report and the penalty say |
| AddrTables.RefreshMeans | src/addrman.cpp:323-330 | a report moves the time only if it is newer by an hour, or a day for an old report, and the penalty, and never back; services are added |
| AddrMan.AddrManager.AddKnown | src/addrman.cpp:319-349 | a known address is refreshed and enters one more bucket exactly when the report is news, the entry is not tried and in fewer than four buckets, and the random number is zero modulo 2 to the power of its references |
| AddrTables.WelcomeMeans | src/addrman.cpp:332-349 | an entry is welcome in one more bucket exactly when it is new, in fewer than four, and the report is newer than what is known |
| AddrMan.AddrManager.AddNew | src/addrman.cpp:350-367 | an unknown address gets an entry with the penalised time and exactly one reference |
| AddrMan.AddrManager.Add | src/addrman.cpp:312-368 | says whether the address is new, does nothing for an unroutable one, enters a known one in one more bucket exactly under the conditions of AddKnown, and keeps the invariant under every random choice |
| AddrMan.AddrManager.Attempt | src/addrman.cpp:370-387 | records time and count for the same service only; the invariant holds afterwards if and only if the time is not negative or the service unknown |
| AddrMan.AddrManager.Connected | src/addrman.cpp:509-527 | moves the time of the same service when it is more than twenty minutes old, and keeps the invariant |
| AddrMan.AddrManager.GetAddr | src/addrman.cpp:493-507 | yields 23 percent of the entries, at most 2500, all of different addresses; vRandom keeps its elements |
| AddrEvict.InspectIs | src/addrman.cpp:125-147 | inspecting a bucket is a shuffle by the draws alone; the entry remembered is the first least recently good one drawn, the position returned is that of its draw |
| AddrEvict.EvictsOldest | src/addrman.cpp:125-147 | the entry at the position returned is at most as recently good as every entry inspected if and only if its draw left it in place, or the position belongs to a later step whose entry is as old, or what was last moved there from the front is no younger |
| AddrEvict.FarDraws | src/addrman.cpp:131-142 | when all draws differ and lie behind the first four, the entry that leaves is the one that stood at the position of the step, whatever its age |
| AddrEvict.EvictionCanMiss | src/addrman.cpp:135-142 | a full bucket of 64 and four draws for which the oldest entry inspected stays and a younger one leaves |
| AddrEvict.PromotionEvicts | src/addrman.cpp:230-259 | a promotion displaces one of the least recently good entries inspected under exactly that condition |
| AddrTables.TriedReach | src/addrman.cpp:10-22 | the addresses of one group reach at most 4 of the tried buckets |
| AddrTables.NewReach | src/addrman.cpp:24-39 | what the sources of one group report goes into at most 32 of the new buckets, and addresses of one group all into the same |
| AddrTables.TriedNow | src/addrman.cpp:41-44 | an entry tried within the last minute is never terrible |
| AddrTables.TerribleMeans | src/addrman.cpp:41-59 | which other entries are: from the future, without a time or a month old, failed three times without a success, or ten times without one for a week |
| AddrTables.ShuffleKeeps | src/addrman.cpp:125-147 | the order inside a tried bucket does not matter to the invariant |
| AddrTables.PurgedRoom | src/addrman.cpp:244-252 | the bucket that the promoted entry came from has room for the displaced one, so the fallback always works |
| AddrTables.Exchange | src/addrman.cpp:229-258 | after a displacement links, buckets, reference counts and both counters are exact again |
| AddrTables.Promote | src/addrman.cpp:221-228 | after a promotion into a bucket with room the same |
| AddrTables.LoseReference | src/addrman.cpp:161-169 | after an entry left one bucket the same, for any other entry that is only half entered |
| AddrMan.AddrManager.Save | src/addrman.h:279-317 | the file lists every new entry, every tried entry and every new bucket by index into the former |
| AddrMan.AddrManager.Load | src/addrman.h:318-378 | for any number of new buckets in the file the loops rebuild exactly the tables that the loading functions define, bucket limits, skipped indices and own buckets included |
| AddrMan.AddrManager.LoadsWhatWasSaved | src/addrman.h:270-379 | a manager that loaded what a consistent one saved is consistent and the same up to a renumbering of ids |
| AddrStore.RoundTrip | src/addrman.h:270-379 | loading what was saved: same addresses and statistics, same membership in every new and tried bucket, same reference counts, nothing lost, and the saved counters fit |
| AddrStore.RoomInTried | src/addrman.h:341-359 | no tried bucket is full before its last entry has been read |
| AddrStore.NextIndex | src/addrman.h:361-377 | every index read is a new entry, not yet in the bucket and not in too many others, so none is skipped |
| AddrStore.RefsBelow | src/addrman.h:361-377 | an entry is in at most as many loaded buckets as it was in, and in fewer while one is still to come |
| AddrLoad.LoadedTables | src/addrman.h:318-378 | whatever sound file is loaded: which entry ends in which bucket and with which count, from the lists or, with another number of buckets, from address and source; links agree, and only tried entries without room are lost |
| AddrLoad.LoadedCounts | src/addrman.h:318-378 | after loading any sound file every reference count and both counters are exact |
| AddrLoad.LoadedConsistent | src/addrman.h:318-378 | the loaded manager is consistent if and only if every new entry was on some list, unless the lists do not count, and no bucket gets more than 64 entries |
| AddrLoad.LoadedPasses | src/addrman.cpp:434-490 | the manager's own check passes after loading if and only if every new entry was on some list, so always with another number of buckets, overfull ones included |
| AddrLoad.SavedIsSound | src/addrman.h:279-317 | what a consistent manager saves is such a file |
| AddrCheck.CheckEntry | src/addrman.cpp:441-460 | the checks on one entry pass exactly when flag, references, positions and times agree; the look-up that enters an unknown address included |
| AddrCheck.CheckTried | src/addrman.cpp:465-473 | the loop over tried buckets ends with nothing left exactly when every tried id sits in one place |
| AddrCheck.CheckNew | src/addrman.cpp:475-484 | the loop over new buckets ends with nothing left exactly when every new id is in as many buckets as it has references |
| AddrCheck.Check | src/addrman.cpp:434-490 | returns zero if and only if the tables pass, and any other code names a fault that is there; looking up an unknown address enters it with id zero and changes nothing else, and nothing at all in a consistent manager |
| AddrCheck.TablesPass | src/addrman.cpp:434-490 | tables that agree pass the check whatever the sizes of their new buckets |
| AddrCheck.ValidPasses | src/addrman.cpp:434-490 | the invariant of the manager implies that the check returns zero |
| AddrCheck.PassesValid | src/addrman.cpp:434-490 | conversely tables that pass, with bucket sizes, placement and addresses in order, have the whole invariant; that vRandom is a bijection needs a counting argument |
| Keccak.StoreView | src/keccak.c:1139-1155 | each renaming table from P0 to P8 is a permutation of the lanes |
| Keccak.TablesFollowPi | src/keccak.c:1139-1155 | each table follows from the one before it by the step pi |
| Keccak.P8ToP0 | src/keccak.c:1313-1347 | the assignments that move the lanes back undo table P8 |
| Keccak.ElementIs | src/keccak.c:958-973 | the element added to a column is that of section 3.2.1 |
| Keccak.ThetaIsTheta | src/keccak.c:975-1014 | the macro for theta is theta |
| Keccak.ThetaFlips | src/keccak.c:975-1014 | theta carries complemented lanes to the lanes that its mask says, for every state |
| Keccak.OffsetsAre | src/keccak.c:1016-1053 | the rotation offsets are those the walk of section 3.2.2 generates |
| Keccak.RhoIsRho | src/keccak.c:1016-1053 | the macro for rho is rho |
| Keccak.RhoFlips | src/keccak.c:1016-1053 | rotation keeps complemented lanes complemented |
| Keccak.KhiIsChi | src/keccak.c:1058-1135 | the macro for chi, with its mixture of and, or and not, is chi on the lanes complemented as they then are, and leaves just the six marked lanes complemented |
| Keccak.RoundConstantIs | src/keccak.c:136-149 | each of the 24 constants is the one that the shift register of section 3.2.5 generates |
| Keccak.RoundIs | src/keccak.c:1392-1397 | one round on complemented and renamed lanes is one round of the standard |
| Keccak.Permute | src/keccak.c:1454-1467 | on every state with the six lanes complemented the macro yields the complemented image of Keccak-f[1600] |
| KeccakSponge.KeccakContext.constructor | src/keccak.c:1525-1566 | the initial words are the complemented zero state |
| KeccakSponge.KeccakContext.InputBuf | src/keccak.c:183-188 | adding the buffer to complemented lanes is adding it to the state of the standard |
| KeccakSponge.KeccakContext.Append | src/keccak.c:1585-1600 | a piece that fills the buffer is absorbed |
| KeccakSponge.KeccakContext.Core | src/keccak.c:1568-1603 | for any split of the message the state is that after absorbing all whole blocks so far, the rest being in the buffer |
| KeccakSponge.KeccakContext.Close | src/keccak.c:1607-1647 | the output is the sponge with pad10*1 of all bytes fed and up to seven extra bits, and the context is as new |
| KeccakSponge.ClosingPads | src/keccak.c:1612-1635 | message and closing bytes together are the padded message, for one closing byte or more |
| KeccakSponge.AddHidden | src/keccak.c:183-188 | adding to a complemented lane complements the sum |
| KeccakSponge.Squeezed | src/keccak.c:1636-1645 | the bytes of the uncovered state are the output of the sponge |
| Blake.BlakeContext.Compress | src/blake.c:932-937 | counting before compressing, with the carry into the high word, counts modulo 2 to the 128 |
| Blake.BlakeContext.Core | src/blake.c:905-941 | for any split of the message whole blocks are compressed with their own counts, the rest being in the buffer |
| Blake.BlakeContext.Aim | src/blake.c:957-971 | the wrapped counter, once advanced by a block, is the length of the message, or zero for a block of padding |
| Blake.BlakeContext.CloseHere | src/blake.c:972-978 | the padding that fits ends in the block that the message ends in |
| Blake.BlakeContext.CloseNext | src/blake.c:979-990 | the padding that does not fit ends in a block of its own with count zero |
| Blake.BlakeContext.Close | src/blake.c:943-994 | the output bytes are the words of the hash of the whole message with up to seven extra bits: exactly the blocks of the padded message are compressed, each with the right 128-bit counter; and the context is as new |
| Blake.OutputBit | src/blake.c:991-993 | bit i of output word j, counted from the highest, is that binary digit of the word of the chaining value |
| Blake.DigitIs | src/blake.c:975-977 | a length word is written as its binary digits, highest first |
| Blake.CountsRight | src/blake.c:957-971 | each of the three ways the counter is wound back comes out right after the advance |
| Blake.StepsCount | src/blake.c:932-937 | the running counter is the number of bits so far modulo 2 to the 128 |
| Blake.StepsRun | src/blake.c:905-941 | whole message blocks are compressed as the hash of the whole message has them |
| Blake.ClosesHere | src/blake.c:972-978 | with at most 894 bits in the buffer, message and closing bytes are the padded message |
| Blake.ClosesNext | src/blake.c:979-990 | with more, so are message, closing bytes and one further block |
| Blake.LengthWords | src/blake.c:961-977 | the two length words are the message length modulo 2 to the 128 |
| StakeModifier.SelectionInterval | src/kernel.cpp:50-58 | the loop adds up the 64 sections |
| StakeModifier.SectionShape | src/kernel.cpp:42-47 | sections never get shorter, and the last is the modifier interval, three times the first |
| StakeModifier.GetLastStakeModifier | src/kernel.cpp:28-39 | finds the last block that generated a modifier; none exactly when no block did |
| StakeModifier.Collect | src/kernel.cpp:148-156 | the walk and the sort give the recent blocks in order of time and hash |
| StakeModifier.RecentMeans | src/kernel.cpp:149-156 | the candidates are the blocks behind the last one from before the start of the interval |
| StakeModifier.CandidateOrder | src/kernel.cpp:157-158 | candidates come in order of time, and of hash at the same time |
| StakeModifier.SelectBlockFromCandidates | src/kernel.cpp:63-116 | fails exactly when all are selected; else picks an unselected block of least selection hash among the first unselected one and those within the time limit |
| StakeModifier.PickIs | src/kernel.cpp:84-110 | the pick in the hashes themselves: the least within a kind, proof-of-stake hashes without their last 32 bits, and across kinds these against whole proof-of-work hashes |
| StakeModifier.StakeFavoured | src/kernel.cpp:91-96 | with hashes of 256 bits a proof-of-stake candidate is preferred to every proof-of-work one whose hash is at least 2 to the 224 |
| StakeModifier.OneLeft | src/kernel.cpp:162-169 | pigeonhole: with fewer blocks selected than candidates, one is left |
| StakeModifier.SelectRounds | src/kernel.cpp:158-176 | no round comes away empty; each picks as it should, the modifier collects the entropy bits, and the time limit has moved on by one section a round |
| StakeModifier.ComputeNextStakeModifier | src/kernel.cpp:122-208 | fails exactly when no block has generated a modifier; recomputes exactly when the tip is in a later interval than the last one, from blocks picked by least selection hash, and otherwise keeps it; after 64 rounds the loop's time limit is the start of the tip's modifier interval |
| StakeModifier.PicksDiffer | src/kernel.cpp:158-176 | no block is selected twice |
| StakeModifier.EntropyBit | src/kernel.cpp:169-170 | bit r of the modifier is the entropy bit of the block selected in round r |
| StakeModifier.LastLimit | src/kernel.cpp:146-165 | the time limit of a round lies before the start of the tip's modifier interval and reaches it exactly in the last round; so a block of that interval is picked only when everything before it has been |
| StakeModifier.GetKernelStakeModifier | src/kernel.cpp:212-248 | the modifier of the first later block that generated one a selection interval after the origin; fails exactly when there is none or the origin is unindexed or off the main chain |
| StakeModifier.KernelStable | src/kernel.cpp:212-248 | extending the main chain never changes a successful answer |
| Bignum.MpiRoundTrip | src/bignum.h:254-279 | reading the vector that was written gives the number back, negative ones included |
| Bignum.ShortestUnique | src/bignum.h:269-279 | a non-negative number has one shortest form, which is what is written |
| Bignum.BigNum.GetVch | src/bignum.h:269-279 | the reversed shortest form, which reads back as the number |
| Bignum.BigNum.SetCompact | src/bignum.h:281-291 | the number that sign, 23 bits and size stand for, for every 32-bit code |
| Bignum.BigNum.GetCompact | src/bignum.h:293-304 | size and first three bytes of the shortest form |
| Bignum.CompactBytesAre | src/bignum.h:281-291 | the bytes laid out stand for the compact number |
| Bignum.CompactKeeps | src/bignum.h:281-304 | of any number whose form has less than 256 bytes, encoding and decoding keeps the sign and the first three bytes; all of it if there are no more |
| Bignum.KeptBounds | src/bignum.h:281-304 | what is kept of a positive number is positive, never more than it, and less by less than the last byte kept |
| Bignum.CompactTwice | src/bignum.h:281-304 | what is kept encodes to the same code, for either sign |
| Base58.EncodeBase58 | src/base58.h:29-67 | the loops and the reversal in place give the text of leading zeros and the base-58 numeral |
| Base58.DecodeBase58 | src/base58.h:77-121 | spaces skipped at both ends, anything else outside the alphabet refused, leading ones restored as zero bytes |
| Base58.DecodeEncode | src/base58.h:29-121 | decoding undoes encoding for every byte string, leading zeros included |
| Base58.DecodeAround | src/base58.h:82-101 | a text of digits and letters without 0, I, O and l decodes, and white space of the six kinds before or after it changes nothing |
| Base58.DecodableIs | src/base58.h:82-101 | and every text that decodes is such a text with white space around it |
| Base58.EncodeDecode | src/base58.h:29-121 | encoding undoes decoding for every text over the alphabet |
| Base58.EncodeBase58Check | src/base58.h:134-141 | the text decodes to the bytes and their checksum, and with the check to the bytes again |
| Base58.DecodeBase58Check | src/base58.h:145-162 | succeeds with exactly those bytes that the text holds together with their checksum, and the text is then their encoding |
| Base58.DecodeEncodeCheck | src/base58.h:134-162 | decoding undoes encoding with a checksum, whatever the checksum is |
| Base58.EncodeDecodeCheck | src/base58.h:134-162 | encoding undoes a decoding with checksum that succeeded |
| Numerals.ValueDigits | src/base58.h:46-54 | the digits of a number have its value, in any base |
| Numerals.DigitsValue | src/base58.h:46-54 | and a numeral without leading zeros is that of its value |
| Retarget.GetLastBlockIndex | src/main.cpp:1100-1105 | the last block of the kind, or the first block of all |
| Retarget.MeasureWindow | src/main.cpp:1119-1128 | the loop steps back over blocks of the wanted kind only, up to 120 intervals, and returns their number |
| Retarget.WindowCounts | src/main.cpp:1119-1128 | whatever the mix of kinds, the window ends at a block of the kind or the first block, counts just the blocks of the kind on the way, and is shorter than 120 only when there are no more |
| Retarget.WindowIs | src/main.cpp:1119-1128 | those conditions leave one window only |
| Retarget.TooShortMeans | src/main.cpp:1112-1118 | there is nothing to measure exactly when fewer than two blocks of the kind lie above the first block |
| Retarget.TargetIs | src/main.cpp:1107-1151 | the whole rule without the loops: the last target of the kind times (149 intervals and twice the time taken) over 151 intervals, or the limit when that is zero or above it |
| Retarget.GetNextTargetRequired | src/main.cpp:1107-1151 | the target for every history, and that it decodes to a value above zero and within the limit |
| Retarget.OnSchedule | src/main.cpp:1136-1145 | blocks on schedule leave the target as it is |
| Retarget.SameTarget | src/main.cpp:1107-1151 | the same through rounding and clamping: the code required is the code of the last block |
| Retarget.Steady | src/main.cpp:1107-1151 | a chain of one kind that is always on schedule and starts at the limit stays at the limit, however long it gets |
| Retarget.LeastTrust | src/main.cpp:2356-2374 | a proof-of-work block with the easiest target adds one to the trust, rounding included |
| Retarget.StakeTrust | src/main.cpp:2356-2374 | a proof-of-stake block adds the number of times that its target plus one goes into 2 to the 256 |
| Retarget.WorkTrust | src/main.cpp:2356-2374 | a proof-of-work block adds the number of times that its target plus one goes into the limit, and at least one |
| Retarget.NoTrust | src/main.cpp:2356-2374 | a block adds nothing exactly when its target is not positive, or as proof of stake has more than 256 bits |
| Retarget.HarderAddsMore | src/main.cpp:2356-2374 | a smaller target never adds less |
| Retarget.DifficultyOne | src/main.cpp:2356-2374 | the number for the bits 0x1d00ffff |
| Retarget.Monotone | src/main.cpp:1136-1145 | slower blocks never give a smaller target |
| Retarget.LowerBound | src/main.cpp:1136-1145 | however fast blocks came, the target is at least 149/151 of the old one, rounded down |
| Retarget.InRange | src/main.cpp:1147-1150 | rounding to a compact code keeps a target positive and within the limit |
| Retarget.CheckProofOfWork | src/main.cpp:1199-1215 | for bits that are the code of a target within the limit it accepts exactly the hashes up to the rounded target; bits out of range are refused |
| Retarget.RequiredIsMet | src/main.cpp:1107-1215 | whatever the history, a block whose bits are what is required is never refused for their range, and is accepted exactly for hashes up to the required target less what rounding takes off |
| Merkle.Block.BuildMerkleTree | src/main.h:990-1007 | the tree is all levels one behind the other, the root that of the recursive definition, and zero for no transactions |
| Merkle.Block.AppendLevel | src/main.h:997-1005 | the inner loop appends the level above, pairing an odd last one with itself |
| Merkle.Block.GetMerkleBranch | src/main.h:1009-1023 | the branch is read off the stored tree as the recursive definition says, for positions behind the last one too |
| Merkle.CheckMerkleBranch | src/main.h:1025-1038 | the loop climbs from the hash along the branch, a negative index halved downwards as the shift does; zero for index -1 |
| Merkle.BranchLeadsToRoot | src/main.h:990-1038 | every transaction's branch leads to the root, for every number of transactions |
| Merkle.ClimbBinds | src/main.h:1025-1038 | if hashing never collides, a root binds the hash at a position and the whole branch |
| Merkle.RootBinds | src/main.h:990-1007 | if hashing never collides, lists of one length with the same root are the same |
| MedianTime.GetMedianTimePast | src/main.h:1280-1292 | the middle of the sorted times of the last eleven blocks, or of all when there are fewer |
| MedianTime.MedianHalves | src/main.h:1290-1291 | the median is one of the times of the window; at most half of them are earlier and more than half are not later |
| MedianTime.RecentMeans | src/main.h:1280-1288 | the window is the last eleven blocks, or all when there are fewer |
| MedianTime.MedianStep | src/main.cpp:2273-2275 | a block later than the median time past does not lower it, while the window grows and after |
| MedianTime.MedianNeverDecreases | src/main.cpp:2273-2275 | along a whole chain of such blocks the median time past never decreases |
| LockedPages.TouchesBetween | src/allocators.h:60-63 | a range touches just the pages from that of its first byte to that of its last |
| LockedPages.LockedPageManager.LockRange | src/allocators.h:56-76 | one range more is live, every count and the set of locked pages are exact again; an empty range changes nothing |
| LockedPages.LockedPageManager.UnlockRange | src/allocators.h:79-99 | one range less is live, every count and the set of locked pages are exact again |
| LockedPages.LockedPageManager.GetLockedPageCount | src/allocators.h:102-106 | the number of pages locked in the system |
| LockedPages.LockedPageManager.LockedAreTouched | src/allocators.h:47-106 | each page's count is the number of live ranges that touch it, and a page is locked exactly when one does |

## Left out

Assumptions of the contracts above:

- ChainState.Chain.AddToBlockIndex: takes the transaction ids of a block to be distinct and new to its chain; BIP 30 (src/main.cpp:1647-1656) and the height in the coinbase (src/main.cpp:2324-2327) are what makes them so. Whether the modifier agrees with the checksum recorded for some heights is a parameter. A block that is refused here has been written to the block files already, which the model leaves out.
- ChainState.Chain.SetBestChain: a failed read of a block file, which also ends the postponed connects, does not happen; nor do failed database writes anywhere.
- Checkpoints.SyncCheckpoints.AcceptBlock: the checks for final transactions, hardened checkpoints and the block version are one flag, and the call that tries the pending checkpoint right afterwards (src/main.cpp:2350-2355) is the separate operation AcceptPendingSyncCheckpoint; both keep the same invariant.
- BlockContext.CheckParent: a coinbase script shorter than the pushed height is refused, where the code compares past its end (src/main.cpp:2325-2327).
- ChainReplay.SoundBlock: sizes, signature operations of the block alone, proof of work, the Merkle root, the block signature and the coinstake's time are one parameter of the rules (`blockChecks`); the size of a transaction is limited by that of its block.
- Miner.NoDoubleSpend: leaves out the outputs of an indexed transaction that a chosen one with the same id replaces; entering the pool refuses such ids.
- MinedBlock.MinedIsAccepted: coinbase and coinstake have up to 100 signature operations, which is what the miner sets aside, and no id in the block is indexed.
- MinedBlock.StakedIsAccepted: the same; and the reward for no coinbase value at all is not negative.
- Miner.CollectTransactions: priorities and the heap are an arbitrary choice of the next entry; a maximum block size below 1000 is excluded, as the code clamps it before the loop.
- AddrMan.AddrManager.Good: the time is not truncated to the 32 bits of the address record.
- AddrMan.AddrManager.Load: a file whose counts do not match its entries, or with an index that names no new entry, is not modelled; the code takes the latter without complaint.
- AddrLoad.LoadedConsistent: the file has different addresses, a success for each tried entry and lists without repetition, as every file does that a manager wrote.
- StakeModifier.ComputeNextStakeModifier: the chain is a sequence of blocks with distinct hashes, which stand for the block index; the selection map printed for debugging is left out.
- Bignum.BigNum.SetVch: the four length bytes in front of the library's byte format, and vectors too long for them, are not modelled.
- Base58.DecodeBase58: a text is a string without the terminating zero character.
- Merkle.Block.GetMerkleBranch: takes a stored tree to be that of the current transactions, and an index that is not negative; with others the code reads outside the tree.
- Merkle.ClimbBinds: takes the hash of two hashes to have no collisions, which is an idealisation.
- LockedPages.LockedPageManager.LockRange: a range does not reach into the last page of the address space, where the loop of the code would not end; calls that lock pages do not fail.
- LockedPages.LockedPageManager.UnlockRange: the range is one that is locked, as the assertion in the code demands.
- KeccakSponge.KeccakContext.Core: words are sequences of 64 bits and the lanes of the context are copied to named lanes around the permutation, as the code does without SPH_KECCAK_NOCOPY.
- Blake.BlakeContext.Close: the compression function is a parameter, so salt and rounds are not modelled.

Not modelled:

- BlockContext reads a path as the sequence of its blocks, which a walk down from the tip collects, where the code follows the parent pointers each time.
- The rules for rewards do not depend on the state: that they fall to the fees alone once the money supply of the best block exceeds the maximum (src/main.cpp:1024-1062) is not modelled.
- Checks of ProcessBlock: orphans, duplicate stakes, and the least work since the last checkpoint.
- Amounts, times, heights and counters are unbounded integers; overflow of the 64-bit and 32-bit fields is not modelled (BLAKE's counter words are).
- The memory pool: what a reorganisation resurrects or removes, replacement and limits.
- The exception of GetValueOut for sums out of range; block checks do refuse such values first.
- Block-index records on disk, startup repair and loading of the block index (src/db.cpp), and the fJustCheck mode of ConnectBlock.
- The genesis block's transactions are never indexed, as in the code; the money supply therefore starts at zero.
- A pool transaction whose input is nowhere is dropped from the list of waiting transactions while a pointer to it stays in mapDependers (src/main.cpp:4214-4222); the model skips it for good and makes no claim about what the code reads through that pointer.
- Test network, runs without enforcement of checkpoints, ResetSyncCheckpoint and the automatic choice of checkpoints by the master node.
- Select_ and GetChance of the address manager, and the fee and priority policies: floating point.
- Proof-of-stake kernels beyond the choice of the modifier, signatures, scripts, keys and the wallet.
- The 32-bit interleaved Keccak, other unroll counts than eight, BLAKE-224 and BLAKE-256, Groestl and HEFTY1.
- ComputeMinWork and ComputeMinStake, and the retargeting code after the first return (src/main.cpp:1160-1196).
- Networking, RPC, user interface, logging, threads and locks: each operation is one step.
