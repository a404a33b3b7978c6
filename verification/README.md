# Bismuth ledger and consensus, in Dafny

This project models the part of the Bismuth node that decides what the ledger is: the block
store with its derived indexes, the rules a block must meet, the pool of pending transactions,
the measured reorg between competing chains, the signal-activated fork height, and the codecs
and arithmetic they rest on. Each part is proved against a plain reference.

How the parts fit together:

- `KvStore`, `IndexKeys`, `BlockBody`, `StoreIndex`, `StoreSpec`, `BlockStore`: the store. What
  every sub-database must hold is a fold over a list of blocks (`StoreSpec.Refines`). Commit,
  rollback, allocation changes and rebuilds keep it, and so does any run of them (`RunOps`).
- `StoreQueries`, `AddressHistory`, `BalanceQueries`: the queries, each equal to a filter or a
  fold over the same list.
- `Consensus`, `Digest`, `Money`, `Supply`, `Replay`, `CoinbaseTxids`: when a block is accepted
  (`Consensus.Accepts`), the checks of the digester proved equal to that predicate, and what it
  implies for every accepted chain: genesis, then blocks accepted where the txid index knows nothing
  (`Consensus.Digested`). That is an upper bound; every chain a node holds is an accepted chain.
- `Node`, `ForkResolution`, `Reorg`, `ChainOrder`, `AdvertisedHash`, `RestoredPart`, `NodeRuns`: the
  node, the reorg protocol with safety and completeness, the order behind "no see-saw", and whole
  runs of a node.
- `Mempool`, `Activation`, `Serialize` with its reader `Decode`, `AddrBytes`, `Bip39`, `Lwma`: the
  remaining parts.

Modelling choices:

- Amounts are integer units and timestamps hundredths of a second. Text is its UTF-8 bytes.
  Fields are in their stored form, so the truncations on ingest are not repeated.
- LMDB is a finite map with ordered byte keys; a write transaction works on a copy of the state
  that replaces it when the transaction succeeds.
- A content txid stands for its pre-image. Block hashes are any function; a theorem that needs them
  to tell blocks apart says so of the chains at hand (`ChainOrder.Linked`), and `SourceLinked` derives
  that for the code's hash from the absence of a collision on those chains.
- Signatures, timestamps, field bounds, proof of work and sender types are one deterministic
  predicate on the chain below and the block (`Rules.valid`). The subsidy, the fee schedule and
  the base fee are functions, and so is the difficulty recorded with a block.
- A peer is a set of answers that may change with every request; None is no answer.
- The fork height is fixed within a run of the store or the node, validation waivers and the
  trusted prefix are off, and the node is not stopping.
- The txid index may lack txids that are on the chain: a store is valid when every entry points at
  a row that carries it (`StoreSpec.TxidSound`), and acceptance is stated against what the index
  knows. Nothing is assumed about coinbases; exactness of the index is a per-run conclusion.

Three promises that the code does not meet everywhere, each with a run and the exact condition:

- "A txid on the chain is known to the replay check." The digester does not compare a post-fork
  coinbase with the ledger's txids. `CoinbaseTxids` gives a chain, digested from genesis, with a
  coinbase that repeats a payment's txid, shows that rolling it back takes the payment out of the
  index, and that the payment is then accepted a second time. Every rollback of a replay-free chain
  is exact if and only if no coinbase repeats a txid (`Replay.RollbacksExactIff`).
- "A run never ends on fewer blocks." After a branch that failed, our own is put back whole if and
  only if no payment on the removed part repeats a txid (`Reorg.DigestsBack`). `RestoredPart` gives
  the chain for which it is not, and a run of a node from an empty store that loses a block.
- "In a tie the smaller hash wins." The hash that decides a tie is the one the peer advertised; the
  block it then serves is not compared with it. `AdvertisedHash.TieLost` is a run of a node from an
  empty store that ends on the larger hash. A tied adoption moves up if and only if the first held
  block that is not our own has the smaller hash (`ChainOrder.TakesTie`, `TiedClimbs`).

Where the code and its own text differ, the model follows the code:

- An ancestor search at the depth limit takes up to 18 probes, not about 16.
- The supply figure is described as rewards minus fees over the chain; the balance table it is
  read from also holds the fixed allocations.
- A rebuild of the indexes starts at height 1, so it drops a block at height 0, if there is one.

## Model

| member | source | states |
|---|---|---|
| KvStore.SetRange | kvstore.py:191-227 | the cursor lands on the first key at or above the one sought, for every sorted key list |
| KvStore.RangeForward | kvstore.py:191-227 | a forward scan yields exactly the keys in the half-open range, in order |
| KvStore.RangeBackward | kvstore.py:191-227 | a reverse scan yields the forward scan's keys in reverse order, whatever the bounds |
| KvStore.Range | kvstore.py:191-227 | both directions, with either bound missing |
| KvStore.Iterate | kvstore.py:229-242 | a prefix scan yields exactly the keys with the prefix, in order |
| BlockStores.HeightKeyOrder | kvstore.py:79-86 | height keys sort as heights do and decode back |
| IndexKeys.PositionOrder | block_store.py:139-166 | the tail of an index key sorts by height, then by row |
| IndexKeys.SplitPosition | block_store.py:164-166 | the tail decodes to the height and row it was made from |
| IndexKeys.AddrPrefixFree | block_store.py:151-157 | no address prefix is a prefix of a key of another role or address |
| IndexKeys.KeysDelete | block_store.py:314-336 | deleting the index keys of removed rows leaves exactly those of the kept rows |
| AddrBytes.PackRoundTrip | addrbytes.py:49-110 | unpacking a packed address returns it, for any base58 codec and any string |
| BlockBody.PubkeyId | block_store.py:253-266 | interning returns an id that reads back as the key and never changes an existing id |
| BlockBody.AddrRef | block_store.py:225-233 | a dictionary reference decodes to the address, and earlier references stay valid |
| BlockBody.StoreRow | block_store.py:292-312 | a stored row expands to the row that went in |
| BlockBody.PutBody | block_store.py:292-312 | a stored block expands to its rows, and the key table only grows |
| BlockBody.ExpandGrows | block_store.py:268-286 | later interning changes no stored block |
| BlockBody.ReadBackExact | block_store.py:268-286 | a block reads back as committed exactly when it is pre-fork or its rows carry its hash |
| StoreIndex.FoldRow | block_store.py:183-191 | one row moves both sides of the balance, applied or undone, self-sends included |
| StoreIndex.MoveEntry | block_store.py:338-349 | one balance moves by the delta, no other does, and no zero entry is left |
| StoreIndex.ApplyBalances | block_store.py:338-349 | the balance table moves by the deltas and keeps no zero entry |
| StoreIndex.TeachKeys | block_store.py:314-336 | the registry loop files the keys of one block on top of what is there |
| Ledger.PubkeyMapIs | block_store.py:314-336 | the registry holds a sender exactly when a post-fork row without a reward showed a key that is not blank, and then the height and key of the first such row |
| StoreIndex.IndexRows | block_store.py:314-336 | a block is filed in the signature, address, txid and registry indexes and its balance deltas folded |
| StoreIndex.UnindexRows | block_store.py:314-336 | the same, taken back |
| StoreSpec.DerivedUnique | block_store.py:372-469 | a block list and allocations fix the contents of every derived index |
| StoreSpec.PubkeysPruned | block_store.py:388-413 | dropping registry entries above a height gives the registry of the kept blocks |
| StoreSpec.TxidRollback | block_store.py:388-413 | a rollback leaves the txid index exact if and only if no removed row shares a txid with a kept one |
| Ledger.TxidMapLast | block_store.py:314-336 | the txid index holds the height of the last post-fork row with a txid |
| Ledger.HashMapLast | block_store.py:372-386 | the hash map holds the height of the last block with a hash |
| StoreSpec.SoundFiled | block_store.py:314-336 | filing rows in a txid index with gaps adds exactly their txids and still points at carrying rows |
| StoreSpec.SoundCut | block_store.py:388-413 | a rollback of an index with gaps takes out exactly the removed txids and what is left points at kept rows |
| StoreSpec.HashRollback | block_store.py:388-413 | the same for block hashes |
| BlockStores.TipOf | block_store.py:366-370 | the first key of a reverse scan is the highest stored height |
| BlockStores.HeightsIn | block_store.py:497-502 | a range scan of the blocks gives the stored heights in the range, ascending |
| BlockStores.CommitTxn | block_store.py:372-386 | a commit succeeds exactly when the block comes next and fits; then every index is that of the longer list and its txids are filed |
| BlockStores.UnwindBlocks | block_store.py:388-413 | blocks come off from the tip down and every index follows |
| BlockStores.RollbackTxn | block_store.py:388-413 | the state of the kept blocks, the removed rows in order, exactly the removed txids gone from the index; when the hash and txid maps stay exact |
| BlockStores.AllocationTxn | block_store.py:427-440 | new allocations replace the old ones in every balance |
| BlockStores.ReindexTxn | block_store.py:442-469 | a rebuild with any batch size gives the indexes of the blocks from height 1 on |
| BlockStores.ReindexRefines | block_store.py:442-469 | with no block at height 0, a rebuild leaves every index as it was except that it repairs a lossy txid index |
| BlockStores.EmptyRefines | block_store.py:198-212 | an empty store is the store of the empty block list |
| BlockStores.BlockStore.constructor | block_store.py:198-212 | a new store holds the empty chain |
| BlockStores.BlockStore.CommitBlock | block_store.py:372-386 | appends the block as it reads back and adds exactly its txids to the known ones, or changes nothing |
| BlockStores.BlockStore.Rollback | block_store.py:388-413 | cuts the chain at a height, forgets exactly the removed txids, and keeps the hash and txid maps exact if and only if no key is shared |
| BlockStores.BlockStore.SetAllocations | block_store.py:427-440 | only the allocations and the balances change |
| BlockStores.BlockStore.Reindex | block_store.py:442-469 | the indexes become those of the blocks above height 0; with none at height 0 nothing changes but a lossy txid index |
| BlockStores.RunOp | block_store.py:372-469 | one operation takes the store where the same step takes a plain list of blocks |
| BlockStores.RunOps | block_store.py:372-469 | any run of commits, rollbacks, allocations and rebuilds equals the same run on a plain list of blocks; the hash and txid maps stay exact if no rollback removes a key a kept block shares |
| StoreQueries.LookupIsScan | block_store.py:611-626 | the lookup by truncated signature key finds exactly the rows a scan of all rows finds, in chain order |
| StoreQueries.SignatureRows | block_store.py:611-626 | the loop gives the first `limit` of the rows that carry a signature up to a height |
| StoreQueries.CarriersAnswer | block_store.py:611-626 | those are rows of the chain with that very signature, in chain order, and any other such row comes later and was cut by the limit |
| StoreQueries.SignatureExists | block_store.py:628-629 | true exactly when some row up to the height carries the signature, the empty and placeholder signatures aside |
| AddressHistory.RangeIsSelect | block_store.py:649-654 | the key range of one role holds exactly the keys of the matching rows, in chain order |
| AddressHistory.AddrIter | block_store.py:649-654 | the positions of one role's rows, in either direction |
| AddressHistory.MergeStreams | block_store.py:656-678 | merging two ordered streams gives one ordered stream of all their positions, each once |
| AddressHistory.AddressPositions | block_store.py:656-678 | the positions of all rows with the address as sender, recipient or either, each once |
| AddressHistory.PageGroups | block_store.py:680-710 | rows of whole blocks keep their in-block order, and skip and limit cut the list |
| AddressHistory.AddressRows | block_store.py:680-710 | equals: filter the chain by address, role and heights, order by height in either direction, then the slice that starts at `skip` and is `limit` long |
| AddressHistory.HistoryElements | block_store.py:656-678 | which rows a history holds, by role and height bounds |
| AddressHistory.HistoryOrder | block_store.py:680-710 | in which order, each once: oldest first, or newest block first with its rows in block order |
| BalanceQueries.BalanceParts | block_store.py:738-742 | the stored entry is the allocation plus the fold over all rows |
| BalanceQueries.RewardUnitsSince | block_store.py:727-736 | the rewards that the blocks above a height pay to the address |
| BalanceQueries.RewardAboveIs | block_store.py:727-736 | the rewards above a height are the reward part of what the blocks above it do to the address |
| BalanceQueries.SubtractRow | apihandler_address.py:32-37 | one row taken off both sides, self-sends included |
| BalanceQueries.PartsBelow | apihandler_address.py:23-38 | taking the rows above a height off the whole total leaves the total up to it |
| BalanceQueries.PartsUpto | apihandler_address.py:23-38 | the balance as of a height is the allocation plus the fold over the blocks up to it |
| Serialize.SignatureBufferInjective | bismuth_serialize.py:90-124 | the post-fork signing buffer fixes its six fields, absent and empty free fields identified |
| Serialize.BlockPreimageInjective | bismuth_serialize.py:146-198 | the post-fork block pre-image fixes the transaction list and the parent |
| Serialize.BuildBlockPreimage | bismuth_serialize.py:179-198 | the appending loop builds that pre-image, or fails where a field overflows |
| Serialize.ParentBytesAre | bismuth_serialize.py:190-197 | a 64-digit parent enters as the 32 bytes its digits spell, a 56-digit one as its text |
| Decode.ContentReads | bismuth_serialize.py:90-124 | a reader that takes the fields in the order of the layout gets them back from the signing buffer |
| Decode.TxReads | bismuth_serialize.py:146-178 | and from one transaction of a block, ordinary or coinbase, with whatever follows it left over |
| Decode.BlockReads | bismuth_serialize.py:179-198 | and the count, the transactions in order and the parent from a block |
| Hex.LowerHexRoundTrip | bismuth_serialize.py:179-198 | lowercase hexadecimal decodes and encodes back, so a parent is fixed by its bytes |
| Hex.DigitValues | bismuth_serialize.py:179-198 | which characters are digits and what they stand for |
| Consensus.WireRoundTrip | digest.py:238-274 | the committed rows give back the transactions that were accepted |
| Consensus.RowFees | digest.py:238-274 | a payment's row carries the scheduled fee at the base fee and no reward, the coinbase's no fee and no amount |
| Consensus.DigestedPrefix | digest.py:471-674 | a rolled-back chain could have been built directly |
| Consensus.DigestedWellFormed | digest.py:471-674 | every accepted chain has consecutive heights that fit the store |
| Consensus.DigestAllDigested | digest.py:471-674 | digesting any list of candidate blocks, whatever the txid index knows, ends on an accepted chain |
| Consensus.AcceptsKnown | digest.py:84-98 | knowing more txids only rejects more, and only by the txid of a payment |
| Digest.DistinctCount | digest.py:126-136 | comparing a list's length with its set's finds exactly the duplicates |
| Digest.CheckUnseen | digest.py:78-123 | one transaction passes exactly when its signature is not on the chain and, after the fork, its txid is not in the index |
| Ledger.TxidFields | block_store.py:129-135 | two rows have one txid if and only if timestamp, amount, address, recipient, operation and openfield agree |
| Consensus.TxidFieldsOfTx | bismuth_serialize.py:109-132 | the same for two transactions |
| Digest.CheckDuplicates | digest.py:62-136 | the check passes exactly when the block repeats no signature of the chain, no txid the index knows, and none of its own |
| Digest.AddressTotals | digest.py:281-297 | an address's debit over the block and its fees without the coinbase, though the coinbase is told apart by value |
| Digest.ImmatureCoinbase | essentials.py:262-269 | the reward not yet deep enough to spend at the next height |
| Digest.ValidateBalance | digest.py:299-346 | both checks together pass exactly when debit and fees fit the spendable balance; cached balances stay exact |
| Digest.ProcessPayment | digest.py:250-261 | one payment passes exactly when its sender affords everything it sends in the block |
| Digest.ProcessBalances | digest.py:194-279 | the loop passes exactly when the block is affordable and returns the rows of the new block |
| Money.BlockKeeps | digest.py:299-346 | an affordable block leaves an address at least what it was not allowed to spend |
| Money.BlockParts | digest.py:194-279 | what a block does to an address: transfers in, reward with all fees, transfers out, own fees |
| Money.AffordableIs | digest.py:281-346 | a block passes if and only if, for every paying sender, what its rows would take fits the balance less the rewards of the last maturity - 1 blocks, once it lies behind the fork |
| Money.NoOverspend | digest.py:194-346 | on every accepted chain no balance is negative |
| Money.ImmatureRewardsIntact | essentials.py:262-269 | on every accepted chain every address still owns all that the post-fork blocks less than the maturity depth down have paid it |
| Supply.EntriesFlow | block_store.py:183-191 | transfers cancel over all addresses |
| Supply.BalancesSum | block_store.py:338-349 | all balances together are allocations plus rewards minus fees, for any block list |
| Supply.BlockMinted | digest.py:238-274 | a block mints exactly its subsidy |
| Supply.SupplyConserved | digest.py:238-274 | on every accepted chain the balances sum to allocations, genesis reward and subsidies |
| Supply.SupplyTotal | rest_api.py:194-206 | the figure read from the balance table is that sum |
| Supply.SupplyRange | rest_api.py:208-214 | rewards minus fees of the blocks above one height up to another, as a fold over those blocks; zero for an empty range |
| Supply.SupplyAppends | rest_api.py:194-214 | of two stores on one chain, the figure read from the higher one is the figure of the lower one plus the range between their tips |
| Replay.ReplayFree | digest.py:62-136 | on every accepted chain no row but a post-fork coinbase repeats an earlier signature, placeholders aside |
| Replay.SignaturesPresent | digest.py:62-136 | above genesis no row but a post-fork coinbase is unsigned |
| Replay.AcceptsUnknown | digest.py:84-98 | an otherwise acceptable block is accepted if and only if the index knows none of its payments |
| Replay.TxidsSnoc | digest.py:84-98 | a block adds no repeated txid if and only if its payments are not among the txids below |
| Replay.DigestAllFresh | digest.py:84-98 | while the index knows every txid of the chain, nothing that is digested repeats one |
| Replay.ReplayableFrom | digest.py:84-98 | blocks of an accepted chain can be digested again, with their txids out of the index, if and only if none repeats a txid of another |
| Replay.Readmissible | digest.py:62-136 | a transaction whose block is rolled back passes the replay checks again, whatever else the index lacks |
| Replay.HashesDisjoint | digest.py:687-695 | kept and removed blocks of an accepted chain share no hash, so the hash map survives every rollback |
| Replay.TxidsDistinctIff | digest.py:84-98 | all txids of a replay-free accepted chain differ if and only if no coinbase repeats one |
| Replay.RollbacksExactIff | digest.py:84-98 | every rollback of a replay-free accepted chain leaves the txid index exact if and only if no coinbase repeats a txid |
| CoinbaseTxids.CoinbaseRepeats | digest.py:84-98 | digesting two blocks from genesis gives a chain on which a coinbase repeats a payment's txid; its block is accepted with that txid in the index |
| CoinbaseTxids.RollbackLoses | block_store.py:388-413 | rolling that coinbase back leaves an index without the payment that is still on the chain |
| CoinbaseTxids.ReplayAdmitted | digest.py:84-98 | the digester then accepts the payment again under a new signature, on a chain that repeats its txid |
| Nodes.StoreTip | dbhandler.py:36-54 | the tip read from the store is the last block |
| Nodes.ReadChain | block_store.py:472-476 | the store gives back the whole chain, difficulties included |
| Nodes.StartNode | dbhandler.py:36-54 | from an empty store, a node on a genesis block, with exactly the txids of that block known |
| Nodes.CheckBlock | digest.py:471-620 | the checks on one block, run against the store and whatever its txid index holds, decide acceptance up to what the commit itself checks |
| Nodes.Node.constructor | dbhandler.py:36-54 | a node starts with its in-memory tip on the store's tip |
| Nodes.Node.ResyncTip | digest.py:725-748 | after a rejected block the in-memory tip is the store's tip |
| Nodes.Node.DigestOne | digest.py:471-674 | a block is committed exactly when the rules and the known txids accept it; a rejected one leaves the ledger as it was |
| Nodes.Node.DigestBlocks | digest.py:471-748 | digests in order up to the first rejected block; in-memory tip and ledger agree on both paths |
| Nodes.Node.ApplyBlocks | chain_ops.py:275-295 | the chain becomes what digesting the list in order gives, the known txids grow by those of the new blocks, an exact replay-free index stays so, and tip and ledger agree on every path |
| Nodes.Node.CheckpointSet | essentials.py:205-215 | the checkpoint follows the tip |
| Nodes.CheckpointRange | essentials.py:205-215 | the checkpoint is the multiple of the rollback depth at least one and less than two depths below the tip |
| ForkResolution.TieWinnerStable | fork_resolution.py:74-84 | the two sides of a tie always get opposite answers |
| ForkResolution.TieWinnerIs | fork_resolution.py:74-84 | the peer wins if and only if both hashes are there and not empty and its own is the smaller |
| ForkResolution.FindCommonAncestor | fork_resolution.py:87-143 | for any answers: None only if some probe was unanswered, else a true boundary; no height is asked twice; the number of probes is bounded |
| ForkResolution.AncestorTold | fork_resolution.py:100-109 | the peer said yes about our own hash at the named ancestor and no one height above; a floor just above the tip is the one place where a result equal to the tip does not mean yes, which the comment in the code overlooks |
| ForkResolution.BoundaryIsHighest | fork_resolution.py:87-143 | with steady, downward closed answers the boundary is the highest agreeing height |
| ForkResolution.ProbeLimitAtDepth | fork_resolution.py:55-56 | the bound is 18 probes at depth 720 |
| ForkResolution.MajorityDisagrees | fork_resolution.py:146-162 | only answers count; a strict majority of them is needed, and enough of them |
| ForkResolution.Corroborated | chain_ops.py:142-163 | a deep rollback needs another answer and a strict majority with the advertiser's own |
| ForkResolution.Measure | fork_resolution.py:377-407 | every verdict: reorg exactly on a proven, reachable and permitted divergence from a peer at our height or above, dead fork on one that is not, behind or synced when the peer knows our tip, unknown when an answer is missing |
| ForkResolution.HoldBatch | fork_resolution.py:432-438 | what is held is a prefix of the batch, up to the cap and the first malformed block |
| ForkResolution.ServingServes | fork_resolution.py:410-448 | any chain, valid or not, has a peer that answers from it |
| ForkResolution.FetchBranch | fork_resolution.py:410-448 | at most the cap is held; from an honest peer it is that peer's branch, as long as the cap and the peer's tip allow |
| ForkResolution.BlocksFromRows | fork_resolution.py:451-466 | one block per height that has rows, lowest first, rows in stored order |
| Reorg.RegroupExact | fork_resolution.py:451-466 | the backed-up rows of removed blocks regroup to exactly those blocks |
| Reorg.DigestServed | chain_ops.py:275-295 | blocks of an accepted chain digest again to the same blocks as far as the index does not know them, and to all of them if and only if it never does |
| Reorg.RollStore | dbhandler.py:166-173 | the backup is the rollback: the chain is cut at the ancestor and the removed rows returned |
| Reorg.RollTo | chain_ops.py:263-272 | ledger and tip variables stand on the ancestor |
| Reorg.BackUp | chain_ops.py:220-221 | chain, tip and txid index stand on the ancestor and every removed row is in the backup |
| Reorg.DigestsBack | chain_ops.py:226-236 | after its txids left the index, a removed part digests back whole if and only if no payment on it repeats a txid |
| Reorg.Restore | chain_ops.py:226-236 | the removed blocks are put back block for block: all of them if and only if no payment among them repeats a txid |
| Reorg.GiveUp | chain_ops.py:226-236 | a branch that did not beat ours is taken off and ours put back, whatever the branch left in the txid index |
| Reorg.Adopt | chain_ops.py:208-236 | the held branch is kept exactly when it is longer, or as long in a lost tie; otherwise our chain is put back |
| Reorg.Settle | chain_ops.py:208-250 | a branch that could not be adopted is remembered as unknown |
| Reorg.CachePut | fork_resolution.py:361-368 | a verdict is remembered for its lifetime and no other live verdict changes |
| Reorg.Gate | chain_ops.py:82-116 | a run goes on exactly when nothing holds the locks, the report is about our tip, the peer is not shorter, and no live verdict is cached |
| Reorg.MeasurePeer | chain_ops.py:118-180 | measured against the store's own hashes; for any peer no reorg below the checkpoint without open recovery, enough peers, percentage and reputable peers, and a corroborating majority; with an honest peer it finds the split and asks for a reorg exactly when that is in reach and allowed by that rule |
| Reorg.ExtendedMeasure | fork_resolution.py:377-407 | a peer whose chain extends ours is never a reason to reorg |
| Reorg.Split | chain_ops.py:165-193 | no reorg without a local hash at the ancestor, and none in a tie that our branch wins |
| Reorg.Examine | chain_ops.py:165-211 | nothing is rolled back before a branch is held that reaches past our tip, or up to it in a tie |
| Reorg.FetchReaches | fork_resolution.py:55-59 | the fetch cap exceeds the probe depth, so a winning branch is always held past our tip |
| Reorg.HonestCandidate | chain_ops.py:275-295 | the branch of an honest, valid peer is digested whole, with any gaps in our txid index |
| Reorg.HonestTaken | chain_ops.py:208-224 | what is held of an honest, valid peer is always adopted, so its branch never has to be taken off again |
| Reorg.Decide | chain_ops.py:65-211 | everything before the ledger lock together: a reorg only where the checkpoint rule allows it and with a branch held that reaches past our tip, or up to it in a lost tie; a verdict to reorg is never cached |
| Reorg.Resolve | chain_ops.py:65-260 | with no assumption on coinbases; what is tried is what was held, digested on the kept part; safety for any peer: a chain that keeps ours up to an ancestor at most 720 blocks down and is longer, or as long in a lost tie, and nothing below the checkpoint without the corroborated recovery rule, or else our own put back, whole if and only if no payment on the removed part repeats a txid; tip and ledger agree; completeness: an honest, valid, winning branch is adopted, and an honest, valid peer never costs us a block |
| Reorg.ResolveClaimed | chain_ops.py:65-260 | a run with a peer that answers from one chain, valid or not: exactly the claimed branch is tried, and kept exactly when it is longer or as long in a tie |
| ChainOrder.HashDecides | fork_resolution.py:74-84 | on two chains without a collision, equal hashes at a height mean equal chains up to it |
| ChainOrder.SourceLinked | bismuth_serialize.py:179-198 | with the code's hash, a digest of the pre-image after the fork and the legacy hash before it, two chains on whose blocks neither collides are linked |
| ChainOrder.SourceFilled | bismuth_serialize.py:179-198 | with the code's hash no block of an accepted chain is empty or has an empty hash |
| ChainOrder.Irreflexive | fork_resolution.py:165-180 | no chain beats itself |
| ChainOrder.Asymmetric | fork_resolution.py:74-84 | two chains never beat each other |
| ChainOrder.Total | fork_resolution.py:165-180 | of two different chains from one root one beats the other |
| ChainOrder.Transitive | fork_resolution.py:74-84 | beating is transitive |
| ChainOrder.NoCycle | chain_ops.py:182-224 | a sequence of adoptions never comes back to a chain it left |
| ChainOrder.SplitExists | fork_resolution.py:87-143 | two chains from one root agree up to one height and share no hash above it |
| ChainOrder.RivalBeats | fork_resolution.py:74-84 | a rival at least as long beats ours exactly when it is longer or has the smaller hash at the split |
| ChainOrder.AdoptionClimbs | chain_ops.py:182-224 | what is adopted from an honest peer beats what was held |
| ChainOrder.TiedClimbs | chain_ops.py:182-224 | a chain tried at equal length, from any peer, beats ours if and only if the first held block that is not our own has the smaller hash, read off what is held before the rollback |
| ChainOrder.AdvertisedTakes | fork_resolution.py:74-84 | a peer that won the tie-break and serves the block it advertised meets that condition |
| ChainOrder.ResolveAny | chain_ops.py:65-260 | a run with any peer: what is adopted beats what was held if and only if it is longer or meets that condition |
| AdvertisedHash.TieLost | chain_ops.py:182-224 | from an empty store, a node ends on the larger hash after a tie |
| AdvertisedHash.LoseTie | chain_ops.py:182-224 | a node on the chain with the smaller hash meets a peer that advertises a smaller one still, and ends on a chain with a larger one that does not beat it |
| RestoredPart.PutBackShorter | chain_ops.py:226-236 | of a chain that repeats a payment, what is put back on top of genesis is never all of it |
| RestoredPart.LoseBlock | chain_ops.py:226-236 | a node on that chain has fewer blocks after a contest against an invalid branch |
| RestoredPart.BlockLost | chain_ops.py:65-260 | from an empty store, a node gets onto that chain by a reorg and ends on fewer blocks |
| ChainOrder.OneReorgs | fork_resolution.py:74-84 | of two nodes tied on different chains exactly one is told to reorg |
| ChainOrder.ResolveHonest | chain_ops.py:65-260 | an honest report changes nothing or moves the node strictly up, whatever its own chain and txid index hold |
| ChainOrder.ResolveMany | chain_ops.py:65-260 | over any number of honest reports and branches without a hash collision no chain is held twice |
| NodeRuns.LedgerSound | digest.py:471-674 | every state a node can be in, with any gaps in its txid index, is solvent, holds all immature rewards, conserves supply and repeats no checked signature |
| NodeRuns.Handle | chain_ops.py:65-260 | one delivery or contest on a chain whose payments repeat no txid: never shorter, never deeper than 720 blocks; an exact index stays exact unless a coinbase met in its course repeats a txid |
| NodeRuns.RunNode | chain_ops.py:65-260 | any run of deliveries and contests, from anyone, keeps the ledger sound and the tip on it; if no coinbase met in the run repeats a txid, no txid is ever repeated or lost and the chain never gets shorter |
| Mempools.Mempool.Pending | mempool.py:381-387 | what an address's still-valid pending transactions cost it |
| Mempools.Mempool.CanPay | mempool.py:378-406 | passes exactly when pending, amount and fee fit the spendable balance |
| Mempools.Mempool.MergeOne | mempool.py:278-414 | the exact pool after one transaction: added, dropped or ignored; all pending spends stay covered |
| Mempools.TakenIn | mempool.py:278-414 | a transaction with a new signature is taken in if and only if it passes the screen, is not from the future, is at most two hours old, is not on the chain, and its amount and fee fit the spendable balance beside the sender's pending ones |
| Mempools.Mempool.Merge | mempool.py:226-414 | the exact pool after a list of transactions, one by one; every sender's pending spends stay covered |
| Mempools.Mempool.Delete | mempool.py:171-173 | one signature goes, the rest stays in order, coverage is kept |
| Mempools.Mempool.Purge | mempool.py:159-165 | exactly the transactions two hours old or older go |
| Mempools.Confirmed | mempool.py:358-361 | true exactly when the signature is on the chain |
| Mempools.CoveredFewer | mempool.py:378-406 | fewer transactions or a later time keep every sender covered |
| Mempools.PoolAffordable | digest.py:281-346 | any block of still-valid pool transactions and a coinbase is affordable |
| Mempools.RunPoolOp | mempool.py:159-414 | one operation gives the exact pool and keeps every sender covered |
| Mempools.RunPool | mempool.py:159-414 | after any run of merges, deletions and purges at one tip, every such block passes the digester's balance checks |
| Activation.NextBoundaryIs | fork.py:45-47 | the least multiple of the boundary strictly above a height |
| Activation.DynamicForkHeight | fork.py:50-80 | the scan with a running count finds the earliest full window |
| Activation.LockinAtTip | fork.py:143-157 | fires exactly when a full window closes at the tip |
| Activation.LockInIs | fork.py:50-80 | every height of the window that closes at the lock-in signals, and no earlier window is full |
| Activation.SignalIs | fork.py:29-31 | a text signals if and only if the marker stands somewhere in it |
| Activation.CoinbaseSignals | fork.py:160-167 | a new block signals exactly when its coinbase, the last transaction, does |
| Activation.LockInStays | fork.py:57-64 | a lock-in is the same at every higher tip and under any signals above it |
| Activation.ActivationDeterministic | fork.py:50-80 | so is the activation height, a boundary within one boundary of the buried lock-in |
| Activation.HotPathAgrees | fork.py:143-157 | checked block by block, the trailing window first fires at the scan's lock-in |
| Activation.SaveLocked | fork.py:117-140 | the first writer wins and no other key changes |
| Activation.ForkTracker.constructor | digest.py:493-508 | a tracker starts without a cached height |
| Activation.ForkTracker.Detect | digest.py:493-508 | right after detection the cached height is what a full scan gives |
| Activation.ForkTracker.Append | digest.py:493-508 | appending keeps cache and sidecar equal to the full scan |
| Activation.ForkTracker.Rollback | digest.py:493-508 | so does a rollback that stays at or above the lock-in |
| Activation.ForkTracker.Restart | fork.py:106-114 | so does a restart, with the sidecar kept or lost |
| Activation.Track | fork.py:160-167 | a tracker driven by the blocks of a chain stays tied to the signals in their last rows |
| Activation.RunTracker | digest.py:493-508 | after any run of commits, restarts and rollbacks that stay at or above a lock-in, detection gives what a full scan of the chain gives |
| Bip39.ZfillBinary | bip39.py:51-59 | padded minimal binary text is fixed-width binary |
| Bip39.DecodeEncode | bip39.py:51-97 | decoding an encoded entropy of any allowed size returns it, for any hash and any 2048 distinct words |
| Bip39.EncodeDecode | bip39.py:51-97 | any list of words the decoder accepts encodes back to the same words |
| Bip39.MnemonicNumber | bip39.py:51-59 | the words read as one number are the entropy followed by the leading bits of its hash |
| Lwma.NextDifficulty | difficulty_lwma.py:42-81 | the loop computes the clamped, weighted, bounded nudge |
| Lwma.SlowerNeverHarder | difficulty_lwma.py:42-81 | raising any solvetimes never raises the next difficulty |
| Lwma.OnTargetFixed | difficulty_lwma.py:42-81 | solvetimes all on target leave it unchanged, up to the floor |
| Lwma.StepBounded | difficulty_lwma.py:72-81 | one step moves at most the bound unless the floor lifts it |
| Lwma.OneSolvetime | difficulty_lwma.py:59-71 | one solvetime shifts the average by at most 2 (clamp * target - 1) / (n + 1) |
| Lwma.SolvetimeWeight | difficulty_lwma.py:59-71 | each solvetime counts by its place from the oldest, out of 1 + 2 + ... + n |
| Lwma.SteadyPace | difficulty_lwma.py:72-81 | at a steady pace the step is twice the binary logarithm of target over pace, within the bound and above the floor |
| Lwma.TwiceAsFast | difficulty_lwma.py:72-81 | blocks twice as fast as the target raise the difficulty by two |
| Lwma.HalfAsFast | difficulty_lwma.py:72-81 | blocks at half the pace lower it by two |
| Lwma.FasterIsHarder | difficulty_lwma.py:42-81 | solvetimes all below the target raise it |
| Lwma.SlowerIsEasier | difficulty_lwma.py:42-81 | solvetimes all above it lower it, unless the floor holds it |
| Lwma.OlderIgnored | difficulty_lwma.py:51-54 | solvetimes before the window do not count |
| Lwma.WindowCounts | difficulty_lwma.py:42-81 | up to a window of them, the step is that of their average |

## Left out

- Sockets, HTTP, threads, locks and timeouts: a peer is a set of answers, and a lock or a deadline is a parameter.
- LMDB, msgpack and snapshot internals, and the row cache in front of the queries: the store is an ordered map with atomic transactions.
- The transaction record codec, the signature schemes, and the waivers of historical irregularities: parameters, or switched off.
- The legacy hashes, the float reward formula, the legacy retarget and the display typing of amounts: functions of the height or the chain, or not part of this model.
- The fee schedule and the dynamic base fee: any functions, the same ones for the pool and the digester.
- The fixed widths of the packed balance entries and counters: integers do not overflow here.
- The legacy one-block rollback, the reward rollback at the first fork, plugin stores, and returning removed transactions to the pool after a reorg: not part of this model.
- The choice of a donor among several peers, bans and reputation: the peer that is measured is given.
- The text form of a mnemonic (trimming, normalising and splitting a phrase): the codec works on word lists.
- The rounding of the decimal context in the retarget: exact reals and any increasing logarithm.
- BlockStores.CommitTxn: excludes the last signed 64-bit height, whose scan bound does not exist, because no chain gets there.
- BlockStores.BlockStore.CommitBlock: excludes the same height, because it runs that transaction.
- BlockStores.BlockStore.Reindex: asks for a batch of at least one, because the loop does not advance on an empty batch.
- BlockStores.RunOp: commits above height 0, for the reason under `RunOps`.
- BlockStores.RunOps: the blocks of a run sit above height 0, because a rebuild drops one at height 0 from the indexes (`Reindex` says what it leaves) and a chain starts at height 1.
- Nodes.Node.ApplyBlocks: the fork height does not change while blocks are digested, because the store is given one for its whole life; `Activation` covers how it is found.
- Activation.ForkTracker.Rollback: excludes rollbacks below a cached lock-in, because the code keeps the cached value by design.
- Activation.Track: excludes rollbacks below a lock-in, for the same reason.
- Activation.RunTracker: excludes runs with such a rollback, for the same reason.
- ChainOrder.ResolveHonest: the peer's chain repeats no payment txid and no block of it collides in hash with one of ours, because an honest peer is one whose whole chain our rules accept.
- Mempools.RunPool: the ledger tip and the base fee stand still, because admission is only meant to agree with the next block.
- Lwma.NextDifficulty: asks for a clamp that reaches one second and a step bound that is not negative, as the constants do.
