# zkEVM bridge service: verified model

The bridge service follows the deposits of several chains, keeps one exit tree per network, serves
Merkle proofs against recorded roots, and sends claims on behalf of its users. This project models
the parts on which its correctness rests, in Dafny, and proves what they keep:

- **The exit tree** lives in four places that must agree: a frontier in memory, a root per deposit, a
  table of nodes under their hashes, and the deposit table. The specification is one function,
  `CompleteTree.Node`, the hash of a subtree over the leaves padded with zero leaves; `Root` is its top.
- **The synchronizer** turns each block into one database transaction over that tree. It adds
  deposits, cuts the tree back and extends it (the backward and forward LET events of sovereign
  chains), rolls back, undoes reorganisations, and walks the chain in ranges in four modes. Its
  specification is a list of deposits that events append to or cut back (`Synchronizer.ApplyBlocks`),
  with the rows that all other events leave behind, once and in order (`Synchronizer.WithNotes`).
- **Event reading** sorts the logs of a block into buckets by kind with an order list, and takes them
  out again.
- **The proof endpoints** read nodes through a least-recently-used cache, and compose a proof in a
  rollup's tree with a proof in the tree of rollups.
- **Grouped claims** are loaded, sent, checked, given up on, grouped and written back as a difference,
  once per tick, in one transaction.
- **The global index** is a number that names a deposit of any network, built and read byte by byte.

Hashes are symbolic: `Hashing.Digest` has a free constructor `Pair` for the two-word hash, so equal
hashes have equal arguments. Tables are values; a connection has a committed and a pending version, a
statement may be refused at any point, and a transaction in which one was refused stays aborted. The
connection counts refused statements, so that contracts can say that an operation fails for no other
reason. Reads outside transactions are refused any number of times, but not forever. Deleting a deposit
deletes its root and node rows. Time, the network, and the outcomes of sends and queries are parameters
or arbitrary choices.

Places where the code does less than a reader would expect are stated as exact conditions, each with a
failing input: `ExitTree.MerkleTree.RollbackMT` (a failed count query is taken for one deposit, see
`SilentRollback`; `EventAfterSilentRollback` says why no wrong root comes of it),
`RollupExits.LatestFollowsUpdate` (a root that returns is not recorded again, `ReturningLeafIsNotTracked`),
`ClaimSteps.ConfirmedWhen` (a group whose last permitted transaction succeeds in the tick that sends it is
failed all the same, `LastRetryIsLost`), `Reorg.MemoryTipSkipsStoredTip` (`StoredTipSkipped`),
`GlobalIndex.LookupIsFaithful` (`LastRollupWraps`), `Undoing.ResetUndoesExactly` (a reset does not bring back
the deposits that a backward LET removed, `RemovalIsNotUndone`) and `VerifiedBatches.RootSurvives`, whose
failing family is `BackwardLETEndsCover`.

Module order: `Bits`, `Hashing`, `CompleteTree`, `RootBuilders`, `FrontierRuns` (trees);
`Storage`, `TableInvariants`, `Database`, `ExitTree` (trees in tables); `RollupExits`, `ProofServer`,
`VerifiedBatches` (rollup vectors and proofs); `ChainEvents`, `EventOrder`, `Reorg`, `BlockRange`,
`Synchronizer`, `Undoing`, `LogSync` (the chain);
`GlobalIndex`; `ClaimTypes`, `ClaimSteps`, `ClaimPending`, `ClaimGrouping`, `ClaimDiff`,
`ClaimWriteBack`, `ClaimInvariant`, `ClaimTicks`, `ClaimManager`.

## Model

| member | source | states |
|---|---|---|
| Hashing.GenerateZeroHashes | bridgectrl/hash.go:25-35 | entry h is the hash of an empty subtree of height h |
| CompleteTree.EmptyNode | bridgectrl/hash.go:25-35 | a subtree without leaves has the zero hash of its height, so an empty tree has the zero root |
| CompleteTree.SmallTree | bridgectrl/merkletree.go:277-299 | three leaves of a tree of height two stand left to right, and the place left over is a zero leaf |
| CompleteTree.NodeInjective | bridgectrl/merkletree.go:277-299 | equal subtree hashes mean equal leaves below them |
| CompleteTree.ProofClimbs | bridgectrl/merkletree.go:417-431 | a leaf with its own siblings climbs to each of its ancestors |
| CompleteTree.ProofVerifiesExactly | bridgectrl/merkletree.go:417-431 | a leaf and a proof reach the root at index i if and only if they are leaf i and its proof |
| CompleteTree.FrontierClimbIsNode | bridgectrl/merkletree.go:116-141 | a frontier, constrained only at the set bits of the count, is enough to place one more leaf at every level |
| CompleteTree.FrontierGivesRoot | bridgectrl/merkletree.go:112-157 | any frontier of some leaves, whatever its free slots hold, recomputes their root |
| CompleteTree.FrontierAdvances | bridgectrl/merkletree.go:125-134 | overwriting the slot of the lowest clear bit gives a frontier of one leaf more |
| CompleteTree.FrontierFreeSlot | bridgectrl/merkletree.go:127-134 | dirtying a slot whose count bit is 0 keeps the frontier |
| FrontierRuns.ContinuesAsNeverStopped | bridgectrl/merkletree.go:64-157 | from any frontier of s, adding leaves meets exactly the roots of never having stopped, for every later root up to a full tree |
| FrontierRuns.ProofFrontierContinues | server/service.go:750-764 | the frontier taken from the proof of leaf n recomputes the n-leaf root and goes on to every later root of the tree |
| RootBuilders.BuildIntermediate | bridgectrl/merkletree.go:189-201 | the parents of an even level are the next level of the tree, each with its two children |
| RootBuilders.BuildMTRoot | bridgectrl/merkletree.go:277-299 | gives the root of the zero-padded complete tree, and an error if and only if the height is 0 or there are more than 2^height leaves |
| RootBuilders.ComputeSiblings | bridgectrl/merkletree.go:369-415 | same root as buildMTRoot, the siblings are the proof of the rollup's leaf, float halving is integer halving, and the inner bounds error is unreachable once the entry check passed |
| RootBuilders.CalculateRoot | bridgectrl/merkletree.go:417-431 | the loop climbs from the leaf by the proof, left or right by the bits of the index |
| RootBuilders.ComputeFrontierFromProof | server/service.go:750-764 | an error if and only if the length is wrong; the proof of leaf n in any larger tree yields a frontier of its first n leaves |
| TableInvariants.WithLeafOk | bridgectrl/merkletree.go:143-157 | storing a deposit, its root and its path keeps every stored root and node that of the stored deposits |
| TableInvariants.CapacityIs | bridgectrl/merkletree.go:112-157 | a tree of 32 levels takes 2^32 - 1 deposits and a lower one as many as it has leaves |
| TableInvariants.ResetDepositsOk | db/pgstorage/pgstorage.go:925-933 | deleting deposits from a count on leaves exactly the tables of that prefix, and other networks alone |
| TableInvariants.ResetBlocksOk | db/pgstorage/pgstorage.go:172-177 | deleting blocks above a number leaves exactly the tables of the deposits up to it, which are a prefix, and the block and event rows up to it |
| TableInvariants.WithBlockOk | db/pgstorage/pgstorage.go:91-108 | storing a block keeps the rows of a network in number order with no hash twice, keeps every row, and adds the block unless its hash is there |
| TableInvariants.NumberUpToOk | db/pgstorage/pgstorage.go:172-177 | exactly the block rows up to the number remain, still in order |
| TableInvariants.EventsUpToConcat | db/pgstorage/pgstorage.go:172-177 | deleting the event rows above a number goes through any two stretches of them separately, so each row is judged by itself |
| TableInvariants.EventsUpToAll | db/pgstorage/pgstorage.go:172-177 | every event row at or below the number stays, and every row above it goes |
| TableInvariants.NumberDepositsIsPrefix | db/pgstorage/pgstorage.go:192-197 | the count query up to a block gives the number of deposits of blocks up to it |
| TableInvariants.NumberDepositsAll | db/pgstorage/pgstorage.go:192-197 | counting up to a block that no deposit is above gives the number of stored deposits |
| TableInvariants.LookupRootIsRoot | db/pgstorage/pgstorage.go:436-444 | the root stored for count c is that of the first c+1 deposits, and there is none beyond |
| TableInvariants.LastRootId | db/pgstorage/pgstorage.go:554-565 | the largest deposit id with a root belongs to the last deposit, though ids have gaps |
| TableInvariants.AncestorStored | bridgectrl/merkletree.go:112-157 | every node on the way to leaf i under the root of the first j+1 leaves is stored, also after later rows were deleted |
| Database.Connection.GetLastDepositCount | db/pgstorage/pgstorage.go:554-565 | the last stored count, not found when there is none, and 0 without an error when the query fails |
| Database.Connection.GetLastComputedRoot | db/pgstorage/pgstorage.go:976-984 | the root of all stored deposits of the network; no root if and only if there is no deposit or the query is refused |
| ExitTree.NewMerkleTree | bridgectrl/merkletree.go:40-60 | a new tree over any stored state matches it if and only if no error is returned and the count query went through or exactly one deposit is stored; an error means a refused read, or a failed count query with nothing stored |
| ExitTree.MerkleTree.GetRoot | bridgectrl/merkletree.go:181-187 | the zero root for an empty tree, else the root stored for the last count, or the error of the query |
| ExitTree.MerkleTree.RootOfMatching | bridgectrl/merkletree.go:181-187 | the root stored for a tree that matches the tables is the root of the stored deposits |
| ExitTree.MerkleTree.InitSiblings | bridgectrl/merkletree.go:64-110 | the walk down from the stored root rebuilds a frontier of the first count deposits; it fails only if a query was refused, inside or outside a transaction, or the count was never stored |
| ExitTree.WalkIsFrontier | bridgectrl/merkletree.go:78-108 | the left children met on the way to the last leaf agree with the incremental frontier on every set bit of the count |
| ExitTree.MerkleTree.Combine | bridgectrl/merkletree.go:112-142 | the climb from a new leaf gives the new root and the rows of its path; the overwritten frontier serves the old leaves still and the new ones already, so a later failure loses nothing |
| ExitTree.MerkleTree.AddLeaf | bridgectrl/merkletree.go:112-157 | stores the root and path of the extended tree and moves memory to it, the count wrapping at 2^32; on every failure memory still holds the old tree; a wrong index is refused without touching anything |
| ExitTree.MerkleTree.ResetLeaf | bridgectrl/merkletree.go:159-164 | memory holds the first count deposits of the transaction, or an error is returned |
| ExitTree.MerkleTree.RollbackMT | bridgectrl/merkletree.go:166-179 | memory holds the committed deposits if and only if no error is returned and the count query went through or exactly one deposit is committed; an error means a refused read, or a failed count query with nothing committed; after a failed query without an error memory holds the first deposit alone |
| ExitTree.SilentRollback | bridgectrl/merkletree.go:166-179 | the failing input: two committed deposits and a failed count query leave one deposit in memory, with no error |
| RollupExits.StoreLeaves | bridgectrl/merkletree.go:301-321 | appends the vector under its root unless that root is recorded; an error if and only if there are too many leaves or a statement it needs is refused |
| RollupExits.AddRollupExitLeaf | bridgectrl/merkletree.go:327-367 | the latest vector with one leaf changed and zero padding is recorded; an error if and only if it is too long or a statement is refused; the id mismatch error never fires for ids from 1 |
| RollupExits.GetLatestIsLatest | db/pgstorage/pgstorage.go:525-551 | the latest rows per rollup are the last recorded vector, complete from 1 to n |
| RollupExits.ByRootReadsBack | db/pgstorage/pgstorage.go:486-506 | reading a recorded root back gives exactly the vector recorded under it |
| RollupExits.RootsOfRows | db/pgstorage/pgstorage.go:509-522 | a root is found in the rows if and only if a vector was recorded under it |
| RollupExits.LatestFollowsUpdate | bridgectrl/merkletree.go:306-319 | the latest vector follows an update if and only if the new root is not that of a superseded vector |
| RollupExits.ReturningLeafIsNotTracked | bridgectrl/merkletree.go:306-319 | the run of three updates a, b, a of one rollup records two vectors only, and the latest one says b |
| RollupExits.ResetKeepsExits | db/pgstorage/pgstorage.go:172-177 | deleting the rows of later blocks leaves the recorded vectors of earlier blocks, whole |
| RollupExits.BatchesUpToExactly | db/pgstorage/pgstorage.go:172-177 | exactly the vectors of blocks up to the number stay |
| RollupExits.RunExitOps | bridgectrl/merkletree.go:301-367 | after any sequence of updates, with any refused statements, and reorganisations the rows are exactly the recorded and not removed vectors, each recomputing to its root |
| RollupExits.GetRollupExitProof | server/service.go:124-152 | succeeds if and only if the query is not refused and the root is recorded and covers the rollup, and then gives that rollup's leaf with a proof that climbs to the root |
| ProofServer.LruCache.Get | server/service.go:58-71 | finds a key if and only if it is cached, makes it the most recent, gains and loses nothing |
| ProofServer.LruCache.Add | server/service.go:58-71 | the new entry is the most recent; only the least recent one goes, and only when full |
| ProofServer.ProofService.GetNode | server/service.go:58-71 | the children returned hash to the key, from the cache or from the table; a stored key is always found unless the query is refused |
| ProofServer.TermProofOfTree | server/service.go:74-121 | the siblings read off a root are the proof in the tree of that root |
| ProofServer.RecordedPathStored | server/service.go:74-121 | under every recorded root, historic ones too, the whole path to every leaf of that time is stored |
| ProofServer.ProofService.GetProof | server/service.go:74-121 | a returned proof depends on the root alone and climbs back to it; for every recorded root j and index up to j it is returned, unless a query is refused, and is the proof of that deposit |
| ProofServer.ProofService.GetClaimProof | server/service.go:155-204 | only for a stored and ready deposit, under the trusted or the latest exit roots as the claim demands; mainnet: the deposit climbs to the mainnet root; rollup: it climbs to the rollup's leaf and on to the rollup root at index network-1; there is an answer for every covered deposit unless a query is refused |
| ProofServer.ClaimBinds | server/service.go:155-204 | a claim that verifies under exit roots covering a deposit has the leaf of that deposit, and its proofs are the only ones that do |
| ProofServer.ProofService.GetLeaf | server/service.go:766-775 | the leaf at an index of the network's deposits, the zero leaf beyond them, and none if the query is refused |
| ProofServer.ProofService.GetBackwardLETData | server/service.go:710-745 | refused for mainnet; for every deposit of a rollup, unless a query is refused, the current root, the leaf, its verifying proof and a frontier of the leaves before it |
| VerifiedBatches.CheckIfRootExists | db/pgstorage/pgstorage.go:422-433 | true if and only if the query goes through and the root is that of some first deposits of the network |
| VerifiedBatches.ProcessVerifyBatch | synchronizer/synchronizer.go:771-810 | inside the transaction of a block: an empty exit root changes nothing; else accepted, unless a query is refused, if and only if the vector can be recorded and the exit root of a followed rollup is one of its roots; then the recorded vector covers its deposits and has the number of the block; a batch that is not accepted is rolled back |
| VerifiedBatches.ProcessBatchBlock | synchronizer/synchronizer.go:512-632 | a block with a verified batch as one transaction: block row and vector are stored together, or nothing changed because the batch is not acceptable or a statement was refused |
| VerifiedBatches.BatchUndone | synchronizer/synchronizer.go:798-802 | a reset below the block of a batch leaves exactly the vectors of before |
| VerifiedBatches.DepositKeepsVouched | synchronizer/synchronizer.go:862-878 | later deposits leave every recorded leaf a root of stored deposits |
| VerifiedBatches.RootSurvives | db/pgstorage/pgstorage.go:925-933 | after cutting a network back to n deposits, the root of its first j+1 is still one of its roots if and only if j < n, or n is not 0 and the deposits removed from them were empty leaves |
| VerifiedBatches.BackwardLETEndsCover | synchronizer/synchronizer.go:915-974 | a backward LET that removes a non-empty deposit counted by a recorded vector ends the cover of that vector |
| VerifiedBatches.CutKeepsVouched | synchronizer/synchronizer.go:915-974 | cutting a rollup back keeps every recorded leaf of the followed rollups a root of stored deposits if and only if the cut spares the deposits of each of them, or removes empty leaves only |
| VerifiedBatches.RunStaysVouched | synchronizer/synchronizer.go:771-974 | over any run of deposits, backward LETs, verified batches and resets the recorded leaves of followed rollups are empty or roots of stored deposits at every time if and only if every cut was harmless when it was made |
| EventOrder.ProcessEvent | etherman/etherman.go:702-739 | one more kept event extends the last block or opens a new one, with its bucket and order entry |
| EventOrder.ProcessLog | etherman/etherman.go:366-587 | a kept event is added, an ignored topic changes nothing, an unreadable log is the only error |
| EventOrder.ParsedSnoc | etherman/etherman.go:366-587 | the logs kept are those that carry an event, with number and hash of their block, each once and in order |
| EventOrder.ReadEvents | etherman/etherman.go:341-364 | an error if and only if a log is unreadable; else taking all blocks' events out in recorded order gives back the kept events, each once and in order, if and only if they are contiguous by block |
| EventOrder.DistinctIffContiguous | etherman/etherman.go:341-364 | the blocks built have different hashes if and only if the logs are contiguous by block |
| EventOrder.ReplayIffContiguous | etherman/etherman.go:341-364 | the replay of any blocks and orders that represent the logs is the logs if and only if they are contiguous |
| EventOrder.ReplayDefined | synchronizer/synchronizer.go:528-625 | where the replay gives anything, no block's order list points outside a bucket |
| LogSync.BlocksAreLogs | synchronizer/synchronizer.go:509-632 | for logs contiguous by block, bucketing and replaying the blocks does exactly what the logs do one by one in chain order |
| LogSync.NotedBlocksAreLogs | synchronizer/synchronizer.go:509-632 | for logs contiguous by block, bucketing and replaying the blocks leaves the rows of the logs, each once and in chain order |
| LogSync.ProcessLogs | synchronizer/synchronizer.go:509-632 | logs in, tables out: an unreadable log changes nothing; else accepted if and only if each event is in chain order, unless a statement is refused; then the committed deposits are what the events make of them, every block has its row and every other event its own, once and in order; memory matches |
| Reorg.SoundMeans | synchronizer/synchronizer.go:733-741 | a block is left alone if and only if it is not above genesis or has the canonical hash |
| Reorg.CheckReorg | synchronizer/synchronizer.go:706-769 | ends; against the chain, or against the canonical block just received, it is nil for a sound tip, and for an unsound stored tip the highest sound stored block by number or genesis; fails only if a header or a stored block it asks for is not returned |
| Reorg.ReceivedIsHeader | synchronizer/synchronizer.go:733-741 | checking the tip against the canonical block just received is checking it against the chain |
| Reorg.StoredTipFallback | synchronizer/synchronizer.go:706-769 | for an unsound stored tip the fallback is sound, no sound stored block has a higher number, and it is stored, or genesis when no stored block is sound |
| Reorg.MemoryTipSkipsStoredTip | synchronizer/synchronizer.go:717-741 | for a tip held in memory the fallback is the right one if and only if the stored tip is not sound, or is not above genesis and shares its number with the block before it |
| Reorg.StoredTipSkipped | synchronizer/synchronizer.go:717-741 | the failing input: stored blocks 5 and 7 are canonical, and a reorganised block 8 in memory falls back to 5 |
| Reorg.FallbackIsSound | synchronizer/synchronizer.go:706-769 | the fallback is always canonical or not above genesis |
| Synchronizer.BackwardThenForward | synchronizer/synchronizer.go:915-1058 | a backward LET and a forward LET of the removed leaves are accepted and restore leaves, root and count |
| Synchronizer.AcceptedEvents | synchronizer/synchronizer.go:862-1058 | an event is accepted if and only if: a deposit has the next count; a LET names root and count of the deposits before and of those after it, which are a prefix, off mainnet, or the deposits with its leaves appended in its block |
| Synchronizer.ClientSynchronizer.Rollback | synchronizer/synchronizer.go:1125-1140 | memory matches the committed tables again, also while the transaction is still open, however often the reads of the rebuild are refused |
| Synchronizer.ClientSynchronizer.ProcessDeposit | synchronizer/synchronizer.go:862-878 | appends the deposit to the tables and the tree if and only if its count is next and no statement is refused; else everything is back at the committed state |
| Synchronizer.ClientSynchronizer.ProcessBackwardLET | synchronizer/synchronizer.go:915-974 | accepted, unless a statement is refused, if and only if it names the current root and count and a prefix with the new root; then exactly that prefix is left, its root and count are the new ones named, memory is rebuilt and the row of the event is stored |
| Synchronizer.ClientSynchronizer.ProcessForwardLET | synchronizer/synchronizer.go:976-1058 | accepted, unless a statement is refused, if and only if it names the current root and count and the extended root and count; then exactly its leaves are appended, root and count are the new ones named, and the row of the event is stored |
| Synchronizer.ClientSynchronizer.ProcessEvent | synchronizer/synchronizer.go:535-625 | accepted if and only if the list of deposits accepts it and no statement is refused, and else everything is rolled back; an accepted event other than a deposit adds its own row and no other; with memory behind the tables it may be refused, but does nothing else than the reference |
| Synchronizer.ClientSynchronizer.ProcessBlock | synchronizer/synchronizer.go:512-632 | one transaction per block: a commit adds the block row, moves the committed deposits as the reference does and adds the row of every other event once and in order; any other exit leaves all of it, and means that the reference rejects the block or a statement was refused; memory matches unless an order entry is out of bounds |
| Synchronizer.ClientSynchronizer.ProcessBlockRange | synchronizer/synchronizer.go:509-632 | committed deposits, block rows and event rows are the reference applied to the blocks before the first failing one, which the reference rejects unless a statement was refused; with replayable orders memory matches the tables at every exit |
| Synchronizer.StoredRows | synchronizer/synchronizer.go:509-632 | the block rows after any blocks are in number order with no hash twice, and are those of before and the blocks, each present by its hash |
| Synchronizer.ClientSynchronizer.ResetState | synchronizer/synchronizer.go:666-696 | exactly the blocks, deposits and event rows up to the number are left and memory matches them; it fails only if a statement was refused, and then nothing changed |
| BlockRange.AfterMembers | synchronizer/synchronizer.go:351-421 | the blocks after a number are exactly the event-bearing blocks numbered above it |
| Synchronizer.ClientSynchronizer.NextBlocks | synchronizer/synchronizer.go:351-421 | in every mode what is left of the answer are the event-bearing blocks after those processed, the overlapping block dropped |
| Synchronizer.ClientSynchronizer.SyncBlocks | synchronizer/synchronizer.go:305-501 | in all four modes it ends; on success exactly the event-bearing blocks after the start were processed, every event of them once and in order, and the network is synced; it fails only if a statement was refused or at a block the reference rejects, with exactly the blocks before it processed |
| Synchronizer.ClientSynchronizer.FallBack | synchronizer/synchronizer.go:289-302 | after a reorganisation block rows, deposits and event rows are those up to a sound block; for the stored tip there is none if and only if the tip is sound, else it is the highest sound block by number; it fails only if a statement was refused or a header or row was not returned, and then nothing changed |
| Undoing.ResetUndoes | synchronizer/synchronizer.go:289-302 | processing blocks above a number and resetting to it gives back every block row and event row of before, and the deposits of before up to the fewest there were on the way |
| Undoing.ResetUndoesExactly | synchronizer/synchronizer.go:666-696 | the reset undoes the blocks if and only if the deposits never became fewer than before |
| Undoing.RemovalIsNotUndone | synchronizer/synchronizer.go:915-974 | the failing input: block 7 removes the deposit of block 3, and a reset to block 5 leaves no deposit |
| Undoing.NoCutsInBlocks | synchronizer/synchronizer.go:915-974 | without a backward LET among the events they never do |
| Synchronizer.ClientSynchronizer.EventAfterSilentRollback | synchronizer/synchronizer.go:862-1058 | after a rollback that silently left one of several deposits in memory no wrong root is stored: of every event that the stored deposits accept, either it is refused and memory is restored, or the committed deposits are what it should make of them; a deposit is always refused |
| Synchronizer.ClientSynchronizer.Run | synchronizer/synchronizer.go:116-230 | after any sequence of ranges, reorganisations, resets and restarts, with any failures, every step did to block rows, deposits and event rows what it is for, or less because a statement was refused or a block rejected; memory, roots and nodes are those of the stored deposits |
| Synchronizer.FaultlessStep | synchronizer/synchronizer.go:116-230 | a step of a run without refused statements does all it is for: the whole range, the reset to the number, or the fall back to the highest sound block |
| GlobalIndex.FillBytes | etherman/etherman.go:902-937 | the buffer denotes the number, the most significant byte first |
| GlobalIndex.GenerateGlobalIndex | etherman/etherman.go:921-937 | the bytes built in the reused buffer denote 2^64 plus the leaf for mainnet, else rollup times 2^32 plus the leaf |
| GlobalIndex.DecodeGlobalIndex | etherman/etherman.go:902-919 | reads the flag from byte 23 and two 32-bit words; the three error returns are unreachable |
| GlobalIndex.DecodeEncode | etherman/etherman.go:902-937 | decoding undoes encoding for every flag, rollup and leaf, with rollup 0 for mainnet |
| GlobalIndex.EncodeDecode | etherman/etherman.go:902-937 | encoding undoes decoding if and only if the number is below 2^64, or 2^64 and a 32-bit word; those are the numbers encoding reaches |
| GlobalIndex.ClaimFindsDeposit | utils/client.go:237-243 | the deposit a claim is sent for is the one found from its decoded index, with no overflow |
| GlobalIndex.ClaimIndexInjective | utils/client.go:237-243 | different deposits have different global indices |
| GlobalIndex.LookupIsFaithful | synchronizer/synchronizer.go:1086-1090 | a number is the index of the deposit it is looked up as if and only if it is canonical and not of the last 32-bit rollup |
| GlobalIndex.LastRollupWraps | synchronizer/synchronizer.go:1086-1090 | an index of the last 32-bit rollup is looked up as a mainnet deposit |
| ClaimSteps.GetMoreRecentTx | claimtxman/types/monitoredtx.go:226-239 | the first of the entries with the latest time |
| ClaimSteps.CanSendNewClaimCall | claimtxman/monitor_compressed_txs.go:284-311 | true if and only if nothing was sent, or nothing is pending, a retry is left and every attempt is at least the retry interval ago |
| ClaimSteps.SettleReceipts | claimtxman/monitor_compressed_txs.go:232-256 | up to the first success, a pending attempt that was mined is marked successful or failed as the network says; every other attempt is as it was; a success confirms the group and its transactions |
| ClaimSteps.OutdateClaim | claimtxman/monitor_compressed_txs.go:264-280 | exactly the pending attempts of a claiming group that wait longer than the timeout fail, and a group out of retries fails with its transactions |
| ClaimSteps.GroupHistory | claimtxman/monitor_compressed_txs.go:172-355 | at most one attempt is pending; a claiming group has no success; a confirmed one has exactly one, its last, and nothing pending |
| ClaimSteps.StepOk | claimtxman/monitor_compressed_txs.go:172-355 | a tick keeps: retries is the history length, created has none, claiming and confirmed have fewer than the maximum, failed has at least it; members take the group's status; receipts are final |
| ClaimSteps.TickOutcome | claimtxman/monitor_compressed_txs.go:172-355 | a whole tick said without its passes: it sends when nothing was sent, or all attempts failed at least the retry interval ago, with hash and time of the sending; the last attempt gets what the network says, or fails when late; status by retries and success |
| ClaimSteps.StillPending | claimtxman/monitor_compressed_txs.go:228-282 | an attempt left pending is neither mined nor late |
| ClaimSteps.ConfirmedWhen | claimtxman/monitor_compressed_txs.go:262-282 | counting the transaction this tick sends, a group seen claimed is confirmed if and only if a retry is left, and failed if and only if none is |
| ClaimSteps.EarlierSuccessIsConfirmed | claimtxman/monitor_compressed_txs.go:228-282 | a transaction pending from an earlier tick that is mined successfully always confirms its group |
| ClaimSteps.LastRetryIsLost | claimtxman/monitor_compressed_txs.go:275-279 | a group whose only permitted transaction was mined successfully ends failed |
| ClaimSteps.OneRetryNeverConfirms | claimtxman/monitor_compressed_txs.go:275-279 | with at most one retry allowed no group is ever confirmed |
| ClaimPending.GetClaimTxsByStatus | db/pgstorage/pgstorage.go:739-769 | exactly the created, compressing and claiming transactions to the network whose deposits are there, once each, oldest first |
| ClaimPending.NewPendingTxs | claimtxman/pending_txs.go:68-94 | candidates under the first exit root and the members of every group in order; an error if and only if a group is missing |
| ClaimGrouping.ChooseTxs | claimtxman/groups_trigger.go:18-48 | when enough wait or one waits too long, the first candidates, as many as a group may hold or all if there is no limit; else none |
| ClaimGrouping.GetCompressClaimParameters | claimtxman/compose_compress_claim.go:81-111 | the exit roots of the largest deposit id and the claim of every deposit exactly once; an error if and only if some method is unknown or some call data does not unpack |
| ClaimGrouping.GetCompressClaimParametersFromMonitoredTx | claimtxman/compose_compress_claim.go:71-111 | the claims are, as a multiset, those of the transactions; for transactions under one global exit root the exit roots are those of every claim |
| ClaimGrouping.EveryClaimOnce | claimtxman/compose_compress_claim.go:71-111 | taking the call data through a map by deposit loses and repeats none of it, in whatever order the map is read |
| ClaimGrouping.SendClaims | claimtxman/monitor_compressed_txs.go:313-355 | every group, in any order, makes its sending step and no other group changes |
| ClaimGrouping.CheckReceipts | claimtxman/monitor_compressed_txs.go:228-260 | every group, in any order, makes its receipt step |
| ClaimGrouping.OutdateClaims | claimtxman/monitor_compressed_txs.go:262-282 | every group, in any order, makes its outdating step |
| ClaimGrouping.CreateNewGroups | claimtxman/monitor_compressed_txs.go:357-391 | the chosen claims become one created group under the next number, whose compressed call is the compressor's answer to the exit roots of every one of them and to all their claims; or the tick fails because they cannot be composed or compressed |
| ClaimGrouping.NewGroupCalls | claimtxman/monitor_compressed_txs.go:357-391 | the call of a new group is the compressor's answer to mainnet and rollup exit root of every claim in it and to all the claims |
| ClaimGrouping.GroupableWhen | claimtxman/monitor_compressed_txs.go:357-391 | the chosen claims can be grouped if and only if every method is known, all call data unpacks and the compressor answers |
| ClaimGrouping.Process | claimtxman/monitor_compressed_txs.go:172-194 | every loaded group one step on and at most one new group |
| ClaimDiff.GetTxByDepositID | claimtxman/types/monitoredtx.go:173-180 | finds a transaction of the deposit if there is one |
| ClaimDiff.GenerateStoreUpdate | claimtxman/pending_txs.go:97-136 | exactly the new groups, the changed entries and the changed or new transactions, each once; an error if and only if a member is missing from the old group |
| ClaimWriteBack.GetLatestMonitoredTxGroupID | db/pgstorage/pgstorage_monitored_txs_group.go:14-26 | the largest group number, 0 when there is none |
| ClaimWriteBack.GetPendingTxs | claimtxman/monitor_compressed_txs.go:100-118 | the groups of the open transactions with entries and members as stored, and all candidates under the exit root of the oldest open transaction, oldest first; an error if and only if a group is missing |
| ClaimWriteBack.CandidatesExactly | claimtxman/types/monitoredtx.go:369-371 | the candidates are exactly the claims just created, in no group, never sent, under the exit root of an oldest open claim of the network |
| ClaimWriteBack.DifferenceWritesBack | claimtxman/store_changes.go:31-62 | executing the difference leaves the worked-on groups and members in the tables and every other row unchanged |
| ClaimWriteBack.ReloadGivesWritten | claimtxman/pending_txs.go:68-136 | written-back tables reload to the live groups with entry and members, and no ended group |
| ClaimInvariant.OpenIsLive | claimtxman/monitor_compressed_txs.go:100-118 | a group with an open transaction has not ended, so ended groups are never loaded |
| ClaimInvariant.CandidatesShareRoot | claimtxman/compose_compress_claim.go:81-111 | the candidates of stored claims were all proved against one pair of exit roots |
| ClaimInvariant.WrittenIsTicked | claimtxman/monitor_compressed_txs.go:135-170 | load, work, difference and write-back together are the row-by-row tick |
| ClaimTicks.TickKeeps | claimtxman/monitor_compressed_txs.go:135-194 | a tick keeps all group, membership, size and exit root invariants, and changes claims only forward |
| ClaimTicks.ReloadAfterTick | claimtxman/monitor_compressed_txs.go:135-170 | the tables a tick leaves reload to exactly what it worked out |
| ClaimTicks.GroupsAreDisjoint | claimtxman/pending_txs.go:33-94 | no deposit is in two groups or twice in one |
| ClaimTicks.GroupSharesRoots | claimtxman/compose_compress_claim.go:81-111 | all claims of a stored group have the same global exit root and the same two exit roots |
| ClaimTicks.EvolvesTransitive | claimtxman/monitor_compressed_txs.go:121-132 | forward change composes over ticks: membership once, growing history, final ends, increasing group numbers |
| ClaimManager.Execute | claimtxman/store_changes.go:31-62 | writes the groups back or fails; it does not fail without a refused statement |
| ClaimManager.ClaimTxManager.InternalMonitorTxs | claimtxman/monitor_compressed_txs.go:135-170 | a row-by-row tick of the transaction; without refused statements it fails only if the chosen claims cannot be grouped |
| ClaimManager.ClaimTxManager.MonitorTxs | claimtxman/monitor_compressed_txs.go:121-132 | all changes of a tick are committed or none; without refused statements it is committed if and only if the chosen claims can be grouped; the invariants hold afterwards |
| ClaimManager.TickMakesGroup | claimtxman/monitor_compressed_txs.go:135-194 | a tick without refused statements puts the due candidates, if they can be grouped, into one new group under the next number |
| ClaimManager.ClaimTxManager.AddClaimTx | claimtxman/claimtxman.go:305-384 | one row per deposit, proved against the global exit root of its two roots; nothing when an earlier exit is taken or the deposit has a row |
| ClaimManager.ClaimTxManager.Run | claimtxman/monitor_compressed_txs.go:121-170 | after any sequence of ticks, new claims and lost deposits, with any failures, every step did to the tables exactly what it is for, the invariants hold and claims only moved forward |

## Left out

- Keccak and byte layouts of hashes, HashDeposit included: a leaf is one symbolic digest.
- The table of zero hashes is computed for 64 levels at start-up; the model computes any number of levels.
- RootBuilders.ComputeSiblings: halves the index over the reals, because every 32-bit index is exact in a 64-bit float.
- Database.Connection.GetLastDepositCount: a failing query is modelled outside transactions only, where it is used.
- Synchronizer.ClientSynchronizer.Rollback: assumes that its count query does not fail unnoticed (what happens then is RollbackMT and EventAfterSilentRollback) and that its reads are not refused forever.
- Synchronizer.ClientSynchronizer.ProcessDeposit: a deposit with the next count requires room in the tree: the bridge contract takes at most 2^32 - 1 deposits, and the source has no check of its own before its 32-bit count wraps; a deposit with another count is refused without it.
- Synchronizer.ClientSynchronizer.ProcessForwardLET: an event that names the current count requires room for its leaves, for the same reason.
- Synchronizer.ClientSynchronizer.SyncBlocks: the chain and its head are fixed during the call and queries answer exactly the event-bearing blocks; changes of the chain between calls are FallBack.
- Synchronizer.ClientSynchronizer.Run: the outer Sync loop is a sequence of commands, and a range that starts below a stored deposit is not taken up; waiting, the trusted state and the start-up checks are not modelled.
- Synchronizer.ClientSynchronizer.ProcessEvent: an event other than a deposit or LET is one statement that adds one row of its kind; what some of them also read, update or delete (exit roots of the other layer, the claim of an unset claim, the deposit of a set claim) is not modelled. Verified batches are VerifiedBatches.ProcessVerifyBatch.
- Synchronizer.ClientSynchronizer.EventAfterSilentRollback: speaks of events that the stored deposits accept; memory that is behind would take a deposit whose count is its own, which the chain does not emit.
- VerifiedBatches.ProcessVerifyBatch: requires a rollup id from 1 on, as the contracts number rollups.
- VerifiedBatches.ProcessBatchBlock: a block with one verified batch and no other event; the vectors are kept beside the tables of the deposits.
- ProofServer.ProofService.GetClaimProof: the trusted and the latest exit roots are handed in, since the table of global exit roots is not modelled.
- The canonical chain: the properties speak of what is stored. A backward LET that removes deposits of older blocks is not undone by a later reorganisation of its block (Undoing.ResetUndoesExactly).
- Several networks synchronizing at once: one transaction is open at a time.
- Block ids and the join of deposits with blocks: a deposit carries its block number. Rows of one number keep their order of arrival, and a hash is unique within a network. The tables of exit roots, claims, tokens and LET events are one list of rows.
- BridgeController: dispatch by network over the trees modelled here.
- Commits whose outcome is unknown to the client.
- GlobalIndex.DecodeGlobalIndex: requires a number below 2^256, which the event type guarantees; the library panics beyond it.
- ClaimDiff.GenerateStoreUpdate: the updated_at and last_log columns are not modelled, so an entry that differs only in its log is not an update here.
- ClaimManager.ClaimTxManager.MonitorTxs: ticks do not overlap, and group numbers do not reach 2^64.
- Transactions already sent on chain by a tick whose database transaction is rolled back: the history is the recorded one.
- Claims that are sent one by one (claimtxman/monitortxs.go), the nonce cache and gas estimation: mostly calls to the network.
- Choosing deposits to claim, readiness, tokens, claims and global exit root tables, pagination, sync percentage and status: easy lookups.
- getLeaves and updateLeaf of the Merkle tree: not on a live path.
