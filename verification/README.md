# kvfs in Dafny

A model of the algorithms inside kvfs, a distributed object store, and proofs of what they promise.
`dafny verify dfyconfig.toml` checks the whole project.

Bytes are `bv8`. Code that changes things in place is imperative Dafny (arrays, classes, loops);
its contracts refer to specification functions or state the promised property outright, and the
properties of those functions are lemmas. Requests that can fail do so nondeterministically; the
field `down` of a cluster names the nodes that may fail, and the constant `up` of a store says that none of
its transactions does.

| files | what they cover |
|---|---|
| `GF`, `Linear`, `Elimination`, `Matrix`, `Vandermonde`, `ReedSolomon` | GF(2^8) tables and field laws, Gauss-Jordan, independence of any K rows, encoder and erasure decoder |
| `Chunker` | FastCDC: streamed pieces equal a pure segmentation; resynchronisation |
| `Nodes`, `Metadata`, `Layout`, `PutPath`, `Retrieval`, `GetPath`, `ObjectPath` | erasure-coded PUT and GET end to end |
| `Repair`, `Plans` | stripe repair, and the rebalance and repair planners |
| `Elector`, `Election` | elections as a step system: one leader per term, leaders' logs, fencing of old terms |
| `Wal` | group commit over every interleaving |
| `Store`, `Calls` | the metadata store, what its calls leave behind, and replay of its log |
| `Order`, `Placement` | byte order and sorting; rendezvous placement with failure domains |
| `Claims`, `Rebalance`, `GarbageCollection`, `Rounds` | claimed copies stay on disk over any sequence of rounds |
| `Listing` | ListObjectsV2 pagination |
| `Audit` | the Merkle audit |

Where the code and its text differ, the model follows the code:

- The polynomial is 0x11d. A comment in internal/reedsolomon/gf.go:54-55 calls it the one AES uses,
  which is 0x11b; nothing depends on it.
- Close of the WAL ignores errors of its last flush and fsync (internal/store/wal.go:443-450) and
  still marks everything durable. `FailedCloseLosesLine` is a run where an Append then reports
  success for a line that was never synced. `FailedCloseExactly` says, for every interleaving, which
  waiting appends are told the truth, and `FailedCloseWhole` when all of them are.
- Election terms are uint64 and increments wrap (internal/election/election.go:274). A peer may be
  told the last term by a stray heartbeat, and then one term can have two leaders: in every cluster
  with two named peers (`WrapElectsTwoLeaders`), and in no other (`TwoLeadersPossible`). Every other
  result about elections is for runs in which no campaign starts at the last term.
- A page of one key that holds the empty key, or a page size of 0, yields an empty continuation
  token, which sends the client back to its start: `WhenTokensAdvance` and `StuckWalk`.
- The audit counts references. A (node, chunk) pair that the records mention twice never matches the
  root, although the file is there; `AuditNode` has this as part of its exact condition.
- blog/21-transactional-raft.md:84-86 and blog/27-log-compaction.md:65 call replay idempotent. It is not:
  `SecondReplayOfEntry` says for which entries it is, and `SecondReplayOfLog` for which logs, the recovery
  case of a snapshot that already contains the log. There is one failing log of each kind.
- A repair that does not force its writes reports success over a stale file under the shard's name:
  the node skips the write. `NewAddressHoldsShard` has the exact condition; `RepairLeavesStale` is the
  failing family and `StaleFileSurvives` a stripe, disk and record in it.

## Model

| member | source | states |
|---|---|---|
| GF.Primitive | internal/reedsolomon/gf.go:54-75 | no power of alpha strictly between 0 and 255 is 1 |
| GF.ExpInjective | internal/reedsolomon/gf.go:63-75 | the 255 powers of alpha are pairwise different |
| GF.LogExists | internal/reedsolomon/gf.go:60-68 | every nonzero byte is a power of alpha, so it has a logarithm |
| GF.BuildTables | internal/reedsolomon/gf.go:63-80 | the loops fill 512 powers of alpha and the logarithm of every nonzero byte |
| GF.TableMul | internal/reedsolomon/gf.go:87-92 | the table lookup computes the field product for all pairs of bytes |
| GF.TableDiv | internal/reedsolomon/gf.go:95-105 | so does the lookup for the quotient |
| GF.TablePow | internal/reedsolomon/gf.go:109-119 | and the one for powers |
| GF.MulExp | internal/reedsolomon/gf.go:69-74 | multiplying by a power of alpha is the shift-and-reduce step iterated |
| GF.MulIsPolyTimes | internal/reedsolomon/gf.go:87-92 | the table product is polynomial multiplication modulo 0x11d, bit by bit |
| GF.MulCommutes | internal/reedsolomon/gf.go:87-92 | multiplication is commutative |
| GF.MulDistributes | internal/reedsolomon/gf.go:83-92 | multiplication distributes over XOR |
| GF.MulAssociates | internal/reedsolomon/gf.go:87-92 | multiplication is associative |
| GF.MulNonzero | internal/reedsolomon/gf.go:87-92 | there are no zero divisors |
| GF.DivCancels | internal/reedsolomon/gf.go:95-105 | division undoes multiplication for every nonzero divisor |
| GF.InvCancels | internal/reedsolomon/gf.go:122 | the inverse is a two-sided multiplicative inverse |
| GF.PowStep | internal/reedsolomon/gf.go:109-119 | gfPow is repeated multiplication, with 0^0 = 1 |
| Elimination.ScaleKeepsNull | internal/reedsolomon/matrix.go:150-154 | scaling a row by a nonzero byte keeps the null space |
| Elimination.AddKeepsNull | internal/reedsolomon/matrix.go:155-167 | adding a multiple of another row keeps the null space |
| Elimination.SwapKeepsNull | internal/reedsolomon/matrix.go:180-189 | swapping rows keeps the null space |
| Elimination.MissingPivot | internal/reedsolomon/matrix.go:136-149 | a column without pivot means a nonzero kernel vector, so reporting a singular matrix is right |
| Elimination.InverseFromNull | internal/reedsolomon/matrix.go:120-178 | the right half left by the elimination inverts the input on both sides |
| Linear.InverseProducts | internal/reedsolomon/matrix.go:107-120 | an inverse in the sense of the results below makes both matrix products the identity |
| Matrices.SwapRows | internal/reedsolomon/matrix.go:180-189 | exchanges two rows in place and nothing else |
| Matrices.FindPivot | internal/reedsolomon/matrix.go:138-144 | the first row below with a nonzero entry, or none exists |
| Matrices.ReduceColumn | internal/reedsolomon/matrix.go:150-167 | one more unit column, same null space |
| Matrices.Invert | internal/reedsolomon/matrix.go:120-178 | succeeds exactly on square matrices with trivial kernel, and the result is a two-sided inverse |
| Matrices.Multiply | internal/reedsolomon/matrix.go:90-105 | the matrix product |
| Matrices.SubMatrix | internal/reedsolomon/matrix.go:193-199 | the chosen rows in the chosen order |
| Vandermonde.RootCount | internal/reedsolomon/matrix.go:67-86 | a polynomial with as many distinct roots as coefficients is zero |
| Vandermonde.PowersIndependent | internal/reedsolomon/matrix.go:78-86 | any K distinct rows of the power matrix have trivial kernel |
| Vandermonde.BuildPowers | internal/reedsolomon/matrix.go:78-86 | entry (r, c) is byte(r) to the power c |
| Vandermonde.ProductIsEncoding | internal/reedsolomon/matrix.go:201-226 | multiplying by the inverse of the top square makes the top the identity and keeps every choice of K rows independent |
| Vandermonde.SystematicUnique | internal/reedsolomon/matrix.go:212-226 | K and M determine the encoding matrix, so any encoder decodes another one's shards |
| Vandermonde.MakeSystematicEncoding | internal/reedsolomon/matrix.go:212-226 | never fails for K+M <= 256; identity on top, every K rows invertible |
| ReedSolomon.BuildEncoder | internal/reedsolomon/rs.go:59-71 | accepts exactly K, M >= 1 with K+M <= 256 |
| ReedSolomon.FillMulTable | internal/reedsolomon/rs.go:154-166 | the table of products with one coefficient, from the exp and log tables |
| ReedSolomon.XorThroughTable | internal/reedsolomon/rs.go:132-146 | the eight-fold unrolled loop and its tail XOR every byte through the table, for every length |
| ReedSolomon.Encode | internal/reedsolomon/rs.go:88-150 | each error exactly in its case, otherwise parity p is row K+p of the matrix applied to the data |
| ReedSolomon.Reconstruct | internal/reedsolomon/rs.go:177-249 | each error exactly in its case and without touching the slots; the matrix never fails to invert; otherwise all data slots are filled with the data that the present shards determine |
| ReedSolomon.ErasuresTolerated | internal/reedsolomon/rs.go:177-249 | a codeword with at least K shards left is accepted and determined |
| ReedSolomon.RoundTrip | internal/reedsolomon/rs.go:88-249 | encode, erase any at most M shards, reconstruct: the original data shards come back |
| Chunker.Normalize | internal/chunker/cdc.go:113-139 | defaulted settings are usable; valid sizes are kept, others replaced by the defaults |
| Chunker.SegmentsPartition | internal/chunker/cdc.go:205-272 | the pieces concatenate to the input, none exceeds MaxSize, all but the last reach MinSize |
| Chunker.CutFromBuffer | internal/chunker/cdc.go:153-169 | a full buffer, or the end of the input, is enough to know the next cut |
| Chunker.Cutpoint | internal/chunker/cdc.go:218-272 | the four region loops find the first cut of the pure definition |
| Chunker.CutMeans | internal/chunker/cdc.go:205-272 | which is: the first byte from MinSize on whose fingerprint passes strict bits before NormalSize, loose bits after it, relaxed bits from halfway on, or MaxSize, or the end |
| Chunker.LargerNormalCutsLater | internal/chunker/cdc.go:205-272 | with masks that get easier, a larger NormalSize never cuts earlier |
| Chunker.PrintIsSum | internal/chunker/cdc.go:240-271 | the fingerprint is the 64-bit sum of the gear values, each shifted by the number of bytes after it |
| Chunker.CDCReader.FillBuf | internal/chunker/cdc.go:174-203 | fills the buffer or reaches the end, losing no byte, however reads are fragmented |
| Chunker.CDCReader.Next | internal/chunker/cdc.go:153-169 | returns the first pure segment of what is left, or the end exactly when nothing is left |
| Chunker.ReadAll | internal/chunker/cdc.go:153-203 | the streamed pieces are the pure segmentation of the whole input |
| Chunker.SegmentsAfterCut | internal/chunker/cdc.go:153-169 | after a cut the segmentation restarts on the remaining bytes |
| Chunker.Resynchronizes | internal/chunker/cdc.go:164-169 | inputs that share a suffix with a common cut have identical later pieces |
| Chunker.WindowDecides | internal/chunker/cdc.go:244-271 | the low n bits of the fingerprint depend on the last n bytes only |
| Chunker.MaskSeesWindow | internal/chunker/cdc.go:244-271 | a mask test of b bits depends on the last b bytes only |
| Nodes.Cluster.Put | internal/dn/dn.go:121-172 | a body that does not match its id is refused; an existing file is kept unless forced; an acknowledgement means the file is there |
| Nodes.Cluster.Read | internal/coordinator/coordinator.go:380-393 | a body that is returned is the file of a candidate |
| PutPath.PayloadSource.Next | internal/edge/edge.go:2432-2475 | payloads consume the body front to back as CDC pieces or full blocks; a CDC piece has the smallest shard size that holds it |
| PutPath.EncodeStripe | internal/edge/edge.go:2491-2503 | the K+M shards of the zero-padded payload |
| PutPath.StoreStripe | internal/edge/edge.go:2504-2549 | the stripe is named by the hash of its padded payload; shard i of its codeword is recorded by hash and size at the i-th node placement gives for that name, where its file is; fails only on short placement or a failing node |
| Layout.ConcatSliced | internal/edge/edge.go:2484-2509 | the K data shards one after the other are the zero-padded payload |
| PutPath.PutObject | internal/edge/edge.go:2401-2582 | the rejections exactly in their cases, each failure only for its cause; a stored record describes payloads that are the CDC pieces or blocks of the body, each placed as its stripe requires, with every shard on disk |
| GetPath.FetchShard | internal/edge/edge.go:2628-2641 | a fetch succeeds only with bytes of the recorded hash, and does when the shard is intact at an answering address |
| GetPath.ParallelFetch | internal/edge/edge.go:2613-2669 | in any arrival order collects verified shards, and exactly K when K are intact |
| GetPath.GetStripe | internal/edge/edge.go:2805-2839 | K verified shards rebuild the data shards of the payload; fewer make the stripe fail |
| GetPath.WriteStripe | internal/edge/edge.go:2845-2869 | both trim modes write exactly the payload and subtract it from the remaining counter |
| GetPath.GetObject | internal/edge/edge.go:2779-2869 | whatever is lost or corrupt, no wrong byte is written: the whole body, or a beginning that is reported as broken off; the whole body when K shards of each stripe are intact |
| ObjectPath.HitLeavesReadable | internal/edge/edge.go:2805-2830 | a stored stripe of which at most M shards are hit can be read |
| ObjectPath.PutThenGet | internal/edge/edge.go:2401-2869 | PUT stores every non-empty body when nodes answer; whatever then happens to files and nodes, if it hits at most M shards of each stripe, or with different nodes per stripe at most M nodes, GET returns exactly the body in any arrival order, and it never returns a wrong byte |
| ObjectPath.FreshStripe | internal/edge/edge.go:2511-2540 | a stripe just put has its shards on different nodes when placement gives different ones, and the rebalance planner leaves all of them where they are |
| ObjectPath.FewNodesFewHit | internal/edge/edge.go:2529-2540 | so losing any M nodes hits at most M shards of each stripe |
| Repair.FetchSurvivors | internal/repair/repair.go:272-285 | the slots hold the first K survivors' shards and nothing else, if these K files are right |
| Repair.RebuildSlots | internal/repair/repair.go:287-311 | every dead shard's slot holds its original bytes, data or parity |
| RepairSpec.RightFiles | internal/repair/repair.go:315-334 | a moved shard's file has its hash if it was missing, right already, or forced, and after a complete repair only then |
| RepairSpec.RecordedHeld | internal/repair/repair.go:313-334 | whatever part of a repair was done, the record claims only files that are there |
| Repair.StoreDead | internal/repair/repair.go:315-334 | complete or part-way: the record is that of the shards moved, their files are there, forced ones right, and a wrong file that no put forced is as it was |
| Repair.RecordPointsAtNew | internal/repair/repair.go:330-333 | the shards moved have their new addresses as only replicas, and every other shard, stripe and object is unchanged |
| Repair.RepairStripe | internal/repair/repair.go:263-336 | the same for the whole stripe; each failure only for its own cause; a codeword with K right survivor files is repaired when nothing fails |
| Repair.NewAddressHoldsShard | internal/repair/repair.go:315-334 | complete or part-way: the record of a moved shard points at its new address, and the file there is the original shard, data or parity, if there was none, it was right already, or the write was forced; after success if and only if |
| Repair.RepairLeavesStale | internal/repair/repair.go:321-334 | where that fails: on a cluster that answers everything, an unforced wrong file at the new address is reported repaired, keeps its bytes, and the record points at it |
| Repair.StaleFileSurvives | internal/repair/repair.go:321-334 | a stripe, disk and record for which repairStripe does this, for every payload and every hash without collisions |
| RebalancePlan.PlanStripe | internal/rebalance/rebalance.go:246-285 | the moves: outside shards in order, paired with the sorted free desired addresses |
| RebalancePlan.MoveFacts | internal/rebalance/rebalance.go:265-285 | only shards outside the desired set move, each to its own free desired address, shards and addresses in ascending order |
| RebalancePlan.StaysSpread | internal/rebalance/rebalance.go:230-288 | whichever moves are carried out, no two shards of a stripe share a node |
| RebalancePlan.PlanIsBijection | internal/rebalance/rebalance.go:230-288 | all moves done, shards occupy exactly the placement set one-to-one, settled shards did not move, and replanning is empty |
| RepairPlan.Split | internal/repair/repair.go:129-151 | survivors and dead shards split the stripe by liveness |
| RepairPlan.EnoughRoom | internal/repair/repair.go:173-181 | K+M distinct placement addresses leave one for every dead shard |
| RepairPlan.PlanStripeRepair | internal/repair/repair.go:129-202 | healthy and unrepairable exactly when they are, the lost shards listed; dead shards get, in order and without force, their own sorted addresses, desired and not held by a survivor, all of them when there is room; the plan matches the stripe |
| ElectorNode.Elector.HandleVote | internal/election/election.go:458-509 | granted exactly to a named candidate that is not of an older term, has at least the voter's log, and meets no other vote of its term; a grant is on record, and a refusal leaves the vote of the term alone |
| ElectorNode.Elector.HandleHeartbeat | internal/election/election.go:516-540 | accepted exactly from a term that is not older; then a follower of that term and sender that keeps its vote of the term |
| ElectorNode.Elector.HandleAppendWAL | internal/election/election.go:554-596 | acknowledged exactly when the term is not older and the entry was applied; a newer term is adopted |
| ElectorNode.Elector.BeginCampaign | internal/election/election.go:272-278 | a candidate with its own vote in the next uint64 term |
| ElectorNode.Elector.StepDown | internal/election/election.go:302-313 | a newer term is adopted as a follower without a vote, an older one changes nothing |
| ElectorNode.Elector.Tally | internal/election/election.go:326-343 | a candidate still in the term leads exactly with a quorum and otherwise follows again; anything else is left alone |
| ElectorNode.Elector.Timeout | internal/election/election.go:226-255 | the step from follower to candidate |
| Election.StepKeepsInv | internal/election/election.go:226-641 | every step keeps: terms never fall, a vote is written once per term, replies and tallies are backed by votes |
| Election.RunKeepsInv | internal/election/election.go:226-641 | so every reachable state satisfies it, with messages lost, delayed and reordered |
| Election.OneLeaderPerTerm | internal/election/election.go:326-340 | over every run no term ever has two leaders, and two nodes with the leader role in one term are one node (section 5.2 of the Raft paper) |
| Election.OldTermCannotReplicate | internal/election/election.go:607-641 | after a majority has voted in a term, a push round that reads a lower term never gets a quorum of acks, counting its caller |
| Election.AcksApplied | internal/election/election.go:567-641 | over every run, each ack a push round counts is its caller's or of a peer that applied the entry |
| ElectionLogs.LeaderLogCoversVoters | internal/election/election.go:395-509 | over every run, each leader had, for every voter of some majority, asked it with a log at least as long as the voter's was when it answered (section 5.4.1 of the Raft paper) |
| ElectionLogs.RequestGrantedExactly | internal/election/election.go:458-509 | the converse: a delivered request that is not stale, not behind and meets no other vote is granted, any other is not |
| ElectionWrap.WrapElectsTwoLeaders | internal/election/election.go:274 | for any two named peers of any cluster, a run in which terms wrap and both lead the same term |
| ElectionWrap.TwoLeadersPossible | internal/election/election.go:272-340 | some run, wraps included, gives one term two leaders if and only if two peers have names |
| WalObject.WAL.Append | internal/store/wal.go:263-311 | the append step up to its first wait |
| WalObject.WAL.Wake | internal/store/wal.go:299-310 | the recheck of a woken append |
| WalObject.WAL.FlushBegin | internal/store/wal.go:175-190 | the first critical section of the flusher |
| WalObject.WAL.Publish | internal/store/wal.go:195-207 | its second critical section, discarding a stale epoch |
| WalObject.WAL.Truncate | internal/store/wal.go:393-424 | the successful truncation step |
| WalObject.WAL.CloseBegin | internal/store/wal.go:436-457 | the first critical section of Close |
| WalProofs.StepKeepsInv | internal/store/wal.go:175-471 | every step but a failed close keeps: durable sequence numbers are fsynced, parked appends must wait |
| WalProofs.RunKeepsInv | internal/store/wal.go:175-471 | so does every interleaving |
| WalProofs.GroupCommit | internal/store/wal.go:259-311 | an append that returned success has its line fsynced in the generation it was written to; a parked one still has to wait |
| WalProofs.FlushCycleReleases | internal/store/wal.go:165-207 | one undisturbed flusher cycle releases a parked append with success |
| WalProofs.FailedCloseLosesLine | internal/store/wal.go:441-454 | a close whose sync fails can report success for a line that is not durable |
| WalClose.BatchRuns | internal/store/wal.go:175-311 | in batch mode nothing is fsynced beyond what the flusher has published or is about to publish |
| WalClose.FailedCloseExactly | internal/store/wal.go:441-457 | after a failed close and any interleaving, a waking append is told the truth exactly when its generation is gone, its line was published or awaited publication, or the running fsync covers it and ended well |
| WalClose.FailedCloseWhole | internal/store/wal.go:432-471 | every waiting append is told the truth under every interleaving exactly when no waiting line of the current generation is unpublished |
| WalClose.GoodCloseReleases | internal/store/wal.go:441-457 | after a close whose flush and fsync succeed and any interleaving, a waking append returns success, for a durable line, exactly when its generation is not truncated, and otherwise an error |
| WalClose.TruncateErrs | internal/store/wal.go:393-424 | after a truncation and any interleaving a waiting append returns an error; the old file keeps its lines and numbering starts again |
| WalClose.FailedFlushBreaks | internal/store/wal.go:175-190 | after a failed flush no append that begins later ever succeeds |
| Replay.ReplayOne | internal/store/wal.go:479-548 | the entry of a successful call, applied to the state the call saw, gives the call's state, for every logged mutation |
| Replay.ReplayRun | internal/store/wal.go:551-558 | replaying the log of any run of successful calls succeeds and reaches the same objects with versions, buckets, uploads and node set, whatever the clock |
| Replay.ReplayOnto | internal/store/wal.go:551-558 | replaying a run's log on any tables succeeds exactly when every delete and part finds its object, bucket or upload, and then gives every key a stated value |
| Replay.VersionReturns | internal/store/store.go:316-324 | repeated puts return to a version only after all 2^64 - 1 of them |
| Replay.SecondReplayOfEntry | internal/store/wal.go:479-548 | an entry applied to tables that reflect it changes nothing, except put_object and the two deletes |
| Replay.SecondReplayOfLog | internal/store/wal.go:551-558 | a log replayed on its own final tables succeeds with the same tables exactly when every delete and part still finds what it needs and no key still there has only been put |
| Replay.SecondPutChanges | internal/store/store.go:311-330 | a failing log: a put whose key is still there gets another version |
| Replay.SecondDeleteFails | internal/store/store.go:925-933 | a failing log: a delete whose key is gone |
| Replay.SecondDeleteBucketFails | internal/store/store.go:431-437 | a failing log: a bucket delete whose bucket is gone |
| Replay.SecondDeleteBucketBlocked | internal/store/store.go:438-443 | a failing log: a bucket deleted, created again and filled |
| Replay.SecondPartFails | internal/store/store.go:558-566 | a failing log: a part of an aborted upload |
| Calls.AssembledExactly | internal/store/store.go:607-633 | a completion is accepted exactly for ascending, uploaded parts whose etags match, and adds up their sizes, chunks and etags in order |
| Calls.CallEffect | internal/store/store.go:294-727 | every logged call is accepted exactly under its conditions, and leaves in the tables what its arguments say and nothing else |
| Calls.RunEffects | internal/store/store.go:294-727 | so does every call of a successful run, in the tables it finds |
| Calls.EntryEffect | internal/store/wal.go:479-548 | on any tables every entry is applied exactly when it can be, and leaves in them what it says and nothing else |
| Calls.PartsWerePut | internal/store/store.go:533-579 | a pending upload has under each number the part that was put last since it was created |
| Calls.CompletedFromParts | internal/store/store.go:467-676 | a whole multipart upload amid any other calls: the object has the listed parts, each as put last, with the sum of their sizes, their chunks in order and the etag of their etags, and the upload is gone |
| Calls.DeleteBucketExactly | internal/store/store.go:425-450 | a bucket is deleted exactly when no object is in it |
| Store.MetaStore.PutObject | internal/store/store.go:311-339 | commits the call's tables and logs its entry, or commits and fails to log, or leaves no trace |
| Store.MetaStore.Mutate | internal/store/store.go:342-727 | the same for the calls on buckets, uploads, parts, nodes and object deletion, each with its refusals |
| Store.MetaStore.CreateMultipartUpload | internal/store/store.go:467-500 | the same, under an id that is not in use |
| Store.MetaStore.CompleteMultipartUpload | internal/store/store.go:598-676 | the same: object stored and upload removed together |
| Store.MetaStore.ApplyEntry | internal/store/wal.go:479-548 | the same transactions without logging, errors included |
| Store.MetaStore.ApplyAll | internal/store/wal.go:551-558 | the tables after all entries, or after those before the first that fails, and why it failed |
| Store.MetaStore.UpdateChunkReplicas | internal/store/store.go:838-864 | changes one chunk's replicas or nothing |
| Store.MetaStore.UpdateShardReplicas | internal/store/store.go:886-918 | changes one shard's replicas or nothing |
| PlacementSpec.HeadsAfterAdding | internal/placement/placement.go:249-260 | a new node takes over a domain or none; nobody else becomes a domain's best |
| PlacementSpec.RankNeverImproves | internal/placement/placement.go:209-278 | adding a node never brings another one forward |
| PlacementSpec.AddingOneNode | internal/placement/placement.go:209-278 | the pick after adding x is within the old pick plus x, in every case |
| Placement.PickFromNodes | internal/placement/placement.go:158-192 | the n nodes with the highest scores, highest first, ties by id |
| Placement.PickHeads | internal/placement/placement.go:245-260 | the first pass lists the best node of each domain, in rank order |
| Placement.FillRest | internal/placement/placement.go:262-276 | the second pass continues the ranking by score |
| Placement.PickFromNodesByDomain | internal/placement/placement.go:209-278 | exactly the first min(n, nodes) nodes of the ranking, with and without labels; whoever comes earlier has at least the score of who comes later, or is the top of its domain while the other is not |
| Placement.AtMostOneDisplaced | internal/placement/placement.go:209-278 | a joining node displaces at most one picked node |
| Placement.DomainsSpread | internal/placement/placement.go:194-208 | a domain is used twice only when every domain is represented before |
| RebalancePlanner.PlanChunk | internal/rebalance/rebalance.go:206-226 | a migration exactly when a desired replica is missing |
| RebalancePlanner.ComputePlan | internal/rebalance/rebalance.go:163-177 | every planned migration is about the records at plan time, every replicated chunk that lacks a desired replica has one, and so has every move of every stripe |
| Rebalance.MigrateChunk | internal/rebalance/rebalance.go:355-403 | claims stay true under any failures; replicas become exactly the desired set or lose nothing; succeeds when nothing fails |
| Rebalance.MigrateShard | internal/rebalance/rebalance.go:407-435 | the record changes to the new address only after the copy; succeeds when nothing fails |
| Rebalance.RunPlan | internal/rebalance/rebalance.go:300-337 | over a whole plan every chunk's replicas are the desired set or a superset of the old ones and only planned shards move; when nothing fails every migration has been carried out |
| Rebalance.UniqueSorted | internal/rebalance/rebalance.go:475-487 | the same elements, once each, in order |
| GarbageCollection.BuildClaimedSet | internal/gc/gc.go:214-237 | exactly the pairs some chunk or shard of a record references |
| References.RefsMean | internal/gc/gc.go:214-237 | the walk over the records meets exactly the (node, chunk) pairs they mention |
| GarbageCollection.ComputePlan | internal/gc/gc.go:103-148 | sweeps exactly the listed, old and unreferenced files; one failing listing abandons the plan |
| GarbageCollection.RunSweeps | internal/gc/gc.go:155-204 | nothing but swept files goes away, all of them when nothing fails, and the rest keep their bytes |
| GarbageCollection.SweepKeepsClaims | internal/gc/gc.go:214-237 | removing unreferenced files leaves every claimed copy |
| Rounds.WriteChunk | internal/coordinator/coordinator.go:330-372 | in any order of arrival, succeeds only with a quorum of acknowledged copies, and whenever the quorum is possible and nodes answer |
| Rounds.WriteChunks | internal/edge/edge.go:622-658 | the recorded replicas of every chunk are acknowledged copies on targets of its own id, at least the quorum |
| Rounds.PutRound | internal/edge/edge.go:580-614 | a replicated PUT, failing anywhere, keeps claims true and changes at most its own record, which is the one given with the pieces, a quorum of copies each on targets of their ids |
| Rounds.RoundPlaces | internal/rebalance/rebalance.go:230-435 | a plan carried out leaves the shards of a stripe on exactly the placement set |
| Rounds.RebalanceRound | internal/rebalance/rebalance.go:163-435 | plan and run keep claims true and lose no replica of an unfinished chunk; when nothing fails every chunk is on all its desired nodes and every stripe occupies exactly its placement set |
| Rounds.RepairRound | internal/repair/repair.go:111-336 | plan and repair of a stripe, failing anywhere, keep claims true; the record points exactly the shards moved at their new addresses, the bytes are decided, and a planned repair completes when nothing fails |
| Rounds.GCRound | internal/gc/gc.go:103-204 | collection keeps claims true, removes only old unreferenced files and leaves the bytes of the rest |
| Rounds.RunRounds | internal/gc/gc.go:214-237 | over any sequence of PUT, rebalance, repair and collection rounds with any failures, every claimed (chunk, address) pair is on that node's disk, with the right bytes if the disks were right at the start |
| Listing.EntryMonotone | internal/edge/edge.go:963-977 | keys in order yield keys and common prefixes in order, without returning to an earlier prefix |
| Listing.Emissions | internal/edge/edge.go:957-978 | everything past the cursor once, strictly increasing |
| Listing.ListObjectsV2 | internal/edge/edge.go:936-1012 | the page is the first max-keys entries of the full listing past the cursor, with the last name as token when more follow; its contents are exactly the keys in that range without delimiter after the prefix, its common prefixes exactly the first parts of the others |
| Listing.RestOfListing | internal/edge/edge.go:949-978 | the listing past a page's token is the rest of the listing |
| Listing.PagesAreListing | internal/edge/edge.go:949-1011 | pages collected by following tokens concatenate to the unpaged listing |
| Listing.EntryMeans | internal/edge/edge.go:963-977 | a key is listed itself exactly when no delimiter follows the prefix, and otherwise as its part up to the first delimiter |
| Listing.WalkShows | internal/edge/edge.go:949-1011 | over any walk the contents are exactly the keys past the cursor with the prefix and no delimiter after it, the common prefixes exactly the first parts of the others, each once and in increasing order |
| Listing.FollowTokens | internal/edge/edge.go:949-1011 | following tokens ends, with exactly that |
| Listing.ListAll | internal/edge/edge.go:949-1011 | the same from the start, for every page size but 0 and but 1 over an empty key |
| Listing.WhenTokensAdvance | internal/edge/edge.go:987-1011 | tokens advance unless the page size is 0, or is 1 and the empty key is listed first with more to come |
| Listing.StuckWalk | internal/edge/edge.go:949-952 | in those cases no walk ends |
| Multisets.SymmetricDiff | internal/coord/anti_entropy.go:236-254 | the two-pointer walk yields both multiset differences of sorted lists |
| MerkleProofs.BucketsDecide | internal/dn/merkle.go:79-104 | inventories agree as multisets exactly when all 256 sorted buckets do |
| MerkleProofs.HashDecides | internal/coord/anti_entropy.go:188-192 | bucket hashes agree exactly when the sorted ids do |
| MerkleProofs.RootDecides | internal/coord/anti_entropy.go:179-183 | roots agree exactly when both sides hold the same ids equally often |
| Audit.ComputeMerkle | internal/dn/merkle.go:54-106 | bucket digests and root of the chunk files on disk |
| Audit.ListBucket | internal/dn/merkle.go:111-140 | the directory listing is the bucket the digest was taken of |
| Audit.ExpectedChunksByDN | internal/coord/anti_entropy.go:116-158 | per node and bucket the sorted ids all records place there, with repetitions |
| Audit.ComputeExpectedRoot | internal/coord/anti_entropy.go:212-223 | the root of the expected ids |
| Audit.AuditOneDN | internal/coord/anti_entropy.go:163-207 | root match exactly when the multisets agree; the bucket-pruned lists are the full differences of the buckets that could be fetched |
| Audit.AuditNode | internal/coord/anti_entropy.go:74-207 | with all fetches succeeding: match exactly when the sets agree and no pair is referenced twice; otherwise missing and extra are the set differences, in terms of the records that mention a chunk and the files on disk |

## Left out

- HTTP, JSON and XML, TLS, CLI, metrics, logging, tickers, timeouts, heartbeat monitor: plumbing; a request is an outcome.
- SHA-256 and HMAC: uninterpreted; without collisions where a contract says so (`SpelledInjective` is such a function), for the audit only on the texts that are compared.
- hrwScore: any function of the node id; placement results are for node lists with distinct ids, on which the source's sort is deterministic.
- Row-major flattening of a matrix into one byte slice: matrices are two-dimensional arrays.
- sort.Slice and sort.Strings: an insertion sort stands for them.
- Matrices.Multiply: a dimension mismatch is a precondition; the source panics on it.
- Chunker.CDCReader.FillBuf: sources whose reads fail, or return nothing without ending, are not modelled, nor is the scratch buffer pool.
- PutPath.PutObject: a body that cannot be read to its end is not modelled.
- GetPath.ParallelFetch: a cancelled request, which ends the collection early, is not modelled.
- WalClose.FailedCloseExactly: an fsync covers exactly the lines flushed before it began, none that were written while it ran.
- Chunker.MaskSeesWindow: a mask of b bits is the test of the low b bits, as the configured masks are.
- Election restarts (term and vote live in memory only), accuracy of leader hints, and whether committed entries survive elections, which the code does not decide.
- ElectionLogs.LeaderLogCoversVoters: log numbers may change arbitrarily between steps, since truncation resets them and followers apply entries without advancing their own; so nothing is claimed about the logs at the moment of winning.
- Election.OneLeaderPerTerm: for runs without a campaign at the last uint64 term.
- WAL files with torn lines, pulls of entries across a truncation, and a truncation that fails after emptying the file.
- Calls.CallEffect: sizes are unbounded integers, where the source adds int64s.
- Store: decoding errors and strings JSON cannot carry, legacy single-chunk records, registration times and labels of nodes, URL keys, AbortExpiredMultipartUploads.
- Store.MetaStore.CreateMultipartUpload: drawing ids until one is free is a sequence that contains a free one.
- Replay.ReplayRun: for mutations that do not overlap; commit and log append are separate steps in the source.
- Rounds.RunRounds: object deletion and multipart aborts remove chunks without asking other objects, and pending parts are not claimed, so they are not among the rounds; rounds do not overlap, and the migrations within one run one after another.
- Rebalance.RunPlan: migrations run one after another, where the source runs up to `concurrency` of them at once.
- RepairPlan.PlanStripeRepair and RebalancePlan.PlanStripe: one stripe; the repairer's loop over all objects only collects the results.
- Audit.AuditNode: totals, notes and the order of nodes in the report.
- Lookup cache, URL signing, SigV4, anti-entropy repair, degraded-read metrics: little to prove or dependent on the clock.
