# Bifrox, verified

Bifrox is a log broker: topics are partitioned logs of record batches, a small cluster elects
a metadata leader, consumers share partitions through groups, and share groups lease single
records. This project models the parts of it where a mistake would be silent, and proves what
those parts are for. It is written for Dafny 4.11; `dafny verify dfyconfig.toml` checks it.

| module | what it models |
|---|---|
| `Consensus`, `Election` | one node's consensus controller with its hard-state file, and a cluster of them running the candidate loop through timeouts, vote requests, heartbeats, step-downs, failed writes, crashes and restarts |
| `Electable` | which sets of nodes can elect a leader |
| `Sticky`, `StickyOptimal`, `Assignors` | the range, round-robin and sticky assignors, and how good the sticky one is |
| `Cooperative` | the cooperative two-round rollout as a machine of members switching over |
| `Batch`, `Records` | the record batch on disk and the records inside it |
| `Recovery`, `RecoveryTheorems` | the streaming recovery scan, torn writes, and the trusted fast path |
| `Index`, `Segment` | the sparse index, and a whole segment through appends, truncations, crashes and reopenings |
| `Density` | how far apart index entries can get over the life of a segment |
| `OffsetLog` | the consumer-offset log: append, replay, compaction, and appends the disk refuses |
| `ShareAcks`, `ShareConsumer` | ack coalescing and a share consumer's lease accounting |
| `Pipeline` | the in-flight window and the pipelined send loop |
| `Relay` | the request envelope, forwarding, relaying the response, and the client at both ends |
| `Bytes`, `Text`, `Wrappers`, `Sorting`, `Sizes` | big-endian integers, length-prefixed strings, results, sorting, cardinalities |

Code that works in place is modelled in place: `Consensus.Controller`, `Index.IndexSegment`,
`Segment.SegmentPair`, `OffsetLog.ConsumerGroupManager`, `ShareConsumer.Consumer`,
`Pipeline.InFlightWindow` and `Pipeline.Connection` are classes, the loops of the source are
loops, and each method is proved against a function on which the theorems are then stated.

What the outside world decides is a parameter, so results hold for every choice of it: the
checksum, the UTF-8 test, the codecs (any pair that inverts), how many bytes a read returns,
the order a hash map is iterated in, whether and how far a write reaches the disk, what a broker answers,
and when clocks expire. All controllers of a cluster are assumed to know the same cluster
size, and each peer list to name the other controllers once each.

Some promises turned out to hold only under a condition. Each has a lemma giving an input on
which it fails and a lemma saying when it holds:

- a sticky assignment covers every partition once unless a member's previous list repeats one
  (fails: `Sticky.RepeatedClaimIsHandedOutTwice`; exactly: `Sticky.ExactlyOnceIff`);
- with no previous assignment sticky and round-robin agree unless the member list repeats an id
  and there are more partitions than ids before the first repeat (fails:
  `Assignors.RepeatedMemberSplits`; exactly: `Assignors.ColdStartAgrees`);
- the trusted fast path finds the right next offset unless the last index entry points at the
  end of the file (fails: `RecoveryTheorems.FastPathOverEmptiedFile`; exactly:
  `RecoveryTheorems.FastPathRefinesFullScan`);
- records written at given offsets come back there iff they lie within 2^32 of the base (fails:
  `Records.FarRecordIsMoved`; exactly: `Records.PlacedOffsetsSurviveIff`);
- every batch starts within the interval of an index entry until the segment is reopened or
  truncated, because both reset the byte counter (fails: `Density.ReopeningThins`; exactly, for
  one append: `Density.AppendStaysDenseIff`). Reopening alone keeps entries within twice the
  interval and one batch (`Density.ReopeningKeepsItClose`); truncation can thin them beyond any
  distance (`Density.TruncationThinsWithoutBound`, `Density.NoReachIsEnough`);
- an offset commit reads back iff its strings are shorter than 2^16 bytes (fails:
  `OffsetLog.LongGroupIsMisread`; exactly: `OffsetLog.FrameReadsBackIff`);
- a commit acknowledged after one the disk refused part-way is found again only if the torn
  bytes in front of it happen to complete to a frame (fails:
  `OffsetLog.CommitBehindTornBytesIsLost`; exactly: `OffsetLog.CommitBehindTornBytes`);
- forwarding keeps all tags iff three of them are unset: the comment on
  `wrap_forwarded_request` says recognised tags are carried across, but `strip_envelope` has no
  arm for the maximum wait, the minimum bytes and the cooperative-round-two mark, and the model
  follows the code (fails: `Relay.MaxWaitIsForgotten`; exactly: `Relay.RelayKeepsAllTagsIff`);
- a relayed response is right unless the leader answered bare with status 0xF1 (fails:
  `Relay.BareMagicStatusIsStripped`; exactly: `Relay.RelayedAsAnsweredIff`);
- leaders are unique in term 0 iff at most one is configured (fails:
  `Election.TwoBootLeadersCollide`; exactly: `Election.SafeInEveryTermIff`), and a vote is never
  changed as long as the 64-bit term does not wrap (fails: `Consensus.WrappedTermVotesTwice`;
  exactly: `Consensus.TimeoutAdvancesIff`).

## Model

| member | source | states |
|---|---|---|
| `Consensus.HardStateRoundTrip` | src/replication/consensus.rs:67-98 | the 13 hard-state bytes written for a term and vote parse back to that term and vote |
| `Consensus.HardStateIsCanonical` | src/replication/consensus.rs:67-98 | bytes that read as a term and vote are the bytes written for them |
| `Consensus.Controller.constructor` | src/replication/consensus.rs:43-65 | a controller boots in its configured role at term 0, a configured leader having voted for itself |
| `Consensus.Controller.Enable` | src/replication/consensus.rs:67-98 | loading the hard state takes its term and vote and the role Follower (Leader only when alone), refuses garbled bytes, and writes the state back |
| `Consensus.Controller.HandleLeaderHeartbeat` | src/replication/consensus.rs:123-140 | the whole new state after a heartbeat; a stale term or a fenced node refuses |
| `Consensus.Controller.CheckElectionTimeout` | src/replication/consensus.rs:143-164 | the whole new state after a timeout: candidate in the next term with its own vote written first |
| `Consensus.Controller.TallyElectionVotes` | src/replication/consensus.rs:167-183 | an unfenced candidate becomes Leader iff more than half of the cluster voted for it |
| `Consensus.Controller.TryRecordVote` | src/replication/consensus.rs:194-217 | the whole new state after a vote request: one vote per term, granted again to the same candidate |
| `Consensus.Controller.StepDownToFollower` | src/replication/consensus.rs:221-236 | the whole new state after seeing a higher term |
| `Consensus.Controller.WriteHardState` | src/replication/consensus.rs:240-248 | what is on disk after a write that succeeded, failed keeping the old bytes, or failed holding the new ones |
| `Consensus.Controller.WriteOrDemote` | src/replication/consensus.rs:249-258 | a failed write fences the node for good and makes it a follower |
| `Consensus.EnableKeeps` | src/replication/consensus.rs:67-98 | a start that succeeds has memory and disk in agreement and never moves the disk backwards |
| `Consensus.HeartbeatKeeps` | src/replication/consensus.rs:123-140 | a heartbeat keeps memory and disk in agreement, never changes a vote on disk, and makes nobody candidate or leader |
| `Consensus.TimeoutKeeps` | src/replication/consensus.rs:143-164 | a started campaign is on disk, as a vote for oneself in the next term, before anyone hears of it |
| `Consensus.VoteRequestKeeps` | src/replication/consensus.rs:194-217 | a granted vote is on disk before it is answered and agrees with any vote already there for that term |
| `Consensus.StepDownKeeps` | src/replication/consensus.rs:221-236 | stepping down keeps memory and disk in agreement and never changes a vote on disk |
| `Consensus.HeartbeatAcceptedIff` | src/replication/consensus.rs:123-140 | a heartbeat is accepted iff it is not stale and the write lands, by a node that then follows in its term and keeps a vote of the same term |
| `Consensus.TimeoutStartsIff` | src/replication/consensus.rs:143-164 | a campaign starts iff the clock ran out on an unfenced node that does not lead and the write lands |
| `Consensus.TallyPromotesIff` | src/replication/consensus.rs:167-183 | a tally promotes iff twice the votes exceed the cluster, and changes nothing but the role |
| `Consensus.VoteGrantedIff` | src/replication/consensus.rs:194-217 | a vote is granted iff the term is not stale and the vote is free, or already this candidate's |
| `Consensus.GrantStands` | src/replication/consensus.rs:194-217 | after a grant the same candidate is granted again without a write and no other candidate is |
| `Consensus.StepDownYields` | src/replication/consensus.rs:221-236 | a higher observed term always leaves a follower in that term that voted for nobody; any other changes nothing |
| `Consensus.RestartRemembers` | src/replication/consensus.rs:67-98 | a node that went down unfenced comes back with its term and vote, as a follower unless alone |
| `Consensus.FirstStart` | src/replication/consensus.rs:43-98 | a node without a file starts in term 0 in its configured role |
| `Consensus.TimeoutAdvancesIff` | src/replication/consensus.rs:143-164 | a timeout keeps the disk moving forward iff the term can still be incremented, or nothing is written |
| `Consensus.WrappedTermVotesTwice` | src/replication/consensus.rs:143-217 | once the 64-bit term wraps, one voter grants one term to two candidates |
| `Election.OneHostStep` | src/replication/mod.rs:826-885 | the frame of every action: it changes one host, advances its disk, casts at most one remembered ballot, and then the invariant holds again |
| `Election.StepInv` | src/replication/consensus.rs:67-258 | every action of the cluster keeps the invariant linking memory, disk, ballots, running tallies and leaders |
| `Election.RunInv` | src/replication/mod.rs:753-885 | every run keeps it |
| `Election.PromotionCountsVotes` | src/replication/mod.rs:826-885 | whenever the tally promotes, the number it was given is the number of distinct controllers that granted the candidate the term it now holds, and they are a majority, though requests may move the term between check, read and tally |
| `Election.QuorumsMeet` | src/replication/consensus.rs:167-183 | two majorities of one cluster share a voter |
| `Election.ElectionSafety` | src/replication/consensus.rs:67-258 | in every run from the initial cluster, at most one node is ever Leader in any term from 1 on |
| `Election.DurableVoteNeverChanges` | src/replication/consensus.rs:194-258 | over every run, a node's file never goes back a term and never changes a vote within one |
| `Election.TwoBootLeadersCollide` | src/replication/mod.rs:198-209 | two nodes configured as leaders both lead term 0 |
| `Election.SafeInEveryTermIff` | src/replication/mod.rs:198-209 | leaders are unique in every term of every run, 0 included, iff at most one is configured |
| `Electable.MajorityCanElect` | src/replication/consensus.rs:123-217 | from every state that keeps the invariant, any majority can elect any of its members in the term after the latest on any disk, with exactly its own votes, the other nodes doing nothing |
| `Electable.TallyElects` | src/replication/consensus.rs:167-183 | once a candidate has counted a majority, its own vote included, the tally makes it leader |
| `Electable.CanElectIff` | src/replication/consensus.rs:123-217 | a set of nodes can elect one of its own in a term from 1 on without the others iff it is a majority |
| `Sticky.LevelStepDecreases` | src/consumer.rs:189-237 | every levelling move strictly lowers the sum of squared counts, so the loop ends |
| `Sticky.PickFromIs` | src/consumer.rs:224-234 | a levelling move takes the first partition held that the receiver did not own before, or else the first |
| `Sticky.Multiplicity` | src/consumer.rs:123-247 | for every previous assignment whatsoever, how often each partition is handed out |
| `Sticky.ExactlyOnceIff` | src/consumer.rs:142-170 | every partition is handed out exactly once iff no first claimant listed one twice |
| `Sticky.RepeatedClaimIsHandedOutTwice` | src/consumer.rs:142-170 | a member that lists its partition twice is handed it twice |
| `Sticky.CoversOnce` | src/consumer.rs:123-247 | with no list repeating a partition, overlaps between members allowed, every partition is handed out exactly once |
| `Sticky.AssignBalanced` | src/consumer.rs:189-237 | for every previous assignment, counts differ by at most one |
| `StickyOptimal.StickyKeepsTheMost` | src/consumer.rs:137-237 | no balanced exactly-once assignment leaves more partitions with their previous owner |
| `StickyOptimal.WithinShareLosesNothing` | src/consumer.rs:137-237 | a member that kept no more than anyone's final share loses nothing |
| `StickyOptimal.BalancedKeepersLoseNothing` | src/consumer.rs:137-237 | if what members keep is already within one of each other, no stayer loses anything |
| `Assignors.AssignRange` | src/consumer.rs:29-52 | the sorted members get consecutive blocks, the first remainder of them one longer |
| `Assignors.RangeCoversOnce` | src/consumer.rs:29-52 | those blocks cover every partition exactly once and are balanced |
| `Assignors.RangeShareAt` | src/consumer.rs:29-52 | sorted member i gets exactly the i-th block, the first remainder of the blocks one longer |
| `Assignors.AssignRoundRobin` | src/consumer.rs:67-86 | the sorted members are dealt partitions in turn |
| `Assignors.DealtOnce` | src/consumer.rs:67-86 | dealing in turn covers every partition exactly once |
| `Assignors.DealtBalanced` | src/consumer.rs:67-86 | and is balanced |
| `Assignors.KeepStep` | src/consumer.rs:142-170 | the loop over previous owners with its claimed array computes the keep phase |
| `Assignors.FillStep` | src/consumer.rs:173-187 | the loop over unclaimed partitions gives each to a least loaded member |
| `Assignors.LevelLoop` | src/consumer.rs:189-237 | the levelling loop computes the level phase and ends |
| `Assignors.AssignSticky` | src/consumer.rs:123-247 | for any member list, repeats included, the whole in-place algorithm hands out exactly what keep, fill, level and sort define; the first mention of a member gets its share and any further mention nothing |
| `Assignors.SameSearch` | src/consumer.rs:173-237 | over the sorted list, repeats and all, the least and most loaded member found are those of the members themselves |
| `Assignors.HandOut` | src/consumer.rs:239-247 | the last loop takes each list out of the map when its name first comes up |
| `Assignors.StickyIsBest` | src/consumer.rs:123-247 | for named members and any previous assignment of a group: exactly once, balanced, and no other such assignment keeps more in place |
| `Assignors.MemberOrderIrrelevant` | src/consumer.rs:29-247 | each of the three assignors gives the same assignment however the members are listed |
| `Assignors.ColdStartIsRoundRobin` | src/consumer.rs:123-247 | when nothing that was owned still exists, sticky deals in turn |
| `Assignors.ColdStartAgrees` | src/consumer.rs:67-247 | with no previous assignment, sticky and round-robin agree iff no id is listed twice or there are no more partitions than ids before the first repeat |
| `Assignors.RepeatedMemberSplits` | src/consumer.rs:67-247 | a group that lists one member twice is given two partitions differently by the two |
| `Cooperative.NarrowIsIntersection` | src/consumer.rs:364-388 | round one keeps exactly what a member both owned and is meant to own, and is as long as the target iff nothing was dropped |
| `Cooperative.CooperativeRoundOne` | src/consumer.rs:364-388 | the loop computes every member's keep-set, and asks for a second round iff some keep-set is not the target |
| `Cooperative.LeaderRounds` | src/consumer.rs:756-830 | the assignments a leader submits: the target alone, or the keep-sets first iff the group is cooperative and some keep-set is not the target |
| `Cooperative.AssignBy` | src/consumer.rs:312-325 | the negotiated strategy runs its own assignor |
| `Cooperative.TargetIsNamed` | src/consumer.rs:312-325 | and hands the sorted members exactly that strategy's shares |
| `Cooperative.StrategyAsNamed` | src/consumer.rs:312-325 | range gives consecutive blocks, round robin partition p to member p modulo n, and both sticky strategies a best balanced assignment |
| `Cooperative.OneRoundIff` | src/consumer.rs:756-830 | exactly the target is submitted iff the strategy is eager or nobody is to get anything new; otherwise the first round is the intersection with what was owned |
| `Cooperative.KeepSetsShrinkThenGrow` | src/consumer.rs:364-388 | round one only takes away, round two only adds |
| `Cooperative.RolloutIsSafe` | src/consumer.rs:756-830 | for any stages in which nothing passes between two members in one step, no interleaving of switch-overs gives a partition two owners |
| `Cooperative.CooperativeNeverDoubleOwns` | src/consumer.rs:364-388 | from any previous assignment of a group, in every interleaving of the rounds a cooperative-sticky leader submits, one or two, no partition ever has two owners |
| `Cooperative.RolloutEndsAtTarget` | src/consumer.rs:756-830 | under every strategy, a run from the start that can go no further leaves everybody with exactly its target |
| `Cooperative.RolloutEnds` | src/consumer.rs:756-830 | every run is that short: switches made and switches left always add up to the same |
| `Cooperative.OneRoundIsSafeIff` | src/consumer.rs:756-830 | handing the target out in one go is safe in every interleaving iff no partition changes hands |
| `Batch.ParseOfBody` | src/protocol/batch.rs:504-592 | the fields written are the fields parsed |
| `Bytes.PutIsBigEndian` | src/protocol/batch.rs:504-524 | numbers are written most significant byte first |
| `Batch.DecodeOfEncode` | src/protocol/batch.rs:504-592 | an encoded batch decodes to itself and its length, whatever follows it |
| `Batch.DamagedBatchIsRefused` | src/protocol/batch.rs:525-592 | changing any field of a stored batch and keeping its checksum is refused, for every checksum that tells the two apart |
| `Batch.StoredSumDecides` | src/protocol/batch.rs:525-592 | a batch is read iff its stored checksum is that of its other fields, and any other is reported with both numbers |
| `Batch.EncodeOfDecode` | src/protocol/batch.rs:504-592 | whenever decoding succeeds, re-encoding gives exactly the bytes consumed |
| `Batch.DecodeIsStable` | src/protocol/batch.rs:525-592 | bytes that arrive later change no verdict but "too short" |
| `Batch.PrefixIsTooShort` | src/protocol/batch.rs:525-592 | every proper prefix of an entry is "too short", never corrupt and never an entry |
| `Batch.StreamRoundTrip` | src/protocol/batch.rs:504-592 | any concatenation of encoded batches decodes to those batches |
| `Batch.StreamIsCanonical` | src/protocol/batch.rs:504-592 | and any buffer that decodes to batches is their concatenation |
| `Records.GetOfPutOpt` | src/protocol/batch.rs:597-633 | a nullable byte string reads back, null and empty kept apart |
| `Records.DecodeRecordsLoop` | src/protocol/batch.rs:636-671 | the cursor loop computes the records of the data, or the first error |
| `Records.DecodeOfEncodeEntries` | src/protocol/batch.rs:636-671 | entries written one after another decode to their records, offsets and timestamps restored |
| `Records.Create` | src/protocol/batch.rs:166-229 | a produced batch is sealed, carries its producer's id, epoch, sequence, leader epoch and transactional bit, holds its records one offset apart, and spans exactly them |
| `Records.ProducedRecords` | src/protocol/batch.rs:166-229 | record i comes back at base + i with its own timestamp, key and value |
| `Records.CreateWithOffsets` | src/protocol/batch.rs:280-347 | a batch with given offsets is sealed, carries its producer's fields, skips records before its base, and ends at the highest one kept |
| `Records.PlacedOffsetsSurviveIff` | src/protocol/batch.rs:280-347 | every kept record comes back at its own offset iff all lie within 2^32 of the base |
| `Records.FarRecordIsMoved` | src/protocol/batch.rs:280-347 | a record 2^32 past the base comes back at the base |
| `Records.DecompressOfCompress` | src/protocol/batch.rs:403-465 | decompression undoes compression exactly up to the 64 MiB limit |
| `Records.ReadOfStored` | src/protocol/batch.rs:403-465 | a batch reads back as the entries it stores iff it is within the 64 MiB and 100,000-record limits |
| `Records.StampShiftsRecords` | src/protocol/batch.rs:361-377 | stamping sets the offset and leader epoch given and a matching checksum and nothing else, moves every record by the same distance, and leaves the batch sealed |
| `Records.ProduceToConsume` | src/protocol/batch.rs:166-671 | end to end: create, compress, encode, decode in front of any bytes, decompress, decode the records; the batch that arrives carries its producer's fields, reading it succeeds iff the limits allow, and then gives the produced records, offsets and timestamps included |
| `Records.PlaceToConsume` | src/protocol/batch.rs:280-671 | the same for records with given offsets: what comes back is exactly what was kept iff all lie within 2^32 of the base |
| `Recovery.EntryReaderIsGood` | src/segment/entry.rs:106-121 | what decoding an entry guarantees: a whole header, and verdicts that later bytes cannot change |
| `Recovery.RecoverStreaming` | src/segment/log.rs:303-418 | whatever sizes the reads return, the streaming scan gives the size, next offset, corruption flag and index of one scan of the whole file |
| `RecoveryTheorems.FullScanIsFound` | src/segment/log.rs:303-428 | that scan is what the batches at the front of the file say |
| `RecoveryTheorems.FoundIsLongest` | src/segment/log.rs:303-428 | and no longer run of whole batches is there |
| `RecoveryTheorems.UnreadableTailRecovery` | src/segment/log.rs:303-435 | whole batches, then anything that does not start with another one: exactly the whole ones are kept, and the rest is cut iff it is damage |
| `RecoveryTheorems.TornWriteRecovery` | src/segment/log.rs:312-435 | whole batches followed by any proper prefix of one more recover to exactly the whole ones, and the file is cut to their end |
| `RecoveryTheorems.PreallocatedRecovery` | src/segment/log.rs:312-435 | whole batches followed by zeros only are found as they are, reported undamaged and left uncut |
| `RecoveryTheorems.TornPreallocatedRecovery` | src/segment/log.rs:312-435 | a torn append into preallocated zeros is cut back to the whole batches, unless the zeros happen to complete it |
| `RecoveryTheorems.RecoveryIsIdempotent` | src/segment/log.rs:303-435 | for every file, opening again finds the same, sees no damage and cuts nothing |
| `RecoveryTheorems.FastPathLoop` | src/segment/log.rs:244-301 | the loop from the last index entry computes the trusted result or falls back |
| `RecoveryTheorems.FastPathRefinesFullScan` | src/segment/log.rs:244-301 | with or without an index entry, any answer the trusted path accepts has the full scan's size, and its next offset iff there is no entry, or the entry points inside the file, or the batches before it end at the base offset |
| `RecoveryTheorems.FastPathWithoutIndex` | src/segment/log.rs:244-301 | without an index entry exactly the empty file is trusted, rightly |
| `RecoveryTheorems.FastPathOverEmptiedFile` | src/segment/log.rs:244-301 | over an emptied file a stale index entry is accepted with the wrong next offset |
| `Index.IndexEntryRoundTrip` | src/segment/index.rs:17-33 | an index entry reads back from its 8 bytes |
| `Index.IndexSurvivesTornWrite` | src/segment/index.rs:44-72 | opening an index file gives the entries written, ignoring a torn last one |
| `Index.IndexSegment.Append` | src/segment/index.rs:100-130 | an entry is added to memory and file alike; a position past 32 bits is refused |
| `Index.IndexSegment.FindNearest` | src/segment/index.rs:139-161 | the binary search returns the last entry at or before the target, or the first |
| `Index.IndexSegment.TruncateAfter` | src/segment/index.rs:165-174 | exactly the entries below the cutoff stay, in memory and file alike |
| `Index.IndexSegment.Rebuild` | src/segment/index.rs:177-189 | memory and file hold exactly the given entries |
| `Index.NearestIsUnique` | src/segment/index.rs:139-161 | in an ascending index only one entry is nearest |
| `Index.LookupAgrees` | src/segment/index.rs:139-161 | for every target, decoding forward from the entry found reaches what decoding from byte 0 reaches, even where the target's 32-bit relative offset wraps |
| `Index.RebuiltIndexIsRight` | src/segment/log.rs:350-375 | the index a recovery scan rebuilds is right, and every unindexed batch starts less than the interval after an indexed one |
| `Index.RecoveredLookupAgrees` | src/segment/index.rs:139-189 | end to end: recover an ordered log, look any target up in the rebuilt index |
| `Index.TruncatedIndexIsRight` | src/segment/index.rs:165-174 | cutting the log at a batch and the index at its offset agree |
| `Segment.SegmentPair.constructor` | src/segment/log.rs:303-435 | opening scans the file, keeps what it found, and rebuilds the index whatever the index file held |
| `Segment.SegmentPair.WriteBatch` | src/segment/manager.rs:528-549 | the batch is written, indexed if an entry is due, and the next offset moves past it; an entry past 32 bits is refused after the bytes are written |
| `Segment.SegmentPair.AppendBatch` | src/segment/manager.rs:513-550 | a producer's batch is stamped with the log's end and the leader's epoch, written and indexed |
| `Segment.SegmentPair.AppendVerbatim` | src/segment/manager.rs:558-601 | a leader's batch is skipped iff it is wholly present, refused as a gap iff it does not start at the end, and otherwise copied as it is |
| `Segment.StampCanAppend` | src/segment/manager.rs:513-524 | a stamped batch is one the segment can take |
| `Segment.ScanForward` | src/segment/manager.rs:700-729 | the decoding loop finds the first entry from a position that reaches the offset, or the end of the file |
| `Segment.SegmentPair.PhysicalPosForOffset` | src/segment/manager.rs:695-729 | where a truncation cuts, and at which offset the log then ends |
| `Segment.SegmentPair.TruncateAfter` | src/segment/manager.rs:678-687 | the log and its index are cut together |
| `Segment.LookupIsRight` | src/segment/manager.rs:695-729 | in any represented segment, for every offset, looking it up through the index gives the batch the list gives |
| `Segment.TruncateRepresents` | src/segment/manager.rs:678-687 | truncating leaves exactly the batches that end before the offset, with an index that is right for them |
| `Segment.StepRefines` | src/segment/manager.rs:513-550 | every append, truncation, crash inside an append, and reopening refines the same step on a list of batches |
| `Segment.RunRefines` | src/segment/manager.rs:513-729 | so does every run of them |
| `Segment.LookupAfterAnyRun` | src/segment/manager.rs:695-729 | after any run the index can be searched, and looking up any offset gives what the list gives |
| `Segment.LookupFromEmpty` | src/segment/manager.rs:513-729 | in particular from a new segment, with the real entry decoder |
| `Segment.AppendOnlyIndexIsRebuilt` | src/segment/manager.rs:528-541 | a segment that was only appended to has, entry for entry, the index that recovering it would rebuild, and it is dense |
| `Density.AppendStaysDenseIff` | src/segment/manager.rs:528-541 | in any represented segment that is dense, an append keeps it so iff the byte counter is due or the file ends within the interval of the last entry |
| `Density.RunStaysLoose` | src/segment/manager.rs:513-729 | over every run, every batch starts within the interval and a slack computed from the truncations and reopenings in it |
| `Density.ReopeningKeepsItClose` | src/segment/manager.rs:402-541 | over every run without truncation from a new segment, within twice the interval and the last batch before the last reopening |
| `Density.ReopeningThins` | src/segment/manager.rs:402-541 | reopening after one batch leaves the third more than the interval from the only entry: a run from a new segment |
| `Density.TruncationThinsWithoutBound` | src/segment/manager.rs:528-687 | truncating and appending again and again leaves any number of batches behind one entry: a run from a new segment |
| `Density.NoReachIsEnough` | src/segment/manager.rs:528-687 | so for every distance some run puts a batch further than that from any entry, as far as the 32-bit positions reach |
| `OffsetLog.FrameRoundTrip` | src/consumer_group.rs:32-263 | a commit frame reads back, whatever follows it |
| `OffsetLog.FrameIsCanonical` | src/consumer_group.rs:55-155 | a frame that reads back is byte for byte the frame of that commit |
| `OffsetLog.SumSeparates` | src/consumer_group.rs:348-362 | between strings of known length the summed bytes tell any two commits apart: every field is covered |
| `OffsetLog.StoredSumDecides` | src/consumer_group.rs:55-155 | a frame reads as its commit iff the stored number is the checksum of its fields, and otherwise as corrupt |
| `OffsetLog.DamagedFrameIsBad` | src/consumer_group.rs:55-362 | changing any field and keeping the stored sum reads as corrupt, for every checksum that tells the two apart |
| `OffsetLog.DamageIsCut` | src/consumer_group.rs:46-193 | a damaged commit anywhere in a log: what stands before it is replayed, it and all behind it is cut |
| `OffsetLog.FrameReadsBackIff` | src/consumer_group.rs:226-250 | a commit reads back iff its strings fit their 16-bit lengths |
| `OffsetLog.LongGroupIsMisread` | src/consumer_group.rs:226-250 | a group name of 2^16 bytes does not read back |
| `OffsetLog.TornFrameIsShort` | src/consumer_group.rs:55-155 | a frame cut short is neither a commit nor corruption |
| `OffsetLog.RecoverTable` | src/consumer_group.rs:46-184 | whatever sizes the reads return, recovery gives the replay of the whole file and where it stopped |
| `OffsetLog.ReplaySplits` | src/consumer_group.rs:46-184 | replay finds the split of any file into whole frames and a tail that no read accepts, last write winning |
| `OffsetLog.ConsumerGroupManager.constructor` | src/consumer_group.rs:32-193 | opening recovers the table and cuts the file to the last good byte |
| `OffsetLog.ConsumerGroupManager.CommitOffset` | src/consumer_group.rs:214-263 | a commit updates the table and appends its frame, and compacts once the file is over 1 MiB; if the write fails it is refused with the table already updated and part of the frame in the file |
| `OffsetLog.ConsumerGroupManager.CompactLog` | src/consumer_group.rs:265-329 | compaction writes one frame per entry, in whatever order the map yields them |
| `OffsetLog.CompactDenotes` | src/consumer_group.rs:265-329 | in any order of the keys, the compacted file replays to the same table |
| `OffsetLog.CrashIsForgotten` | src/consumer_group.rs:46-193 | a torn last append is dropped whole, and reopening changes nothing further |
| `OffsetLog.LastWriteWins` | src/consumer_group.rs:32-329 | after any run of commits, compactions, reopenings and crashes inside an append, the table holds the latest committed entry of every key and the file replays to exactly that table |
| `OffsetLog.OffsetsSurvive` | src/consumer_group.rs:32-329 | starting from any file whatsoever, what replaying the file gives after such a run is the latest committed entry of every key |
| `OffsetLog.RefusedIsDropped` | src/consumer_group.rs:32-263 | reopening drops a commit that failed part-way |
| `OffsetLog.RefusedIsCompacted` | src/consumer_group.rs:214-329 | compaction makes it durable after all |
| `OffsetLog.NothingAcknowledgedIsLost` | src/consumer_group.rs:32-329 | over runs in which commits may also be refused, memory and file each hold, for every key, the last acknowledged entry or one refused since |
| `OffsetLog.NothingIsLostFromAnyFile` | src/consumer_group.rs:32-329 | in particular in every run from opening any file |
| `OffsetLog.NeverStuck` | src/consumer_group.rs:32-329 | any log can be reopened, and then every commit that fits can succeed, fail at any byte or be torn |
| `OffsetLog.CommitSurvivesIff` | src/consumer_group.rs:214-263 | a commit is found again after reopening iff its strings fit |
| `OffsetLog.CommitBehindTornBytes` | src/consumer_group.rs:214-263 | for any bytes a failed append left: with none the commit behind is found; nothing of it is found iff the left bytes and its frame do not read as a commit together; and behind bytes already corrupt it is always lost |
| `OffsetLog.CommitBehindTornBytesIsLost` | src/consumer_group.rs:214-263 | in the real format one left byte is enough to lose every commit of ordinary length, in any log |
| `ShareAcks.CoalesceAcks` | src/share_consumer.rs:221-252 | the ranges expand to exactly the input, ascend, are disjoint and maximal, and the successor of a run's end never overflows |
| `ShareAcks.CoalescedIsMinimal` | src/share_consumer.rs:221-252 | no list of ranges, overlapping or not, says the same of every offset in fewer |
| `ShareAcks.CoalescedMeansTheSame` | src/share_consumer.rs:221-252 | the coalesced list itself says the same, so the bound is met |
| `ShareConsumer.Consumer.Visit` | src/share_consumer.rs:353-420 | a fetch carries what is staged and clears it only on success, and what it delivers becomes held |
| `ShareConsumer.Consumer.Poll` | src/share_consumer.rs:347-428 | one round in the order of the partitions rotated to the cursor, at most one visit each, asking for what is still missing, until enough is collected; it fails only if something was lost and nothing came back; the cursor moves on by one |
| `ShareConsumer.RoundReachesAll` | src/share_consumer.rs:353-361 | the places of one round are all the partitions, each once |
| `ShareConsumer.PartitionAt` | src/share_consumer.rs:357-358 | counting on from the cursor gives the rotated order |
| `ShareConsumer.RoundFollows` | src/share_consumer.rs:353-420 | visit by visit a round follows that order |
| `ShareConsumer.EachGoesFirst` | src/share_consumer.rs:357-420 | over as many polls as there are partitions each goes first once, and then it begins again |
| `ShareConsumer.RoundWithinMax` | src/share_consumer.rs:353-361 | if no answer exceeds what was asked for, no poll returns more than the maximum |
| `ShareConsumer.FlatAt` | src/share_consumer.rs:388-402 | record by record, an answer is delivered in order with the delivery count of its batch |
| `ShareConsumer.ResultsAt` | src/share_consumer.rs:388-402 | everything delivered is returned, in order, with the partition it came from |
| `ShareConsumer.HeldCount` | src/share_consumer.rs:388-402 | a lease in flight has the delivery count of its latest delivery |
| `ShareConsumer.LossyIff` | src/share_consumer.rs:404-428 | a round counts as failed iff some visit of it was lost |
| `ShareConsumer.Consumer.StageAck` | src/share_consumer.rs:470-493 | a resolution is staged iff the lease is in flight |
| `ShareConsumer.Consumer.FlushAcks` | src/share_consumer.rs:498-522 | what is staged is sent partition by partition and cleared only on success; it succeeds iff nothing is left |
| `ShareConsumer.PendingIsStaged` | src/share_consumer.rs:499-505 | what a flush sends is every partition with something staged, and there is none left iff nothing is staged |
| `ShareConsumer.Consumer.RenewLeases` | src/share_consumer.rs:532-552 | a renewal names exactly the offsets in flight and changes nothing |
| `ShareConsumer.Consumer.Leave` | src/share_consumer.rs:562-577 | everything in flight is handed back, then flushed |
| `ShareConsumer.Accounted` | src/share_consumer.rs:347-577 | over every run, what is in flight and what is staged, and as what, is what the history of deliveries, resolutions and requests says |
| `ShareConsumer.NeverBoth` | src/share_consumer.rs:347-577 | nothing is ever both in flight and staged |
| `ShareConsumer.LeaseConservation` | src/share_consumer.rs:347-577 | every delivered lease is in flight, staged, or was carried by a request that succeeded after its latest delivery |
| `ShareConsumer.FirstResolutionWins` | src/share_consumer.rs:470-577 | until it is delivered again, nothing, leaving included, changes how a lease was resolved |
| `Pipeline.InFlightWindow.constructor` | src/client.rs:60-68 | a window of zero is one of one |
| `Pipeline.InFlightWindow.TryPush` | src/client.rs:88-94 | an id is recorded iff the window is not full |
| `Pipeline.InFlightWindow.PopFront` | src/client.rs:98-100 | ids leave in the order they entered |
| `Pipeline.Connection.Write` | src/client.rs:444-451 | a request goes out, or the write fails and nothing does |
| `Pipeline.Connection.ReadResponse` | src/client.rs:366-386 | a response is accepted iff it arrives and echoes the expected id |
| `Pipeline.TopUp` | src/client.rs:444-452 | requests go out until the window is full, they run out or a write fails, and no push is turned away |
| `Pipeline.SendPipelined` | src/client.rs:427-462 | on the traffic of the connection: never more than max(1, max_in_flight) requests outstanding beyond those an earlier call abandoned, and as many as allowed whenever a response is taken; it ends with one response per request in order, or with the first failing write or reply |
| `Pipeline.SucceedsIff` | src/client.rs:427-462 | it succeeds iff every write goes through and every reply echoes the id in its place |
| `Pipeline.InOrderBrokerAnswersAll` | src/client.rs:427-462 | against an in-order broker the call returns exactly its answers |
| `Pipeline.ResponsesArePaired` | src/client.rs:35-46 | against a broker answering received requests in any order, a call that succeeds returns to every request its own answer |
| `Pipeline.CountedResponsesArePaired` | src/client.rs:35-110 | the same with ids off the wrapping counter |
| `Pipeline.StaleReplyIsNoticed` | src/client.rs:35-46 | a reply to a request an earlier call gave up on makes the call fail with the mismatch |
| `Pipeline.AcceptedMeansInOrder` | src/client.rs:35-46 | if ids are distinct within each window and every reply passes the check, a broker that answers received requests in an order of its own answered them in order |
| `Pipeline.CounterIsDistinct` | src/client.rs:106-110 | ids off the wrapping counter are distinct in every window while fewer than 2^32 are handed out, to anyone, as long as it is open |
| `Pipeline.OwnCounterStaysWithinOneLap` | src/client.rs:106-110 | a connection that has the counter to itself stays within a lap if its window does |
| `Relay.ReadTagSection` | src/protocol/wire.rs:483-518 | the tag loop reads the counted fields, later ones overriding earlier ones, or the first error |
| `Relay.StripEnvelope` | src/protocol/wire.rs:468-523 | a bare request is left alone; an envelope of any version comes off, leaving a suffix of the bytes and tags that can be written again, and wherever a broker accepts the request, the same tags but three |
| `Relay.DecodeEnvelope` | src/protocol/wire.rs:912-1003 | how a request was framed, by its first byte, and the suffix where it starts; versions other than 1 are refused; what it accepts a relay strips alike |
| `Relay.KeptIsUnderstood` | src/protocol/wire.rs:468-523 | the relay and the serving broker read the same bytes and differ exactly in three tags |
| `Relay.UnknownFieldsAreSkipped` | src/protocol/wire.rs:945-990 | fields with unknown tags change nothing, wherever they stand, for the relay and the broker |
| `Relay.LaterFieldsOverride` | src/protocol/wire.rs:945-990 | a later field overrides an earlier one of its kind and touches no other |
| `Relay.LongerValuesAreRead` | src/protocol/wire.rs:945-990 | a number may be followed by more bytes; a shorter value says nothing |
| `Relay.UnknownIsolationIsPermissive` | src/protocol/wire.rs:235-250 | an isolation byte other than 1 reads as the permissive level |
| `Relay.OtherVersionsAreRefused` | src/protocol/wire.rs:926-936 | the broker refuses every version but its own, and a relay forwards it by the same bytes |
| `Relay.RequestSettles` | src/protocol/wire.rs:905-1003 | a request arriving in pieces: once decoded or refused it stays so, and while incomplete the error names exactly how many bytes the next step lacks |
| `Relay.StripSettles` | src/protocol/wire.rs:468-523 | the same for the relay |
| `Relay.UnderstoodAsWritten` | src/protocol/wire.rs:380-436 | every tag written is read back, and the forwarded mark |
| `Relay.WriteTagSection` | src/protocol/wire.rs:391-431 | the fields of a rewrapped request and their count |
| `Relay.WrapForwardedRequest` | src/protocol/wire.rs:380-436 | the rewrapped request: a new envelope, the kept tags, the same inner bytes |
| `Relay.StrippedIsWritable` | src/protocol/wire.rs:404-431 | every tag a relay can have read can be written again without overflowing its length |
| `Relay.RelayKeepsMeaning` | src/protocol/wire.rs:380-436 | if a broker would accept a request, the rewrapped one decodes to the same request, marked as forwarded, with isolation, session timeout and member unchanged |
| `Relay.RelayKeepsAllTagsIff` | src/protocol/wire.rs:380-523 | all tags survive iff the maximum wait, the minimum bytes and the round-two mark were unset |
| `Relay.MaxWaitIsForgotten` | src/protocol/wire.rs:468-523 | a request that asks to wait is forwarded without the wait |
| `Relay.WrapTwice` | src/protocol/wire.rs:380-436 | wrapping twice is wrapping once |
| `Relay.RelayedAsAnsweredIff` | src/protocol/wire.rs:445-465 | a relayed response is the one the client would have got directly, in any framing, iff the leader was framed or the status is not 0xF1 |
| `Relay.BareMagicStatusIsStripped` | src/protocol/wire.rs:445-465 | a bare response with status 0xF1 reaches the client without its status and length |
| `Relay.RequestArrives` | src/client.rs:336-361 | what a client frames is what the broker decodes: the request, its id and its tags, whatever follows |
| `Relay.AnswerIsRead` | src/client.rs:366-386 | an answer in the framing of a request is read by whoever waits for its id and by nobody else |
| `Relay.IdIsEchoed` | src/protocol/wire.rs:445-465 | the id in an answer, direct or relayed, is byte for byte the id in the request |
| `Relay.BareAnswerIsRead` | src/protocol/wire.rs:2077-2086 | a bare request is answered bare |
| `Relay.RelayedRoundTrip` | src/protocol/wire.rs:380-465 | client to relay to leader and back: the leader decodes the request the client framed, and the client reads the leader's answer under the id it sent |

## Left out

- The term counter: `Election` gives a timeout no step at term 2^64 - 1, where the counter wraps and the claim is false (`Consensus.WrappedTermVotesTwice`).
- `force_candidate_state` in the controller: a testing trigger that campaigns without the loop.
- Log completeness of candidates and the cluster-id check of the vote handler: a voter may refuse for any reason, which only removes runs.
- Broker side of consumer groups: that every member finishes round one before round two is delivered is an assumption of the rollout machine.
- Segment rotation, compaction, retention, the time and transaction indexes, memory maps and zero-copy transmit: one segment is modelled, and appends that fit it.
- OffsetLog.NothingAcknowledgedIsLost: its runs write again only after a refused append was dropped by reopening or rewritten by compaction; `OffsetLog.CommitBehindTornBytes` says what happens otherwise.
- OffsetLog.LastWriteWins: compaction is one step; the code removes the log before renaming the new one over it with the lock released, so a crash or a commit in between is not covered.
- The size of a batch: `Sealed` batches have lengths that fit their 32-bit field, as the source's 64 MiB limits imply.
- Strength of CRC32, and the insides of LZ4 and Zstd: any checksum and any inverting codecs.
- Payload decoders of the single commands in `decode_framed`, the metadata and replication packet codecs: length-prefixed fields that would only add easy members.
- Share groups, transactions, partitions and replication on the broker side, configuration, TLS, SCRAM, and the command line.
