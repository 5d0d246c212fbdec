# A verified model of the match crawler

The crawler archives ranked matches for a cohort of players. This project models
the parts of it that keep state and proves what they promise:

- **Columnar codec** (`Wire`, `WireFormat`, `Schema`, `ProtoReader`, `ProtoProof`,
  `Columns`, `ColumnarSpec`, `ColumnarProof`, `ColumnarBlock`, `BlockLayout`,
  `DecodedRecords`, `Columnar`): a block of match records becomes byte streams and
  back to the exact protobuf bytes. The specification is the canonical encoding of
  the Protocol Buffers Encoding specification, sections "Base 128 Varints", "Signed
  Integers" and "Packed Repeated Fields": fields in tag order, defaults omitted,
  repeated scalars packed. `ProtoReader` reads them by the schema alone.
- **Store** (`StoreSpec`, `PlayerIds`, `Sightings`, `ProgressProof`,
  `ProgressExact`, `ProgressLimits`, `RetroExact`, `StoreRun`, `Restore`,
  `StoreAlways`, `StoreMeaning`, `ProgressWitness`, `Store`): player ids, cohort,
  timelines and sample progress, as a state machine with a crash between any two
  steps.
- **Segments** (`SegmentSpec`, `SegmentFormat`, `SegmentProof`, `SegmentLimits`,
  `SegmentRun`, `Recompact`, `Segment`): the block container, its three readers, its
  index, writer sessions with crashes, and crash-safe recompaction.
- **Fetch broker** (`BrokerSpec`, `BrokerProof`, `BrokerOnce`, `BrokerAudit`,
  `BrokerShutdown`, `BrokerReplies`, `BrokerWitness`, `BrokerDispatch`,
  `BrokerTurns`, `Broker`): leases, requeues and audit twins under arbitrary
  interleavings.
- **Rate limiter** (`LimiterSpec`, `LimiterProof`, `LimiterGrants`, `RateLimiter`).
- **Frontier and crawl loops** (`FrontierSpec`, `FrontierProof`, `FrontierStore`,
  `Reconcile`, `ReconcileWitness`, `Crawl`, `CrawlSteps`, `CrawlLoop`).
- **Leaderboard counters** (`StatsSpec`, `StatsProof`, `StatsWindows`, `NodeStats`).

Each part has a specification on values, proofs about it, and, where the source
updates objects in place, classes whose methods are proved to compute exactly what
the specification says. `Results` and `Sets` hold what several parts share.

Verify it with `dafny verify dfyconfig.toml`.

## What is assumed

- Compression: decompressing what was compressed gives it back, at any level
  (`SegmentSpec.Lawful`). For blocks too long for their header also that a proper
  beginning of compressed data decompresses to nothing, an empty one perhaps to no
  bytes (`SegmentLimits.Strict`); `SegmentLimits.StuffingIsStrict` shows a
  compression that meets both. Checksum, protobuf decoding and the JSON of match
  bodies are parameters; nothing is assumed of them unless a contract says so.
- The key-value store is a set of maps. A transaction is atomic; one that is not
  synced survives only if a later synced one follows. A rename is atomic, and a
  crash leaves a beginning of the bytes last appended.
- Storage and network calls succeed between crashes.
- Sample progress is exact for matches of ten distinct players, when a player stays
  on one platform and never starts two matches at once (`StoreRun.Compatible`).
  `ProgressLimits` and `RetroExact` say exactly what happens without the last two,
  and `ProgressWitness` gives three matches after which counts are wrong. Indices,
  totals, sightings, player ids and crash safety need neither (`StoreAlways`).
- The limiter's windows have a limit of at least 1; at 0 the source indexes past the
  end of the send list (`crates/node/src/ratelimit.rs:160`).
- Clocks, dice, dates, hash-map orders and draws of pacing gaps are arguments.

## Where the code and its comments differ

- `crates/server/src/broker.rs:81-86` states that every queue entry is unleased.
  `complete` also accepts reports for unleased jobs, so a late or repeated failure
  queues a job twice: `BrokerOnce.BadReportQueuesOnceIff` gives the exact condition,
  `BrokerProof` what holds regardless.
- `crates/server/src/broker.rs:10-14` has the twin run on a different node. A pair
  records the node the primary was first leased to, and a primary that is leased
  again elsewhere does not update it; only the recorded node is kept apart, and an
  unleased twin may be answered by anyone. `BrokerAudit.TwoNodesIff` says exactly
  when the two bodies come from two nodes, and `BrokerWitness.BothFromOneNode` is a
  run where they do not.
- `crates/server/src/broker.rs:410-412` has shutdown stop new fetches; a fetch
  between its shutdown test and the lock is still accepted, and waits until a node
  reports on it (`BrokerShutdown.WaitsAfterShutdownIff`).
- `crates/node/src/ratelimit.rs:102-111` replaces the windows but keeps only the
  sends the old ones counted: a longer window with a limit of at least 2 can then be
  exceeded (`LimiterProof.SwitchOvershootsIff`).
- `crates/server/src/storage.rs:1934-1937` infers a stranded player's platform by
  probing for the game id of the latest stored match; ids are unique only within a
  platform, so an earlier platform with the same id is taken instead
  (`Reconcile.HomeIsRightIff`, `ReconcileWitness.WrongHome`).
- The row writer truncates lengths to 32 bits and checks no limit, the readers
  refuse blocks over 256 MiB (`SegmentLimits.WrittenResolvesIff`).
- The writer that reopens a day's files cuts a torn segment but never the index, so
  the cut appends of a day's crashes add up. One cut inside an entry leaves an index
  that does not parse; two can make up the length again, and the index parses to
  entries nobody wrote (`SegmentLimits.CrashedParsesIff`,
  `SegmentRun.TwoCrashesParse`). A recompaction of an untorn segment replaces such
  an index unread; with a torn tail it is refused when the index does not parse or
  names a block at or past the tail (`Recompact.SucceedsIff`,
  `Recompact.CutIndexRun`).

## Model

| member | source | states |
|---|---|---|
| `Wire.VarintRoundTrip` | crates/server/src/columnar.rs:815-842 | every 64-bit value reads back from its varint, leaving exactly the bytes that followed it |
| `Wire.ReadVarintBound` | crates/server/src/columnar.rs:827-842 | whatever the bytes, a varint that reads is a 64-bit value: a tenth group above 1 is refused |
| `Wire.ZigzagInverse` | crates/server/src/columnar.rs:844-850 | zigzag and its inverse cancel both ways on all 64-bit values |
| `Columnar.WriteVarint` | crates/server/src/columnar.rs:815-825 | the loop appends exactly the base-128 varint |
| `Columnar.ReadVarintAt` | crates/server/src/columnar.rs:827-842 | the cursor loop accepts, refuses and advances exactly as the varint reader on the unread bytes |
| `ColumnarProof.IdsRoundTrip` | crates/server/src/columnar.rs:232-245 | schema, game id, platform, queue and start, the two numbers as deltas to the record before, decode to the same canonical bytes and block state |
| `ColumnarProof.MetaRoundTrip` | crates/server/src/columnar.rs:247-252 | duration, winner and game version decode from the columns to the same canonical bytes |
| `ColumnarProof.PartRoundTrip` | crates/server/src/columnar.rs:258-281 | one participant, with its dynamic stat and rune streams, decodes to its canonical bytes |
| `ColumnarProof.TimelineRoundTrip` | crates/server/src/columnar.rs:284-338 | frames, minute-to-minute series deltas and the three event lists decode to the canonical timeline bytes |
| `ColumnarProof.MaybeTimelineRoundTrip` | docs/columnar-recompaction.md:101-103 | an absent timeline and a present but empty one decode to different, each to its own, bytes |
| `ColumnarProof.BansCommute` | crates/server/src/columnar.rs:663-670 | reading the bans after the participants and the timeline yields the same record although they are written before them |
| `ColumnarProof.RecordRoundTrip` | crates/server/src/columnar.rs:570-673 | a whole record decodes to its canonical protobuf bytes and leaves the columns at the next record |
| `ColumnarProof.RecordsRoundTrip` | crates/server/src/columnar.rs:169-182 | records decode in order from one family of columns, each to its canonical bytes |
| `ColumnarBlock.PayloadRoundTrip` | crates/server/src/columnar.rs:340-378 | the manifest cuts a payload back into exactly the streams it was made of |
| `ColumnarBlock.BlockRoundTrip` | crates/server/src/columnar.rs:139-182 | for every list of records whose deltas fit in 64 bits, decoding the encoder's payload gives exactly their canonical bytes in order |
| `ColumnarBlock.DecodeConsumesAll` | crates/server/src/columnar.rs:546-567 | on any bytes at all: the streams of a block that decodes hold all its data bytes, its records leave none of them unread, and there are no more records than the payload has bytes |
| `DecodedRecords.DecodedIsCanonical` | crates/server/src/columnar.rs:570-673 | on any bytes at all: every record of a block that decodes is the canonical encoding of a record of the schema |
| `Columnar.ColReaders.Seek` | crates/server/src/columnar.rs:464-544 | a cursor never leaves its stream, and reads only ever shrink what is unread |
| `Columnar.EncodeRecord` | crates/server/src/columnar.rs:232-282 | the statements append to the columns exactly the values the record's specification lists |
| `Columnar.EncodeTimeline` | crates/server/src/columnar.rs:284-338 | the timeline loops append exactly the values of the timeline's specification |
| `Columnar.Cols.Wv` | crates/server/src/columnar.rs:205-211 | a varint is appended to one fixed stream and to no other |
| `Columnar.Cols.Wbytes` | crates/server/src/columnar.rs:213-215 | raw bytes are appended to one stream and to no other |
| `Columnar.Cols.WRune` | crates/server/src/columnar.rs:217-222 | a rune stream is opened on demand, and the value appended to it alone |
| `Columnar.Cols.WStat` | crates/server/src/columnar.rs:224-229 | a stat stream is opened on demand, and the zigzag value appended to it alone |
| `Columnar.EncodeParticipants` | crates/server/src/columnar.rs:259-275 | the loop writes every participant in order |
| `Columnar.EncodeFrames` | crates/server/src/columnar.rs:284-304 | the frame loop writes each minute and its series as deltas to the minute before |
| `Columnar.EncodePayload` | crates/server/src/columnar.rs:340-378 | header, stream lengths and streams are laid out as specified; a length that overflows is an error |
| `Columnar.DecodeRecord` | crates/server/src/columnar.rs:570-673 | the cursor code computes exactly the record decoder of the specification, failures included |
| `Columnar.DecodeTimeline` | crates/server/src/columnar.rs:675-778 | the count-driven loops compute the timeline decoder, on well-formed and malformed columns |
| `Columnar.DecodeParticipants` | crates/server/src/columnar.rs:609-650 | the count-driven loop decodes participants as specified, failing where it does |
| `Columnar.DecodeFrames` | crates/server/src/columnar.rs:675-712 | the frame loop decodes series against the minute before |
| `Columnar.DecodeEvents` | crates/server/src/columnar.rs:712-775 | an event list is its count and that many events with delta timestamps |
| `Columnar.ParseManifest` | crates/server/src/columnar.rs:388-461 | the parsing loop accepts exactly the payloads the specification parses, with the same streams |
| `Columnar.DecodePayload` | crates/server/src/columnar.rs:169-182 | the whole decoder equals its specification on any bytes |
| `Columnar.EncodableRoundTrip` | crates/server/src/columnar.rs:151-162 | records the encoder accepts come back byte for byte |
| `Columnar.EncodeBlock` | crates/server/src/columnar.rs:139-165 | the self-check never rejects canonical input: encoding succeeds if and only if each record is the canonical encoding of what the decoder makes of it (ProtoProof.RecordReads says what that encoding means), the deltas fit and the payload has a length |
| `ProtoProof.RecordReads` | crates/server/matchrecord.proto:16-30 | a protobuf reader that follows the schema file alone recovers every record from its canonical bytes |
| `ProtoProof.RecordSpells` | crates/server/src/record.rs:111-142 | a record's bytes are its fields by tag: tags never decrease, only participants repeat theirs, no scalar is zero, and no body but a message's is empty |
| `ProtoProof.ParticipantSpells` | crates/server/src/record.rs:144-164 | so are a participant's bytes, each tag once |
| `ProtoProof.TimelineSpells` | crates/server/src/record.rs:166-176 | so are a timeline's, with frames, kills, objectives and wards repeated in that order |
| `ProtoProof.FrameSpells` | crates/server/src/record.rs:178-192 | so are a minute's, each tag once |
| `ProtoProof.EventSpells` | crates/server/src/record.rs:195-266 | so are an event's, each tag once |
| `ProtoProof.PackedReads` | crates/server/matchrecord.proto:38-39 | packed numbers read back one by one, in order |
| `WireFormat.VarintReadsIff` | crates/server/src/columnar.rs:827-842 | bytes read as a varint if and only if a byte without continuation comes among the first ten, the tenth below 2; what is read is the number its seven-bit groups spell |
| `WireFormat.VarintIsMinimal` | crates/server/src/columnar.rs:815-825 | a number is written in as few bytes as spell it |
| `WireFormat.SignedNumbers` | crates/server/src/columnar.rs:844-850 | a zigzag number is twice the distance from zero, less one below it; a negative int64 is written as 2^64 more |
| `BlockLayout.BlockColumns` | crates/server/src/columnar.rs:33-82 | stream by stream, which values of which records each fixed, stat and rune stream holds, told from the records |
| `BlockLayout.PayloadLayout` | crates/server/src/columnar.rs:1-23 | the payload is "LCOL", 1, the three counts, every stream's length and every stream in order; there are as many stat and rune streams as the widest participant needs |
| `PlayerIds.AssignInOrder` | crates/server/src/storage.rs:1416-1443 | new players are numbered in the order they first appear, from the next free id on, without gaps |
| `PlayerIds.AssignKeeps` | crates/server/src/storage.rs:1416-1443 | known players keep their ids, each named player gets one, nobody else does, and no id names two players |
| `PlayerIds.AssignKnown` | crates/server/src/storage.rs:1509-1521 | assigning ids to players that have them changes nothing |
| `ProgressProof.CountsAgree` | crates/server/src/storage.rs:1553-1566 | counting timeline entries before a start is counting stored matches before it |
| `ProgressProof.RetroPlayerCounts` | crates/server/src/storage.rs:1586-1610 | the early break loses nothing: stopping at the first full slot leaves the same records as visiting every later match |
| `ProgressProof.RetroAllCounts` | crates/server/src/storage.rs:1586-1610 | the pass over all ten players adds one to exactly the slots of their later matches |
| `ProgressProof.CountsSettle` | crates/server/src/storage.rs:1573-1610 | after the pass every record is the count on the grown timelines |
| `ProgressExact.RetroAllTotal` | crates/server/src/storage.rs:1601-1604 | the pass reports exactly the matches it completes, all of its platform |
| `ProgressExact.Sighted` | crates/server/src/storage.rs:1528-1547 | a player joins the cohort exactly when outside it, in the match, seen often enough and growth is not paused; all others keep or raise their count by one |
| `ProgressExact.StoreStaysExact` | crates/server/src/storage.rs:1472-1616 | one transaction keeps every record equal to min(HISTORY_REQUIRED, earlier stored matches), the flag to all-full, the totals to the flagged matches and the sightings to the stored matches |
| `StoreMeaning.RecordMeans` | crates/server/src/storage.rs:1549-1571 | in exact tables a record holds each player's number of earlier stored matches, up to twenty, and is flagged if and only if all ten have twenty |
| `StoreMeaning.TotalMeans` | crates/server/src/storage.rs:1604-1613 | a platform's total is the number of its stored matches all of whose players have twenty earlier ones |
| `StoreMeaning.RunsAreTallied` | crates/server/src/storage.rs:1472-1613 | in every run, crashes included, exactly the matches stored and not lost in a crash have a record, remakes only a marker |
| `StoreMeaning.BitmapsAreExact` | crates/server/src/storage.rs:1447-1456 | in every run the live bitmap names exactly the games skipped or appended, the durable one those of the last finished commit |
| `StoreMeaning.AppendedIsHeld` | crates/server/src/storage.rs:2117-2138 | from the step that appends it on, a record is buffered or on disk until a crash |
| `StoreMeaning.CohortAddIs` | crates/server/src/storage.rs:1677-1706 | an enrolment adds exactly the players listed; nobody else joins or loses a sighting |
| `StoreMeaning.CohortIsExact` | crates/server/src/storage.rs:1528-1547 | in every run, crashes included, the cohort is exactly the players enrolled and those adopted with their second sighting, and every other count is the sightings so far |
| `ProgressExact.OrderDoesNotMatter` | crates/server/src/storage.rs:1549-1613 | the timelines, records and totals depend only on which matches are stored |
| `ProgressLimits.KeysStayExact` | crates/server/src/storage.rs:1573-1577 | with no assumption on the matches, the timelines hold exactly the starts of the stored matches |
| `ProgressLimits.CountExactIff` | crates/server/src/storage.rs:1553-1566 | a new match's count is right if and only if the player's earlier starts differ or enough of them do |
| `ProgressWitness.TwoAtOnceCountOnce` | crates/server/src/storage.rs:40 | three stored matches of ten: two of one player at the same start count as one in the third |
| `ProgressWitness.OverwrittenStaysBehind` | crates/server/src/storage.rs:1573-1577 | two matches at one start and an earlier one: only the match whose entry replaced the other's is counted up |
| `ProgressWitness.StrangerIsBumped` | crates/server/src/storage.rs:1583-1604 | two platforms hold one number: an earlier match counts for a stranger on the platform being stored and not for its player |
| `RetroExact.PassMovesBy` | crates/server/src/storage.rs:1578-1610 | for any tables, the pass moves each slot by the number of entries naming it before the first full one |
| `RetroExact.LaterCountIff` | crates/server/src/storage.rs:1578-1610 | a later match that was right stays right if and only if its slot was full or exactly one entry reached names it |
| `RetroExact.OwnEntryIff` | crates/server/src/storage.rs:1578-1610 | when no other entry carries its number and slot and nothing ends the pass before it, that is if and only if it was full, or it is on the platform being stored and its own entry names it |
| `RetroExact.StrangerMovesIff` | crates/server/src/storage.rs:1583-1604 | another player's slot moves if and only if an entry reached carries that match's number and slot, and such an entry came from another platform |
| `RetroExact.NobodyElseMovesIff` | crates/server/src/storage.rs:1583-1604 | nobody else's slot moves if and only if no entry reached carries a number and slot that are somebody else's here |
| `RetroExact.StoredCountIff` | crates/server/src/storage.rs:1549-1610 | over the whole transaction, for any stored matches: a right slot stays right if and only if it was full or the ten passes move it by exactly what the new match adds |
| `RetroExact.StoredOwnIff` | crates/server/src/storage.rs:1549-1610 | when no two matches carry one number and no count is too high, that is read off the tables before it: the slot was full, or the new match adds nothing, or the match is on its platform and the player's entry at its start names it |
| `StoreAlways.RunsNeverOver` | crates/server/src/storage.rs:1549-1610 | in every run of matches with ten different players whose numbers no two platforms share, no slot ever holds more than the true count, whatever the starts |
| `StoreRun.RunsAreSafe` | crates/server/src/storage.rs:1385-1410 | in every run with crashes anywhere: every id in a flushed record is bound in the durable table, and the durable bitmap names only flushed or given-up games |
| `StoreRun.FlushedForever` | crates/server/src/storage.rs:1302-1306 | flushed records are never lost and their players' bindings never change, through any later crash |
| `StoreRun.DurableInjective` | crates/server/src/storage.rs:1293-1306 | the durable table never gives two players one id, although a restart recomputes the next free one |
| `StoreRun.RunsAreExact` | crates/server/src/storage.rs:1472-1631 | in every run of compatible matches, with crashes anywhere, records and timelines, live and durable, are exact for the matches they hold; totals and sightings are so without that condition (the next two rows) |
| `StoreAlways.RunsInRange` | crates/server/src/storage.rs:1472-1616 | in every run, whatever the matches: no table holds an index out of range, and each platform's total is the number of its flagged matches |
| `StoreAlways.RunsCountSightings` | crates/server/src/storage.rs:1528-1547 | in every run of matches with ten different players, a player outside the cohort has been counted once for each stored match |
| `StoreAlways.RunsKeepEntries` | crates/server/src/storage.rs:1573-1577 | in the same runs the timeline entries are exactly the starts of the stored matches, each written by one of them |
| `StoreAlways.TxnEnabled` | crates/server/src/storage.rs:1593-1599 | in every run an idle store can take any match of ten players: no slot index is ever out of range |
| `StoreRun.CommitIsDurable` | crates/server/src/storage.rs:2110-2137 | a finished commit leaves nothing to lose: a crash right after it changes no table and no bitmap |
| `StoreRun.EnrolCounts` | crates/server/src/storage.rs:1677-1707 | enrolling players keeps every table exact and the cohort apart from the sighting counts |
| `Restore.RestoreChangesNothing` | crates/server/src/storage.rs:1485-1496 | storing again a match that has a record, with known players, changes no table; only its record is queued once more |
| `StoreAlways.RefetchCountsNothing` | crates/server/src/storage.rs:1485-1496 | once a match's record is durable, storing the match again at any later point of the run, crashes in between, changes nothing but ids for unknown players |
| `Restore.StoredIsGuarded` | crates/server/src/storage.rs:1523-1527 | storing a match, even a remake, leaves the record that guards it and its players' bindings |
| `Restore.CountedOnce` | crates/server/src/storage.rs:1485-1496 | once a match's record is durable it is in the live table ever after, crashes included |
| `Store.Store.constructor` | crates/server/src/storage.rs:1293-1350 | opening on what a run left is the crash step of the state machine: caches from the tables, the next id from the largest one |
| `Store.CountPredecessors` | crates/server/src/storage.rs:1556-1563 | the reverse scan with its break counts min(HISTORY_REQUIRED, earlier entries) |
| `Store.CountSlots` | crates/server/src/storage.rs:1553-1570 | the loop fills all ten counts and the flag as specified |
| `Store.Store.AssignPlayerIds` | crates/server/src/storage.rs:1416-1443 | the cache loop and the later table loop together are one assignment step |
| `Store.Store.AssignInTxn` | crates/server/src/storage.rs:1502-1518 | inside a match the caches and the player table grow together by the same assignment |
| `Store.Store.InsertTimelines` | crates/server/src/storage.rs:1573-1577 | the loop inserts the ten timeline entries of the match |
| `Store.Store.BumpAll` | crates/server/src/storage.rs:1586-1610 | the loop over players is the pass over all ten, and adds up the matches completed |
| `Store.Store.Count` | crates/server/src/storage.rs:1528-1616 | adoption, counts, timelines, the pass and the totals are the specified counting of a new match |
| `Store.Store.DurableCheckpoint` | crates/server/src/storage.rs:1393-1410 | after a checkpoint every player in a record still buffered or already flushed is bound durably, so that the buffers may go to disk |
| `Store.Store.FlushWriter` | crates/server/src/storage.rs:223-258 | a flush moves one buffer to disk in order, or leaves the segment alone when there is none |
| `Store.Store.Adopt` | crates/server/src/storage.rs:1528-1547 | the loop over caches and tables is the sighting of all ten players in order |
| `Store.Store.BumpLater` | crates/server/src/storage.rs:1586-1609 | the scan loop with its skip and its early stop is the retroactive pass of the specification |
| `Store.Store.Transact` | crates/server/src/storage.rs:1498-1616 | the transaction's branches and loops compute the specified tables, ids and adopted players |
| `Store.Store.StoreMatch` | crates/server/src/storage.rs:1472-1634 | a whole store_match is the transaction, the roll when due, and the append, in that order of steps |
| `Store.Store.Commit` | crates/server/src/storage.rs:2117-2137 | a commit is the checkpoint, a flush of every writer in some order, then the bitmaps |
| `Store.Store.CohortAddBatch` | crates/server/src/storage.rs:1677-1707 | the batch loops are one enrolment; the returned players are exactly those newly added |
| `SegmentFormat.FrameLayout` | crates/server/src/storage.rs:228-246 | byte by byte, a block is "1LSG" or "1COL", the checksum, the two lengths, and the compressed body |
| `SegmentFormat.RowLayout` | crates/server/src/storage.rs:209-216 | each row is its length in four bytes and its own bytes, after the rows before it |
| `SegmentFormat.EntryLayout` | crates/server/src/storage.rs:774-786 | an index entry is game id and block offset in eight bytes each and the record offset in four, least significant first |
| `SegmentFormat.ReadIff` | crates/server/src/storage.rs:509-599 | a block of either kind is read if and only if its frame is whole and within the limits, the bytes have the checksum stated, and they decompress to the length stated and decode; what is read is what they decode to |
| `SegmentFormat.RowsAreWhole` | crates/server/src/storage.rs:602-627 | on any bytes both row readers take every whole row from the start on; the strict one refuses the block if bytes are left |
| `SegmentFormat.CorruptIsRefused` | crates/server/src/storage.rs:553-555 | bytes that do not have the checksum stated are read by no reader, whatever the kind of block |
| `SegmentFormat.ChunksAre` | crates/server/src/storage.rs:398-402 | a rewrite cuts the records into blocks of 6000 in order, the last with what is left |
| `SegmentProof.RowsRoundTrip` | crates/server/src/storage.rs:602-627 | the row decoder finds every record at exactly the offset the row writer gave it |
| `SegmentProof.BlockReads` | crates/server/src/storage.rs:509-600 | a written block within the limits reads back its records and offsets, strictly and tolerantly |
| `SegmentLimits.OversizeUnread` | crates/server/src/storage.rs:541-572 | in a block over the size limit, of any size and however its lengths were truncated, no reader finds a record |
| `SegmentProof.TornStops` | crates/server/src/storage.rs:265-284 | no reader and no reopening writer takes a torn block for one |
| `SegmentProof.ReadersAgreeIff` | crates/server/src/storage.rs:265-301 | on complete blocks whose lengths fit the header, followed by any beginning of another, the reopening writer cuts after the last complete one; the readers end there too if and only if no block is over the limit, and then agree on every record (longer blocks: SegmentLimits.EndsAnySize) |
| `SegmentProof.EntriesResolve` | crates/server/src/storage.rs:306-328 | on any file at all, every entry of the strict layout resolves to its record and carries that record's game id |
| `SegmentProof.WrittenResolves` | crates/server/src/storage.rs:223-258 | a record resolves by the entry its writer made, row or columnar, torn tail or not |
| `SegmentLimits.WrittenResolvesIff` | crates/server/src/storage.rs:218-258 | it does if and only if its block is within the readers' limits, which the row writer does not check, for blocks of any size |
| `SegmentLimits.LargeRecordLost` | crates/server/src/storage.rs:209-258 | a record of zeros over the limit: its entry does not resolve, with a compression that meets every law assumed |
| `SegmentLimits.CrashedParsesIff` | crates/server/src/storage.rs:173-190 | after any number of index appends, each cut short by a crash or not, the file parses to exactly the entries left whole if and only if no append was cut inside an entry |
| `SegmentLimits.CrashedRefusedIff` | crates/server/src/storage.rs:749-753 | it does not parse at all if and only if the lengths left do not add up to whole entries |
| `SegmentLimits.TwoCutsParse` | crates/server/src/storage.rs:749-762 | two cuts that add up to an entry parse to one entry put together from both |
| `SegmentLimits.CrashedResolves` | crates/server/src/storage.rs:306-328 | when no append was cut inside an entry, every entry of the index resolves to a record of its game |
| `SegmentLimits.EndsAnySize` | crates/server/src/storage.rs:265-301 | for blocks of any size, with one over the limit: the readers end at it, unless its truncated header is an empty block's, and the reopening writer goes on as far behind its start as that header says |
| `SegmentLimits.ValidateTorn` | crates/server/src/storage.rs:265-284 | a beginning of a block of any size stops the reopening writer, unless it has as many bytes as the truncated header says |
| `SegmentRun.RunsAreLaid` | crates/server/src/storage.rs:166-258 | after any writer sessions with crashes anywhere in a flush: the segment is complete blocks and a beginning of one more, the index for each of them a beginning of its entries |
| `SegmentRun.SessionsIndex` | crates/server/src/storage.rs:166-258 | then readers find every record of every complete block; the index parses to the entries left whole, all resolving, if and only if no crash cut inside one, and is the exact one if and only if none cut an append |
| `SegmentRun.TwoCrashesParse` | crates/server/src/storage.rs:173-258 | two crashes of one day, 12 and 8 bytes into an index append, leave an index that parses to an entry neither session wrote |
| `SegmentProof.IdxRoundTrip` | crates/server/src/storage.rs:749-786 | an index file reads back the entries written to it |
| `SegmentProof.IdxParseUnique` | crates/server/src/storage.rs:749-762 | an index file that parses to some entries is byte for byte the file written for them |
| `Recompact.SucceedsIff` | crates/server/src/storage.rs:353-395 | a run succeeds if and only if the layout reads, a torn tail is not indexed, and every columnar block fits |
| `Recompact.RunKeepsRecords` | crates/server/src/storage.rs:353-438 | a successful run keeps every record in order, leaves no row block and no tail, and an index of exactly the entries |
| `Recompact.RunIndexResolves` | crates/server/src/storage.rs:397-410 | after a run every record is found through the index under its own game id |
| `Recompact.CrashKeepsRecords` | crates/server/src/storage.rs:418-423 | at every crash point the segment still holds the same records |
| `Recompact.CrashHeals` | crates/server/src/storage.rs:375-395 | from every crash point one later run ends with exactly the files the interrupted one was making |
| `Recompact.RunTwice` | crates/server/src/storage.rs:375-395 | a further run changes nothing |
| `Recompact.RunOnColumnar` | crates/server/src/storage.rs:725-731 | on an all-columnar segment any index whatever is replaced by the exact one, and a right one stays |
| `Recompact.CrashKeepsReads` | crates/server/src/storage.rs:288-301 | whoever reads a segment of written blocks at any crash point reads the same records |
| `Recompact.IndexOnlyGuards` | crates/server/src/storage.rs:353-395 | the index decides nothing but whether a torn tail may go: otherwise a run ends as with no index at all |
| `Recompact.CutIndexRun` | crates/server/src/storage.rs:682-711 | an index with cut appends is replaced in an untorn segment; with a torn tail the run is refused when the index does not parse, or parses to an entry at or past the tail |
| `Recompact.SplicedRefused` | crates/server/src/storage.rs:682-711 | the entry two cuts are read as lies past any torn tail below 4 GiB, and the run is refused |
| `Recompact.SwappedHealsIff` | crates/server/src/storage.rs:418-423 | had the new index reached the disk first, the next run ends with the same files if and only if no new block starts at or past the old torn tail |
| `Recompact.SwappedOneBlockHeals` | crates/server/src/storage.rs:418-423 | which is so for every segment of no more records than one columnar block takes |
| `Segment.DecodeRowBlock` | crates/server/src/storage.rs:602-627 | the cursor loop computes the row decoder, strict and tolerant |
| `Segment.ReadSegmentBlock` | crates/server/src/storage.rs:509-600 | the chain of checks decides exactly as the block specification |
| `Segment.ValidateSegment` | crates/server/src/storage.rs:266-284 | the scan finds the end of the last complete frame |
| `Segment.ReadSegmentRecords` | crates/server/src/storage.rs:288-301 | the tolerant loop yields the records up to the first unreadable block |
| `Segment.ReadSegmentLayout` | crates/server/src/storage.rs:451-507 | the strict loop computes the layout, its index entries and the torn tail |
| `Segment.ReadRecordAt` | crates/server/src/storage.rs:306-328 | row blocks are searched by offset and columnar blocks by ordinal |
| `Segment.ParseIdxEntries` | crates/server/src/storage.rs:749-762 | the chunk loop parses whole entries and refuses any other length |
| `Segment.EncodeIdx` | crates/server/src/storage.rs:774-786 | the loop writes the entries in the index format |
| `Segment.SegmentFiles.TailIsUnindexed` | crates/server/src/storage.rs:682-711 | a tail may be dropped exactly when the index is absent, or readable and pointing at nothing in it |
| `Segment.SegmentFiles.EnsureIdx` | crates/server/src/storage.rs:725-731 | an index with these entries is left alone, any other is replaced in one rename |
| `Segment.WriteColumnarBlock` | crates/server/src/storage.rs:633-662 | the encoder's payload, compressed, behind a header that holds both lengths, or an error when it cannot |
| `Segment.IndexColumnarBlock` | crates/server/src/storage.rs:402-409 | one entry for each record by its ordinal, under the game id decoded from it, or an error |
| `Segment.SegmentFiles.WriteColumnar` | crates/server/src/storage.rs:396-411 | the chunk loop writes the columnar blocks and their index entries, or fails |
| `Segment.SegmentWriter.Append` | crates/server/src/storage.rs:209-216 | the buffer stays the pending records as rows, each listed with its offset |
| `Segment.SegmentWriter.constructor` | crates/server/src/storage.rs:166-190 | opening cuts exactly the torn tail and starts with an empty buffer |
| `Segment.SegmentWriter.Flush` | crates/server/src/storage.rs:223-258 | a flush appends one row block and exactly its entries, or nothing |
| `SegmentProof.WriterIndexIsLayout` | crates/server/src/storage.rs:244-248 | the entries a flush writes are the ones a strict pass over the segment finds |
| `Segment.SegmentFiles.Recompact` | crates/server/src/storage.rs:342-439 | in place: success leaves the specified files, a refusal leaves both as they were, and every state in between is a crash point |
| `BrokerProof.RunsAreSafe` | crates/server/src/broker.rs:122-425 | every state any interleaving reaches satisfies the whole invariant |
| `BrokerProof.EveryFetchAnsweredOnce` | crates/server/src/broker.rs:122-150 | an accepted fetch is a live primary told nothing, or gone and told exactly one thing; an error only after MAX_ATTEMPTS counted failures or shutdown; which of these, and which body, is BrokerReplies.RunsAccount |
| `BrokerReplies.RunsAccount` | crates/server/src/broker.rs:246-337 | in every run a fetch is told a body if and only if an accepted report answered its job with that body, given up if and only if six failures were counted against it, and told of a shutdown if and only if it was live at one |
| `BrokerReplies.StepTells` | crates/server/src/broker.rs:235-337 | for any state and step: whether the step tells a waiting fetch, what, or how many failures it adds |
| `BrokerReplies.RunsAskTheirOwn` | crates/server/src/broker.rs:122-150 | in every run a live fetch asks what it was accepted for, and a twin and its audit what their primary's fetch asked |
| `BrokerProof.RepliesStay` | crates/server/src/broker.rs:246-298 | an accepted fetch stays accepted and what it was told stays told |
| `BrokerProof.EveryLiveJobWaits` | crates/server/src/broker.rs:306-321 | in all runs an unleased live job is queued under its own host with its own exclusion, and is short of MAX_ATTEMPTS |
| `BrokerProof.TwinsRunApart` | crates/server/src/broker.rs:163-228 | no twin is ever leased to the node its pair records as the primary's |
| `BrokerProof.PickSplits` | crates/server/src/broker.rs:170-182 | picking drops no entry and duplicates none |
| `BrokerOnce.DisciplinedRunsAreTidy` | crates/server/src/broker.rs:81-86 | when bad reports come only from lease holders, the exact queue and audit invariants hold in every reachable state |
| `BrokerOnce.QueuedExactly` | crates/server/src/broker.rs:81-86 | then a live job has exactly one queue entry when unleased and none when leased |
| `BrokerOnce.OneTwinEach` | crates/server/src/broker.rs:188-222 | then two live twins never share a primary |
| `BrokerOnce.NoAuditStrands` | crates/server/src/broker.rs:325-347 | then every audit missing a body has the live job that brings it; no live jobs, no audits |
| `BrokerOnce.BadReportQueuesOnceIff` | crates/server/src/broker.rs:280-294 | a failure or key rejection leaves the job queued once if and only if it was leased when the report came |
| `BrokerWitness.FailedTwiceQueuesTwice` | crates/server/src/broker.rs:280-318 | a fetch, a lease and two failures reported by its node leave two queue entries |
| `BrokerShutdown.ShutdownTellsForever` | crates/server/src/broker.rs:413-420 | everyone waiting at a shutdown is told so, and nothing else ever after |
| `BrokerShutdown.WaitsAfterShutdownIff` | crates/server/src/broker.rs:122-150 | after a shutdown a fetch waits if and only if it was accepted after it and its job is still live |
| `BrokerShutdown.AllAnsweredIff` | crates/server/src/broker.rs:410-425 | after a shutdown all accepted fetches are answered if and only if those accepted since are; if none followed, nobody waits |
| `BrokerShutdown.LateFetchAnswered` | crates/server/src/broker.rs:122-150 | a fetch accepted after the shutdown waits until a node reports on it, and is then answered |
| `BrokerAudit.RunsAreTrailed` | crates/server/src/broker.rs:246-275 | in every run the bodies of an open audit are the answers given for its jobs, and the node it records for the primary has held that and never the twin |
| `BrokerAudit.ClosesIff` | crates/server/src/broker.rs:339-347 | an answer closes an audit if and only if it brings the second body |
| `BrokerAudit.TwoNodesIff` | crates/server/src/broker.rs:10-14 | the two bodies of a closing audit come from two nodes if and only if the closing reporter is not the node that supplied the first |
| `BrokerAudit.LeasedTwinDiffers` | crates/server/src/broker.rs:183-224 | a twin answered under lease was not answered by the recorded node, so the nodes differ whenever that node answered the primary |
| `BrokerAudit.NeverReleasedDiffers` | crates/server/src/broker.rs:183-224 | they differ when both were answered under lease and nobody but the recorded node ever held the primary |
| `BrokerWitness.BothFromOneNode` | crates/server/src/broker.rs:183-275 | a run whose audit closes with two bodies from node 2 while it records node 1 for the primary |
| `BrokerTurns.PickPlaces` | crates/server/src/broker.rs:169-181 | an entry is picked if and only if it is open to the node and fewer than the room are before it; picked and kept entries keep their order |
| `BrokerTurns.DispatchIsGreedy` | crates/server/src/broker.rs:163-199 | a dispatch hands out exactly the live jobs of the first open entries of every queue up to the room of eight, and with room left every entry left is closed to the node |
| `BrokerTurns.DispatchAudits` | crates/server/src/broker.rs:193-230 | a job has a new twin after a dispatch if and only if the dice named one of its handouts, it could be audited and it had none; the twin, its audit and its queue entry are as specified |
| `BrokerTurns.DispatchLeasesFor` | crates/server/src/broker.rs:183-192 | what is handed out is leased for 150 seconds, and no other lease changes |
| `BrokerTurns.FetchGoesLast` | crates/server/src/broker.rs:122-150 | a fetch queues its job last on its own host and nowhere else |
| `BrokerTurns.PutBackGoesLast` | crates/server/src/broker.rs:279-323 | a job put back is free, otherwise unchanged, and last on its own host |
| `BrokerTurns.SweepKeeps` | crates/server/src/broker.rs:377-407 | a sweep leaves a waiting fetch alone whose lease has not run out |
| `BrokerTurns.SweepKeepsTwin` | crates/server/src/broker.rs:377-407 | a sweep drops a twin only when nobody took it in time, its failures are used up, or its primary is given up |
| `BrokerDispatch.DispatchLeases` | crates/server/src/broker.rs:183-199 | after a dispatch the node holds the lease of everything it was handed, each with its own request, and no other lease has changed |
| `BrokerDispatch.DispatchWithinTarget` | crates/server/src/broker.rs:163-169 | a dispatch never hands a node more jobs of a host than the in-flight target leaves room for |
| `BrokerDispatch.SweepClears` | crates/server/src/broker.rs:377-408 | after a sweep no lease is past its time, every other lease is untouched, and no unserved twin is past its own time |
| `Broker.PickJobs` | crates/server/src/broker.rs:170-182 | the index-and-remove loop picks the first entries open to the node, up to its room, and keeps the others in order |
| `Broker.Broker.Fetch` | crates/server/src/broker.rs:122-150 | a fetch is accepted and queued, or refused untouched after shutdown |
| `Broker.Broker.TakeJobs` | crates/server/src/broker.rs:155-230 | a dispatch visits every queue, leases what it picked and makes the twins, as specified |
| `Broker.Broker.LeasePicked` | crates/server/src/broker.rs:183-199 | the loop leases what was picked, skips jobs that are gone and notes which to audit |
| `Broker.Broker.MakeTwin` | crates/server/src/broker.rs:202-229 | a twin is made, linked, queued for others and its audit opened |
| `Broker.Broker.Finish` | crates/server/src/broker.rs:246-278 | a body answers its fetch (with that body: BrokerReplies.StepTells) and fills its half of the audit |
| `Broker.Broker.FinishAuditIfReady` | crates/server/src/broker.rs:339-347 | an audit closes exactly when both bodies are there |
| `Broker.Broker.Report` | crates/server/src/broker.rs:235-298 | stale reports change nothing; the others complete, requeue or give up as specified |
| `Broker.Broker.Release` | crates/server/src/broker.rs:306-321 | a release clears the lease, counts the attempt and requeues or abandons |
| `Broker.Broker.Abandon` | crates/server/src/broker.rs:325-337 | giving up answers the fetch and tears down the audit |
| `Broker.Broker.Sweep` | crates/server/src/broker.rs:377-408 | a sweep releases every expired lease once and then drops unserved twins |
| `Broker.Broker.Shutdown` | crates/server/src/broker.rs:413-425 | shutdown answers every waiting fetch and empties the broker |
| `LimiterProof.GrantIsAllowed` | crates/node/src/ratelimit.rs:139-166 | a grant leaves room in each window, counted over all sends ever granted, for windows no larger than pruning has kept; no deadline set is still ahead |
| `LimiterProof.NeverOverLimit` | crates/node/src/ratelimit.rs:114-191 | with fixed windows, no window anywhere on the time line holds more than its limit of all sends granted, in any interleaving |
| `LimiterProof.NeverBeforeDeadline` | crates/node/src/ratelimit.rs:121-127 | no send is granted before a deadline set earlier |
| `LimiterProof.PacedApart` | crates/node/src/ratelimit.rs:130-137 | two paced grants, whatever comes between them, are at least the first one's gap apart; that no more is asked is LimiterGrants.GrantedIff |
| `LimiterGrants.GrantedIff` | crates/node/src/ratelimit.rs:115-185 | in any run a request is granted if and only if no deadline that was set is ahead, the last paced grant is at least its own gap old, and every window in force has fewer recent grants than its limit, given that pruning has kept what the widest window needs |
| `LimiterGrants.FixedGrantedIff` | crates/node/src/ratelimit.rs:115-185 | with windows that never change that holds of every request |
| `LimiterGrants.RefusalWaits` | crates/node/src/ratelimit.rs:115-165 | a refusal waits exactly to the latest deadline set; else to the last paced grant and its gap; else to the least time from which every window has room |
| `LimiterGrants.RunInForce` | crates/node/src/ratelimit.rs:102-111 | the windows in force are the last ones adopted, an empty list being ignored |
| `LimiterGrants.PruneForgets` | crates/node/src/ratelimit.rs:139-147 | pruning keeps no send that is past every window, and forgets none that is not |
| `LimiterProof.WaitIsLeast` | crates/node/src/ratelimit.rs:148-165 | the wait is the least delay after which all windows admit a send, also just after windows were tightened |
| `LimiterProof.RoomIff` | crates/node/src/ratelimit.rs:139-166 | a grant leaves no room in a window if and only if some stretch of its length around the grant holds more than its limit |
| `LimiterProof.SwitchOvershootsIff` | crates/node/src/ratelimit.rs:102-111 | switching from one window to another, some schedule is granted more than the new limit within the new length if and only if the new one is longer and its limit at least 2 |
| `RateLimiter.RateLimiter.TryAcquire` | crates/node/src/ratelimit.rs:115-185 | one turn of the loop under the lock is the specified attempt, whose grants and waits LimiterGrants.GrantedIff and RefusalWaits determine |
| `RateLimiter.RateLimiter.PruneSent` | crates/node/src/ratelimit.rs:139-148 | the pruning loop forgets exactly the leading sends past every window |
| `RateLimiter.RateLimiter.LongestWait` | crates/node/src/ratelimit.rs:149-165 | the loop over windows, each counted from the newest send, computes the longest wait |
| `RateLimiter.RateLimiter.CountInWindow` | crates/node/src/ratelimit.rs:150-157 | the count from the newest send back is the number inside the window |
| `RateLimiter.RateLimiter.UpdateSpecs` | crates/node/src/ratelimit.rs:101-111 | an empty list changes nothing, any other replaces the windows |
| `RateLimiter.RateLimiter.SetCooldown` | crates/node/src/ratelimit.rs:197-204 | a cooldown only ever moves the deadline later |
| `FrontierProof.PushMatched` | crates/server/src/storage.rs:1787-1816 | a push keeps the two tables matched, queues the player in the better bucket and touches nobody else |
| `FrontierProof.PushAllMatched` | crates/server/src/storage.rs:1859-1894 | a batch queues everyone in it, at least as urgently as asked, loses nobody and delays nobody |
| `FrontierProof.PopTakesLeast` | crates/server/src/storage.rs:1822-1856 | a pop takes the least (bucket, due, player) entry due, from both tables |
| `FrontierProof.PopFindsIff` | crates/server/src/storage.rs:1916-1930 | a pop finds nothing if and only if the next due time is absent or still to come |
| `FrontierProof.NextDueIsEarliest` | crates/server/src/storage.rs:1916-1930 | the next due time is the earliest due of the platform |
| `FrontierProof.PopThenPush` | crates/server/src/storage.rs:1787-1856 | pushing back what was popped restores both tables |
| `FrontierProof.ResetMoves` | crates/server/src/storage.rs:2009-2043 | a backfill reset moves every queued cohort member to now as a deep visit, leaves all others, queues and loses nobody, in whatever order |
| `FrontierStore.FrontierTables.FrontierPush` | crates/server/src/storage.rs:1787-1816 | the push transaction in place, tables kept matched |
| `FrontierStore.FrontierTables.FrontierPushBatch` | crates/server/src/storage.rs:1859-1894 | the batch loop is the pushes in order |
| `FrontierStore.FrontierTables.FrontierPopDue` | crates/server/src/storage.rs:1822-1856 | the two range scans and removals are the specified pop |
| `FrontierStore.FrontierTables.FrontierNextDue` | crates/server/src/storage.rs:1916-1930 | the minimum over the two buckets' first entries |
| `FrontierStore.FrontierTables.Collect` | crates/server/src/storage.rs:2010-2024 | the snapshot lists each queued cohort member of the priority bucket once |
| `FrontierStore.FrontierTables.FrontierBackfillReset` | crates/server/src/storage.rs:2009-2043 | the snapshot and the rewriting loop are the specified reset |
| `Reconcile.LastGameIsNewest` | crates/server/src/storage.rs:1969-1980 | the game probed for is that of the entry with the greatest start; there is none only without entries |
| `Reconcile.HomeIsRightIff` | crates/server/src/storage.rs:1969-1996 | a stranded member is requeued on the platform it plays on if and only if no platform probed earlier has a record with the same game id |
| `Reconcile.HomeExists` | crates/server/src/storage.rs:1969-1996 | whatever is stored, a player with a stored match has a home if all platforms it has matches on are enabled |
| `Reconcile.NobodyStaysStranded` | crates/server/src/storage.rs:1932-1937 | after the pass every member with a known puuid and a stored match on an enabled platform is queued |
| `ReconcileWitness.WrongHome` | crates/server/src/storage.rs:1969-1996 | two platforms hold a match of one number: a player whose only match is on the second is sent to the first |
| `Reconcile.LastGameOf` | crates/server/src/storage.rs:1970-1978 | the scan for a player's newest timeline entry finds its game |
| `Reconcile.FindPlatform` | crates/server/src/storage.rs:1982-1989 | the loop finds the first enabled platform with a record of the game |
| `Reconcile.BatchStranded` | crates/server/src/storage.rs:1938-1996 | the loop collects exactly the stranded members that have a home, each once, in a batch for its platform |
| `Reconcile.FrontierReconcile` | crates/server/src/storage.rs:1938-2003 | pushing the batches, in any order of platforms, queues exactly those members, now and never visited, and changes nobody else |
| `CrawlSteps.CohortIsExact` | crates/server/src/crawler.rs:215-238 | in every run the cohort is exactly the players enrolled and those adopted with their second sighting, and everybody else's count is how often stored matches have named him |
| `CrawlSteps.EnrollsListed` | crates/server/src/crawler.rs:215-238 | after an enrolment every listed player is in the cohort, no outsider, and queued: where he was in the priority bucket, else now |
| `CrawlSteps.EnrollsNobodyElse` | crates/server/src/crawler.rs:215-238 | an enrolment touches no player it does not list |
| `CrawlSteps.PopStartsVisit` | crates/server/src/crawler.rs:109-114 | the visit that starts is of the player popped, who alone leaves the frontier |
| `CrawlSteps.CheckDecides` | crates/server/src/crawler.rs:115-125 | a visit goes on if and only if its player is in the cohort |
| `CrawlSteps.RescheduleQueues` | crates/server/src/crawler.rs:128-140 | a visit ends with its player queued at the time given under his puuid, unless queued meanwhile; nobody else moves |
| `CrawlSteps.StoreQueues` | crates/server/src/crawler.rs:541-559 | a stored match queues, for a first visit under the puuid beside his id, exactly whom it brings into the cohort |
| `Crawl.NobodyIsLost` | crates/server/src/crawler.rs:109-141 | at every step of every interleaving of regions, enrolments and adoptions, each cohort member is queued or being visited |
| `Crawl.AdoptedAreNew` | crates/server/src/storage.rs:1528-1547 | whoever a match brings into the cohort is on its list of adopted players |
| `Crawl.NameBeside` | crates/server/src/crawler.rs:549-557 | the items to queue are the adopted players in order, each under the puuid beside its id in the match |
| `CrawlLoop.SharedStore.PopDue` | crates/server/src/crawler.rs:109-112 | a region takes its next player, who stays accounted for |
| `CrawlLoop.SharedStore.CheckMember` | crates/server/src/crawler.rs:115-125 | only players outside the cohort are dropped |
| `CrawlLoop.SharedStore.Reschedule` | crates/server/src/crawler.rs:128-140 | a visit that fails puts the player back |
| `CrawlLoop.SharedStore.Enroll` | crates/server/src/crawler.rs:215-238 | an enrolment adds its players to the cohort and queues them under one lock, as CrawlSteps.EnrollsListed says player by player |
| `CrawlLoop.SharedStore.Sightings` | crates/server/src/storage.rs:1528-1547 | the loop counts the sightings as specified and lists who is adopted with the puuid beside the id |
| `CrawlLoop.SharedStore.StoreMatch` | crates/server/src/crawler.rs:541-559 | everyone a match adopts is queued under the same lock, one after the other |
| `StatsProof.AdvanceExact` | crates/server/src/stats.rs:59-68 | moving the ring head keeps every slot the count of its newest minute, however far it moves |
| `StatsProof.RecordExact` | crates/server/src/stats.rs:122-136 | recording at a clock that has not gone back keeps ring, hours and total exact, pruning included |
| `StatsProof.SnapshotExact` | crates/server/src/stats.rs:138-153 | the four windows of a snapshot are the buckets of the event log, whose numbers StatsWindows.SnapshotCounts gives |
| `StatsWindows.SnapshotCounts` | crates/server/src/stats.rs:138-153 | each window's requests are the number of logged requests in it, told from their times in milliseconds, and its matches the number of those that brought one |
| `StatsWindows.StoriesCount` | crates/server/src/stats.rs:106-153 | the same through any history of requests, flushes and restarts, counted from the history itself |
| `StatsWindows.MemoryIsBounded` | crates/server/src/stats.rs:131-135 | at most 170 hours stay in memory, and none is dropped that is younger |
| `StatsProof.FlushCompleteIff` | crates/server/src/stats.rs:156-167 | a flush puts the whole history on disk if and only if no dirty hour was pruned before it |
| `StatsProof.LoadExact` | crates/server/src/stats.rs:106-118 | loading restores the totals and every hour window |
| `StatsProof.StoriesAreExact` | crates/server/src/stats.rs:106-167 | through any history of events, flushes and restarts every window and total is the count of the log |
| `NodeStats.NodeStats.Count` | crates/server/src/stats.rs:122-136 | the in-place update of ring, hours, dirty set and total is the specified one; what it then counts is StatsWindows.StoriesCount |
| `NodeStats.NodeStats.MoveHead` | crates/server/src/stats.rs:59-68 | the loop zeroes exactly the slots skipped over |
| `NodeStats.NodeStats.Snapshot` | crates/server/src/stats.rs:138-153 | a snapshot moves the head and reads the four windows |
| `NodeStats.NodeStats.HoursSince` | crates/server/src/stats.rs:79-86 | the window sum, in any order of the hours |
| `NodeStats.NodeStats.WindowM60` | crates/server/src/stats.rs:70-76 | the loop sums the ring |
| `NodeStats.NodeStats.BumpHour` | crates/server/src/stats.rs:128-135 | the hour is counted, marked dirty, and old hours are pruned past the limit |
| `NodeStats.NodeStats.TakeDirty` | crates/server/src/stats.rs:156-167 | the drained rows are exactly the dirty hours still in memory |
| `NodeStats.NodeStats.Load` | crates/server/src/stats.rs:106-118 | the rows rebuild the counters as specified |

## Left out

- Legacy matches: progress records without slot counts other than a remake's marker, and lists of other than ten players.
- Rank snapshots, node registry, invites, metrics, meta cursors, the overdue count and the brake's hysteresis: growth being paused is an argument.
- Raw-sample dictionary training and recompression: dominated by the compressor's behaviour.
- JSON parsing of match bodies; the message types and tags are those of the schema file.
- HTTP handlers, clients and executors, desktop application, configuration and command line.
- Text of error messages, counts in recompaction outcomes, and log output.
- How the pacing gap and the revisit interval are computed: any gap, any due time.
- Audit verdicts reported to the registry: the model closes an audit when both bodies are there and does not compare them.
- Timeline keys and ids are unbounded numbers: running out of 32-bit player ids or 64-bit times is not modelled.
- Regions that are not enabled: the store reloads bitmaps and totals of every platform.
- Directory syncs: the crash points have the two renames of a recompaction reach the disk in the order they are made; the other order is `Recompact.SwappedHealsIff`.
- Broker.Broker.Shutdown: asks that every waiting primary is an accepted fetch, which holds in every reachable state (BrokerProof.EveryFetchAnsweredOnce).
- LimiterGrants.GrantedIff: asks that no window in force is longer than one pruned by before, as it always is while windows do not change (LimiterGrants.FixedGrantedIff); after a switch to a longer one forgotten sends no longer count (LimiterProof.SwitchOvershootsIff).
- NodeStats.NodeStats.Load: models the rows of one node; the source's map over nodes is one such object each, and hours are indices rather than start times.
- StoreRun.RunsAreExact: the seen bitmaps are one set of (platform, game) pairs, and a segment is the sequence of its records.
- Crawl.NobodyIsLost: from an empty store without crashes; a crash loses the visits in progress until the startup pass (Reconcile.NobodyStaysStranded) or an enrolment queues the players again.
